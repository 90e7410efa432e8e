// start_process_thread (kernel_threads.c, line 20) calls sys_ThreadExit outside a
// system call: what becomes of the kernel lock.
module StrayExit {
  import opened Sched
  import opened SchedInv
  import opened SchedRuns
  import opened CondVar
  import opened KernelSem

  ghost predicate KReached(k: K) {
    exists ks, acts {:trigger IsKRun(ks, acts)} :: IsKRun(ks, acts) && ks[|acts|] == k
  }

  lemma KReachedShape(k: K)
    requires KReached(k)
    ensures KShape(k)
  {
    var ks, acts :| IsKRun(ks, acts) && ks[|acts|] == k;
    KRunShape(ks, acts, |acts|);
  }

  lemma ExtendKRun(ks: seq<K>, acts: seq<KStep>, a: KStep, k': K)
    requires IsKRun(ks, acts) && KEnabled(ks[|acts|], a)
    requires CvInv(ks[|acts|].cv) ==> k' == KApply(ks[|acts|], a)
    ensures IsKRun(ks + [k'], acts + [a])
  {
    var ks', acts' := ks + [k'], acts + [a];
    assert forall i :: 0 <= i <= |acts| ==> ks'[i] == ks[i];
    assert forall i :: 0 <= i < |acts| ==> acts'[i] == acts[i];
    assert ks'[|acts|] == ks[|acts|] && acts'[|acts|] == a && ks'[|acts| + 1] == k';
  }

  lemma KReachedStep(k: K, a: KStep)
    requires KReached(k) && KShape(k) && KEnabled(k, a)
    ensures KReached(KApply(k, a)) && KShape(KApply(k, a))
  {
    var ks, acts :| IsKRun(ks, acts) && ks[|acts|] == k;
    ExtendKRun(ks, acts, a, KApply(k, a));
    assert (ks + [KApply(k, a)])[|acts + [a]|] == KApply(k, a);
    KStepShape(k, a);
  }

  // The thread of core c has nothing to do with the kernel lock and is in no wait.
  ghost predicate Outside(k: K, c: nat) {
    Acting(k.cv.s, c) && Actor(k.cv, c) !in k.pc && Actor(k.cv, c) !in k.cv.frame
  }

  // u has the kernel lock, nobody has kernel_mutex or waits for the lock, and
  // two other threads execute on cores c and d.
  ghost predicate Calm(k: K, u: Tid, c: nat, d: nat) {
    && KShape(k) && k.sem == 0 && u in k.pc && k.pc[u] == Holder
    && KM !in k.cv.mutex && SEM !in k.cv.wlock && Ring(k.cv, SEM) == []
    && Outside(k, c) && Outside(k, d) && Actor(k.cv, c) != Actor(k.cv, d)
  }

  ghost predicate StepTo(k: K, a: KStep, k': K) {
    KShape(k) && KEnabled(k, a) && k' == KApply(k, a)
  }

  lemma ReachedTo(k: K, a: KStep, k': K)
    requires KReached(k) && StepTo(k, a, k')
    ensures KReached(k')
  {
    KReachedStep(k, a);
  }

  // The five steps, one by one.
  lemma BeginAlone(k: K, c: nat)
    requires KShape(k) && Outside(k, c) && KM !in k.cv.mutex
    ensures KEnabled(k, BeginStray(c)) && KShape(KApply(k, BeginStray(c)))
    ensures var t := Actor(k.cv, c);
      KApply(k, BeginStray(c)) == K(k.cv.(mutex := k.cv.mutex[KM := t]), k.sem, k.pc[t := Stray])
  {
    KStepShape(k, BeginStray(c));
  }

  lemma RaiseAlone(k: K, c: nat)
    requires KShape(k) && At(k, c, Stray) && SEM !in k.cv.wlock && Ring(k.cv, SEM) == []
    ensures KEnabled(k, RaiseStray(c)) && KShape(KApply(k, RaiseStray(c)))
    ensures KApply(k, RaiseStray(c)) == K(k.cv, k.sem + 1, k.pc[Actor(k.cv, c) := Raised])
  {
    assert PcOk(k, Actor(k.cv, c));
    KStepShape(k, RaiseStray(c));
  }

  lemma LeaveAlone(k: K, c: nat)
    requires KShape(k) && At(k, c, Raised)
    ensures Actor(k.cv, c) in k.cv.s.tcb && TimeoutsListed(k.cv.s)
    ensures KEnabled(k, Exit(c)) && KShape(KApply(k, Exit(c)))
    ensures KApply(k, Exit(c)) == K(k.cv.(s := Sleep(k.cv.s, c, EXITED, NO_TIMEOUT, 0), mutex := k.cv.mutex - {KM}),
                                    k.sem, k.pc - {Actor(k.cv, c)})
  {
    assert PcOk(k, Actor(k.cv, c));
    NobodyNoticesExit(k.cv, c);
    KStepShape(k, Exit(c));
  }

  lemma EnterAlone(k: K, d: nat)
    requires KShape(k) && Outside(k, d) && KM !in k.cv.mutex
    ensures KEnabled(k, Enter(d)) && KShape(KApply(k, Enter(d)))
    ensures var v := Actor(k.cv, d);
      KApply(k, Enter(d)) == K(k.cv.(mutex := k.cv.mutex[KM := v]), k.sem, k.pc[v := Check])
  {
    KStepShape(k, Enter(d));
  }

  lemma PassAlone(k: K, d: nat)
    requires KShape(k) && At(k, d, Check) && k.sem > 0
    ensures KEnabled(k, Pass(d)) && KShape(KApply(k, Pass(d)))
    ensures KApply(k, Pass(d)) == K(k.cv.(mutex := k.cv.mutex - {KM}), k.sem - 1, k.pc[Actor(k.cv, d) := Holder])
  {
    assert PcOk(k, Actor(k.cv, d));
    KStepShape(k, Pass(d));
  }

  // The exit of one thread leaves the others where they are.
  lemma OthersStay(s: State, c: nat, d: nat)
    requires Inv(s) && Acting(s, c) && Acting(s, d) && s.core[c].current != s.core[d].current && TimeoutsListed(s)
    ensures var s' := Sleep(s, c, EXITED, NO_TIMEOUT, 0);
      Acting(s', d) && s'.core[d] == s.core[d]
  {
  }

  // The thread of core c leaves by start_process_thread,
  lemma StrayLeaves(k: K, u: Tid, c: nat, d: nat) returns (k1: K, k2: K, k3: K)
    requires Calm(k, u, c, d)
    ensures StepTo(k, BeginStray(c), k1) && StepTo(k1, RaiseStray(c), k2) && StepTo(k2, Exit(c), k3)
    ensures KShape(k3) && k3.sem == 1 && k3.pc == k.pc && KM !in k3.cv.mutex
    ensures Outside(k3, d) && Actor(k3.cv, d) == Actor(k.cv, d) && u in k3.pc && k3.pc[u] == Holder
  {
    BeginAlone(k, c);
    k1 := KApply(k, BeginStray(c));
    RaiseAlone(k1, c);
    k2 := KApply(k1, RaiseStray(c));
    LeaveAlone(k2, c);
    k3 := KApply(k2, Exit(c));
    OthersStay(k2.cv.s, c, d);
    assert k3.pc == k.pc;
  }

  // and the thread of core d calls kernel_lock and gets the lock.
  lemma AnotherEnters(k: K, u: Tid, d: nat) returns (k1: K, k2: K)
    requires KShape(k) && k.sem == 1 && KM !in k.cv.mutex && Outside(k, d) && u in k.pc && k.pc[u] == Holder
    ensures StepTo(k, Enter(d), k1) && StepTo(k1, Pass(d), k2)
    ensures u != Actor(k.cv, d) && u in Holders(k2) && Actor(k.cv, d) in Holders(k2)
  {
    EnterAlone(k, d);
    k1 := KApply(k, Enter(d));
    PassAlone(k1, d);
    k2 := KApply(k1, Pass(d));
  }

  // From any such state five steps lead to one in which both u and the thread of
  // core d have the lock.
  lemma StrayLetsAnotherIn(k: K, u: Tid, c: nat, d: nat) returns (k1: K, k2: K, k3: K, k4: K, k5: K)
    requires Calm(k, u, c, d)
    ensures StepTo(k, BeginStray(c), k1) && StepTo(k1, RaiseStray(c), k2) && StepTo(k2, Exit(c), k3)
    ensures StepTo(k3, Enter(d), k4) && StepTo(k4, Pass(d), k5)
    ensures u != Actor(k.cv, d) && u in Holders(k5) && Actor(k.cv, d) in Holders(k5)
  {
    k1, k2, k3 := StrayLeaves(k, u, c, d);
    k4, k5 := AnotherEnters(k3, u, d);
  }

  // ------------------------------------------------------------------
  // A run to such a state
  // ------------------------------------------------------------------

  // No thread has used a condition variable, a mutex or the kernel lock.
  ghost predicate Untouched(k: K) {
    && KReached(k) && k.sem == 1 && k.pc == map[]
    && k.cv.ring == map[] && k.cv.wlock == map[] && k.cv.mutex == map[] && k.cv.frame == map[]
  }

  lemma UntouchedStep(k: K, a: Step) returns (k': K)
    requires Untouched(k) && Inv(k.cv.s) && Enabled(k.cv.s, a) && !a.DoSleep?
    ensures Untouched(k') && k'.cv.s == Apply(k.cv.s, a)
  {
    KReachedShape(k);
    KReachedStep(k, Other(Kernel(a)));
    k' := KApply(k, Other(Kernel(a)));
  }

  lemma Unstarted() returns (k: K)
    ensures Untouched(k) && Init(k.cv.s) && |k.cv.s.core| == 3
  {
    k := K(CvState(Cold(3), map[], map[], map[], map[]), 1, map[]);
    ColdIsReached(3);
    var none: seq<KStep> := [];
    assert IsKRun([k], none) && [k][|none|] == k;
  }

  lemma UntouchedStart() returns (k: K)
    ensures Untouched(k) && Busy(k.cv.s, 1) && |k.cv.s.core| == 3
  {
    var k0 := Unstarted();
    InitInv(k0.cv.s);
    k := UntouchedTakes(k0, 0, Thread(0));
    NowFirst(k0.cv.s, k.cv.s);
  }

  // The idle core c takes the only thread of the queue.
  lemma UntouchedTakes(k: K, c: nat, t: Tid) returns (k': K)
    requires Untouched(k) && Inv(k.cv.s) && InMode(k.cv.s, c, Running) && k.cv.s.core[c].current == Idle(c)
    requires k.cv.s.sched == [t] && k.cv.s.timeouts == []
    ensures Untouched(k')
    ensures var s, s' := k.cv.s, k'.cv.s;
      && Inv(s') && s'.sched == [] && s'.timeouts == [] && s'.spawning == s.spawning
      && s'.core == s.core[c := CCB(t, Idle(c), Running)] && s'.tcb.Keys == s.tcb.Keys
  {
    IdleCoreStarts(k.cv.s, c, t);
    var k1 := UntouchedStep(k, DoYield(c, 0));
    k' := UntouchedStep(k1, DoGain(c));
  }

  // The thread of core c creates thread t and wakes it.
  lemma UntouchedSpawn(k: K, c: nat, t: Tid) returns (k': K)
    requires Untouched(k) && Inv(k.cv.s) && Acting(k.cv.s, c) && k.cv.s.spawning == map[]
    requires t.Thread? && t !in k.cv.s.tcb
    ensures Untouched(k')
    ensures var s, s' := k.cv.s, k'.cv.s;
      && Inv(s') && s'.sched == s.sched + [t] && s'.timeouts == s.timeouts && s'.spawning == map[]
      && s'.core == s.core && s'.tcb.Keys == s.tcb.Keys + {t}
  {
    ThreadSpawns(k.cv.s, c, t);
    var k1 := UntouchedStep(k, DoSpawnAlloc(c, t));
    var k2 := UntouchedStep(k1, DoSpawnCount(c));
    k' := UntouchedStep(k2, DoWakeup(t));
  }

  lemma UntouchedMore(k: K, n: nat) returns (k': K)
    requires Untouched(k) && Busy(k.cv.s, n) && 0 < n < |k.cv.s.core|
    ensures Untouched(k') && Busy(k'.cv.s, n + 1) && |k'.cv.s.core| == |k.cv.s.core|
  {
    BusyActs(k.cv.s, n, 0);
    assert k.cv.s.core[n].current == Idle(n);
    var k1 := UntouchedSpawn(k, 0, Thread(n));
    k' := UntouchedTakes(k1, n, Thread(n));
    NowBusy(k.cv.s, n, k'.cv.s);
  }

  lemma BusyActs(s: State, n: nat, c: nat)
    requires Busy(s, n) && c < n
    ensures Acting(s, c) && s.core[c].current == Thread(c)
  {
    assert s.core[c].current == Thread(c) && CoreOk(s, c);
  }

  // Three threads execute on three cores,
  lemma ThreeBusy() returns (k: K)
    ensures Untouched(k) && Outside(k, 0) && Outside(k, 1) && Outside(k, 2)
    ensures Actor(k.cv, 0) == Thread(0) && Actor(k.cv, 1) == Thread(1) && Actor(k.cv, 2) == Thread(2)
  {
    var k0 := UntouchedStart();
    var k1 := UntouchedMore(k0, 1);
    k := UntouchedMore(k1, 2);
    BusyActs(k.cv.s, 3, 0);
    BusyActs(k.cv.s, 3, 1);
    BusyActs(k.cv.s, 3, 2);
  }

  // and the first has the kernel lock.
  lemma CalmIsReached() returns (k: K)
    ensures KReached(k) && Calm(k, Thread(0), 1, 2) && Actor(k.cv, 2) == Thread(2)
  {
    var k0 := ThreeBusy();
    var k1 := EnterReached(k0, 0);
    k := PassReached(k1, 0);
  }

  lemma EnterReached(k: K, d: nat) returns (k': K)
    requires KReached(k) && Outside(k, d) && KM !in k.cv.mutex
    ensures KReached(k') && KShape(k') && At(k', d, Check)
    ensures var v := Actor(k.cv, d);
      k' == K(k.cv.(mutex := k.cv.mutex[KM := v]), k.sem, k.pc[v := Check])
  {
    KReachedShape(k);
    EnterAlone(k, d);
    KReachedStep(k, Enter(d));
    k' := KApply(k, Enter(d));
  }

  lemma PassReached(k: K, d: nat) returns (k': K)
    requires KReached(k) && KShape(k) && At(k, d, Check) && k.sem > 0
    ensures KReached(k') && KShape(k')
    ensures k' == K(k.cv.(mutex := k.cv.mutex - {KM}), k.sem - 1, k.pc[Actor(k.cv, d) := Holder])
  {
    PassAlone(k, d);
    KReachedStep(k, Pass(d));
    k' := KApply(k, Pass(d));
  }

  // A reachable state in which two threads have the kernel lock.
  lemma StrayExitBreaksExclusion() returns (k: K)
    ensures KReached(k) && Thread(0) in Holders(k) && Thread(2) in Holders(k)
  {
    var k0 := CalmIsReached();
    var k1, k2, k3, k4, k5 := StrayLetsAnotherIn(k0, Thread(0), 1, 2);
    ReachedTo(k0, BeginStray(1), k1);
    ReachedTo(k1, RaiseStray(1), k2);
    ReachedTo(k2, Exit(1), k3);
    ReachedTo(k3, Enter(2), k4);
    ReachedTo(k4, Pass(2), k5);
    k := k5;
  }
}
