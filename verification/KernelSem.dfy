// The kernel lock of kernel_cc.c: a semaphore built as a monitor from
// kernel_mutex and kernel_sem_cv, running on the condition variables.
module KernelSem {
  import opened Lists
  import opened Sched
  import opened SchedInv
  import opened CondVar

  const KM: Mutex := 0   // kernel_mutex
  const SEM: Cv := 0     // kernel_sem_cv

  // Where a thread is with respect to the kernel lock (absent: outside).
  // Check    has kernel_mutex, at the test of `while (kernel_sem <= 0)`
  // Waiting  in cv_wait on kernel_mutex, on kernel_sem_cv or on a kernel condition
  // Holder   has the kernel lock
  // Raising  has the kernel lock, and has taken kernel_mutex to give it up
  // Raised   has kernel_mutex, after kernel_sem++ and Cond_Signal
  // Stray    has taken kernel_mutex for a kernel_sleep, without the kernel lock
  datatype Pc = Check | Waiting | Holder | Raising | Raised | Stray

  datatype K = K(cv: CvState, sem: int, pc: map<Tid, Pc>)

  datatype KStep =
    | Enter(c: nat)                              // kernel_lock begins
    | Pass(c: nat)                               // kernel_sem--
    | Block(c: nat)                              // Cond_Wait(kernel_mutex, kernel_sem_cv)
    | Recheck(c: nat)                            // a wait on kernel_mutex ends
    | Begin(c: nat)                              // kernel_unlock, kernel_wait or kernel_sleep begins
    | Raise(c: nat)                              // kernel_sem++; Cond_Signal(kernel_sem_cv)
    | Leave(c: nat)                              // ... kernel_unlock ends
    | WaitOn(c: nat, d: Cv)                      // ... kernel_wait goes to sleep on d
    | Exit(c: nat)                               // ... kernel_sleep(EXITED)
    | BeginStray(c: nat)                         // kernel_sleep begins outside a system call
    | RaiseStray(c: nat)                         // ... kernel_sem++; Cond_Signal(kernel_sem_cv)
    | Other(a: CvStep)                           // any step that is not about the kernel lock

  ghost predicate At(k: K, c: nat, p: Pc) {
    Acting(k.cv.s, c) && Actor(k.cv, c) in k.pc && k.pc[Actor(k.cv, c)] == p
  }

  ghost predicate Unrelated(k: K, a: CvStep)
    requires CvEnabled(k.cv, a)
  {
    match a
    case Lock(c, m) => m != KM
    case Unlock(c, m) => m != KM
    case Push(c, m, d) => m != KM && d != SEM && Actor(k.cv, c) !in k.pc
    case FallAsleep(c, timeout, now) => true
    case Tidy(c) => true
    case Return(c) => k.cv.frame[Actor(k.cv, c)].mutex != KM
    case Signal(c, d) => d != SEM
    case Broadcast(c, d) => d != SEM
    case Kernel(b) => !b.DoSleep?
  }

  ghost predicate KEnabled(k: K, a: KStep) {
    match a
    case Enter(c) => CvEnabled(k.cv, Lock(c, KM)) && Actor(k.cv, c) !in k.pc
    case Pass(c) => At(k, c, Check) && CvEnabled(k.cv, Unlock(c, KM)) && k.sem > 0
    case Block(c) => At(k, c, Check) && CvEnabled(k.cv, Push(c, KM, SEM)) && k.sem <= 0
    case Recheck(c) => At(k, c, Waiting) && CvEnabled(k.cv, Return(c))
    case Begin(c) => At(k, c, Holder) && CvEnabled(k.cv, Lock(c, KM))
    case Raise(c) => At(k, c, Raising) && CvEnabled(k.cv, Signal(c, SEM))
    case Leave(c) => At(k, c, Raised) && CvEnabled(k.cv, Unlock(c, KM))
    case WaitOn(c, d) => At(k, c, Raised) && CvEnabled(k.cv, Push(c, KM, d)) && d != SEM
    case Exit(c) => At(k, c, Raised) && CvEnabled(k.cv, Kernel(DoSleep(c, EXITED, NO_TIMEOUT, 0)))
    case BeginStray(c) => CvEnabled(k.cv, Lock(c, KM)) && Actor(k.cv, c) !in k.pc
    case RaiseStray(c) => At(k, c, Stray) && CvEnabled(k.cv, Signal(c, SEM))
    case Other(b) => CvEnabled(k.cv, b) && Unrelated(k, b)
  }

  // The condition-variable step inside a step of the kernel lock.
  function Inner(a: KStep): CvStep {
    match a
    case Enter(c) => Lock(c, KM)
    case Pass(c) => Unlock(c, KM)
    case Block(c) => Push(c, KM, SEM)
    case Recheck(c) => Return(c)
    case Begin(c) => Lock(c, KM)
    case Raise(c) => Signal(c, SEM)
    case Leave(c) => Unlock(c, KM)
    case WaitOn(c, d) => Push(c, KM, d)
    case Exit(c) => Kernel(DoSleep(c, EXITED, NO_TIMEOUT, 0))
    case BeginStray(c) => Lock(c, KM)
    case RaiseStray(c) => Signal(c, SEM)
    case Other(b) => b
  }

  ghost function NewPc(k: K, a: KStep): map<Tid, Pc>
    requires KEnabled(k, a)
  {
    match a
    case Enter(c) => k.pc[Actor(k.cv, c) := Check]
    case Pass(c) => k.pc[Actor(k.cv, c) := Holder]
    case Block(c) => k.pc[Actor(k.cv, c) := Waiting]
    case Recheck(c) => k.pc[Actor(k.cv, c) := Check]
    case Begin(c) => k.pc[Actor(k.cv, c) := Raising]
    case Raise(c) => k.pc[Actor(k.cv, c) := Raised]
    case Leave(c) => k.pc - {Actor(k.cv, c)}
    case WaitOn(c, d) => k.pc[Actor(k.cv, c) := Waiting]
    case Exit(c) => k.pc - {Actor(k.cv, c)}
    case BeginStray(c) => k.pc[Actor(k.cv, c) := Stray]
    case RaiseStray(c) => k.pc[Actor(k.cv, c) := Raised]
    case Other(b) => k.pc
  }

  function NewSem(k: K, a: KStep): int {
    match a
    case Pass(c) => k.sem - 1
    case Raise(c) => k.sem + 1
    case RaiseStray(c) => k.sem + 1
    case _ => k.sem
  }

  ghost function KApply(k: K, a: KStep): K
    requires CvInv(k.cv) && KEnabled(k, a)
  {
    var cv := CvApply(k.cv, Inner(a));
    // sleep_releasing(EXITED, &kernel_mutex) also unlocks kernel_mutex
    K(if a.Exit? then cv.(mutex := cv.mutex - {KM}) else cv, NewSem(k, a), NewPc(k, a))
  }

  // ------------------------------------------------------------------
  // The invariant
  // ------------------------------------------------------------------

  // Who holds the kernel lock depends on the program counters only.
  function HoldersOf(pc: map<Tid, Pc>): set<Tid> {
    set t | t in pc && (pc[t] == Holder || pc[t] == Raising)
  }

  ghost function Holders(k: K): set<Tid> { HoldersOf(k.pc) }

  ghost predicate OwnsMutex(k: K, t: Tid) {
    t in k.pc && (k.pc[t] == Check || k.pc[t] == Raising || k.pc[t] == Raised || k.pc[t] == Stray)
  }

  // Woken up, and yet to test kernel_sem again.
  ghost predicate Pending(k: K, t: Tid) {
    && t in k.pc
    && (k.pc[t] == Check
        || (k.pc[t] == Waiting && t in k.cv.frame && k.cv.frame[t].woken != NotYet))
  }

  ghost predicate PcOk(k: K, t: Tid) {
    && (OwnsMutex(k, t) <==> KM in k.cv.mutex && k.cv.mutex[KM] == t)
    && (t in k.pc && k.pc[t] == Waiting <==> t in k.cv.frame && k.cv.frame[t].mutex == KM)
    && (t in k.pc ==> t in k.cv.s.tcb && k.cv.s.tcb[t].state != INIT && k.cv.s.tcb[t].state != EXITED)
    && (t in k.pc && k.pc[t] != Waiting ==> t !in k.cv.frame)
    && (t in k.cv.frame && k.cv.frame[t].cv == SEM ==> k.cv.frame[t].mutex == KM)
  }

  ghost predicate NoLostWakeup(k: K) {
    k.sem > 0 && Ring(k.cv, SEM) != [] ==> exists t :: Pending(k, t)
  }

  // What every step keeps, also those of stray sleepers.
  ghost predicate KShape(k: K) {
    CvInv(k.cv) && (forall t {:trigger PcOk(k, t)} :: PcOk(k, t)) && k.sem >= 0
  }

  ghost predicate KInv(k: K) {
    && KShape(k)
    && k.sem + |Holders(k)| == 1
    && NoLostWakeup(k)
  }

  ghost predicate KInit(k: K) {
    CvInit(k.cv) && k.sem == 1 && k.pc == map[]
  }

  lemma KInitInv(k: K)
    requires KInit(k)
    ensures KInv(k)
  {
    CvInitInv(k.cv);
    assert Holders(k) == {};
  }

  // ------------------------------------------------------------------
  // Preservation
  // ------------------------------------------------------------------

  // What a step does to the thread states and frames of threads that do not act.
  lemma FrameEffect(k: CvState, a: CvStep, t: Tid)
    requires CvInv(k) && CvEnabled(k, a)
    ensures var k' := CvApply(k, a);
      && (t in k.frame && t !in k'.frame ==> a.Return? && t == Actor(k, a.c))
      && (t !in k.frame && t in k'.frame ==>
            a.Push? && t == Actor(k, a.c) && k'.frame[t] == Waiter(a.m, a.cv, Pushed, false, false, NotYet))
      && (t in k.frame && t in k'.frame ==> k'.frame[t].mutex == k.frame[t].mutex && k'.frame[t].cv == k.frame[t].cv)
  {
    match a
    case Signal(c, cv) => var i := SignalWakesFirst(k, cv);
    case Broadcast(c, cv) => BroadcastFrames(k, cv, t);
    case _ =>
  }

  lemma {:induction false} BroadcastFrames(k: CvState, cv: Cv, t: Tid)
    requires CvInv(k) && cv !in k.wlock
    ensures t in BroadcastRing(k, cv).frame <==> t in k.frame
    ensures t in k.frame ==> BroadcastRing(k, cv).frame[t].mutex == k.frame[t].mutex
                             && BroadcastRing(k, cv).frame[t].cv == k.frame[t].cv
    decreases |Ring(k, cv)|
  {
    if Ring(k, cv) == [] {
    } else {
      var i := SignalWakesFirst(k, cv);
      SignalInv(k, cv);
      BroadcastFrames(SignalRing(k, cv), cv, t);
    }
  }

  // Threads that are neither INIT nor EXITED stay so, unless they act to exit.
  lemma StatesEffect(k: CvState, a: CvStep, t: Tid)
    requires CvInv(k) && CvEnabled(k, a) && t in k.s.tcb
    requires k.s.tcb[t].state != INIT && k.s.tcb[t].state != EXITED
    requires a.Kernel? && a.a.DoSleep? ==> t != Actor(k, a.a.c)
    ensures t in CvApply(k, a).s.tcb
    ensures CvApply(k, a).s.tcb[t].state != INIT && CvApply(k, a).s.tcb[t].state != EXITED
  {
    match a
    case Signal(c, cv) => SignalStates(k, cv, t);
    case Broadcast(c, cv) => BroadcastStates(k, cv, t);
    case Kernel(b) => StepEffect(k.s, b, t);
    case FallAsleep(c, timeout, now) => assert CvApply(k, a).s == Sleep(k.s, c, STOPPED, timeout, now);
    case _ => SameStates(k, a);
  }

  lemma SameStates(k: CvState, a: CvStep)
    requires CvInv(k) && CvEnabled(k, a)
    requires a.Lock? || a.Unlock? || a.Push? || a.Tidy? || a.Return?
    ensures CvApply(k, a).s == k.s
  {
  }

  lemma {:induction false} SignalStates(k: CvState, cv: Cv, t: Tid)
    requires CvInv(k) && cv !in k.wlock && t in k.s.tcb
    ensures (forall i :: 0 <= i < |Ring(k, cv)| ==> Ring(k, cv)[i] in k.frame)
    ensures t in SignalRing(k, cv).s.tcb
    ensures SignalRing(k, cv).s.tcb[t].state == k.s.tcb[t].state || SignalRing(k, cv).s.tcb[t].state == READY
  {
    var i := SignalWakesFirst(k, cv);
  }

  lemma {:induction false} BroadcastStates(k: CvState, cv: Cv, t: Tid)
    requires CvInv(k) && cv !in k.wlock && t in k.s.tcb
    ensures t in BroadcastRing(k, cv).s.tcb
    ensures BroadcastRing(k, cv).s.tcb[t].state == k.s.tcb[t].state || BroadcastRing(k, cv).s.tcb[t].state == READY
    decreases |Ring(k, cv)|
  {
    if Ring(k, cv) == [] {
    } else {
      SignalStates(k, cv, t);
      SignalInv(k, cv);
      BroadcastStates(SignalRing(k, cv), cv, t);
    }
  }

  lemma MutexEffect(k: CvState, a: CvStep)
    requires CvInv(k) && CvEnabled(k, a)
    ensures CvApply(k, a).mutex == match a
      case Lock(c, m) => k.mutex[m := Actor(k, c)]
      case Unlock(c, m) => k.mutex - {m}
      case Push(c, m, cv) => k.mutex - {m}
      case Return(c) => k.mutex[k.frame[Actor(k, c)].mutex := Actor(k, c)]
      case _ => k.mutex
  {
    match a
    case Signal(c, cv) => SignalInv(k, cv);
    case Broadcast(c, cv) => BroadcastInv(k, cv);
    case _ =>
  }

  // The ring of kernel_sem_cv grows only when a thread blocks on it.
  lemma SemRingEffect(k: CvState, a: CvStep)
    requires CvInv(k) && CvEnabled(k, a) && !(a.Push? && a.cv == SEM)
    ensures Ring(CvApply(k, a), SEM) != [] ==> Ring(k, SEM) != []
  {
    match a
    case Signal(c, cv) => var i := SignalWakesFirst(k, cv);
    case Broadcast(c, cv) => BroadcastOrder(k, cv, SEM);
    case Tidy(c) =>
      assert RingOk(k, SEM);
      WithoutSpec(Ring(k, SEM), Actor(k, c));
      if Ring(CvApply(k, a), SEM) != [] {
        assert Ring(CvApply(k, a), SEM)[0] in Ring(CvApply(k, a), SEM);
      }
    case _ =>
  }

  // The actor of a step other than Other.
  function StepCore(a: KStep): nat
    requires !a.Other?
  {
    a.c
  }

  // What PcOk(_, t) depends on, before and after a step with actor u.
  ghost predicate View(k: K, k': K, a: KStep, u: Tid, t: Tid)
    requires KEnabled(k, a)
  {
    && k'.pc == NewPc(k, a)
    && (a.Enter? || a.Begin? || a.Recheck? || a.BeginStray? ==> k'.cv.mutex == k.cv.mutex[KM := u])
    && (a.Pass? || a.Leave? || a.Block? || a.WaitOn? || a.Exit? ==> k'.cv.mutex == k.cv.mutex - {KM})
    && (a.Raise? || a.RaiseStray? ==> k'.cv.mutex == k.cv.mutex)
    && (a.Block? || a.WaitOn? ==> u in k'.cv.frame && k'.cv.frame[u].mutex == KM)
    && (a.Recheck? ==> u !in k'.cv.frame)
    && (t != u || !(a.Block? || a.WaitOn? || a.Recheck?) ==> (t in k'.cv.frame <==> t in k.cv.frame))
    && (t in k.cv.frame && t in k'.cv.frame ==>
          k'.cv.frame[t].mutex == k.cv.frame[t].mutex && k'.cv.frame[t].cv == k.cv.frame[t].cv)
    && (t in k'.pc ==> t in k'.cv.s.tcb && k'.cv.s.tcb[t].state != INIT && k'.cv.s.tcb[t].state != EXITED)
  }

  lemma PcStepCases(k: K, k': K, a: KStep, u: Tid, t: Tid)
    requires KEnabled(k, a) && !a.Other? && u == Actor(k.cv, StepCore(a))
    requires PcOk(k, t) && PcOk(k, u) && View(k, k', a, u, t)
    ensures PcOk(k', t)
  {
  }

  lemma StepView(k: K, a: KStep, t: Tid)
    requires KShape(k) && KEnabled(k, a) && !a.Other?
    ensures View(k, KApply(k, a), a, Actor(k.cv, StepCore(a)), t)
  {
    assert PcOk(k, Actor(k.cv, StepCore(a)));
    FrameView(k, a, t);
    MutexEffect(k.cv, Inner(a));
    StatesView(k, a, t);
  }

  // What a step does to the frames of t and of its own thread.
  lemma FrameView(k: K, a: KStep, t: Tid)
    requires KShape(k) && KEnabled(k, a) && !a.Other?
    ensures var f, f', u := k.cv.frame, KApply(k, a).cv.frame, Actor(k.cv, StepCore(a));
      && (a.Block? || a.WaitOn? ==> u in f' && f'[u].mutex == KM)
      && (a.Recheck? ==> u !in f')
      && (t != u || !(a.Block? || a.WaitOn? || a.Recheck?) ==> (t in f' <==> t in f))
      && (t in f && t in f' ==> f'[t].mutex == f[t].mutex && f'[t].cv == f[t].cv)
  {
    FrameEffect(k.cv, Inner(a), t);
    FrameEffect(k.cv, Inner(a), Actor(k.cv, StepCore(a)));
  }

  lemma StatesView(k: K, a: KStep, t: Tid)
    requires KShape(k) && KEnabled(k, a) && !a.Other?
    ensures var k' := KApply(k, a);
      t in k'.pc ==> t in k'.cv.s.tcb && k'.cv.s.tcb[t].state != INIT && k'.cv.s.tcb[t].state != EXITED
  {
    var u := Actor(k.cv, StepCore(a));
    assert PcOk(k, t) && PcOk(k, u) && CoreOk(k.cv.s, StepCore(a));
    if t in NewPc(k, a) { StatesEffect(k.cv, Inner(a), t); }
  }

  lemma OtherPc(k: K, b: CvStep, t: Tid)
    requires KShape(k) && KEnabled(k, Other(b))
    ensures PcOk(KApply(k, Other(b)), t)
  {
    assert PcOk(k, t);
    FrameEffect(k.cv, b, t);
    MutexEffect(k.cv, b);
    if t in k.pc { StatesEffect(k.cv, b, t); }
    if b.Return? { assert PcOk(k, Actor(k.cv, b.c)); }
  }

  // A pending thread stays pending until it tests the semaphore.
  lemma PendingStays(k: K, a: KStep, t: Tid)
    requires KShape(k) && KEnabled(k, a) && Pending(k, t)
    requires !a.Pass? && !a.Block? && !a.Recheck?
    ensures Pending(KApply(k, a), t)
  {
    assert PcOk(k, t);
    FrameEffect(k.cv, Inner(a), t);
    if a.Other? && a.a.Return? { assert PcOk(k, Actor(k.cv, a.a.c)); }
    if t in k.cv.frame && t in CvApply(k.cv, Inner(a)).frame { WokenIsHonest(k.cv, Inner(a), t); }
  }

  // Raising the semaphore leaves no one asleep on it, or wakes someone.
  lemma RaiseWakes(k: K, c: nat)
    requires KShape(k) && KEnabled(k, Raise(c))
    ensures NoLostWakeup(KApply(k, Raise(c)))
  {
    var k' := KApply(k, Raise(c));
    var q := Ring(k.cv, SEM);
    var i := SignalWakesFirst(k.cv, SEM);
    if i < |q| {
      assert RingOk(k.cv, SEM) && q[i] in q && PcOk(k, q[i]);
      assert CoreOk(k.cv.s, c) && PcOk(k, Actor(k.cv, c));
      assert Pending(k', q[i]);
    }
  }

  lemma WakeupStep(k: K, a: KStep)
    requires KInv(k) && KEnabled(k, a) && !a.RaiseStray?
    ensures NoLostWakeup(KApply(k, a))
  {
    var k' := KApply(k, a);
    match a
    case Raise(c) => RaiseWakes(k, c);
    case Recheck(c) => assert Pending(k', Actor(k.cv, c));
    case Pass(c) => LastPass(k, c);
    case Block(c) =>
    case RaiseStray(c) =>
    case _ =>
      SemRingEffect(k.cv, Inner(a));
      if k.sem > 0 && Ring(k.cv, SEM) != [] {
        var t :| Pending(k, t);
        PendingStays(k, a, t);
      }
  }

  lemma LastPass(k: K, c: nat)
    requires KInv(k) && KEnabled(k, Pass(c))
    ensures k.sem == 1 && Holders(k) == {}
  {
    assert |Holders(k)| == 0;
  }

  lemma HoldersSet(pc: map<Tid, Pc>, u: Tid, p: Pc)
    requires u in pc && (pc[u] == Holder || pc[u] == Raising) != (p == Holder || p == Raising)
    ensures |HoldersOf(pc[u := p])| == |HoldersOf(pc)| + if p == Holder || p == Raising then 1 else -1
  {
    if p == Holder || p == Raising {
      assert HoldersOf(pc[u := p]) == HoldersOf(pc) + {u};
    } else {
      assert HoldersOf(pc) == HoldersOf(pc[u := p]) + {u};
    }
  }

  // kernel_sem and the holders together: only a stray sleeper adds to them.
  lemma HoldersStep(k: K, a: KStep)
    requires KShape(k) && KEnabled(k, a)
    ensures var k' := KApply(k, a);
      k'.sem >= 0 && k'.sem + |Holders(k')| == k.sem + |Holders(k)| + if a.RaiseStray? then 1 else 0
  {
    var k' := KApply(k, a);
    if !a.Other? {
      var u := Actor(k.cv, StepCore(a));
      if a.Pass? {
        HoldersSet(k.pc, u, Holder);
      } else if a.Raise? {
        HoldersSet(k.pc, u, Raised);
      } else {
        HoldersSame(k, a);
      }
    }
  }

  lemma HoldersSame(k: K, a: KStep)
    requires KShape(k) && KEnabled(k, a) && !a.Other? && !a.Pass? && !a.Raise?
    ensures Holders(KApply(k, a)) == Holders(k)
  {
    assert forall t :: t in Holders(KApply(k, a)) <==> t in Holders(k);
  }

  lemma KStepShape(k: K, a: KStep)
    requires KShape(k) && KEnabled(k, a)
    ensures KShape(KApply(k, a))
  {
    var k' := KApply(k, a);
    CvStepInv(k.cv, Inner(a));
    if a.Exit? { MutexInv(CvApply(k.cv, Inner(a)), k'.cv); }
    forall t ensures PcOk(k', t) {
      if a.Other? {
        OtherPc(k, a.a, t);
      } else {
        StepView(k, a, t);
        assert PcOk(k, t) && PcOk(k, Actor(k.cv, StepCore(a)));
        PcStepCases(k, k', a, Actor(k.cv, StepCore(a)), t);
      }
    }
    HoldersStep(k, a);
  }

  lemma KStepInv(k: K, a: KStep)
    requires KInv(k) && KEnabled(k, a) && !a.RaiseStray?
    ensures KInv(KApply(k, a))
  {
    KStepShape(k, a);
    HoldersStep(k, a);
    WakeupStep(k, a);
  }

  // ------------------------------------------------------------------
  // Runs
  // ------------------------------------------------------------------

  ghost predicate IsKRun(ks: seq<K>, acts: seq<KStep>) {
    && |ks| == |acts| + 1 && KInit(ks[0])
    && (forall i {:trigger acts[i]} :: 0 <= i < |acts| ==>
          KEnabled(ks[i], acts[i]) && (CvInv(ks[i].cv) ==> ks[i + 1] == KApply(ks[i], acts[i])))
  }

  // The calls of kernel_sleep without the kernel lock among the first n steps.
  function Strays(acts: seq<KStep>, n: nat): nat
    requires n <= |acts|
  {
    if n == 0 then 0 else Strays(acts, n - 1) + if acts[n - 1].RaiseStray? then 1 else 0
  }

  lemma {:induction false} KRunShape(ks: seq<K>, acts: seq<KStep>, n: nat)
    requires IsKRun(ks, acts) && n < |ks|
    ensures KShape(ks[n]) && ks[n].sem + |Holders(ks[n])| == 1 + Strays(acts, n)
  {
    if n == 0 {
      KInitInv(ks[0]);
    } else {
      KRunShape(ks, acts, n - 1);
      assert KEnabled(ks[n - 1], acts[n - 1]);
      KStepShape(ks[n - 1], acts[n - 1]);
      HoldersStep(ks[n - 1], acts[n - 1]);
    }
  }

  lemma {:induction false} KRunInv(ks: seq<K>, acts: seq<KStep>, n: nat)
    requires IsKRun(ks, acts) && n < |ks| && Strays(acts, n) == 0
    ensures KInv(ks[n])
  {
    if n == 0 {
      KInitInv(ks[0]);
    } else {
      KRunInv(ks, acts, n - 1);
      assert KEnabled(ks[n - 1], acts[n - 1]);
      KStepInv(ks[n - 1], acts[n - 1]);
    }
  }

  // Over every run in which kernel_sleep is called by holders only: at most one
  // thread has the kernel lock, and kernel_sem plus the number of holders is 1.
  lemma KernelMutualExclusion(ks: seq<K>, acts: seq<KStep>, n: nat, t: Tid, u: Tid)
    requires IsKRun(ks, acts) && n < |ks| && Strays(acts, n) == 0
    requires t in Holders(ks[n]) && u in Holders(ks[n])
    ensures t == u && ks[n].sem == 0
    ensures ks[n].sem + |Holders(ks[n])| == 1
  {
    KRunInv(ks, acts, n);
    var h := Holders(ks[n]);
    assert |h - {t}| == 0;
    assert u !in h - {t};
  }

  // Over every such run: whenever the kernel lock is free and threads queue for
  // it, some thread that can run (it is not STOPPED) has yet to test the
  // semaphore.
  lemma KernelNoLostWakeup(ks: seq<K>, acts: seq<KStep>, n: nat)
    requires IsKRun(ks, acts) && n < |ks| && Strays(acts, n) == 0
    requires ks[n].sem > 0 && Ring(ks[n].cv, SEM) != []
    ensures exists t :: Pending(ks[n], t) && t in ks[n].cv.s.tcb && !Stopped(ks[n].cv.s, t)
  {
    KRunInv(ks, acts, n);
    var k := ks[n];
    var t :| Pending(k, t);
    assert PcOk(k, t);
    if t in k.cv.frame { assert FrameOk(k.cv, t); }
    assert Pending(k, t) && t in k.cv.s.tcb && !Stopped(k.cv.s, t);
  }

  // kernel_threads.c:20 reaches kernel_sleep without the kernel lock. In any run
  // kernel_sem and the holders add up to 1 exactly as long as no thread has done
  // so.
  lemma SleepNeedsTheLock(ks: seq<K>, acts: seq<KStep>, n: nat)
    requires IsKRun(ks, acts) && n < |ks|
    ensures ks[n].sem + |Holders(ks[n])| == 1 <==> forall i :: 0 <= i < n ==> !acts[i].RaiseStray?
  {
    KRunShape(ks, acts, n);
    StraysIff(acts, n);
  }

  lemma {:induction false} StraysIff(acts: seq<KStep>, n: nat)
    requires n <= |acts|
    ensures Strays(acts, n) == 0 <==> forall i :: 0 <= i < n ==> !acts[i].RaiseStray?
  {
    if n == 0 {
    } else {
      StraysIff(acts, n - 1);
    }
  }
}
