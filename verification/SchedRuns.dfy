// Wakeups and timeouts of the scheduler over runs, and reachable states at
// which the theorems can be read.
module SchedRuns {
  import opened Sched
  import opened SchedInv
  import opened SchedThms

  // ------------------------------------------------------------------
  // A woken thread arrives
  // ------------------------------------------------------------------

  // t is READY, and core c has still to pass it on.
  ghost predicate OnTheWay(s: State, t: Tid, c: nat) {
    && c < |s.core| && t in s.tcb && t.Thread? && s.tcb[t].state == READY
    && ((s.core[c].mode == Slept && s.core[c].current == t)
        || (s.core[c].mode == Switching && (s.core[c].current == t || s.core[c].previous == t)))
  }

  // t is in the queue, or core c executes it.
  ghost predicate Arrived(s: State, t: Tid, c: nat) {
    || t in s.sched
    || (c < |s.core| && (s.core[c].mode == Running || s.core[c].mode == Releasing) && s.core[c].current == t)
  }

  // A wakeup puts a sleeper into the queue or on the way.
  lemma WakeupLands(s: State, t: Tid)
    requires Inv(s) && Enabled(s, DoWakeup(t)) && t.Thread? && s.tcb[t].state == STOPPED
    ensures t in Apply(s, DoWakeup(t)).sched || exists c: nat :: OnTheWay(Apply(s, DoWakeup(t)), t, c)
  {
    assert ThreadOk(s, t);
    var s' := Apply(s, DoWakeup(t));
    if t in s.owner {
      var c := s.owner[t];
      assert OwnerOk(s, t) && CoreOk(s, c);
      assert OnTheWay(s', t, c);
    }
  }

  // No step takes t off its way, except the gain of its core, with which it
  // arrives.
  lemma StepOnTheWay(s: State, a: Step, t: Tid, c: nat)
    requires Inv(s) && Enabled(s, a) && OnTheWay(s, t, c)
    ensures if a == DoGain(c) then Arrived(Apply(s, a), t, c) else OnTheWay(Apply(s, a), t, c)
  {
    assert CoreOk(s, c) && ThreadOk(s, t);
    match a
    case DoYield(d, now) => YieldOnTheWay(s, d, now, t, c);
    case DoGain(d) => GainOnTheWay(s, d, t, c);
    case DoSpawnAlloc(d, u) =>
    case DoSpawnCount(d) =>
    case DoWakeup(u) =>
    case DoSleep(d, newstate, timeout, now) => assert CoreOk(s, d);
    case DoReleaseCount(d) =>
    case DoIdleExit(d) =>
  }

  // The thread that gain has to deal with gets into the queue if it is READY.
  lemma GainOnTheWay(s: State, d: nat, t: Tid, c: nat)
    requires Inv(s) && InMode(s, d, Switching) && OnTheWay(s, t, c)
    ensures CoreOk(s, d) && if d == c then Arrived(Gain(s, d), t, c) else OnTheWay(Gain(s, d), t, c)
  {
    assert CoreOk(s, c) && CoreOk(s, d) && ThreadOk(s, t);
    GainHasEffect(s, d);
  }

  lemma YieldOnTheWay(s: State, d: nat, now: nat, t: Tid, c: nat)
    requires Inv(s) && (InMode(s, d, Running) || InMode(s, d, Slept)) && OnTheWay(s, t, c)
    ensures OnTheWay(Yield(s, d, now), t, c)
  {
    assert CoreOk(s, c) && CoreOk(s, d);
    OfferInv(s, d);
    WakeExpiredFrame(Offer(s, d), now);
    var k := ExpiryIsExact(Offer(s, d), now);
  }

  // In any run, a thread on its way through core c is there until the next gain
  // of c, and is in the queue or current after it, whatever the other cores and
  // the other wakeups do in between.
  lemma {:induction false} WokenThreadArrives(ss: seq<State>, acts: seq<Step>, i: nat, j: nat, t: Tid, c: nat)
    requires IsRun(ss, acts) && i <= j < |acts| && OnTheWay(ss[i], t, c)
    requires forall k :: i <= k < j ==> acts[k] != DoGain(c)
    ensures OnTheWay(ss[j], t, c)
    ensures acts[j] == DoGain(c) ==> Arrived(ss[j + 1], t, c)
    decreases j
  {
    RunInv(ss, acts, j);
    assert Enabled(ss[j], acts[j]);
    if i == j {
      StepOnTheWay(ss[j], acts[j], t, c);
    } else {
      WokenThreadArrives(ss, acts, i, j - 1, t, c);
      RunInv(ss, acts, j - 1);
      assert Enabled(ss[j - 1], acts[j - 1]);
      StepOnTheWay(ss[j - 1], acts[j - 1], t, c);
      StepOnTheWay(ss[j], acts[j], t, c);
    }
  }

  // ------------------------------------------------------------------
  // The assertions of sched_make_ready in the expiry loop
  // ------------------------------------------------------------------

  // The state after k rounds of the expiry loop (or all it makes).
  ghost function Rounds(s: State, now: nat, k: nat): State
    requires TimeoutsListed(s)
    decreases k
  {
    if k == 0 || s.timeouts == [] || s.tcb[s.timeouts[0]].wakeup_time > now then s
    else
      MakeReadyListed(s);
      Rounds(MakeReady(s, s.timeouts[0]), now, k - 1)
  }

  // In every round, the thread at the head of the list is STOPPED and has a
  // wakeup time, and the invariant holds.
  lemma {:induction false} ExpiryCallsAreSafe(s: State, now: nat, k: nat)
    requires Inv(s)
    ensures var m := Rounds(s, now, k);
      && Inv(m)
      && (m.timeouts != [] ==>
            && m.timeouts[0] in m.tcb && m.tcb[m.timeouts[0]].state == STOPPED
            && m.tcb[m.timeouts[0]].wakeup_time != NO_TIMEOUT)
    decreases k
  {
    if k == 0 || s.timeouts == [] || s.tcb[s.timeouts[0]].wakeup_time > now {
    } else {
      var t := s.timeouts[0];
      Spawner(s, t);
      ReadyInv(s, t);
      MakeReadyListed(s);
      ExpiryCallsAreSafe(MakeReady(s, t), now, k - 1);
    }
  }

  // ------------------------------------------------------------------
  // How long a sleep lasts
  // ------------------------------------------------------------------

  // The expiry loop run at clock time T ends the sleep of t.
  ghost predicate ExpiresAt(s: State, t: Tid, T: nat) {
    TimeoutsListed(s) && t in s.timeouts && t !in WakeExpired(s, T).timeouts
  }

  // A sleep expires at clock time T exactly if the computed wakeup time, which
  // is taken modulo 2^64, has come.
  lemma ExpiresWhenDue(s: State, c: nat, timeout: nat, now: nat, T: nat)
    requires Inv(s) && Acting(s, c) && timeout != NO_TIMEOUT && GoodTimeout(timeout, now)
    ensures ExpiresAt(Sleep(s, c, STOPPED, timeout, now), s.core[c].current, T) <==> (now + timeout) % TIME_LIMIT <= T
  {
    var s', t := Sleep(s, c, STOPPED, timeout, now), s.core[c].current;
    assert CoreOk(s, c) && ThreadOk(s, t);
    SleepInv(s, c, STOPPED, timeout, now);
    SleepLists(s, c, STOPPED, timeout, now);
    assert t in s'.timeouts && s'.tcb[t].wakeup_time == (now + timeout) % TIME_LIMIT;
    var k := ExpiryIsExact(s', T);
    var i :| 0 <= i < |s'.timeouts| && s'.timeouts[i] == t;
    if i < k {
      forall j | 0 <= j < |s'.timeouts[k..]| ensures s'.timeouts[k..][j] != t { }
    } else {
      assert s'.timeouts[k..][i - k] == t;
    }
  }

  // ------------------------------------------------------------------
  // Reachable states
  // ------------------------------------------------------------------

  lemma ExtendRun(ss: seq<State>, acts: seq<Step>, a: Step, s': State)
    requires IsRun(ss, acts) && Enabled(ss[|acts|], a)
    requires Inv(ss[|acts|]) ==> s' == Apply(ss[|acts|], a)
    ensures IsRun(ss + [s'], acts + [a])
  {
    var ss', acts' := ss + [s'], acts + [a];
    assert forall i :: 0 <= i <= |acts| ==> ss'[i] == ss[i];
    assert forall i :: 0 <= i < |acts| ==> acts'[i] == acts[i];
    assert ss'[|acts|] == ss[|acts|] && acts'[|acts|] == a && ss'[|acts| + 1] == s';
  }

  lemma ReachedStep(s: State, a: Step)
    requires Reached(s) && Inv(s) && Enabled(s, a)
    ensures Reached(Apply(s, a))
  {
    var ss, acts :| IsRun(ss, acts) && ss[|acts|] == s;
    ExtendRun(ss, acts, a, Apply(s, a));
    assert (ss + [Apply(s, a)])[|acts + [a]|] == Apply(s, a);
  }

  // n cores at their idle threads, and the main thread of init in the queue.
  function Cold(n: nat): State {
    State((map c: nat | c < n :: Idle(c) := TCB(IDLE_THREAD, RUNNING, CTX_DIRTY, NO_TIMEOUT))
          [Thread(0) := TCB(NORMAL_THREAD, READY, CTX_CLEAN, NO_TIMEOUT)],
          [Thread(0)], [], seq(n, c requires 0 <= c < n => CCB(Idle(c), Idle(c), Running)),
          map c: nat | c < n :: Idle(c) := c, 1, map[])
  }

  lemma ColdIsReached(n: nat)
    requires n > 0
    ensures Init(Cold(n)) && Reached(Cold(n))
  {
    var none: seq<Step> := [];
    assert IsRun([Cold(n)], none) && [Cold(n)][|none|] == Cold(n);
  }

  // n threads, each executing on the core of its number, and nothing else to do.
  ghost predicate Busy(s: State, n: nat) {
    && Inv(s) && n <= |s.core| && s.sched == [] && s.timeouts == [] && s.spawning == map[]
    && (forall c: nat {:trigger s.core[c]} :: c < |s.core| ==>
          s.core[c].mode == Running && s.core[c].current == if c < n then Thread(c) else Idle(c))
    && (forall t: nat :: Thread(t) in s.tcb <==> t < n)
  }

  // A core in its idle thread takes the only thread of the queue.
  lemma IdleCoreStarts(s: State, c: nat, t: Tid)
    requires Inv(s) && InMode(s, c, Running) && s.core[c].current == Idle(c)
    requires s.sched == [t] && s.timeouts == []
    ensures Enabled(s, DoYield(c, 0)) && Inv(Yield(s, c, 0)) && Enabled(Yield(s, c, 0), DoGain(c))
    ensures CoreOk(Yield(s, c, 0), c)
    ensures var s' := Gain(Yield(s, c, 0), c);
      && Inv(s') && s'.sched == [] && s'.timeouts == [] && s'.spawning == s.spawning
      && s'.core == s.core[c := CCB(t, Idle(c), Running)] && s'.tcb.Keys == s.tcb.Keys
  {
    assert CoreOk(s, c) && t in s.sched && ThreadOk(s, t);
    YieldInv(s, c, 0);
    var s1 := Yield(s, c, 0);
    assert CoreOk(s1, c) && ThreadOk(s, Idle(c));
    assert s1.core[c] == CCB(t, Idle(c), Switching);
    GainInv(s1, c);
    GainHasEffect(s1, c);
  }

  // A running thread creates another one, and wakes it.
  lemma ThreadSpawns(s: State, c: nat, t: Tid)
    requires Inv(s) && Acting(s, c) && t.Thread? && t !in s.tcb && s.spawning == map[]
    ensures var s1 := SpawnAlloc(s, s.core[c].current, t);
      var s2 := SpawnCount(s1, s.core[c].current);
      && Enabled(s, DoSpawnAlloc(c, t)) && Inv(s1)
      && Enabled(s1, DoSpawnCount(c)) && Inv(s2) && Enabled(s2, DoWakeup(t))
      && (var s3 := Wakeup(s2, t);
          && Inv(s3) && s3.sched == s.sched + [t] && s3.timeouts == s.timeouts && s3.spawning == map[]
          && s3.core == s.core && s3.tcb.Keys == s.tcb.Keys + {t})
  {
    var p := s.core[c].current;
    SpawnAllocInv(s, c, t);
    var s1 := SpawnAlloc(s, p, t);
    SpawnCountInv(s1, p);
    var s2 := SpawnCount(s1, p);
    assert s2.spawning == map[];
    ReadyInv(s2, t);
  }

  // A thread that has been created and has taken an idle core is one more.
  lemma NowBusy(s: State, n: nat, s': State)
    requires Busy(s, n) && n < |s.core| && Inv(s')
    requires s'.sched == [] && s'.timeouts == [] && s'.spawning == map[]
    requires s'.core == s.core[n := CCB(Thread(n), Idle(n), Running)] && s'.tcb.Keys == s.tcb.Keys + {Thread(n)}
    ensures Busy(s', n + 1)
  {
  }

  // The first core starts init.
  lemma FirstBusy(s: State)
    requires Init(s)
    ensures Inv(s) && InMode(s, 0, Running) && Inv(Yield(s, 0, 0)) && CoreOk(Yield(s, 0, 0), 0)
    ensures Enabled(s, DoYield(0, 0)) && Enabled(Yield(s, 0, 0), DoGain(0))
    ensures Busy(Gain(Yield(s, 0, 0), 0), 1) && |Gain(Yield(s, 0, 0), 0).core| == |s.core|
  {
    InitInv(s);
    IdleCoreStarts(s, 0, Thread(0));
    NowFirst(s, Gain(Yield(s, 0, 0), 0));
  }

  lemma NowFirst(s: State, s': State)
    requires Init(s) && Inv(s') && s'.sched == [] && s'.timeouts == [] && s'.spawning == map[]
    requires s'.core == s.core[0 := CCB(Thread(0), Idle(0), Running)] && s'.tcb.Keys == s.tcb.Keys
    ensures Busy(s', 1)
  {
  }

  // A reached state in which a thread executes.
  lemma InitRuns(n: nat) returns (s: State)
    requires n > 0
    ensures Reached(s) && Busy(s, 1) && |s.core| == n && Acting(s, 0)
  {
    ColdIsReached(n);
    FirstBusy(Cold(n));
    ReachedStep(Cold(n), DoYield(0, 0));
    var s1 := Yield(Cold(n), 0, 0);
    ReachedStep(s1, DoGain(0));
    s := Gain(s1, 0);
    assert s.core[0].current == Thread(0);
  }

  // A timeout that makes the sum wrap around: at clock 1000 a sleep of 2^64 - 2
  // microseconds gets the wakeup time 998 and ends at once.
  lemma WrappedSleepEndsAtOnce() returns (s: State)
    ensures Reached(s) && Inv(s) && Acting(s, 0)
    ensures ExpiresAt(Sleep(s, 0, STOPPED, NO_TIMEOUT - 1, 1000), s.core[0].current, 1000)
  {
    s := InitRuns(1);
    ReachedInv(s);
    ExpiresWhenDue(s, 0, NO_TIMEOUT - 1, 1000, 1000);
  }

  // A timeout of NO_TIMEOUT - curtime: the sleeper is put on the timeout list
  // with the time that means "never", and the invariant is lost.
  lemma NeverTimeoutBreaksTheList() returns (s: State)
    ensures Reached(s) && Inv(s) && Acting(s, 0)
    ensures var s', t := Sleep(s, 0, STOPPED, NO_TIMEOUT - 1000, 1000), s.core[0].current;
      && !Inv(s') && t in s'.timeouts && t in s'.tcb && s'.tcb[t].wakeup_time == NO_TIMEOUT
  {
    s := InitRuns(1);
    ReachedInv(s);
    SleepKeepsInvIff(s, 0, NO_TIMEOUT - 1000, 1000);
    var s', t := Sleep(s, 0, STOPPED, NO_TIMEOUT - 1000, 1000), s.core[0].current;
    assert CoreOk(s, 0) && s.timeouts == [];
    assert s'.timeouts == [t];
  }
}
