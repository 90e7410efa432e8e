// The life of a thread in the scheduler (kernel_sched.c): which step takes it from
// which state to which, and what becomes of a thread that has exited.
module SchedLife {
  import opened Lists
  import opened Sched
  import opened SchedInv
  import opened SchedThms

  // ------------------------------------------------------------------
  // The states of a thread
  // ------------------------------------------------------------------

  ghost predicate IsCurrent(s: State, c: nat, t: Tid) {
    c < |s.core| && s.core[c].current == t
  }

  // Core c is between its yield, which took it away from t, and its gain.
  ghost predicate IsLeaving(s: State, c: nat, t: Tid) {
    c < |s.core| && s.core[c].mode == Switching && s.core[c].previous == t != s.core[c].current
  }

  // The state of t after step a, from its state before.
  ghost function NextState(s: State, a: Step, t: Tid): ThreadState
    requires t in s.tcb
  {
    match s.tcb[t].state
    case INIT => if a == DoWakeup(t) then READY else INIT
    case READY => if a.DoGain? && IsCurrent(s, a.c, t) then RUNNING else READY
    case RUNNING =>
      if a.DoYield? && IsCurrent(s, a.c, t) then READY
      else if a.DoSleep? && IsCurrent(s, a.c, t) then a.newstate else RUNNING
    case STOPPED =>
      if a == DoWakeup(t) || (a.DoYield? && t in s.timeouts && s.tcb[t].wakeup_time <= a.now) then READY else STOPPED
    case EXITED => EXITED
  }

  // The wakeup time of t after the step: set by a sleep with a timeout, and kept
  // as long as the thread stays STOPPED.
  ghost function NextTime(s: State, a: Step, t: Tid): nat
    requires t in s.tcb
  {
    if NextState(s, a, t) != STOPPED then NO_TIMEOUT
    else if s.tcb[t].state == STOPPED then s.tcb[t].wakeup_time
    else if !a.DoSleep? || a.timeout == NO_TIMEOUT then NO_TIMEOUT
    else (a.now + a.timeout) % TIME_LIMIT
  }

  // The steps that create and release the TCB of t.
  ghost predicate Creates(a: Step, t: Tid) { a.DoSpawnAlloc? && a.t == t }

  ghost predicate Releases(s: State, a: Step, t: Tid) {
    a.DoGain? && IsLeaving(s, a.c, t) && t in s.tcb && s.tcb[t].state == EXITED
  }

  ghost predicate LivesOn(s: State, s': State, a: Step, t: Tid) {
    && (t in s'.tcb <==> (t in s.tcb && !Releases(s, a, t)) || Creates(a, t))
    && (t in s.tcb && t in s'.tcb ==>
          s'.tcb[t].state == NextState(s, a, t) && s'.tcb[t].wakeup_time == NextTime(s, a, t))
    && (t !in s.tcb && t in s'.tcb ==> s'.tcb[t] == TCB(NORMAL_THREAD, INIT, CTX_CLEAN, NO_TIMEOUT))
  }

  lemma StepLives(s: State, a: Step, t: Tid)
    requires Inv(s) && Enabled(s, a)
    ensures LivesOn(s, Apply(s, a), a, t)
  {
    match a
    case DoYield(c, now) => YieldLives(s, c, now, t);
    case DoGain(c) => GainLives(s, c, t);
    case DoSleep(c, newstate, timeout, now) => SleepLives(s, c, newstate, timeout, now, t);
    case DoWakeup(u) => WakeupLives(s, u, t);
    case _ => if t in s.tcb { assert ThreadOk(s, t); }
  }

  lemma SleepLives(s: State, c: nat, newstate: ThreadState, timeout: nat, now: nat, t: Tid)
    requires Inv(s) && Enabled(s, DoSleep(c, newstate, timeout, now))
    ensures LivesOn(s, Apply(s, DoSleep(c, newstate, timeout, now)), DoSleep(c, newstate, timeout, now), t)
  {
    assert CoreOk(s, c);
    if t in s.tcb { assert ThreadOk(s, t); }
  }

  lemma WakeupLives(s: State, u: Tid, t: Tid)
    requires Inv(s) && Enabled(s, DoWakeup(u))
    ensures LivesOn(s, Apply(s, DoWakeup(u)), DoWakeup(u), t)
  {
    if t in s.tcb { assert ThreadOk(s, t); }
  }

  // yield, seen from t: first the current thread is marked, then the sleepers that
  // are due are woken.
  lemma YieldLives(s: State, c: nat, now: nat, t: Tid)
    requires Inv(s) && Enabled(s, DoYield(c, now))
    ensures LivesOn(s, Yield(s, c, now), DoYield(c, now), t)
  {
    assert CoreOk(s, c);
    var s1 := Offer(s, c);
    OfferInv(s, c);
    WakeExpiredFrame(s1, now);
    assert s1.tcb.Keys == s.tcb.Keys;
    if t in s.tcb {
      ExpiryLives(s1, now, t);
      OfferLives(s, c, t);
    }
  }

  lemma OfferLives(s: State, c: nat, t: Tid)
    requires Inv(s) && c < |s.core| && s.core[c].current in s.tcb && t in s.tcb
    requires InMode(s, c, Running) || InMode(s, c, Slept)
    ensures var s1 := Offer(s, c);
      && t in s1.tcb && s1.timeouts == s.timeouts && s1.tcb[t].wakeup_time == s.tcb[t].wakeup_time
      && s1.tcb[t].state == if s.tcb[t].state == RUNNING && IsCurrent(s, c, t) then READY else s.tcb[t].state
    ensures t in s.timeouts ==> s.tcb[t].state == STOPPED
    ensures s.tcb[t].state != STOPPED ==> s.tcb[t].wakeup_time == NO_TIMEOUT
  {
    assert ThreadOk(s, t);
  }

  lemma ExpiryLives(s: State, now: nat, t: Tid)
    requires Inv(s) && t in s.tcb
    ensures var s' := WakeExpired(s, now);
      && t in s'.tcb
      && if t in s.timeouts && s.tcb[t].wakeup_time <= now
         then s'.tcb[t].state == READY && s'.tcb[t].wakeup_time == NO_TIMEOUT
         else s'.tcb[t].state == s.tcb[t].state && s'.tcb[t].wakeup_time == s.tcb[t].wakeup_time
  {
    var k := ExpiryIsExact(s, now);
    assert Expired(s, WakeExpired(s, now), s.timeouts[..k], t);
    DueOnes(s, now, k, t);
  }

  // The threads that are due are the first ones of the list.
  lemma DueOnes(s: State, now: nat, k: nat, t: Tid)
    requires TimeoutsListed(s) && k <= |s.timeouts| && t in s.tcb
    requires forall i :: 0 <= i < |s.timeouts| ==> (i < k <==> s.tcb[s.timeouts[i]].wakeup_time <= now)
    ensures t in s.timeouts[..k] <==> t in s.timeouts && s.tcb[t].wakeup_time <= now
  {
    var q := s.timeouts;
    if t in q {
      var i :| 0 <= i < |q| && q[i] == t;
      if i < k { assert q[..k][i] == t; }
    }
  }

  lemma GainLives(s: State, c: nat, t: Tid)
    requires Inv(s) && Enabled(s, DoGain(c))
    ensures CoreOk(s, c) && LivesOn(s, Gain(s, c), DoGain(c), t)
  {
    assert CoreOk(s, c);
    if t in s.tcb { assert ThreadOk(s, t); }
    GainHasEffect(s, c);
  }

  // ------------------------------------------------------------------
  // Threads that have exited
  // ------------------------------------------------------------------

  // t has exited on core c, which has still to leave it.
  ghost predicate OnWayOut(s: State, t: Tid, c: nat) {
    && t in s.tcb && s.tcb[t].state == EXITED
    && ((IsCurrent(s, c, t) && s.core[c].mode == Slept) || IsLeaving(s, c, t))
  }

  // No core executes t, and none can take it up.
  ghost predicate NeverRuns(s: State, t: Tid) {
    && t !in s.sched && t !in s.timeouts
    && forall d: nat {:trigger s.core[d]} :: d < |s.core| && s.core[d].current == t ==> s.core[d].mode == Slept
  }

  lemma ExitedNeverRuns(s: State, t: Tid, c: nat)
    requires Inv(s) && OnWayOut(s, t, c)
    ensures NeverRuns(s, t)
  {
    assert ThreadOk(s, t) && CoreOk(s, c);
    forall d: nat | d < |s.core| && s.core[d].current == t ensures s.core[d].mode == Slept { assert CoreOk(s, d); }
  }

  // sleep_releasing(EXITED, ...) puts its thread on the way out.
  lemma ExitBegins(s: State, c: nat, timeout: nat, now: nat)
    requires Inv(s) && Enabled(s, DoSleep(c, EXITED, timeout, now))
    ensures OnWayOut(Apply(s, DoSleep(c, EXITED, timeout, now)), s.core[c].current, c)
  {
    StepLives(s, DoSleep(c, EXITED, timeout, now), s.core[c].current);
  }

  // No step takes it back: only the gain of its core, which releases the TCB.
  lemma ExitStep(s: State, a: Step, t: Tid, c: nat)
    requires Inv(s) && Enabled(s, a) && OnWayOut(s, t, c)
    ensures if a == DoGain(c) then t !in Apply(s, a).tcb else OnWayOut(Apply(s, a), t, c)
  {
    StepLives(s, a, t);
    assert CoreOk(s, c) && ThreadOk(s, t);
    match a
    case DoYield(d, now) => YieldOnWayOut(s, d, now, t, c);
    case DoGain(d) => assert CoreOk(s, d); GainHasEffect(s, d);
    case _ =>
  }

  lemma YieldOnWayOut(s: State, d: nat, now: nat, t: Tid, c: nat)
    requires Inv(s) && Enabled(s, DoYield(d, now)) && OnWayOut(s, t, c)
    ensures OnWayOut(Yield(s, d, now), t, c)
  {
    YieldLives(s, d, now, t);
    assert CoreOk(s, c) && CoreOk(s, d) && ThreadOk(s, t);
    OfferInv(s, d);
    WakeExpiredFrame(Offer(s, d), now);
    WakeExpiredInv(Offer(s, d), now);
    ExpiryLives(Offer(s, d), now, t);
    SelectIsReady(WakeExpired(Offer(s, d), now), d);
  }

  // In any run: from its sleep_releasing(EXITED) to the next gain of its core the
  // thread stays EXITED, is in no list and is executed by no core, whatever the
  // other cores do; and that gain releases its TCB.
  lemma {:induction false} ExitedIsReleased(ss: seq<State>, acts: seq<Step>, i: nat, j: nat, c: nat)
    requires IsRun(ss, acts) && i < j < |ss| && acts[i].DoSleep? && acts[i].newstate == EXITED && acts[i].c == c
    requires forall k :: i < k < j ==> acts[k] != DoGain(c)
    ensures c < |ss[i].core|
    ensures var t := ss[i].core[c].current;
      && OnWayOut(ss[j], t, c) && NeverRuns(ss[j], t)
      && (j < |acts| && acts[j] == DoGain(c) ==> t !in ss[j + 1].tcb)
    decreases j
  {
    RunInv(ss, acts, j - 1);
    RunInv(ss, acts, j);
    assert Enabled(ss[i], acts[i]) && Enabled(ss[j - 1], acts[j - 1]);
    var t := ss[i].core[c].current;
    if j == i + 1 {
      ExitBegins(ss[i], c, acts[i].timeout, acts[i].now);
    } else {
      ExitedIsReleased(ss, acts, i, j - 1, c);
      ExitStep(ss[j - 1], acts[j - 1], t, c);
    }
    ExitedNeverRuns(ss[j], t, c);
    if j < |acts| {
      assert Enabled(ss[j], acts[j]);
      ExitStep(ss[j], acts[j], t, c);
    }
  }
}
