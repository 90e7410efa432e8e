// How long a sleep with a timeout lasts (kernel_sched.c), over runs of the
// scheduler.
module SleepRuns {
  import opened Lists
  import opened Sched
  import opened SchedInv
  import opened SchedThms
  import opened SchedRuns

  // Step a ends the sleep of t, whose wakeup time is w.
  predicate EndsSleep(a: Step, t: Tid, w: nat) {
    a == DoWakeup(t) || (a.DoYield? && w <= a.now)
  }

  // What step a, from s to s', does to the sleeper t.
  ghost predicate SleepsOn(s: State, s': State, a: Step, t: Tid) {
    && t in s.tcb && t in s'.tcb
    && (t in s'.timeouts <==> !EndsSleep(a, t, s.tcb[t].wakeup_time))
    && if t in s'.timeouts then s'.tcb[t].state == STOPPED && s'.tcb[t].wakeup_time == s.tcb[t].wakeup_time
       else s'.tcb[t].state == READY
  }

  // A sleeper leaves the timeout list by a wakeup, or by a yield of any core at a
  // clock time that has reached its wakeup time, and by nothing else. Then it is
  // READY.
  lemma SleeperStep(s: State, a: Step, t: Tid)
    requires Inv(s) && Enabled(s, a) && t in s.timeouts
    ensures SleepsOn(s, Apply(s, a), a, t)
  {
    match a
    case DoYield(d, now) => YieldSleeper(s, d, now, t);
    case DoGain(d) => GainSleeper(s, d, t);
    case DoWakeup(u) => WakeupSleeper(s, u, t);
    case DoSleep(d, newstate, timeout, now) => SleepSleeper(s, d, newstate, timeout, now, t);
    case _ => assert ThreadOk(s, t);
  }

  lemma WakeupSleeper(s: State, u: Tid, t: Tid)
    requires Inv(s) && Enabled(s, DoWakeup(u)) && t in s.timeouts
    ensures SleepsOn(s, Wakeup(s, u), DoWakeup(u), t)
  {
    assert ThreadOk(s, t) && ThreadOk(s, u);
    WithoutSpec(s.timeouts, u);
  }

  lemma SleepSleeper(s: State, d: nat, newstate: ThreadState, timeout: nat, now: nat, t: Tid)
    requires Inv(s) && Enabled(s, DoSleep(d, newstate, timeout, now)) && t in s.timeouts
    ensures SleepsOn(s, Apply(s, DoSleep(d, newstate, timeout, now)), DoSleep(d, newstate, timeout, now), t)
  {
    assert ThreadOk(s, t) && CoreOk(s, d);
    SleepLists(s, d, newstate, timeout, now);
  }

  lemma GainSleeper(s: State, d: nat, t: Tid)
    requires Inv(s) && InMode(s, d, Switching) && t in s.timeouts
    ensures CoreOk(s, d) && SleepsOn(s, Gain(s, d), DoGain(d), t)
  {
    assert CoreOk(s, d) && ThreadOk(s, t);
    GainHasEffect(s, d);
  }

  lemma YieldSleeper(s: State, d: nat, now: nat, t: Tid)
    requires Inv(s) && (InMode(s, d, Running) || InMode(s, d, Slept)) && t in s.timeouts
    ensures SleepsOn(s, Yield(s, d, now), DoYield(d, now), t)
  {
    assert CoreOk(s, d) && ThreadOk(s, t);
    var s1 := Offer(s, d);
    OfferInv(s, d);
    assert ThreadOk(s1, t);
    WakeExpiredFrame(s1, now);
    var k := ExpiryIsExact(s1, now);
    InFront(s1.timeouts, k, t);
  }

  lemma InFront(q: seq<Tid>, k: nat, t: Tid)
    requires Distinct(q) && k <= |q| && t in q
    ensures t in q[..k] <==> t !in q[k..]
    ensures exists i :: 0 <= i < |q| && q[i] == t && (t in q[..k] <==> i < k)
  {
    var i :| 0 <= i < |q| && q[i] == t;
    if i < k { assert q[..k][i] == t; } else { assert q[k..][i - k] == t; }
  }

  // In any run a sleeper stays in the timeout list, with its wakeup time, until it
  // is woken or some core yields at a clock time that has reached this time.
  lemma {:induction false} SleepsUntilDue(ss: seq<State>, acts: seq<Step>, i: nat, j: nat, t: Tid)
    requires IsRun(ss, acts) && i <= j < |ss| && t in ss[i].timeouts
    requires t in ss[i].tcb && forall k :: i <= k < j ==> !EndsSleep(acts[k], t, ss[i].tcb[t].wakeup_time)
    ensures t in ss[j].timeouts && t in ss[j].tcb && ss[j].tcb[t].wakeup_time == ss[i].tcb[t].wakeup_time
    decreases j
  {
    if i == j {
    } else {
      SleepsUntilDue(ss, acts, i, j - 1, t);
      RunInv(ss, acts, j - 1);
      assert Enabled(ss[j - 1], acts[j - 1]);
      SleeperStep(ss[j - 1], acts[j - 1], t);
    }
  }

  // ------------------------------------------------------------------
  // Sleeps that end too early
  // ------------------------------------------------------------------

  // In this run the current thread of core c goes to sleep at step i, from state
  // s. A yield at step j ends the sleep, which has lasted until then, at a clock
  // time before now + timeout.
  ghost predicate EndsEarly(ss: seq<State>, acts: seq<Step>, i: nat, j: nat, s: State, sleep: Step)
    requires sleep.DoSleep? && sleep.c < |s.core|
  {
    && IsRun(ss, acts) && i < j < |acts| && ss[i] == s && acts[i] == sleep
    && (forall k :: i < k <= j ==> s.core[sleep.c].current in ss[k].timeouts)
    && s.core[sleep.c].current !in ss[j + 1].timeouts
    && acts[j].DoYield? && acts[j].now < sleep.now + sleep.timeout
  }

  // The sleep begins with the wakeup time curtime + timeout, modulo 2^64.
  lemma SleepBegins(s: State, c: nat, timeout: nat, now: nat)
    requires Inv(s) && Acting(s, c) && timeout != NO_TIMEOUT && GoodTimeout(timeout, now)
    ensures var s', t := Sleep(s, c, STOPPED, timeout, now), s.core[c].current;
      && t in s'.timeouts && t in s'.tcb && s'.tcb[t].wakeup_time == (now + timeout) % TIME_LIMIT
      && InMode(s', c, Slept)
  {
    assert CoreOk(s, c) && ThreadOk(s, s.core[c].current);
    SleepInv(s, c, STOPPED, timeout, now);
    SleepLists(s, c, STOPPED, timeout, now);
  }

  lemma {:induction false} KeepsTime(ss: seq<State>, acts: seq<Step>, i: nat, j: nat, t: Tid)
    requires IsRun(ss, acts) && i <= j < |ss| && forall k :: i <= k <= j ==> t in ss[k].timeouts
    ensures t in ss[i].tcb && t in ss[j].tcb && ss[j].tcb[t].wakeup_time == ss[i].tcb[t].wakeup_time
    decreases j
  {
    RunInv(ss, acts, j);
    assert ss[j].timeouts != [];
    if i == j {
      TimeoutsAreKnown(ss[i], t);
    } else {
      KeepsTime(ss, acts, i, j - 1, t);
      RunInv(ss, acts, j - 1);
      assert Enabled(ss[j - 1], acts[j - 1]);
      SleeperStep(ss[j - 1], acts[j - 1], t);
    }
  }

  lemma TimeoutsAreKnown(s: State, t: Tid)
    requires Inv(s) && t in s.timeouts
    ensures t in s.tcb
  {
    var i :| 0 <= i < |s.timeouts| && s.timeouts[i] == t;
  }

  // What ends a sleep that has lasted from state i to state j.
  lemma LeavesWhenDue(ss: seq<State>, acts: seq<Step>, i: nat, j: nat, t: Tid)
    requires IsRun(ss, acts) && i <= j < |acts| && t !in ss[j + 1].timeouts
    requires forall k :: i <= k <= j ==> t in ss[k].timeouts
    ensures t in ss[i].tcb && EndsSleep(acts[j], t, ss[i].tcb[t].wakeup_time)
  {
    KeepsTime(ss, acts, i, j, t);
    RunInv(ss, acts, j);
    assert Enabled(ss[j], acts[j]);
    SleeperStep(ss[j], acts[j], t);
  }

  // A sum that does not wrap around: no run ends the sleep early.
  lemma NeverEarly(ss: seq<State>, acts: seq<Step>, i: nat, j: nat, s: State, sleep: Step)
    requires sleep.DoSleep? && Inv(s) && Acting(s, sleep.c) && sleep.newstate == STOPPED
    requires sleep.timeout < NO_TIMEOUT && GoodTimeout(sleep.timeout, sleep.now)
    requires sleep.now + sleep.timeout < TIME_LIMIT
    ensures !EndsEarly(ss, acts, i, j, s, sleep)
  {
    SleepBegins(s, sleep.c, sleep.timeout, sleep.now);
    if EndsEarly(ss, acts, i, j, s, sleep) {
      assert acts[i] == sleep && ss[i + 1] == Apply(s, sleep);
      LeavesWhenDue(ss, acts, i + 1, j, s.core[sleep.c].current);
    }
  }

  // Two more steps of a run.
  lemma ExtendTwice(ss: seq<State>, acts: seq<Step>, a: Step, s1: State, b: Step, s2: State)
      returns (ss': seq<State>, acts': seq<Step>)
    requires IsRun(ss, acts) && Enabled(ss[|acts|], a) && Enabled(s1, b)
    requires Inv(ss[|acts|]) && s1 == Apply(ss[|acts|], a) && Inv(s1) && s2 == Apply(s1, b)
    ensures IsRun(ss', acts') && |acts'| == |acts| + 2 && acts'[|acts|] == a && acts'[|acts| + 1] == b
    ensures ss'[|acts|] == ss[|acts|] && ss'[|acts| + 1] == s1 && ss'[|acts| + 2] == s2
  {
    ExtendRun(ss, acts, a, s1);
    ExtendRun(ss + [s1], acts + [a], b, s2);
    ss', acts' := ss + [s1] + [s2], acts + [a] + [b];
  }

  // A sum that does: the very next yield of the core ends it.
  lemma EarlyAtOnce(s: State, sleep: Step) returns (ss: seq<State>, acts: seq<Step>, i: nat)
    requires sleep.DoSleep? && Reached(s) && Inv(s) && Acting(s, sleep.c) && sleep.newstate == STOPPED
    requires sleep.timeout < NO_TIMEOUT && GoodTimeout(sleep.timeout, sleep.now)
    requires sleep.now < TIME_LIMIT <= sleep.now + sleep.timeout
    ensures EndsEarly(ss, acts, i, i + 1, s, sleep)
  {
    var s1, next, t := Apply(s, sleep), DoYield(sleep.c, sleep.now), s.core[sleep.c].current;
    StepInv(s, sleep);
    SleepBegins(s, sleep.c, sleep.timeout, sleep.now);
    SleeperStep(s1, next, t);
    var s2 := Apply(s1, next);
    ss, acts, i := RunWith(s, sleep, s1, next, s2);
  }

  lemma RunWith(s: State, a: Step, s1: State, b: Step, s2: State) returns (ss: seq<State>, acts: seq<Step>, i: nat)
    requires Reached(s) && Inv(s) && Enabled(s, a) && s1 == Apply(s, a)
    requires Inv(s1) && Enabled(s1, b) && s2 == Apply(s1, b)
    ensures IsRun(ss, acts) && |acts| == i + 2 && acts[i] == a && acts[i + 1] == b
    ensures ss[i] == s && ss[i + 1] == s1 && ss[i + 2] == s2
  {
    var ss0, acts0 :| IsRun(ss0, acts0) && ss0[|acts0|] == s;
    i := |acts0|;
    ss, acts := ExtendTwice(ss0, acts0, a, s1, b, s2);
  }

  // A sleep with a timeout can end too early in some run exactly if
  // curtime + timeout wraps around.
  lemma SleepsLongEnoughIff(s: State, sleep: Step)
    requires sleep.DoSleep? && Reached(s) && Acting(s, sleep.c) && sleep.newstate == STOPPED
    requires sleep.timeout < NO_TIMEOUT && sleep.now < TIME_LIMIT && GoodTimeout(sleep.timeout, sleep.now)
    ensures (forall ss, acts, i: nat, j: nat {:trigger EndsEarly(ss, acts, i, j, s, sleep)} ::
               !EndsEarly(ss, acts, i, j, s, sleep))
            <==> sleep.now + sleep.timeout < TIME_LIMIT
  {
    ReachedInv(s);
    if sleep.now + sleep.timeout < TIME_LIMIT {
      forall ss, acts, i: nat, j: nat ensures !EndsEarly(ss, acts, i, j, s, sleep) {
        NeverEarly(ss, acts, i, j, s, sleep);
      }
    } else {
      var ss, acts, i := EarlyAtOnce(s, sleep);
    }
  }
}
