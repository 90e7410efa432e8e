// What the invariant means over whole runs, in the words of kernel_sched.h.
module SchedThms {
  import opened Lists
  import opened Sched
  import opened SchedInv

  // ss[0], ss[1], ... are the states and acts[0], acts[1], ... the steps between
  // them, of any cores in any interleaving.
  ghost predicate IsRun(ss: seq<State>, acts: seq<Step>) {
    && |ss| == |acts| + 1 && Init(ss[0])
    && (forall i {:trigger acts[i]} :: 0 <= i < |acts| ==>
          Enabled(ss[i], acts[i]) && (Inv(ss[i]) ==> ss[i + 1] == Apply(ss[i], acts[i])))
  }

  lemma {:induction false} RunInv(ss: seq<State>, acts: seq<Step>, k: nat)
    requires IsRun(ss, acts) && k < |ss|
    ensures Inv(ss[k])
  {
    if k == 0 {
      InitInv(ss[0]);
    } else {
      RunInv(ss, acts, k - 1);
      assert Enabled(ss[k - 1], acts[k - 1]);
      StepInv(ss[k - 1], acts[k - 1]);
    }
  }

  ghost predicate Reached(s: State) {
    exists ss, acts {:trigger IsRun(ss, acts)} :: IsRun(ss, acts) && ss[|acts|] == s
  }

  lemma ReachedInv(s: State)
    requires Reached(s)
    ensures Inv(s)
  {
    var ss, acts :| IsRun(ss, acts) && ss[|acts|] == s;
    RunInv(ss, acts, |acts|);
  }

  // t was popped by yield and has not reached its gain.
  ghost predicate InTransit(s: State, t: Tid) {
    exists c: nat :: c < |s.core| && s.core[c].mode == Switching && s.core[c].current == t
  }

  // The invariant of kernel_sched.h:58-63, made exact: idle threads are never
  // queued and neither is a thread on its way to a core.
  lemma QueueIsExact(s: State, t: Tid)
    requires Reached(s) && t in s.tcb
    ensures t in s.sched <==>
            s.tcb[t].kind == NORMAL_THREAD && s.tcb[t].state == READY && s.tcb[t].phase == CTX_CLEAN && !InTransit(s, t)
    ensures Distinct(s.sched)
  {
    ReachedInv(s);
    assert ThreadOk(s, t);
    Owned(s, t);
    forall c: nat | c < |s.core| && s.core[c].mode == Switching && s.core[c].current == t ensures t in s.owner {
      assert CoreOk(s, c);
    }
    if t in s.owner { assert CoreOk(s, s.owner[t]); }
  }

  // A thread is never current on two cores, nor current on one while another
  // core is still leaving it.
  lemma OneCoreAtATime(s: State, c: nat, d: nat)
    requires Reached(s) && c < |s.core| && d < |s.core| && c != d
    ensures s.core[c].current != s.core[d].current
    ensures s.core[d].mode == Switching ==> s.core[c].current != s.core[d].previous
    ensures s.core[c].mode == Switching && s.core[d].mode == Switching ==> s.core[c].previous != s.core[d].previous
  {
    ReachedInv(s);
    assert CoreOk(s, c) && CoreOk(s, d);
  }

  // A core swaps in only a thread whose saved context is clean.
  lemma SwapsInCleanContexts(s: State, c: nat)
    requires Reached(s) && c < |s.core| && s.core[c].mode == Switching && s.core[c].current != s.core[c].previous
    ensures s.core[c].current in s.tcb && s.core[c].previous in s.tcb
    ensures s.tcb[s.core[c].current].phase == CTX_CLEAN && s.tcb[s.core[c].previous].phase == CTX_DIRTY
  {
    ReachedInv(s);
    assert CoreOk(s, c);
  }

  // assert(0) in gain (line 489) cannot be reached.
  lemma GainNeverFails(s: State, c: nat)
    requires Reached(s) && c < |s.core| && s.core[c].mode == Switching && s.core[c].current != s.core[c].previous
    ensures s.core[c].previous in s.tcb
    ensures s.tcb[s.core[c].previous].state != INIT && s.tcb[s.core[c].previous].state != RUNNING
  {
    ReachedInv(s);
    assert CoreOk(s, c);
  }

  // The assertions of sched_make_ready (lines 284 and 289) hold at each call:
  // a thread with a wakeup time is STOPPED and in the timeout list.
  lemma MakeReadyNeverFails(s: State, t: Tid)
    requires Reached(s) && Stoppable(s, t) && s.tcb[t].wakeup_time != NO_TIMEOUT
    ensures t in s.timeouts && s.tcb[t].state == STOPPED
  {
    ReachedInv(s);
    assert ThreadOk(s, t);
  }

  // gain releases a TCB only when it is EXITED, and then no list and no core
  // refers to it any more.
  lemma ReleasedIsUnused(s: State, c: nat, t: Tid)
    requires Reached(s) && InMode(s, c, Switching) && s.core[c].previous in s.tcb
    requires t in s.tcb && t !in Gain(s, c).tcb
    ensures s.tcb[t].state == EXITED && t == s.core[c].previous
    ensures var s' := Gain(s, c);
      && t !in s'.sched && t !in s'.timeouts
      && (forall d: nat :: d < |s'.core| ==>
            s'.core[d].current != t && (s'.core[d].mode == Switching ==> s'.core[d].previous != t))
  {
    ReachedInv(s);
    GainHasEffect(s, c);
    var s' := Gain(s, c);
    assert CoreOk(s, c) && ThreadOk(s, t);
    forall d: nat | d < |s'.core|
      ensures s'.core[d].current != t && (s'.core[d].mode == Switching ==> s'.core[d].previous != t)
    {
      assert CoreOk(s, d);
    }
  }

  // active_threads is exact whenever no spawn or release is in progress.
  lemma ActiveCountsThreads(s: State)
    requires Reached(s) && s.spawning == map[]
    requires forall c: nat :: c < |s.core| ==> s.core[c].mode != Releasing
    ensures s.active == |Live(s)|
  {
    ReachedInv(s);
    assert ReleasingCores(s) == {};
  }

  // An idle thread that sees active_threads == 0, in spite of spawns and
  // releases in progress, leaves a system without normal threads, for ever.
  lemma {:induction false} IdleLeavesForGood(ss: seq<State>, acts: seq<Step>, i: nat, j: nat)
    requires IsRun(ss, acts) && i < j < |ss| && acts[i].DoIdleExit?
    ensures Live(ss[i]) == {} && Live(ss[j]) == {} && ss[j].sched == []
  {
    RunInv(ss, acts, i);
    assert Enabled(ss[i], acts[i]);
    NoThreadsLeft(ss[i]);
    LeftStays(ss, acts, i + 1, j, acts[i].c);
    RunInv(ss, acts, j);
    QueuedAreLive(ss[j]);
  }

  lemma QueuedAreLive(s: State)
    requires Inv(s)
    ensures s.sched != [] ==> s.sched[0] in Live(s)
  {
    if s.sched != [] { assert s.sched[0] in s.sched && ThreadOk(s, s.sched[0]); }
  }

  lemma {:induction false} LeftStays(ss: seq<State>, acts: seq<Step>, i: nat, j: nat, c: nat)
    requires IsRun(ss, acts) && i <= j < |ss| && c < |ss[i].core| && ss[i].core[c].mode == Left
    ensures c < |ss[j].core| && ss[j].core[c].mode == Left
    decreases j - i
  {
    if i == j {
    } else {
      RunInv(ss, acts, i);
      var s, a := ss[i], acts[i];
      assert Enabled(s, a);
      LeftStep(s, a, c);
      LeftStays(ss, acts, i + 1, j, c);
    }
  }

  lemma LeftStep(s: State, a: Step, c: nat)
    requires Inv(s) && Enabled(s, a) && c < |s.core| && s.core[c].mode == Left
    ensures c < |Apply(s, a).core| && Apply(s, a).core[c].mode == Left
  {
    if a.DoYield? {
      OfferInv(s, a.c);
      WakeExpiredFrame(Offer(s, a.c), a.now);
    }
    if a.DoGain? { assert CoreOk(s, a.c); GainHasEffect(s, a.c); }
  }

  // ------------------------------------------------------------------
  // No wakeup is lost
  // ------------------------------------------------------------------

  // A ready normal thread is in the queue, or a core still has to pass it on.
  lemma ReadyIsSomewhere(s: State, t: Tid)
    requires Reached(s) && t in s.tcb && t.Thread? && s.tcb[t].state == READY
    ensures t in s.sched || exists c: nat ::
      c < |s.core| && ((s.core[c].mode == Slept && s.core[c].current == t)
                       || (s.core[c].mode == Switching && (s.core[c].current == t || s.core[c].previous == t)))
  {
    ReachedInv(s);
    assert ThreadOk(s, t);
    if t in s.owner { assert OwnerOk(s, t) && CoreOk(s, s.owner[t]); }
  }

  // wakeup on a thread that is still being switched away from (its context is
  // dirty) does not queue it; the gain of its core does.
  lemma WakeupDuringSwitch(s: State, c: nat, t: Tid)
    requires Reached(s) && InMode(s, c, Switching) && s.core[c].previous == t && s.core[c].current != t
    requires t in s.tcb && t.Thread? && s.tcb[t].state == STOPPED
    ensures Inv(Wakeup(s, t)) && t !in Wakeup(s, t).sched
    ensures Gain(Wakeup(s, t), c).sched == Wakeup(s, t).sched + [t]
  {
    ReachedInv(s);
    assert CoreOk(s, c) && ThreadOk(s, t);
    Spawner(s, t);
    ReadyInv(s, t);
    GainHasEffect(Wakeup(s, t), c);
  }

  // wakeup on a thread between sleep_releasing and yield: its core either goes
  // on with the thread or keeps it for its gain.
  lemma WakeupBeforeYield(s: State, c: nat, t: Tid, now: nat)
    requires Reached(s) && InMode(s, c, Slept) && s.core[c].current == t
    requires t in s.tcb && t.Thread? && s.tcb[t].state == STOPPED
    ensures Inv(Wakeup(s, t)) && t !in Wakeup(s, t).sched
    ensures var s' := Yield(Wakeup(s, t), c, now);
      && c < |s'.core| && t in s'.tcb && s'.tcb[t].state == READY
      && s'.core[c].mode == Switching && s'.core[c].previous == t
  {
    ReachedInv(s);
    assert CoreOk(s, c) && ThreadOk(s, t);
    Spawner(s, t);
    ReadyInv(s, t);
    var w := Wakeup(s, t);
    OfferInv(w, c);
    WakeExpiredFrame(Offer(w, c), now);
    var k := ExpiryIsExact(Offer(w, c), now);
  }

  // ------------------------------------------------------------------
  // Timeouts
  // ------------------------------------------------------------------

  // The timeout list is sorted and holds exactly the threads with a wakeup time;
  // they are blocked, and none of them is in the queue, which uses the same node.
  lemma TimeoutsAreExact(s: State, t: Tid)
    requires Reached(s) && t in s.tcb
    ensures Sorted(s.timeouts, s.tcb) && Distinct(s.timeouts)
    ensures t in s.timeouts <==> s.tcb[t].wakeup_time != NO_TIMEOUT
    ensures t in s.timeouts ==> s.tcb[t].state == STOPPED && t !in s.sched
  {
    ReachedInv(s);
    assert ThreadOk(s, t);
  }

  ghost function CleanOnes(q: seq<Tid>, tcb: map<Tid, TCB>): seq<Tid>
    requires forall i :: 0 <= i < |q| ==> q[i] in tcb
  {
    if q == [] then []
    else if tcb[q[0]].phase == CTX_CLEAN then [q[0]] + CleanOnes(q[1..], tcb)
    else CleanOnes(q[1..], tcb)
  }

  // The expiry loop makes ready exactly the sleepers that are due (the first k
  // of the list), queues those with a clean context in the order of their
  // times, and keeps the rest.
  lemma {:induction false} ExpiryIsExact(s: State, now: nat) returns (k: nat)
    requires Sorted(s.timeouts, s.tcb) && TimeoutsListed(s)
    ensures k <= |s.timeouts|
    ensures forall i :: 0 <= i < |s.timeouts| ==> (i < k <==> s.tcb[s.timeouts[i]].wakeup_time <= now)
    ensures ExpiryEffect(s, WakeExpired(s, now), k)
    decreases |s.timeouts|
  {
    if s.timeouts != [] && s.tcb[s.timeouts[0]].wakeup_time <= now {
      var m := MakeReady(s, s.timeouts[0]);
      ExpiryStep(s);
      var j := ExpiryIsExact(m, now);
      k := j + 1;
      forall i | 0 <= i < |s.timeouts| ensures i < k <==> s.tcb[s.timeouts[i]].wakeup_time <= now {
        if i > 0 { assert s.timeouts[i] == m.timeouts[i - 1]; }
      }
      ExpiryCompose(s, m, WakeExpired(m, now), j);
    } else {
      k := 0;
      assert s.timeouts[..0] == [] && s.sched + [] == s.sched;
    }
  }

  ghost predicate ExpiryEffect(s: State, s': State, k: nat)
    requires k <= |s.timeouts| && TimeoutsListed(s)
  {
    && s'.timeouts == s.timeouts[k..]
    && s'.sched == s.sched + CleanOnes(s.timeouts[..k], s.tcb)
    && s'.tcb.Keys == s.tcb.Keys
    && (forall t {:trigger Expired(s, s', s.timeouts[..k], t)} {:trigger s'.tcb[t]} ::
          t in s.tcb ==> Expired(s, s', s.timeouts[..k], t))
  }

  // What the expiry of the sleepers q does to thread t.
  ghost predicate Expired(s: State, s': State, q: seq<Tid>, t: Tid)
    requires t in s.tcb
  {
    t in s'.tcb && s'.tcb[t] == if t in q then s.tcb[t].(state := READY, wakeup_time := NO_TIMEOUT) else s.tcb[t]
  }

  lemma ExpiryStep(s: State)
    requires Sorted(s.timeouts, s.tcb) && TimeoutsListed(s) && s.timeouts != []
    ensures var m := MakeReady(s, s.timeouts[0]);
      && Sorted(m.timeouts, m.tcb) && TimeoutsListed(m) && m.timeouts == s.timeouts[1..]
      && (forall i :: 0 <= i < |m.timeouts| ==>
            m.timeouts[i] in s.tcb && m.tcb[m.timeouts[i]] == s.tcb[m.timeouts[i]] && m.timeouts[i] != s.timeouts[0])
  {
    WithoutHead(s.timeouts);
  }

  lemma ExpiryCompose(s: State, m: State, s': State, j: nat)
    requires Sorted(s.timeouts, s.tcb) && TimeoutsListed(s) && s.timeouts != []
    requires m == MakeReady(s, s.timeouts[0]) && TimeoutsListed(m) && m.timeouts == s.timeouts[1..]
    requires j <= |m.timeouts| && ExpiryEffect(m, s', j)
    ensures ExpiryEffect(s, s', j + 1)
  {
    var t, q := s.timeouts[0], m.timeouts[..j];
    var p := s.timeouts[..j + 1];
    assert p == [t] + q && p[1..] == q && t !in q;
    ExpiryQueue(s, m, t, p, q);
    forall u | u in s.tcb ensures Expired(s, s', p, u) { assert Expired(m, s', q, u); }
  }

  lemma ExpiryQueue(s: State, m: State, t: Tid, p: seq<Tid>, q: seq<Tid>)
    requires Stoppable(s, t) && m == MakeReady(s, t) && p == [t] + q && t !in q
    requires forall i :: 0 <= i < |p| ==> p[i] in s.tcb
    ensures forall i :: 0 <= i < |q| ==> q[i] in m.tcb
    ensures m.sched + CleanOnes(q, m.tcb) == s.sched + CleanOnes(p, s.tcb)
  {
    assert p[1..] == q;
    forall i | 0 <= i < |q| ensures q[i] in s.tcb && q[i] != t { assert p[i + 1] == q[i]; }
    CleanOnesFrame(q, m.tcb, s.tcb);
    AppendAssoc(s.sched, t, CleanOnes(q, s.tcb));
  }

  lemma {:induction false} CleanOnesFrame(q: seq<Tid>, a: map<Tid, TCB>, b: map<Tid, TCB>)
    requires forall i :: 0 <= i < |q| ==> q[i] in a && q[i] in b && a[q[i]].phase == b[q[i]].phase
    ensures CleanOnes(q, a) == CleanOnes(q, b)
  {
    if q == [] {
    } else {
      CleanOnesFrame(q[1..], a, b);
    }
  }

  // A sleep keeps the invariant exactly when the wakeup time it computes is not
  // the value that means "never". A sum that wraps around keeps the list intact;
  // what it does to the sleep is said in SchedRuns.
  lemma SleepKeepsInvIff(s: State, c: nat, timeout: nat, now: nat)
    requires Inv(s) && Acting(s, c)
    ensures Inv(Sleep(s, c, STOPPED, timeout, now)) <==> GoodTimeout(timeout, now)
  {
    if GoodTimeout(timeout, now) {
      SleepInv(s, c, STOPPED, timeout, now);
    } else {
      var s', t := Sleep(s, c, STOPPED, timeout, now), s.core[c].current;
      assert CoreOk(s, c) && ThreadOk(s, t);
      InsertSpec(s.timeouts, s'.tcb, t, NO_TIMEOUT);
      assert t in s'.timeouts && !ThreadOk(s', t);
    }
  }

  // A new sleeper goes after every earlier or equal wakeup time.
  lemma {:induction false} InsertIsStable(q: seq<Tid>, time: map<Tid, TCB>, t: Tid, w: nat) returns (k: nat)
    requires Sorted(q, time)
    ensures k <= |q| && InsertByTime(q, time, t, w) == q[..k] + [t] + q[k..]
    ensures forall i :: 0 <= i < |q| ==> (i < k <==> time[q[i]].wakeup_time <= w)
  {
    if q == [] || w < time[q[0]].wakeup_time {
      k := 0;
    } else {
      var j := InsertIsStable(q[1..], time, t, w);
      k := j + 1;
      assert q[..k] == [q[0]] + q[1..][..j] && q[k..] == q[1..][j..];
      forall i | 0 <= i < |q| ensures i < k <==> time[q[i]].wakeup_time <= w {
        if i > 0 { assert q[i] == q[1..][i - 1]; }
      }
    }
  }

  // ------------------------------------------------------------------
  // The queue is first in, first out
  // ------------------------------------------------------------------

  // A yield takes the head of the queue if there is one; every other step, and
  // the rest of a yield, only adds at the tail.
  lemma QueueStep(s: State, a: Step)
    requires Inv(s) && Enabled(s, a)
    ensures var s' := Apply(s, a);
      if a.DoYield? && s.sched != []
      then && s.sched[1..] <= s'.sched && a.c < |s'.core|
           && s'.core[a.c] == CCB(s.sched[0], s.core[a.c].current, Switching)
      else s.sched <= s'.sched
  {
    match a
    case DoYield(c, now) =>
      var o := Offer(s, c);
      OfferInv(s, c);
      WakeExpiredFrame(o, now);
      var k := ExpiryIsExact(o, now);
    case DoGain(c) =>
      assert CoreOk(s, c);
      GainHasEffect(s, c);
    case _ =>
  }

  ghost function Yields(acts: seq<Step>, i: nat, j: nat): nat
    requires i <= j <= |acts|
    decreases j - i
  {
    if i == j then 0 else (if acts[i].DoYield? then 1 else 0) + Yields(acts, i + 1, j)
  }

  // One step of the run, seen from position p of the queue.
  lemma FairStep(ss: seq<State>, acts: seq<Step>, i: nat, p: nat)
    requires IsRun(ss, acts) && i < |acts| && p < |ss[i].sched|
    ensures var t, s' := ss[i].sched[p], ss[i + 1];
      if acts[i].DoYield? && p == 0
      then acts[i].c < |s'.core| && s'.core[acts[i].c].mode == Switching && s'.core[acts[i].c].current == t
      else var q := if acts[i].DoYield? then p - 1 else p;
           q < |s'.sched| && s'.sched[q] == t
  {
    RunInv(ss, acts, i);
    var s, a := ss[i], acts[i];
    assert Enabled(s, a);
    QueueStep(s, a);
    if a.DoYield? && p > 0 { assert s.sched[1..][p - 1] == s.sched[p]; }
  }

  // A thread at position p of the queue is given a core within p + 1 yields,
  // whichever cores they happen on.
  lemma {:induction false} QueueIsFair(ss: seq<State>, acts: seq<Step>, i: nat, j: nat, p: nat)
      returns (m: nat, c: nat)
    requires IsRun(ss, acts) && i <= j <= |acts| && p < |ss[i].sched| && Yields(acts, i, j) > p
    ensures i < m <= j && c < |ss[m].core|
    ensures ss[m].core[c].mode == Switching && ss[m].core[c].current == ss[i].sched[p]
    decreases j - i
  {
    FairStep(ss, acts, i, p);
    if acts[i].DoYield? && p == 0 {
      m, c := i + 1, acts[i].c;
    } else {
      m, c := QueueIsFair(ss, acts, i + 1, j, if acts[i].DoYield? then p - 1 else p);
    }
  }

  // A core turns to its idle thread only with the queue empty and its own
  // thread not ready to go on.
  lemma IdleOnlyWhenNothingToDo(s: State, c: nat, now: nat)
    requires Inv(s) && (InMode(s, c, Running) || InMode(s, c, Slept))
    ensures var s' := Yield(s, c, now);
      c < |s'.core| && (s'.core[c].current == Idle(c) && s.core[c].current != Idle(c) ==>
        && s'.sched == []
        && s.core[c].current in s'.tcb && s'.tcb[s.core[c].current].state != READY)
  {
    OfferInv(s, c);
    WakeExpiredFrame(Offer(s, c), now);
    WakeExpiredInv(Offer(s, c), now);
    SelectIsReady(WakeExpired(Offer(s, c), now), c);
  }
}
