// The invariant of the scheduler and the proof that every step keeps it.
module SchedInv {
  import opened Lists
  import opened Sched

  // ------------------------------------------------------------------
  // Steps
  // ------------------------------------------------------------------

  datatype Step =
    | DoSpawnAlloc(c: nat, t: Tid)
    | DoSpawnCount(c: nat)
    | DoWakeup(t: Tid)
    | DoSleep(c: nat, newstate: ThreadState, timeout: nat, now: nat)
    | DoYield(c: nat, now: nat)
    | DoGain(c: nat)
    | DoReleaseCount(c: nat)
    | DoIdleExit(c: nat)

  ghost predicate InMode(s: State, c: nat, m: Mode) {
    c < |s.core| && s.core[c].mode == m && s.core[c].current in s.tcb
  }

  // A normal thread executing its own code, not inside spawn_thread.
  ghost predicate Acting(s: State, c: nat) {
    InMode(s, c, Running) && s.core[c].current.Thread? && s.core[c].current !in s.spawning
  }

  // curtime + timeout must not come out as the value that means "never".
  predicate GoodTimeout(timeout: nat, now: nat) {
    timeout == NO_TIMEOUT || (now + timeout) % TIME_LIMIT != NO_TIMEOUT
  }

  ghost predicate Enabled(s: State, a: Step) {
    match a
    case DoSpawnAlloc(c, t) => Acting(s, c) && t.Thread? && t !in s.tcb
    case DoSpawnCount(c) => InMode(s, c, Running) && s.core[c].current in s.spawning
    // a TCB is not known to anyone before spawn_thread returns it
    case DoWakeup(t) => t in s.tcb && t !in s.spawning.Values
    case DoSleep(c, newstate, timeout, now) =>
      Acting(s, c) && (newstate == STOPPED || newstate == EXITED) && GoodTimeout(timeout, now)
    case DoYield(c, now) => InMode(s, c, Running) || InMode(s, c, Slept)
    case DoGain(c) => InMode(s, c, Switching)
    case DoReleaseCount(c) => InMode(s, c, Releasing)
    case DoIdleExit(c) => InMode(s, c, Running) && s.core[c].current == Idle(c) && s.active == 0
  }

  ghost function Apply(s: State, a: Step): State
    requires Inv(s) && Enabled(s, a)
  {
    match a
    case DoSpawnAlloc(c, t) => SpawnAlloc(s, s.core[c].current, t)
    case DoSpawnCount(c) => SpawnCount(s, s.core[c].current)
    case DoWakeup(t) => Wakeup(s, t)
    case DoSleep(c, newstate, timeout, now) => Sleep(s, c, newstate, timeout, now)
    case DoYield(c, now) => Yield(s, c, now)
    case DoGain(c) => assert CoreOk(s, c); Gain(s, c)
    case DoReleaseCount(c) => ReleaseCount(s, c)
    case DoIdleExit(c) => IdleExit(s, c)
  }

  // ------------------------------------------------------------------
  // The invariant
  // ------------------------------------------------------------------

  ghost predicate Owns(s: State, c: nat, t: Tid) {
    t in s.owner && s.owner[t] == c
  }

  ghost predicate Executing(s: State, c: nat) {
    c < |s.core| && s.core[c].mode != Slept && s.core[c].mode != Switching
  }

  ghost predicate CoreOk(s: State, c: nat)
    requires c < |s.core|
  {
    var k := s.core[c];
    && k.current in s.tcb && Owns(s, c, k.current)
    && match k.mode
       case Slept =>
         && s.tcb[k.current].phase == CTX_DIRTY
         && (s.tcb[k.current].state == STOPPED || s.tcb[k.current].state == READY || s.tcb[k.current].state == EXITED)
       case Switching =>
         && k.previous in s.tcb && Owns(s, c, k.previous)
         && s.tcb[k.previous].phase == CTX_DIRTY && s.tcb[k.current].state == READY
         && (k.current != k.previous ==>
               && s.tcb[k.current].phase == CTX_CLEAN
               && (s.tcb[k.previous].state == READY || s.tcb[k.previous].state == STOPPED
                   || s.tcb[k.previous].state == EXITED))
       case _ =>
         && s.tcb[k.current].phase == CTX_DIRTY && s.tcb[k.current].state == RUNNING
         && (k.mode == Left ==> k.current == Idle(c))
  }

  ghost predicate OwnerOk(s: State, t: Tid)
    requires t in s.owner
  {
    var c := s.owner[t];
    && t in s.tcb && c < |s.core|
    && (s.core[c].current == t || (s.core[c].mode == Switching && s.core[c].previous == t))
    && (t.Idle? ==> t.core == c)
  }

  // The queue holds exactly the normal threads that are READY, CTX_CLEAN and
  // not on their way to a core.
  ghost predicate Queueable(s: State, t: Tid) {
    && t in s.tcb && s.tcb[t].kind == NORMAL_THREAD
    && s.tcb[t].state == READY && s.tcb[t].phase == CTX_CLEAN && t !in s.owner
  }

  ghost predicate ThreadOk(s: State, t: Tid)
    requires t in s.tcb
  {
    var b := s.tcb[t];
    && (b.kind == IDLE_THREAD <==> t.Idle?)
    && (t.Idle? ==> t.core < |s.core| && (b.state == READY || b.state == RUNNING))
    && (t in s.sched <==> Queueable(s, t))
    && (t in s.timeouts <==> b.wakeup_time != NO_TIMEOUT)
    && (t in s.timeouts ==> b.state == STOPPED)
    && (b.phase == CTX_DIRTY ==> t in s.owner)
    && (b.state == RUNNING ==> t in s.owner && Executing(s, s.owner[t]))
    && (b.state == EXITED ==> b.phase == CTX_DIRTY)
    && (b.state == INIT ==> b.phase == CTX_CLEAN && t !in s.owner)
    && (b.state == STOPPED && t in s.owner ==> b.phase == CTX_DIRTY)
  }

  ghost predicate CoresInv(s: State) {
    && (forall c: nat {:trigger CoreOk(s, c)} :: c < |s.core| ==> CoreOk(s, c))
    && (forall c: nat {:trigger Idle(c)} :: c < |s.core| ==> Idle(c) in s.tcb)
  }

  ghost predicate OwnersInv(s: State) {
    forall t {:trigger OwnerOk(s, t)} :: t in s.owner ==> OwnerOk(s, t)
  }

  ghost predicate ThreadsInv(s: State) {
    forall t {:trigger ThreadOk(s, t)} :: t in s.tcb ==> ThreadOk(s, t)
  }

  ghost predicate ListsInv(s: State) {
    && Distinct(s.sched) && Sorted(s.timeouts, s.tcb) && TimeoutsListed(s)
    && (forall i :: 0 <= i < |s.sched| ==> s.sched[i] in s.tcb)
  }

  ghost predicate SpawnOk(s: State, p: Tid)
    requires p in s.spawning
  {
    && p in s.tcb && p.Thread? && (s.tcb[p].state == READY || s.tcb[p].state == RUNNING)
    && s.spawning[p] in s.tcb && s.spawning[p].Thread? && s.tcb[s.spawning[p]].state == INIT
  }

  ghost predicate SpawnInv(s: State) {
    forall p {:trigger SpawnOk(s, p)} :: p in s.spawning ==> SpawnOk(s, p)
  }

  ghost function Live(s: State): set<Tid> {
    set t | t in s.tcb && t.Thread?
  }

  ghost function ReleasingCores(s: State): set<nat> {
    set c: nat | c < |s.core| && s.core[c].mode == Releasing
  }

  // active_threads, and what is still to be counted in or out.
  ghost predicate CountInv(s: State) {
    && s.active + |s.spawning| == |Live(s)| + |ReleasingCores(s)|
    && ((exists c: nat :: c < |s.core| && s.core[c].mode == Left) ==> Live(s) == {})
  }

  ghost predicate Inv(s: State) {
    CoresInv(s) && OwnersInv(s) && ThreadsInv(s) && ListsInv(s) && SpawnInv(s) && CountInv(s)
  }

  // The state in which the cores enter run_scheduler: core 0 has executed Exec
  // for the init process, whose main thread is READY in the queue.
  ghost predicate Init(s: State) {
    && |s.core| > 0
    && (forall t :: t in s.tcb <==> t == Thread(0) || (t.Idle? && t.core < |s.core|))
    && (forall t :: t in s.owner <==> t.Idle? && t.core < |s.core|)
    && (forall c: nat :: c < |s.core| ==>
          && s.core[c].current == Idle(c) && s.core[c].mode == Running && Owns(s, c, Idle(c))
          && Idle(c) in s.tcb && s.tcb[Idle(c)] == TCB(IDLE_THREAD, RUNNING, CTX_DIRTY, NO_TIMEOUT))
    && Thread(0) in s.tcb && s.tcb[Thread(0)] == TCB(NORMAL_THREAD, READY, CTX_CLEAN, NO_TIMEOUT)
    && s.sched == [Thread(0)] && s.timeouts == [] && s.active == 1 && s.spawning == map[]
  }

  lemma Owned(s: State, t: Tid)
    requires OwnersInv(s)
    ensures t in s.owner ==> OwnerOk(s, t)
  {
    if t in s.owner { assert OwnerOk(s, t); }
  }

  lemma Spawner(s: State, p: Tid)
    requires SpawnInv(s)
    ensures p in s.spawning ==> SpawnOk(s, p)
    ensures p in s.spawning.Values ==> p in s.tcb && s.tcb[p].state == INIT
  {
    if p in s.spawning { assert SpawnOk(s, p); }
    if p in s.spawning.Values {
      var q :| q in s.spawning && s.spawning[q] == p;
      assert SpawnOk(s, q);
    }
  }

  ghost predicate SameTimer(s: State, s': State, t: Tid) {
    t in s.tcb ==> t in s'.tcb && s'.tcb[t].state == s.tcb[t].state && s'.tcb[t].wakeup_time == s.tcb[t].wakeup_time
  }

  // The timeout list stays in order when its threads keep state and time.
  lemma TimeoutsFrame(s: State, s': State)
    requires ListsInv(s) && s'.timeouts == s.timeouts
    requires forall t :: t in s.timeouts ==> SameTimer(s, s', t)
    ensures Sorted(s'.timeouts, s'.tcb) && TimeoutsListed(s')
  {
    forall i | 0 <= i < |s.timeouts| ensures SameTimer(s, s', s.timeouts[i]) {
      assert s.timeouts[i] in s.timeouts;
    }
  }

  lemma InitInv(s: State)
    requires Init(s)
    ensures Inv(s)
  {
    forall t | t in s.tcb ensures ThreadOk(s, t) { assert t.Idle? ==> s.core[t.core].mode == Running; }
    forall t | t in s.owner ensures OwnerOk(s, t) { assert s.core[t.core].current == t; }
    assert Live(s) == {Thread(0)};
    assert ReleasingCores(s) == {};
  }

  // ------------------------------------------------------------------
  // MakeReady, the common part of wakeup and of the expiry loop
  // ------------------------------------------------------------------

  lemma {:induction false} WithoutSorted(q: seq<Tid>, t: Tid, time: map<Tid, TCB>)
    requires Distinct(q) && Sorted(q, time)
    ensures Sorted(Without(q, t), time)
  {
    if q == [] || q[0] == t {
    } else {
      assert q == [q[0]] + q[1..];
      WithoutSorted(q[1..], t, time);
      WithoutSpec(q[1..], t);
      var w := Without(q[1..], t);
      forall i | 0 <= i < |w| ensures time[q[0]].wakeup_time <= time[w[i]].wakeup_time {
        assert w[i] in w && w[i] in q[1..];
      }
    }
  }

  ghost predicate SameCores(s: State, s': State) {
    && s'.core == s.core && s'.owner == s.owner && s'.active == s.active
    && s'.spawning == s.spawning && s'.tcb.Keys == s.tcb.Keys
  }

  lemma ReadyTimeouts(s: State, t: Tid)
    requires ListsInv(s) && Stoppable(s, t)
    ensures var q := Without(s.timeouts, t);
      && Distinct(q) && Sorted(q, s.tcb) && (t !in s.timeouts ==> q == s.timeouts)
      && (forall u :: u in q <==> u in s.timeouts && u != t)
      && (forall i :: 0 <= i < |q| ==> q[i] in s.timeouts && q[i] != t)
  {
    var q := Without(s.timeouts, t);
    WithoutSpec(s.timeouts, t);
    WithoutSorted(s.timeouts, t, s.tcb);
    forall i | 0 <= i < |q| ensures q[i] in s.timeouts && q[i] != t { assert q[i] in q; }
  }

  lemma ReadyLists(s: State, t: Tid)
    requires ListsInv(s) && Stoppable(s, t) && t !in s.sched
    requires t in s.timeouts <==> s.tcb[t].wakeup_time != NO_TIMEOUT
    ensures ListsInv(MakeReady(s, t))
    ensures forall u :: u in MakeReady(s, t).timeouts <==> u in s.timeouts && u != t
    ensures forall u :: u in MakeReady(s, t).sched <==> u in s.sched || (u == t && s.tcb[t].phase == CTX_CLEAN)
  {
    var s' := MakeReady(s, t);
    var mid := s.(timeouts := s'.timeouts);
    ReadyTimeouts(s, t);
    TimeoutsFrame(mid, s');
  }

  lemma ReadyInv(s: State, t: Tid)
    requires Inv(s) && Stoppable(s, t) && t !in s.spawning.Values
    ensures Inv(MakeReady(s, t))
  {
    assert ThreadOk(s, t);
    var s' := MakeReady(s, t);
    ReadyLists(s, t);
    forall u | u in s'.tcb ensures ThreadOk(s', u) { assert ThreadOk(s, u); }
    forall c: nat | c < |s'.core| ensures CoreOk(s', c) { assert CoreOk(s, c); }
    forall u | u in s'.owner ensures OwnerOk(s', u) { assert OwnerOk(s, u); }
    forall p | p in s'.spawning ensures SpawnOk(s', p) {
      assert SpawnOk(s, p) && s.spawning[p] in s.spawning.Values;
    }
    assert Live(s') == Live(s) && ReleasingCores(s') == ReleasingCores(s);
  }

  lemma {:induction false} WakeExpiredInv(s: State, now: nat)
    requires Inv(s)
    ensures Inv(WakeExpired(s, now))
    ensures SameCores(s, WakeExpired(s, now))
    decreases |s.timeouts|
  {
    if s.timeouts == [] || now < s.tcb[s.timeouts[0]].wakeup_time {
    } else {
      var t := s.timeouts[0];
      Spawner(s, t);
      ReadyInv(s, t);
      MakeReadyListed(s);
      WakeExpiredInv(MakeReady(s, t), now);
    }
  }

  // ------------------------------------------------------------------
  // The sections of yield
  // ------------------------------------------------------------------

  lemma OfferInv(s: State, c: nat)
    requires Inv(s) && (InMode(s, c, Running) || InMode(s, c, Slept))
    ensures Inv(Offer(s, c))
  {
    var s', t := Offer(s, c), s.core[c].current;
    assert CoreOk(s, c) && ThreadOk(s, t);
    forall u | u in s'.tcb ensures ThreadOk(s', u) {
      assert ThreadOk(s, u);
      Owned(s, u);
    }
    OfferCores(s, c);
    assert Live(s') == Live(s) && ReleasingCores(s') == ReleasingCores(s);
  }

  lemma OfferCores(s: State, c: nat)
    requires Inv(s) && (InMode(s, c, Running) || InMode(s, c, Slept))
    ensures CoresInv(Offer(s, c)) && OwnersInv(Offer(s, c)) && SpawnInv(Offer(s, c))
  {
    var s' := Offer(s, c);
    assert CoreOk(s, c);
    forall d: nat | d < |s'.core| ensures CoreOk(s', d) { assert CoreOk(s, d); }
    forall u | u in s'.owner ensures OwnerOk(s', u) { assert OwnerOk(s, u); }
    forall p | p in s'.spawning ensures SpawnOk(s', p) { assert SpawnOk(s, p); }
  }

  // What sched_queue_select returns may be switched to.
  lemma SelectIsReady(s: State, c: nat)
    requires Inv(s) && InMode(s, c, Slept)
    ensures var next := Select(s, c, s.core[c].current);
      && next in s.tcb && s.tcb[next].state == READY
      && (next != s.core[c].current ==> s.tcb[next].phase == CTX_CLEAN && next !in s.owner)
      && (s.sched != [] ==> next.Thread?)
      && (next.Idle? ==> next.core == c)
  {
    var cur := s.core[c].current;
    var next := Select(s, c, cur);
    assert CoreOk(s, c) && ThreadOk(s, cur) && OwnerOk(s, cur);
    if s.sched != [] {
      assert s.sched[0] in s.sched && ThreadOk(s, s.sched[0]);
    } else if s.tcb[cur].state != READY {
      assert ThreadOk(s, Idle(c));
      Owned(s, Idle(c));
    }
  }

  lemma SwitchThread(s: State, c: nat, u: Tid)
    requires Inv(s) && InMode(s, c, Slept) && u in s.tcb
    ensures ThreadOk(Switch(s, c), u)
  {
    var s' := Switch(s, c);
    assert CoreOk(s, c) && ThreadOk(s, u);
    SelectIsReady(s, c);
    assert s.sched != [] ==> s.sched == [s.sched[0]] + s'.sched;
    Owned(s, u);
  }

  lemma SwitchCores(s: State, c: nat)
    requires Inv(s) && InMode(s, c, Slept)
    ensures CoresInv(Switch(s, c)) && OwnersInv(Switch(s, c))
  {
    var s' := Switch(s, c);
    assert CoreOk(s, c);
    SelectIsReady(s, c);
    forall d: nat | d < |s'.core| ensures CoreOk(s', d) { assert CoreOk(s, d); }
    forall u | u in s'.owner ensures OwnerOk(s', u) { Owned(s, u); }
  }

  lemma SwitchInv(s: State, c: nat)
    requires Inv(s) && InMode(s, c, Slept)
    ensures Inv(Switch(s, c))
  {
    var s' := Switch(s, c);
    SwitchCores(s, c);
    forall u | u in s'.tcb ensures ThreadOk(s', u) { SwitchThread(s, c, u); }
    assert s.sched != [] ==> s.sched == [s.sched[0]] + s'.sched;
    forall p | p in s'.spawning ensures SpawnOk(s', p) { assert SpawnOk(s, p); }
    assert Live(s') == Live(s) && ReleasingCores(s') == ReleasingCores(s);
  }

  lemma YieldInv(s: State, c: nat, now: nat)
    requires Inv(s) && (InMode(s, c, Running) || InMode(s, c, Slept))
    ensures Inv(Yield(s, c, now))
  {
    OfferInv(s, c);
    WakeExpiredFrame(Offer(s, c), now);
    WakeExpiredInv(Offer(s, c), now);
    SwitchInv(WakeExpired(Offer(s, c), now), c);
  }

  // ------------------------------------------------------------------
  // The section of gain
  // ------------------------------------------------------------------

  // gain, field by field.
  ghost predicate GainEffect(s: State, s': State, c: nat)
    requires InMode(s, c, Switching) && s.core[c].previous in s.tcb
  {
    var cur, prev := s.core[c].current, s.core[c].previous;
    var gone := cur != prev && s.tcb[prev].state == EXITED;
    && |s'.core| == |s.core|
    && (forall d: nat {:trigger s'.core[d]} :: d < |s.core| && d != c ==> s'.core[d] == s.core[d])
    && s'.core[c] == s.core[c].(mode := if gone then Releasing else Running)
    && (forall u :: u in s'.tcb <==> u in s.tcb && !(u == prev && gone))
    && (forall u :: u in s'.tcb ==>
          s'.tcb[u] == (if u == cur then s.tcb[u].(state := RUNNING, phase := CTX_DIRTY)
                        else if u == prev then s.tcb[u].(phase := CTX_CLEAN) else s.tcb[u]))
    && s'.sched == (if cur != prev && s.tcb[prev].state == READY && s.tcb[prev].kind != IDLE_THREAD
                    then s.sched + [prev] else s.sched)
    && (forall u :: u in s'.owner <==> u in s.owner && (u == prev ==> u == cur))
    && (forall u :: u in s'.owner ==> s'.owner[u] == s.owner[u])
    && s'.timeouts == s.timeouts && s'.spawning == s.spawning && s'.active == s.active
  }

  lemma GainHasEffect(s: State, c: nat)
    requires InMode(s, c, Switching) && s.core[c].previous in s.tcb
    ensures GainEffect(s, Gain(s, c), c)
  {
  }

  lemma GainThread(s: State, s': State, c: nat, u: Tid)
    requires Inv(s) && InMode(s, c, Switching) && s.core[c].previous in s.tcb && GainEffect(s, s', c) && u in s'.tcb
    ensures ThreadOk(s', u)
  {
    var cur, prev := s.core[c].current, s.core[c].previous;
    assert CoreOk(s, c) && ThreadOk(s, u) && ThreadOk(s, cur) && ThreadOk(s, prev);
    Owned(s, u);
  }

  lemma GainLists(s: State, s': State, c: nat)
    requires Inv(s) && InMode(s, c, Switching) && s.core[c].previous in s.tcb && GainEffect(s, s', c)
    ensures ListsInv(s')
  {
    var cur, prev := s.core[c].current, s.core[c].previous;
    assert CoreOk(s, c) && ThreadOk(s, cur) && ThreadOk(s, prev);
    forall t | t in s.timeouts ensures SameTimer(s, s', t) {
      if t in s.tcb { assert ThreadOk(s, t); }
    }
    TimeoutsFrame(s, s');
    forall i | 0 <= i < |s.sched| ensures s.sched[i] in s'.tcb && s.sched[i] != prev {
      assert s.sched[i] in s.sched && ThreadOk(s, s.sched[i]);
    }
  }

  lemma GainCores(s: State, s': State, c: nat)
    requires Inv(s) && InMode(s, c, Switching) && s.core[c].previous in s.tcb && GainEffect(s, s', c)
    ensures CoresInv(s') && OwnersInv(s') && SpawnInv(s')
  {
    var cur, prev := s.core[c].current, s.core[c].previous;
    assert CoreOk(s, c) && ThreadOk(s, prev) && ThreadOk(s, cur) && OwnerOk(s, cur);
    forall d: nat | d < |s'.core| ensures CoreOk(s', d) { assert CoreOk(s, d); }
    forall u | u in s'.owner ensures OwnerOk(s', u) { Owned(s, u); }
    forall p | p in s'.spawning ensures SpawnOk(s', p) { assert SpawnOk(s, p); }
  }

  lemma GainCount(s: State, s': State, c: nat)
    requires Inv(s) && InMode(s, c, Switching) && s.core[c].previous in s.tcb && GainEffect(s, s', c)
    ensures CountInv(s')
  {
    var prev := s.core[c].previous;
    assert CoreOk(s, c) && ThreadOk(s, prev);
    if s'.core[c].mode == Releasing {
      assert Live(s') == Live(s) - {prev} && prev in Live(s);
      OneMoreReleasing(s, s', c);
    } else {
      assert Live(s') == Live(s);
      assert ReleasingCores(s') == ReleasingCores(s);
    }
    LeftCores(s, s', c);
  }

  lemma OneMoreReleasing(s: State, s': State, c: nat)
    requires |s'.core| == |s.core| && c < |s.core| && s.core[c].mode != Releasing && s'.core[c].mode == Releasing
    requires forall d: nat {:trigger s'.core[d]} :: d < |s.core| && d != c ==> s'.core[d] == s.core[d]
    ensures |ReleasingCores(s')| == |ReleasingCores(s)| + 1
  {
    assert ReleasingCores(s') == ReleasingCores(s) + {c};
  }

  // A core that has left has seen no thread.
  lemma LeftCores(s: State, s': State, c: nat)
    requires CountInv(s) && |s'.core| == |s.core| && c < |s.core| && s'.core[c].mode != Left
    requires forall d: nat {:trigger s'.core[d]} :: d < |s.core| && d != c ==> s'.core[d] == s.core[d]
    requires Live(s') <= Live(s)
    ensures (exists d: nat :: d < |s'.core| && s'.core[d].mode == Left) ==> Live(s') == {}
  {
    forall d: nat | d < |s'.core| && s'.core[d].mode == Left ensures Live(s') == {} {
      assert s.core[d].mode == Left;
    }
  }

  lemma GainInv(s: State, c: nat)
    requires Inv(s) && InMode(s, c, Switching) && s.core[c].previous in s.tcb
    ensures Inv(Gain(s, c))
  {
    var s' := Gain(s, c);
    GainHasEffect(s, c);
    forall u | u in s'.tcb ensures ThreadOk(s', u) { GainThread(s, s', c, u); }
    GainLists(s, s', c);
    GainCores(s, s', c);
    GainCount(s, s', c);
  }

  // ------------------------------------------------------------------
  // The section of sleep_releasing
  // ------------------------------------------------------------------

  lemma {:induction false} InsertSpec(q: seq<Tid>, time: map<Tid, TCB>, t: Tid, w: nat)
    requires Sorted(q, time) && t in time && time[t].wakeup_time == w && Distinct(q) && t !in q
    ensures Sorted(InsertByTime(q, time, t, w), time) && Distinct(InsertByTime(q, time, t, w))
    ensures forall u :: u in InsertByTime(q, time, t, w) <==> u in q || u == t
  {
    if q == [] || w < time[q[0]].wakeup_time {
    } else {
      assert q == [q[0]] + q[1..];
      InsertSpec(q[1..], time, t, w);
      var r := InsertByTime(q[1..], time, t, w);
      forall i | 0 <= i < |r| ensures time[q[0]].wakeup_time <= time[r[i]].wakeup_time && r[i] != q[0] {
        assert r[i] in r;
        if r[i] != t { assert r[i] in q[1..]; }
      }
    }
  }

  ghost predicate MaySleep(s: State, c: nat, newstate: ThreadState, timeout: nat, now: nat) {
    Acting(s, c) && (newstate == STOPPED || newstate == EXITED) && GoodTimeout(timeout, now)
  }

  lemma SleepLists(s: State, c: nat, newstate: ThreadState, timeout: nat, now: nat)
    requires Inv(s) && MaySleep(s, c, newstate, timeout, now)
    ensures var s' := Sleep(s, c, newstate, timeout, now);
      && ListsInv(s')
      && (forall u :: u in s'.timeouts <==>
            u in s.timeouts || (u == s.core[c].current && newstate == STOPPED && timeout != NO_TIMEOUT))
  {
    var s', t := Sleep(s, c, newstate, timeout, now), s.core[c].current;
    assert CoreOk(s, c) && ThreadOk(s, t);
    if newstate == STOPPED && timeout != NO_TIMEOUT {
      InsertSpec(s.timeouts, s'.tcb, t, (now + timeout) % TIME_LIMIT);
      forall i | 0 <= i < |s'.timeouts| ensures s'.timeouts[i] == t || s'.timeouts[i] in s.timeouts {
        assert s'.timeouts[i] in s'.timeouts;
      }
    }
  }

  lemma SleepInv(s: State, c: nat, newstate: ThreadState, timeout: nat, now: nat)
    requires Inv(s) && MaySleep(s, c, newstate, timeout, now)
    ensures Inv(Sleep(s, c, newstate, timeout, now))
  {
    var s', t := Sleep(s, c, newstate, timeout, now), s.core[c].current;
    assert CoreOk(s, c) && ThreadOk(s, t);
    SleepLists(s, c, newstate, timeout, now);
    forall u | u in s'.tcb ensures ThreadOk(s', u) {
      assert ThreadOk(s, u);
      Owned(s, u);
    }
    SleepCores(s, c, newstate, timeout, now);
    assert Live(s') == Live(s) && ReleasingCores(s') == ReleasingCores(s);
  }

  lemma SleepCores(s: State, c: nat, newstate: ThreadState, timeout: nat, now: nat)
    requires Inv(s) && MaySleep(s, c, newstate, timeout, now)
    ensures var s' := Sleep(s, c, newstate, timeout, now); CoresInv(s') && OwnersInv(s') && SpawnInv(s')
  {
    var s' := Sleep(s, c, newstate, timeout, now);
    assert CoreOk(s, c);
    forall d: nat | d < |s'.core| ensures CoreOk(s', d) { assert CoreOk(s, d); }
    forall u | u in s'.owner ensures OwnerOk(s', u) { Owned(s, u); }
    forall p | p in s'.spawning ensures SpawnOk(s', p) { assert SpawnOk(s, p); }
  }

  // ------------------------------------------------------------------
  // Creation, counting, and leaving
  // ------------------------------------------------------------------

  lemma SpawnAllocInv(s: State, c: nat, t: Tid)
    requires Inv(s) && Acting(s, c) && t.Thread? && t !in s.tcb
    ensures Inv(SpawnAlloc(s, s.core[c].current, t))
  {
    var p := s.core[c].current;
    var s' := SpawnAlloc(s, p, t);
    assert CoreOk(s, c) && ThreadOk(s, p);
    Owned(s, t);
    forall u | u in s'.tcb ensures ThreadOk(s', u) {
      if u in s.tcb { assert ThreadOk(s, u); }
    }
    SpawnAllocCores(s, c, t);
    SpawnAllocCount(s, c, t);
  }

  lemma SpawnAllocCores(s: State, c: nat, t: Tid)
    requires Inv(s) && Acting(s, c) && t.Thread? && t !in s.tcb
    ensures var s' := SpawnAlloc(s, s.core[c].current, t); CoresInv(s') && OwnersInv(s') && SpawnInv(s')
  {
    var p := s.core[c].current;
    var s' := SpawnAlloc(s, p, t);
    assert CoreOk(s, c) && ThreadOk(s, p);
    forall d: nat | d < |s'.core| ensures CoreOk(s', d) { assert CoreOk(s, d); }
    forall u | u in s'.owner ensures OwnerOk(s', u) { assert OwnerOk(s, u); }
    forall q | q in s'.spawning ensures SpawnOk(s', q) {
      if q != p { assert SpawnOk(s, q); }
    }
  }

  lemma SpawnAllocCount(s: State, c: nat, t: Tid)
    requires Inv(s) && Acting(s, c) && t.Thread? && t !in s.tcb
    ensures CountInv(SpawnAlloc(s, s.core[c].current, t))
  {
    var p := s.core[c].current;
    var s' := SpawnAlloc(s, p, t);
    assert CoreOk(s, c) && p in Live(s);
    assert Live(s') == Live(s) + {t};
    assert s'.spawning.Keys == s.spawning.Keys + {p};
    assert |s'.spawning.Keys| == |s.spawning.Keys| + 1;
    assert ReleasingCores(s') == ReleasingCores(s);
  }

  lemma SpawnCountInv(s: State, p: Tid)
    requires Inv(s) && p in s.spawning
    ensures Inv(SpawnCount(s, p))
  {
    var s' := SpawnCount(s, p);
    forall u | u in s'.tcb ensures ThreadOk(s', u) { assert ThreadOk(s, u); }
    forall d: nat | d < |s'.core| ensures CoreOk(s', d) { assert CoreOk(s, d); }
    forall u | u in s'.owner ensures OwnerOk(s', u) { assert OwnerOk(s, u); }
    forall q | q in s'.spawning ensures SpawnOk(s', q) { assert SpawnOk(s, q); }
    assert CountInv(s') by { SpawnCountCount(s, p); }
  }

  lemma SpawnCountCount(s: State, p: Tid)
    requires CountInv(s) && p in s.spawning
    ensures CountInv(SpawnCount(s, p))
  {
    var s' := SpawnCount(s, p);
    SameThreads(s, s');
    OneKeyLess(s.spawning, p);
  }

  lemma SameThreads(s: State, s': State)
    requires s'.tcb == s.tcb && s'.core == s.core
    ensures Live(s') == Live(s) && ReleasingCores(s') == ReleasingCores(s)
  {
  }

  lemma OneKeyLess(m: map<Tid, Tid>, p: Tid)
    requires p in m
    ensures |m - {p}| == |m| - 1
  {
    assert (m - {p}).Keys == m.Keys - {p};
    assert |(m - {p}).Keys| == |m - {p}| && |m.Keys| == |m|;
  }

  // Only the mode of an executing core and the counter change.
  ghost predicate ModeChange(s: State, c: nat, s': State, m: Mode) {
    && Inv(s) && (InMode(s, c, Running) || InMode(s, c, Releasing))
    && (m == Running || (m == Left && s.core[c].current == Idle(c)))
    && s' == s.(core := s.core[c := s.core[c].(mode := m)], active := s'.active)
  }

  lemma ModeChangeInv(s: State, c: nat, s': State, m: Mode)
    requires ModeChange(s, c, s', m) && CountInv(s')
    ensures Inv(s')
  {
    assert CoreOk(s, c);
    forall u | u in s'.tcb ensures ThreadOk(s', u) { assert ThreadOk(s, u); }
    forall d: nat | d < |s'.core| ensures CoreOk(s', d) { assert CoreOk(s, d); }
    forall u | u in s'.owner ensures OwnerOk(s', u) { assert OwnerOk(s, u); }
    forall q | q in s'.spawning ensures SpawnOk(s', q) { assert SpawnOk(s, q); }
  }

  lemma ReleaseCountInv(s: State, c: nat)
    requires Inv(s) && InMode(s, c, Releasing)
    ensures Inv(ReleaseCount(s, c))
  {
    var s' := ReleaseCount(s, c);
    assert Live(s') == Live(s);
    assert ReleasingCores(s) == ReleasingCores(s') + {c};
    ModeChangeInv(s, c, s', Running);
  }

  // When active_threads is read as 0 there is no normal thread left, not even
  // one that is being created or released.
  lemma NoThreadsLeft(s: State)
    requires Inv(s) && s.active == 0
    ensures Live(s) == {} && s.spawning == map[] && ReleasingCores(s) == {}
  {
    if s.spawning != map[] {
      var p :| p in s.spawning;
      assert SpawnOk(s, p);
      Spawner(s, s.spawning[p]);
      forall q | q in s.spawning.Keys ensures q in Live(s) { assert SpawnOk(s, q); }
      SubsetSize(s.spawning.Keys + {s.spawning[p]}, Live(s));
    }
    assert |s.spawning| == 0;
  }

  lemma IdleExitInv(s: State, c: nat)
    requires Inv(s) && InMode(s, c, Running) && s.core[c].current == Idle(c) && s.active == 0
    ensures Inv(IdleExit(s, c))
  {
    var s' := IdleExit(s, c);
    NoThreadsLeft(s);
    assert Live(s') == Live(s) && ReleasingCores(s') == ReleasingCores(s);
    ModeChangeInv(s, c, s', Left);
  }

  lemma StepInv(s: State, a: Step)
    requires Inv(s) && Enabled(s, a)
    ensures Inv(Apply(s, a))
  {
    match a
    case DoSpawnAlloc(c, t) => SpawnAllocInv(s, c, t);
    case DoSpawnCount(c) => SpawnCountInv(s, s.core[c].current);
    case DoWakeup(t) => if Stoppable(s, t) { ReadyInv(s, t); }
    case DoSleep(c, newstate, timeout, now) => SleepInv(s, c, newstate, timeout, now);
    case DoYield(c, now) => YieldInv(s, c, now);
    case DoGain(c) => assert CoreOk(s, c); GainInv(s, c);
    case DoReleaseCount(c) => ReleaseCountInv(s, c);
    case DoIdleExit(c) => IdleExitInv(s, c);
  }
}
