// The scheduler of kernel_sched.c as a step system over any number of cores and
// threads. Every section under sched_spinlock is one step; a core that is
// between two sections of the same call has a mode that says where it is.
module Sched {
  import opened Lists

  // The idle thread is a field of its core's control block; other TCBs are
  // allocated by spawn_thread.
  datatype Tid = Idle(core: nat) | Thread(id: nat)

  datatype Kind = IDLE_THREAD | NORMAL_THREAD
  datatype ThreadState = INIT | READY | RUNNING | STOPPED | EXITED
  datatype Phase = CTX_CLEAN | CTX_DIRTY

  // TimerDuration is an unsigned 64-bit number and its maximum means "never".
  const TIME_LIMIT: nat := 0x1_0000_0000_0000_0000
  const NO_TIMEOUT: nat := 0xFFFF_FFFF_FFFF_FFFF

  datatype TCB = TCB(kind: Kind, state: ThreadState, phase: Phase, wakeup_time: nat)

  // Running:   executing the current thread
  // Slept:     on its way into yield, with a thread that is no longer running
  // Switching: between the section of yield and the one of gain
  // Releasing: in gain, between freeing a TCB and counting it out
  // Left:      out of the loop of idle_thread
  datatype Mode = Running | Slept | Switching | Releasing | Left

  datatype CCB = CCB(current: Tid, previous: Tid, mode: Mode)

  // spawning maps a thread inside spawn_thread to the TCB it has allocated but
  // not yet counted in active_threads. owner is auxiliary: it maps a thread to
  // the core that runs it, is about to run it, or is still switching away from
  // it. No step reads owner.
  datatype State = State(
    tcb: map<Tid, TCB>,
    sched: seq<Tid>,
    timeouts: seq<Tid>,
    core: seq<CCB>,
    owner: map<Tid, nat>,
    active: int,
    spawning: map<Tid, Tid>)

  // The insertion of sched_register_timeout: before the first later entry.
  function InsertByTime(q: seq<Tid>, time: map<Tid, TCB>, t: Tid, w: nat): seq<Tid>
    requires forall i :: 0 <= i < |q| ==> q[i] in time
  {
    if q == [] then [t]
    else if w < time[q[0]].wakeup_time then [t] + q
    else [q[0]] + InsertByTime(q[1..], time, t, w)
  }

  // Where the insertion loop of sched_register_timeout stops.
  lemma {:induction false} InsertPosition(q: seq<Tid>, time: map<Tid, TCB>, t: Tid, w: nat, n: nat)
    requires (forall i :: 0 <= i < |q| ==> q[i] in time) && n <= |q|
    requires forall i :: 0 <= i < n ==> !(w < time[q[i]].wakeup_time)
    requires n < |q| ==> w < time[q[n]].wakeup_time
    ensures InsertByTime(q, time, t, w) == q[..n] + [t] + q[n..]
  {
    if n == 0 {
    } else {
      InsertPosition(q[1..], time, t, w, n - 1);
      assert q[1..][n - 1..] == q[n..];
      assert [q[0]] + q[1..][..n - 1] == q[..n];
    }
  }

  ghost predicate Sorted(q: seq<Tid>, time: map<Tid, TCB>) {
    && (forall i :: 0 <= i < |q| ==> q[i] in time)
    && (forall i, j :: 0 <= i < j < |q| ==> time[q[i]].wakeup_time <= time[q[j]].wakeup_time)
  }

  // ------------------------------------------------------------------
  // The sections
  // ------------------------------------------------------------------

  predicate Stoppable(s: State, t: Tid) {
    t in s.tcb && (s.tcb[t].state == STOPPED || s.tcb[t].state == INIT)
  }

  // sched_make_ready
  function MakeReady(s: State, t: Tid): State
    requires Stoppable(s, t)
  {
    var b := s.tcb[t];
    var timeouts := if b.wakeup_time != NO_TIMEOUT then Without(s.timeouts, t) else s.timeouts;
    s.(tcb := s.tcb[t := b.(state := READY, wakeup_time := NO_TIMEOUT)],
       timeouts := timeouts,
       sched := if b.phase == CTX_CLEAN then s.sched + [t] else s.sched)
  }

  // sched_register_timeout
  function RegisterTimeout(s: State, t: Tid, timeout: nat, now: nat): State
    requires t in s.tcb && (forall i :: 0 <= i < |s.timeouts| ==> s.timeouts[i] in s.tcb)
  {
    if timeout == NO_TIMEOUT then s else
      var w := (now + timeout) % TIME_LIMIT;
      var tcb := s.tcb[t := s.tcb[t].(wakeup_time := w)];
      s.(tcb := tcb, timeouts := InsertByTime(s.timeouts, tcb, t, w))
  }

  ghost predicate TimeoutsStopped(s: State) {
    forall i :: 0 <= i < |s.timeouts| ==> s.timeouts[i] in s.tcb && s.tcb[s.timeouts[i]].state == STOPPED
  }

  ghost predicate TimeoutsListed(s: State) {
    && TimeoutsStopped(s) && Distinct(s.timeouts)
    && (forall i :: 0 <= i < |s.timeouts| ==> s.tcb[s.timeouts[i]].wakeup_time != NO_TIMEOUT)
  }

  lemma WithoutHead(q: seq<Tid>)
    requires q != []
    ensures Without(q, q[0]) == q[1..]
  {
  }

  // sched_wakeup_expired_timeouts
  ghost function WakeExpired(s: State, now: nat): State
    requires TimeoutsListed(s)
    decreases |s.timeouts|
  {
    if s.timeouts == [] || s.tcb[s.timeouts[0]].wakeup_time > now then s
    else WakeExpired(MakeReady(s, s.timeouts[0]), now)
  }

  // sched_queue_select
  function Select(s: State, c: nat, current: Tid): Tid
    requires current in s.tcb
  {
    if s.sched != [] then s.sched[0]
    else if s.tcb[current].state == READY then current
    else Idle(c)
  }

  function SetState(s: State, t: Tid, st: ThreadState): State
    requires t in s.tcb
  {
    s.(tcb := s.tcb[t := s.tcb[t].(state := st)])
  }

  // yield first marks the current thread as no longer running ...
  function Offer(s: State, c: nat): State
    requires c < |s.core| && s.core[c].current in s.tcb
  {
    var t := s.core[c].current;
    var s1 := if s.tcb[t].state == RUNNING then SetState(s, t, READY) else s;
    s1.(core := s.core[c := s.core[c].(mode := Slept)])
  }

  // ... and, after waking up expired sleepers, chooses the next thread.
  function Switch(s: State, c: nat): State
    requires c < |s.core| && s.core[c].current in s.tcb
  {
    var current := s.core[c].current;
    var next := Select(s, c, current);
    s.(sched := if s.sched == [] then [] else s.sched[1..],
       core := s.core[c := CCB(next, current, Switching)],
       owner := s.owner[next := c])
  }

  // The section of yield, up to the switch of contexts.
  ghost function Yield(s: State, c: nat, now: nat): State
    requires c < |s.core| && s.core[c].current in s.tcb && TimeoutsListed(s)
  {
    WakeExpiredFrame(Offer(s, c), now);
    Switch(WakeExpired(Offer(s, c), now), c)
  }

  // The section of gain. In the default case the source stops at assert(0).
  function Gain(s: State, c: nat): State
    requires c < |s.core| && s.core[c].current in s.tcb && s.core[c].previous in s.tcb
  {
    var current, prev := s.core[c].current, s.core[c].previous;
    var tcb1 := s.tcb[current := s.tcb[current].(state := RUNNING, phase := CTX_DIRTY)];
    if current == prev then
      s.(tcb := tcb1, core := s.core[c := s.core[c].(mode := Running)])
    else
      var tcb2 := tcb1[prev := tcb1[prev].(phase := CTX_CLEAN)];
      var s2 := s.(tcb := tcb2, owner := s.owner - {prev});
      match tcb2[prev].state
      case READY =>
        s2.(core := s.core[c := s.core[c].(mode := Running)],
            sched := if tcb2[prev].kind != IDLE_THREAD then s.sched + [prev] else s.sched)
      case EXITED =>
        s2.(core := s.core[c := s.core[c].(mode := Releasing)], tcb := tcb2 - {prev})
      case _ =>
        s2.(core := s.core[c := s.core[c].(mode := Running)])
  }

  // The section of sleep_releasing.
  function Sleep(s: State, c: nat, newstate: ThreadState, timeout: nat, now: nat): State
    requires c < |s.core| && s.core[c].current in s.tcb
    requires forall i :: 0 <= i < |s.timeouts| ==> s.timeouts[i] in s.tcb
  {
    var t := s.core[c].current;
    var s1 := SetState(s, t, newstate);
    var s2 := if newstate != EXITED then RegisterTimeout(s1, t, timeout, now) else s1;
    s2.(core := s2.core[c := s2.core[c].(mode := Slept)])
  }

  // The section of wakeup.
  function Wakeup(s: State, t: Tid): State
    requires t in s.tcb
  {
    if Stoppable(s, t) then MakeReady(s, t) else s
  }

  function SpawnAlloc(s: State, p: Tid, t: Tid): State {
    s.(tcb := s.tcb[t := TCB(NORMAL_THREAD, INIT, CTX_CLEAN, NO_TIMEOUT)], spawning := s.spawning[p := t])
  }

  function SpawnCount(s: State, p: Tid): State {
    s.(spawning := s.spawning - {p}, active := s.active + 1)
  }

  function ReleaseCount(s: State, c: nat): State
    requires c < |s.core|
  {
    s.(active := s.active - 1, core := s.core[c := s.core[c].(mode := Running)])
  }

  function IdleExit(s: State, c: nat): State
    requires c < |s.core|
  {
    s.(core := s.core[c := s.core[c].(mode := Left)])
  }

  // ------------------------------------------------------------------
  // Frame of the expiry loop
  // ------------------------------------------------------------------

  lemma MakeReadyListed(s: State)
    requires TimeoutsListed(s) && s.timeouts != []
    ensures TimeoutsListed(MakeReady(s, s.timeouts[0]))
    ensures MakeReady(s, s.timeouts[0]).timeouts == s.timeouts[1..]
  {
    WithoutHead(s.timeouts);
    var s' := MakeReady(s, s.timeouts[0]);
    forall i | 0 <= i < |s'.timeouts|
      ensures s'.timeouts[i] in s'.tcb && s'.tcb[s'.timeouts[i]] == s.tcb[s.timeouts[i + 1]]
    {
      assert s'.timeouts[i] == s.timeouts[i + 1] != s.timeouts[0];
    }
  }

  lemma {:induction false} WakeExpiredFrame(s: State, now: nat)
    requires TimeoutsListed(s)
    ensures WakeExpired(s, now).tcb.Keys == s.tcb.Keys
    ensures WakeExpired(s, now).core == s.core
    decreases |s.timeouts|
  {
    if s.timeouts == [] || now < s.tcb[s.timeouts[0]].wakeup_time {
    } else {
      MakeReadyListed(s);
      WakeExpiredFrame(MakeReady(s, s.timeouts[0]), now);
    }
  }
}
