// kernel_sched.c as code that updates its data in place. Each method is one
// section (or a part of one) and is proved to take the step of the step system.
module Scheduler {
  import opened Lists
  import opened Sched
  import opened SchedInv

  class Scheduler {
    var tcb: map<Tid, TCB>
    var SCHED: seq<Tid>
    var TIMEOUT_LIST: seq<Tid>
    const cctx: array<CCB>
    var active_threads: int
    ghost var owner: map<Tid, nat>
    ghost var spawning: map<Tid, Tid>

    ghost function Abs(): State
      reads this, cctx
    {
      State(tcb, SCHED, TIMEOUT_LIST, cctx[..], owner, active_threads, spawning)
    }

    // run_scheduler on every core, after core 0 has started the init process.
    constructor (ncores: nat)
      requires ncores > 0
      ensures Init(Abs()) && Inv(Abs()) && cctx.Length == ncores && fresh(cctx)
    {
      cctx := new CCB[ncores](c requires c >= 0 => CCB(Idle(c), Idle(c), Running));
      tcb := (map c: nat | c < ncores :: Idle(c) := TCB(IDLE_THREAD, RUNNING, CTX_DIRTY, NO_TIMEOUT))
             [Thread(0) := TCB(NORMAL_THREAD, READY, CTX_CLEAN, NO_TIMEOUT)];
      SCHED, TIMEOUT_LIST, active_threads := [Thread(0)], [], 1;
      owner, spawning := map c: nat | c < ncores :: Idle(c) := c, map[];
      new;
      InitInv(Abs());
    }

    // Lines 153-171: allocate and initialise the TCB.
    method SpawnThread(c: nat, t: Tid)
      requires Inv(Abs()) && Enabled(Abs(), DoSpawnAlloc(c, t))
      modifies this
      ensures Abs() == Apply(old(Abs()), DoSpawnAlloc(c, t)) && Inv(Abs())
    {
      StepInv(Abs(), DoSpawnAlloc(c, t));
      tcb := tcb[t := TCB(NORMAL_THREAD, INIT, CTX_CLEAN, NO_TIMEOUT)];
      spawning := spawning[cctx[c].current := t];
    }

    // Lines 185-187.
    method CountSpawned(c: nat)
      requires Inv(Abs()) && Enabled(Abs(), DoSpawnCount(c))
      modifies this
      ensures Abs() == Apply(old(Abs()), DoSpawnCount(c)) && Inv(Abs())
    {
      StepInv(Abs(), DoSpawnCount(c));
      active_threads := active_threads + 1;
      spawning := spawning - {cctx[c].current};
    }

    method SchedRegisterTimeout(t: Tid, timeout: nat, now: nat)
      requires t in tcb && (forall i :: 0 <= i < |TIMEOUT_LIST| ==> TIMEOUT_LIST[i] in tcb)
      modifies this`tcb, this`TIMEOUT_LIST
      ensures Abs() == RegisterTimeout(old(Abs()), t, timeout, now)
    {
      if timeout != NO_TIMEOUT {
        var w := (now + timeout) % TIME_LIMIT;
        tcb := tcb[t := tcb[t].(wakeup_time := w)];
        var n := 0;
        while n < |TIMEOUT_LIST| && !(w < tcb[TIMEOUT_LIST[n]].wakeup_time)
          invariant n <= |TIMEOUT_LIST|
          invariant forall i :: 0 <= i < n ==> !(w < tcb[TIMEOUT_LIST[i]].wakeup_time)
        {
          n := n + 1;
        }
        InsertPosition(TIMEOUT_LIST, tcb, t, w, n);
        TIMEOUT_LIST := TIMEOUT_LIST[..n] + [t] + TIMEOUT_LIST[n..];
      }
    }

    method SchedQueueAdd(t: Tid)
      modifies this`SCHED
      ensures SCHED == old(SCHED) + [t]
    {
      SCHED := SCHED + [t];
    }

    method SchedMakeReady(t: Tid)
      requires Stoppable(Abs(), t)
      requires tcb[t].wakeup_time != NO_TIMEOUT ==> t in TIMEOUT_LIST && tcb[t].state == STOPPED
      modifies this`tcb, this`SCHED, this`TIMEOUT_LIST
      ensures Abs() == MakeReady(old(Abs()), t)
    {
      if tcb[t].wakeup_time != NO_TIMEOUT {
        TIMEOUT_LIST := Without(TIMEOUT_LIST, t);
        tcb := tcb[t := tcb[t].(wakeup_time := NO_TIMEOUT)];
      }
      tcb := tcb[t := tcb[t].(state := READY)];
      if tcb[t].phase == CTX_CLEAN {
        SchedQueueAdd(t);
      }
      assert tcb == old(tcb)[t := old(tcb)[t].(state := READY, wakeup_time := NO_TIMEOUT)];
    }

    method SchedWakeupExpiredTimeouts(now: nat)
      requires Inv(Abs())
      modifies this`tcb, this`SCHED, this`TIMEOUT_LIST
      ensures Abs() == WakeExpired(old(Abs()), now) && Inv(Abs())
    {
      while TIMEOUT_LIST != []
        invariant Inv(Abs()) && WakeExpired(Abs(), now) == WakeExpired(old(Abs()), now)
        decreases |TIMEOUT_LIST|
      {
        var t := TIMEOUT_LIST[0];
        if tcb[t].wakeup_time > now { break; }
        assert t in TIMEOUT_LIST && ThreadOk(Abs(), t);
        Spawner(Abs(), t);
        ReadyInv(Abs(), t);
        MakeReadyListed(Abs());
        SchedMakeReady(t);
      }
    }

    method SchedQueueSelect(c: nat, current: Tid) returns (next: Tid)
      requires current in tcb
      modifies this`SCHED
      ensures next == Select(old(Abs()), c, current)
      ensures SCHED == if old(SCHED) == [] then [] else old(SCHED)[1..]
    {
      if SCHED != [] {
        next := SCHED[0];
        SCHED := SCHED[1..];
      } else {
        next := if tcb[current].state == READY then current else Idle(c);
      }
    }

    // Returns 1 exactly when the thread was blocked, and then makes it ready.
    method Wakeup(t: Tid) returns (ret: int)
      requires Inv(Abs()) && Enabled(Abs(), DoWakeup(t))
      modifies this`tcb, this`SCHED, this`TIMEOUT_LIST
      ensures Abs() == Apply(old(Abs()), DoWakeup(t)) && Inv(Abs())
      ensures ret == if Stoppable(old(Abs()), t) then 1 else 0
      ensures t in tcb && tcb[t].state == if ret == 1 then READY else old(tcb[t].state)
    {
      StepInv(Abs(), DoWakeup(t));
      ret := 0;
      if tcb[t].state == STOPPED || tcb[t].state == INIT {
        assert ThreadOk(Abs(), t);
        SchedMakeReady(t);
        ret := 1;
      }
    }

    method SleepReleasing(c: nat, newstate: ThreadState, timeout: nat, now: nat)
      requires Inv(Abs()) && Enabled(Abs(), DoSleep(c, newstate, timeout, now))
      modifies this`tcb, this`TIMEOUT_LIST, cctx
      ensures Abs() == Apply(old(Abs()), DoSleep(c, newstate, timeout, now)) && Inv(Abs())
    {
      StepInv(Abs(), DoSleep(c, newstate, timeout, now));
      var t := cctx[c].current;
      tcb := tcb[t := tcb[t].(state := newstate)];
      if newstate != EXITED {
        SchedRegisterTimeout(t, timeout, now);
      }
      cctx[c] := cctx[c].(mode := Slept);
      assert cctx[..] == old(cctx[..])[c := cctx[c]];
    }

    method Yield(c: nat, now: nat)
      requires Inv(Abs()) && Enabled(Abs(), DoYield(c, now))
      modifies this`tcb, this`SCHED, this`TIMEOUT_LIST, this`owner, cctx
      ensures Abs() == Apply(old(Abs()), DoYield(c, now)) && Inv(Abs())
    {
      StepInv(Abs(), DoYield(c, now));
      OfferInv(Abs(), c);
      WakeExpiredFrame(Offer(Abs(), c), now);
      var current := cctx[c].current;
      if tcb[current].state == RUNNING {
        tcb := tcb[current := tcb[current].(state := READY)];
      }
      cctx[c] := cctx[c].(mode := Slept);
      assert cctx[..] == old(cctx[..])[c := cctx[c]];
      assert Abs() == Offer(old(Abs()), c);
      SchedWakeupExpiredTimeouts(now);
      ghost var s := Abs();
      var next := SchedQueueSelect(c, current);
      cctx[c] := CCB(next, current, Switching);
      assert cctx[..] == s.core[c := cctx[c]];
      owner := owner[next := c];
    }

    method Gain(c: nat)
      requires Inv(Abs()) && Enabled(Abs(), DoGain(c))
      modifies this`tcb, this`SCHED, this`owner, cctx
      ensures Abs() == Apply(old(Abs()), DoGain(c)) && Inv(Abs())
    {
      StepInv(Abs(), DoGain(c));
      assert CoreOk(Abs(), c);
      var current, prev := cctx[c].current, cctx[c].previous;
      var mode := Running;
      tcb := tcb[current := tcb[current].(state := RUNNING, phase := CTX_DIRTY)];
      if current != prev {
        tcb := tcb[prev := tcb[prev].(phase := CTX_CLEAN)];
        owner := owner - {prev};
        match tcb[prev].state
        case READY =>
          if tcb[prev].kind != IDLE_THREAD {
            SchedQueueAdd(prev);
          }
        case EXITED =>
          tcb := tcb - {prev};  // release_TCB
          mode := Releasing;
        case STOPPED =>
        case _ =>
          assert false;
      }
      cctx[c] := cctx[c].(mode := mode);
      assert cctx[..] == old(cctx[..])[c := cctx[c]];
    }

    // The second half of release_TCB.
    method CountReleased(c: nat)
      requires Inv(Abs()) && Enabled(Abs(), DoReleaseCount(c))
      modifies this`active_threads, cctx
      ensures Abs() == Apply(old(Abs()), DoReleaseCount(c)) && Inv(Abs())
    {
      StepInv(Abs(), DoReleaseCount(c));
      active_threads := active_threads - 1;
      cctx[c] := cctx[c].(mode := Running);
      assert cctx[..] == old(cctx[..])[c := cctx[c]];
    }

    // The test of the loop in idle_thread.
    method IdleCheck(c: nat) returns (leave: bool)
      requires Inv(Abs()) && InMode(Abs(), c, Running) && cctx[c].current == Idle(c)
      modifies cctx
      ensures leave <==> active_threads == 0
      ensures Abs() == if leave then IdleExit(old(Abs()), c) else old(Abs())
      ensures Inv(Abs()) && (leave ==> Live(Abs()) == {})
    {
      leave := !(active_threads > 0);
      NeverNegative(Abs());
      if leave {
        StepInv(Abs(), DoIdleExit(c));
        NoThreadsLeft(Abs());
        cctx[c] := cctx[c].(mode := Left);
        assert cctx[..] == old(cctx[..])[c := cctx[c]];
      }
    }
  }

  lemma NeverNegative(s: State)
    requires Inv(s)
    ensures s.active >= 0
  {
    forall q | q in s.spawning.Keys ensures q in Live(s) { Spawner(s, q); }
    SubsetSize(s.spawning.Keys, Live(s));
    assert |s.spawning| == |s.spawning.Keys|;
  }
}
