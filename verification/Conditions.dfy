// kernel_cc.c as code that updates its data in place, on top of the scheduler:
// each method is a section under waitset_lock, a mutex, or kernel_mutex.
module Conditions {
  import opened Lists
  import opened Sched
  import opened SchedInv
  import opened CondVar
  import opened KernelSem
  import Scheduler

  class Conditions {
    const sched: Scheduler.Scheduler
    var waitset: map<Cv, seq<Tid>>
    var waitset_lock: map<Cv, Tid>
    var mutexes: map<Mutex, Tid>
    var waiters: map<Tid, Waiter>

    ghost function Abs(): CvState
      reads this, sched, sched.cctx
    {
      CvState(sched.Abs(), waitset, waitset_lock, mutexes, waiters)
    }

    constructor (ncores: nat)
      requires ncores > 0
      ensures CvInit(Abs()) && CvInv(Abs()) && fresh(sched) && fresh(sched.cctx)
    {
      sched := new Scheduler.Scheduler(ncores);
      waitset, waitset_lock, mutexes, waiters := map[], map[], map[], map[];
      new;
      CvInitInv(Abs());
    }

    // Mutex_Lock, at the moment its test-and-set succeeds.
    method MutexLock(c: nat, m: Mutex)
      requires CvInv(Abs()) && CvEnabled(Abs(), Lock(c, m))
      modifies this`mutexes
      ensures Abs() == CvApply(old(Abs()), Lock(c, m)) && CvInv(Abs())
    {
      CvStepInv(Abs(), Lock(c, m));
      mutexes := mutexes[m := sched.cctx[c].current];
    }

    method MutexUnlock(c: nat, m: Mutex)
      requires CvInv(Abs()) && CvEnabled(Abs(), Unlock(c, m))
      modifies this`mutexes
      ensures Abs() == CvApply(old(Abs()), Unlock(c, m)) && CvInv(Abs())
    {
      CvStepInv(Abs(), Unlock(c, m));
      mutexes := mutexes - {m};
    }

    // Mutex_Unlock, as part of sleep_releasing.
    method ReleaseMutex(m: Mutex)
      modifies this`mutexes
      ensures mutexes == old(mutexes) - {m}
    {
      mutexes := mutexes - {m};
    }

    // cv_wait, lines 124-137.
    method CvWaitPush(c: nat, m: Mutex, cv: Cv)
      requires CvInv(Abs()) && CvEnabled(Abs(), Push(c, m, cv))
      modifies this
      ensures Abs() == CvApply(old(Abs()), Push(c, m, cv)) && CvInv(Abs())
    {
      CvStepInv(Abs(), Push(c, m, cv));
      var t := sched.cctx[c].current;
      waiters := waiters[t := Waiter(m, cv, Pushed, false, false, NotYet)];
      waitset_lock := waitset_lock[cv := t];
      if cv in waitset && waitset[cv] != [] {
        waitset := waitset[cv := waitset[cv] + [t]];
      } else {
        waitset := waitset[cv := [t]];
      }
      mutexes := mutexes - {m};
      assert [] + [t] == [t];
    }

    // cv_wait, line 138: sleep_releasing(STOPPED, &cv->waitset_lock, ...).
    method CvWaitSleep(c: nat, timeout: nat, now: nat)
      requires CvInv(Abs()) && CvEnabled(Abs(), FallAsleep(c, timeout, now))
      modifies this, sched, sched.cctx
      ensures Abs() == CvApply(old(Abs()), FallAsleep(c, timeout, now)) && CvInv(Abs())
    {
      CvStepInv(Abs(), FallAsleep(c, timeout, now));
      var t := sched.cctx[c].current;
      sched.SleepReleasing(c, STOPPED, timeout, now);
      waitset_lock := waitset_lock - {waiters[t].cv};
      waiters := waiters[t := waiters[t].(pc := Asleep)];
    }

    method RemoveFromRing(cv: Cv, t: Tid)
      requires cv in waitset && t in waitset[cv]
      modifies this`waitset
      ensures waitset == old(waitset)[cv := Without(old(waitset)[cv], t)]
    {
      if waitset[cv][0] == t {
        waitset := waitset[cv := waitset[cv][1..]];
      } else {
        waitset := waitset[cv := Without(waitset[cv], t)];
      }
    }

    // cv_wait, lines 141-148.
    method CvWaitTidy(c: nat)
      requires CvInv(Abs()) && CvEnabled(Abs(), Tidy(c))
      modifies this
      ensures Abs() == CvApply(old(Abs()), Tidy(c)) && CvInv(Abs())
    {
      CvStepInv(Abs(), Tidy(c));
      var t := sched.cctx[c].current;
      assert FrameOk(Abs(), t) && CoreOk(sched.Abs(), c);
      if !waiters[t].removed {
        assert !waiters[t].signalled;
        RemoveFromRing(waiters[t].cv, t);
      }
      waiters := waiters[t := waiters[t].(pc := Relock)];
    }

    // cv_wait, lines 150-151. The result says whether a signal ended the wait.
    method CvWaitReturn(c: nat) returns (ret: bool)
      requires CvInv(Abs()) && CvEnabled(Abs(), Return(c))
      modifies this
      ensures Abs() == CvApply(old(Abs()), Return(c)) && CvInv(Abs())
      ensures ret <==> old(Abs()).frame[old(sched.cctx[c].current)].woken == BySignal
    {
      CvStepInv(Abs(), Return(c));
      var t := sched.cctx[c].current;
      assert FrameOk(Abs(), t);
      mutexes := mutexes[waiters[t].mutex := t];
      ret := waiters[t].signalled;
      waiters := waiters - {t};
    }

    // cv_signal, lines 165-171: one round of its loop.
    method SignalHead(cv: Cv) returns (woken: int)
      requires CvInv(Abs()) && cv !in waitset_lock && cv in waitset && waitset[cv] != []
      modifies this`waitset, this`waiters, sched
      ensures Ring(old(Abs()), cv)[0] in old(waiters)
      ensures woken == (if Stoppable(old(Abs()).s, Ring(old(Abs()), cv)[0]) then 1 else 0)
      ensures Abs() == if woken == 1 then WakeHead(old(Abs()), cv) else TakeHead(old(Abs()), cv)
    {
      ghost var k := Abs();
      var w := waitset[cv][0];
      assert RingOk(k, cv) && w in Ring(k, cv) && FrameOk(k, w);
      Spawner(k.s, w);
      RemoveFromRing(cv, w);
      waiters := waiters[w := waiters[w].(removed := true)];
      woken := sched.Wakeup(w);
      if woken == 1 {
        waiters := waiters[w := waiters[w].(signalled := true, woken := BySignal)];
      }
    }

    method CvSignal(cv: Cv)
      requires CvInv(Abs()) && cv !in waitset_lock
      modifies this`waitset, this`waiters, sched
      ensures (forall i :: 0 <= i < |Ring(old(Abs()), cv)| ==> Ring(old(Abs()), cv)[i] in old(waiters))
      ensures Abs() == SignalRing(old(Abs()), cv)
    {
      RingFramed(Abs(), cv);
      while cv in waitset && waitset[cv] != []
        invariant CvInv(Abs()) && waitset_lock == old(waitset_lock)
        invariant forall i :: 0 <= i < |Ring(Abs(), cv)| ==> Ring(Abs(), cv)[i] in waiters
        invariant SignalRing(Abs(), cv) == SignalRing(old(Abs()), cv)
        decreases |Ring(Abs(), cv)|
      {
        ghost var k := Abs();
        var woken := SignalHead(cv);
        if woken == 1 { return; }
        TakeHeadInv(k, cv);
        RingFramed(Abs(), cv);
      }
    }

    method CondSignal(c: nat, cv: Cv)
      requires CvInv(Abs()) && CvEnabled(Abs(), Signal(c, cv))
      modifies this, sched
      ensures Abs() == CvApply(old(Abs()), Signal(c, cv)) && CvInv(Abs())
    {
      SignalInv(Abs(), cv);
      CvSignal(cv);
    }

    method CondBroadcast(c: nat, cv: Cv)
      requires CvInv(Abs()) && CvEnabled(Abs(), Broadcast(c, cv))
      modifies this, sched
      ensures Abs() == CvApply(old(Abs()), Broadcast(c, cv)) && CvInv(Abs())
    {
      while cv in waitset && waitset[cv] != []
        invariant CvInv(Abs()) && waitset_lock == old(waitset_lock)
        invariant BroadcastRing(Abs(), cv) == BroadcastRing(old(Abs()), cv)
        decreases |Ring(Abs(), cv)|
      {
        SignalInv(Abs(), cv);
        CvSignal(cv);
      }
    }
  }

  class KernelLock {
    const conds: Conditions
    var kernel_sem: int
    ghost var pc: map<Tid, Pc>

    ghost function Abs(): K
      reads this, conds, conds.sched, conds.sched.cctx
    {
      K(conds.Abs(), kernel_sem, pc)
    }

    constructor (ncores: nat)
      requires ncores > 0
      ensures KInit(Abs()) && KInv(Abs())
    {
      conds := new Conditions(ncores);
      kernel_sem, pc := 1, map[];
      new;
      KInitInv(Abs());
    }

    // kernel_lock, lines 236-241, and kernel_wait_wchan, lines 263-266: one
    // test of the loop, with kernel_mutex held.
    method TestSemaphore(c: nat) returns (acquired: bool)
      requires KInv(Abs()) && At(Abs(), c, Check) && CvEnabled(Abs().cv, Unlock(c, KM)) && SEM !in conds.waitset_lock
      modifies this, conds
      ensures acquired <==> old(kernel_sem) > 0
      ensures Abs() == KApply(old(Abs()), if acquired then Pass(c) else Block(c)) && KInv(Abs())
    {
      acquired := !(kernel_sem <= 0);
      KStepInv(Abs(), if acquired then Pass(c) else Block(c));
      if acquired {
        kernel_sem := kernel_sem - 1;
        conds.MutexUnlock(c, KM);
        pc := pc[conds.sched.cctx[c].current := Holder];
      } else {
        conds.CvWaitPush(c, KM, SEM);
        pc := pc[conds.sched.cctx[c].current := Waiting];
      }
    }

    // kernel_sem++; Cond_Signal(&kernel_sem_cv), common to kernel_unlock,
    // kernel_wait_wchan and kernel_sleep.
    method RaiseSemaphore(c: nat)
      requires KInv(Abs()) && KEnabled(Abs(), Raise(c))
      modifies this, conds, conds.sched
      ensures Abs() == KApply(old(Abs()), Raise(c)) && KInv(Abs())
    {
      KStepInv(Abs(), Raise(c));
      ghost var t := conds.sched.cctx[c].current;
      kernel_sem := kernel_sem + 1;
      conds.CondSignal(c, SEM);
      pc := pc[t := Raised];
    }

    // kernel_lock, line 236, once kernel_mutex is free.
    method EnterLock(c: nat)
      requires KInv(Abs()) && KEnabled(Abs(), Enter(c))
      modifies this, conds
      ensures Abs() == KApply(old(Abs()), Enter(c)) && KInv(Abs())
    {
      KStepInv(Abs(), Enter(c));
      conds.MutexLock(c, KM);
      pc := pc[conds.sched.cctx[c].current := Check];
    }

    // The first line of kernel_unlock, kernel_wait_wchan and kernel_sleep.
    method BeginRelease(c: nat)
      requires KInv(Abs()) && KEnabled(Abs(), Begin(c))
      modifies this, conds
      ensures Abs() == KApply(old(Abs()), Begin(c)) && KInv(Abs())
    {
      KStepInv(Abs(), Begin(c));
      conds.MutexLock(c, KM);
      pc := pc[conds.sched.cctx[c].current := Raising];
    }

    // kernel_unlock, line 249.
    method EndUnlock(c: nat)
      requires KInv(Abs()) && KEnabled(Abs(), Leave(c))
      modifies this, conds
      ensures Abs() == KApply(old(Abs()), Leave(c)) && KInv(Abs())
    {
      KStepInv(Abs(), Leave(c));
      conds.MutexUnlock(c, KM);
      pc := pc - {conds.sched.cctx[c].current};
    }

    // kernel_wait_wchan, line 260: cv_wait on a kernel condition begins.
    method StartWait(c: nat, d: Cv)
      requires KInv(Abs()) && KEnabled(Abs(), WaitOn(c, d))
      modifies this, conds
      ensures Abs() == KApply(old(Abs()), WaitOn(c, d)) && KInv(Abs())
    {
      KStepInv(Abs(), WaitOn(c, d));
      conds.CvWaitPush(c, KM, d);
      pc := pc[conds.sched.cctx[c].current := Waiting];
    }

    // ... and ends, as does the Cond_Wait on kernel_sem_cv.
    method EndWait(c: nat) returns (ret: bool)
      requires KInv(Abs()) && KEnabled(Abs(), Recheck(c))
      modifies this, conds
      ensures Abs() == KApply(old(Abs()), Recheck(c)) && KInv(Abs())
      ensures ret <==> old(Abs()).cv.frame[old(conds.sched.cctx[c].current)].woken == BySignal
    {
      KStepInv(Abs(), Recheck(c));
      ret := conds.CvWaitReturn(c);
      pc := pc[conds.sched.cctx[c].current := Check];
    }

    // kernel_sleep, line 286: sleep_releasing(EXITED, &kernel_mutex, ...).
    method SleepExited(c: nat)
      requires KInv(Abs()) && KEnabled(Abs(), Exit(c))
      modifies this, conds, conds.sched, conds.sched.cctx
      ensures Abs() == KApply(old(Abs()), Exit(c)) && KInv(Abs())
    {
      ghost var k := Abs();
      KStepInv(k, Exit(c));
      var t := conds.sched.cctx[c].current;
      assert PcOk(k, t);
      NobodyNoticesExit(k.cv, c);
      conds.sched.SleepReleasing(c, EXITED, NO_TIMEOUT, 0);
      conds.ReleaseMutex(KM);
      pc := pc - {t};
    }

    // kernel_sleep, lines 283-285, called by a thread without the kernel lock.
    method BeginStrayRelease(c: nat)
      requires KInv(Abs()) && KEnabled(Abs(), BeginStray(c))
      modifies this, conds
      ensures Abs() == KApply(old(Abs()), BeginStray(c)) && KInv(Abs())
    {
      KStepInv(Abs(), BeginStray(c));
      conds.MutexLock(c, KM);
      pc := pc[conds.sched.cctx[c].current := Stray];
    }

    method RaiseStraySemaphore(c: nat)
      requires KShape(Abs()) && KEnabled(Abs(), RaiseStray(c))
      modifies this, conds, conds.sched
      ensures Abs() == KApply(old(Abs()), RaiseStray(c)) && KShape(Abs())
      ensures kernel_sem + |Holders(Abs())| == old(kernel_sem) + |Holders(old(Abs()))| + 1
    {
      KStepShape(Abs(), RaiseStray(c));
      HoldersStep(Abs(), RaiseStray(c));
      ghost var t := conds.sched.cctx[c].current;
      kernel_sem := kernel_sem + 1;
      conds.CondSignal(c, SEM);
      pc := pc[t := Raised];
    }
  }
}
