// Waits with a timeout (cv_wait, Cond_TimedWait) over runs of the condition
// variables: when they end, and what they return.
module TimedWait {
  import opened Sched
  import opened SchedInv
  import opened SchedLife
  import opened CondVar

  // t sleeps in cv_wait and nothing has ended its sleep.
  ghost predicate Waits(k: CvState, t: Tid) {
    t in k.frame && k.frame[t].pc == Asleep && k.frame[t].woken == NotYet
  }

  // The timeout of the sleeper t: the time at which it is due, or NO_TIMEOUT and
  // then t is not on the timeout list.
  ghost predicate Timer(s: State, t: Tid, w: nat) {
    t in s.tcb && s.tcb[t].wakeup_time == w && (t in s.timeouts <==> w != NO_TIMEOUT)
  }

  function Due(timeout: nat, now: nat): nat {
    if timeout == NO_TIMEOUT then NO_TIMEOUT else (now + timeout) % TIME_LIMIT
  }

  // A wait begins with its timeout registered.
  lemma WaitBegins(k: CvState, c: nat, timeout: nat, now: nat)
    requires CvInv(k) && CvEnabled(k, FallAsleep(c, timeout, now))
    ensures var k', t := CvApply(k, FallAsleep(c, timeout, now)), Actor(k, c);
      Waits(k', t) && Stopped(k'.s, t) && Timer(k'.s, t, Due(timeout, now))
  {
    var a, t := DoSleep(c, STOPPED, timeout, now), Actor(k, c);
    CvStepInv(k, FallAsleep(c, timeout, now));
    var k' := CvApply(k, FallAsleep(c, timeout, now));
    assert FrameOk(k, t) && CoreOk(k.s, c) && ThreadOk(k.s, t);
    assert k'.s == Apply(k.s, a);
    StepLives(k.s, a, t);
    assert ThreadOk(k'.s, t) && FrameOk(k', t);
  }

  // Step a ends the sleep of t other than by a signal: a wakeup, or a yield at a
  // clock time that has reached its wakeup time.
  predicate TimesOut(a: CvStep, t: Tid, w: nat) {
    a.Kernel? && (a.a == DoWakeup(t) || (a.a.DoYield? && w != NO_TIMEOUT && w <= a.a.now))
  }

  // What step a, from k to k', does to the waiter t.
  ghost predicate WaitsOn(k: CvState, k': CvState, a: CvStep, t: Tid, w: nat) {
    && t in k.frame && t in k'.frame && k'.frame[t].pc == Asleep
    && (k'.frame[t].woken == ByOther <==> TimesOut(a, t, w))
    && (k'.frame[t].woken == BySignal ==> (a.Signal? || a.Broadcast?) && a.cv == k.frame[t].cv)
    && (k'.frame[t].woken == NotYet ==> Timer(k'.s, t, w))
  }

  lemma WaiterStep(k: CvState, a: CvStep, t: Tid, w: nat)
    requires CvInv(k) && CvEnabled(k, a) && Waits(k, t) && Timer(k.s, t, w)
    ensures WaitsOn(k, CvApply(k, a), a, t, w)
  {
    assert FrameOk(k, t);
    match a
    case Kernel(b) => KernelWaiter(k, b, t, w);
    case Signal(c, cv) => SignalWaiter(k, cv, t, w);
    case Broadcast(c, cv) => BroadcastWaiter(k, cv, t, w);
    case FallAsleep(c, timeout, now) => OtherSleeps(k, c, timeout, now, t, w);
    case Tidy(c) => assert CoreOk(k.s, c);
    case Return(c) => assert CoreOk(k.s, c);
    case _ =>
  }

  lemma KernelWaiter(k: CvState, b: Step, t: Tid, w: nat)
    requires CvInv(k) && CvEnabled(k, Kernel(b)) && Waits(k, t) && Timer(k.s, t, w)
    ensures var k' := CvApply(k, Kernel(b));
      && t in k'.frame && k'.frame[t].pc == Asleep && k'.frame[t].woken != BySignal
      && (k'.frame[t].woken == ByOther <==> TimesOut(Kernel(b), t, w))
      && (k'.frame[t].woken == NotYet ==> Timer(k'.s, t, w))
  {
    CvStepInv(k, Kernel(b));
    assert FrameOk(k, t) && ThreadOk(k.s, t);
    StepLives(k.s, b, t);
    var s' := Apply(k.s, b);
    if t in s'.tcb { assert ThreadOk(s', t); }
  }

  lemma OtherSleeps(k: CvState, c: nat, timeout: nat, now: nat, t: Tid, w: nat)
    requires CvInv(k) && CvEnabled(k, FallAsleep(c, timeout, now)) && Waits(k, t) && Timer(k.s, t, w)
    ensures var k' := CvApply(k, FallAsleep(c, timeout, now));
      Waits(k', t) && Timer(k'.s, t, w)
  {
    var a := DoSleep(c, STOPPED, timeout, now);
    CvStepInv(k, FallAsleep(c, timeout, now));
    var k' := CvApply(k, FallAsleep(c, timeout, now));
    assert FrameOk(k, t) && CoreOk(k.s, c);
    assert k'.s == Apply(k.s, a);
    StepLives(k.s, a, t);
    assert ThreadOk(k'.s, t);
  }

  lemma SignalWaiter(k: CvState, cv: Cv, t: Tid, w: nat)
    requires CvInv(k) && cv !in k.wlock && Waits(k, t) && Timer(k.s, t, w)
    ensures forall i :: 0 <= i < |Ring(k, cv)| ==> Ring(k, cv)[i] in k.frame
    ensures var k' := SignalRing(k, cv);
      && CvInv(k') && k'.wlock == k.wlock && t in k'.frame && k'.frame[t].pc == Asleep && k'.frame[t].woken != ByOther
      && k'.frame[t].cv == k.frame[t].cv
      && (k'.frame[t].woken == BySignal ==> cv == k.frame[t].cv)
      && (k'.frame[t].woken == NotYet ==> Timer(k'.s, t, w))
  {
    var i := SignalWakesFirst(k, cv);
    SignalInv(k, cv);
    SignalHonest(k, cv, t);
    var k', q := SignalRing(k, cv), Ring(k, cv);
    assert FrameOk(k, t) && FrameOk(k', t) && Signalled(k, k', q, i, t);
    assert ThreadOk(k'.s, t);
    if i < |q| { assert RingOk(k, cv) && q[i] in q; }
  }

  lemma {:induction false} BroadcastWaiter(k: CvState, cv: Cv, t: Tid, w: nat)
    requires CvInv(k) && cv !in k.wlock && Waits(k, t) && Timer(k.s, t, w)
    ensures var k' := BroadcastRing(k, cv);
      && t in k'.frame && k'.frame[t].pc == Asleep && k'.frame[t].woken != ByOther
      && (k'.frame[t].woken == BySignal ==> cv == k.frame[t].cv)
      && (k'.frame[t].woken == NotYet ==> Timer(k'.s, t, w))
    decreases |Ring(k, cv)|
  {
    if Ring(k, cv) == [] {
    } else {
      SignalInv(k, cv);
      SignalWaiter(k, cv, t, w);
      var k1 := SignalRing(k, cv);
      if k1.frame[t].woken == NotYet {
        BroadcastWaiter(k1, cv, t, w);
      } else {
        BroadcastWoken(k1, cv, t);
      }
    }
  }

  // A broadcast does nothing to a waiter whose sleep has ended.
  lemma {:induction false} BroadcastWoken(k: CvState, cv: Cv, t: Tid)
    requires CvInv(k) && cv !in k.wlock && t in k.frame && k.frame[t].woken != NotYet
    ensures var k' := BroadcastRing(k, cv);
      t in k'.frame && k'.frame[t].pc == k.frame[t].pc && k'.frame[t].woken == k.frame[t].woken
    decreases |Ring(k, cv)|
  {
    if Ring(k, cv) == [] {
    } else {
      SignalInv(k, cv);
      SignalOne(k, cv, t);
      var i := SignalWakesFirst(k, cv);
      assert Signalled(k, SignalRing(k, cv), Ring(k, cv), i, t);
      BroadcastWoken(SignalRing(k, cv), cv, t);
    }
  }

  // ------------------------------------------------------------------
  // Runs
  // ------------------------------------------------------------------

  lemma RunBegins(ks: seq<CvState>, acts: seq<CvStep>, i: nat)
    requires IsCvRun(ks, acts) && i < |acts| && acts[i].FallAsleep?
    ensures acts[i].c < |ks[i].s.core| && CvInv(ks[i + 1])
    ensures Timer(ks[i + 1].s, Actor(ks[i], acts[i].c), Due(acts[i].timeout, acts[i].now))
  {
    CvRunInv(ks, acts, i);
    CvRunInv(ks, acts, i + 1);
    assert CvEnabled(ks[i], acts[i]);
    WaitBegins(ks[i], acts[i].c, acts[i].timeout, acts[i].now);
  }

  lemma RunStep(ks: seq<CvState>, acts: seq<CvStep>, j: nat, t: Tid, w: nat)
    requires IsCvRun(ks, acts) && j < |acts| && Waits(ks[j], t) && Timer(ks[j].s, t, w)
    ensures WaitsOn(ks[j], ks[j + 1], acts[j], t, w)
  {
    CvRunInv(ks, acts, j);
    assert CvEnabled(ks[j], acts[j]);
    WaiterStep(ks[j], acts[j], t, w);
  }

  // In any run, as long as nothing has ended the wait that began at step i, its
  // timer is the one it began with.
  lemma {:induction false} TimerKept(ks: seq<CvState>, acts: seq<CvStep>, i: nat, j: nat, t: Tid, w: nat)
    requires IsCvRun(ks, acts) && i <= j < |ks| && (forall m :: i <= m <= j ==> Waits(ks[m], t))
    requires Timer(ks[i].s, t, w)
    ensures Timer(ks[j].s, t, w)
    decreases j
  {
    if i == j {
    } else {
      TimerKept(ks, acts, i, j - 1, t, w);
      RunStep(ks, acts, j - 1, t, w);
    }
  }

  // What ends a wait that has lasted from step i to state j. A yield ends it
  // exactly if it has a timeout and the clock has reached curtime + timeout, modulo
  // 2^64; a wait without a timeout is ended by no yield.
  lemma WaitEnds(ks: seq<CvState>, acts: seq<CvStep>, i: nat, j: nat)
    requires IsCvRun(ks, acts) && i < j < |acts| && acts[i].FallAsleep?
    requires acts[i].c < |ks[i].s.core| && forall m :: i < m <= j ==> Waits(ks[m], Actor(ks[i], acts[i].c))
    ensures var t, f, a, timeout := Actor(ks[i], acts[i].c), ks[j + 1].frame, acts[j], acts[i].timeout;
      && t in f
      && (f[t].woken == ByOther <==>
            a == Kernel(DoWakeup(t))
            || (a.Kernel? && a.a.DoYield? && timeout != NO_TIMEOUT && (acts[i].now + timeout) % TIME_LIMIT <= a.a.now))
      && (f[t].woken == BySignal ==>
            t in ks[j].frame && (a.Signal? || a.Broadcast?) && a.cv == ks[j].frame[t].cv)
  {
    var t, w := Actor(ks[i], acts[i].c), Due(acts[i].timeout, acts[i].now);
    RunBegins(ks, acts, i);
    TimerKept(ks, acts, i + 1, j, t, w);
    RunStep(ks, acts, j, t, w);
    GoodTime(ks, acts, i);
  }

  // curtime + timeout never comes out as the value that means "never".
  lemma GoodTime(ks: seq<CvState>, acts: seq<CvStep>, i: nat)
    requires IsCvRun(ks, acts) && i < |acts| && acts[i].FallAsleep?
    ensures acts[i].timeout != NO_TIMEOUT ==> (acts[i].now + acts[i].timeout) % TIME_LIMIT != NO_TIMEOUT
  {
    assert CvEnabled(ks[i], acts[i]);
  }

  // A wait that was ended by something other than a signal returns 0.
  lemma {:induction false} TimedOutReturnsZero(ks: seq<CvState>, acts: seq<CvStep>, i: nat, j: nat, t: Tid)
    requires IsCvRun(ks, acts) && i <= j < |ks| && (forall m :: i <= m <= j ==> t in ks[m].frame)
    requires ks[i].frame[t].woken == ByOther
    ensures ks[j].frame[t].woken == ByOther && !ks[j].frame[t].signalled
    decreases j
  {
    CvRunInv(ks, acts, j);
    assert FrameOk(ks[j], t);
    if i == j {
    } else {
      TimedOutReturnsZero(ks, acts, i, j - 1, t);
      CvRunInv(ks, acts, j - 1);
      assert CvEnabled(ks[j - 1], acts[j - 1]);
      WokenIsHonest(ks[j - 1], acts[j - 1], t);
    }
  }
}
