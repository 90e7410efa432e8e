// Condition variables of kernel_cc.c on top of the scheduler. A section under
// waitset_lock is one step, except that cv_wait gives up the lock only inside
// sleep_releasing: the gap between the two is a state of its own (Pushed).
module CondVar {
  import opened Lists
  import opened Sched
  import opened SchedInv

  type Cv = nat
  type Mutex = nat

  // Where a thread is inside cv_wait:
  // Pushed  in the ring, mutex released, waitset_lock still held, not yet asleep
  // Asleep  past sleep_releasing, until it takes waitset_lock again
  // Relock  tidied up, about to take the mutex
  datatype WaitPc = Pushed | Asleep | Relock

  // Auxiliary: what ended the sleep of this wait, if anything has.
  datatype Woken = NotYet | BySignal | ByOther

  // The __cv_waiter on the stack of a thread inside cv_wait.
  datatype Waiter = Waiter(mutex: Mutex, cv: Cv, pc: WaitPc, signalled: bool, removed: bool, woken: Woken)

  // ring[cv] is the waitset in ring order from cv->waitset (absent: empty);
  // wlock and mutex map a held lock to its holder (absent: free).
  datatype CvState = CvState(
    s: State,
    ring: map<Cv, seq<Tid>>,
    wlock: map<Cv, Tid>,
    mutex: map<Mutex, Tid>,
    frame: map<Tid, Waiter>)

  function Ring(k: CvState, cv: Cv): seq<Tid> {
    if cv in k.ring then k.ring[cv] else []
  }

  predicate Stopped(s: State, t: Tid) {
    t in s.tcb && s.tcb[t].state == STOPPED
  }

  // ------------------------------------------------------------------
  // The steps
  // ------------------------------------------------------------------

  datatype CvStep =
    | Lock(c: nat, m: Mutex)
    | Unlock(c: nat, m: Mutex)
    | Push(c: nat, m: Mutex, cv: Cv)
    | FallAsleep(c: nat, timeout: nat, now: nat)
    | Tidy(c: nat)
    | Return(c: nat)
    | Signal(c: nat, cv: Cv)
    | Broadcast(c: nat, cv: Cv)
    | Kernel(a: Step)  // spawning, exiting, yield, gain, timeouts, other wakeups

  ghost function Actor(k: CvState, c: nat): Tid
    requires c < |k.s.core|
  {
    k.s.core[c].current
  }

  ghost predicate CvEnabled(k: CvState, a: CvStep) {
    match a
    case Lock(c, m) => Acting(k.s, c) && Actor(k, c) !in k.frame && m !in k.mutex
    case Unlock(c, m) =>
      Acting(k.s, c) && Actor(k, c) !in k.frame && m in k.mutex && k.mutex[m] == Actor(k, c)
    case Push(c, m, cv) =>
      && Acting(k.s, c) && Actor(k, c) !in k.frame
      && m in k.mutex && k.mutex[m] == Actor(k, c) && cv !in k.wlock
    case FallAsleep(c, timeout, now) =>
      && Acting(k.s, c) && Actor(k, c) in k.frame && k.frame[Actor(k, c)].pc == Pushed
      && GoodTimeout(timeout, now)
    case Tidy(c) =>
      && Acting(k.s, c) && Actor(k, c) in k.frame && k.frame[Actor(k, c)].pc == Asleep
      && k.frame[Actor(k, c)].cv !in k.wlock
    case Return(c) =>
      && Acting(k.s, c) && Actor(k, c) in k.frame && k.frame[Actor(k, c)].pc == Relock
      && k.frame[Actor(k, c)].mutex !in k.mutex
    case Signal(c, cv) => Acting(k.s, c) && Actor(k, c) !in k.frame && cv !in k.wlock
    case Broadcast(c, cv) => Acting(k.s, c) && Actor(k, c) !in k.frame && cv !in k.wlock
    case Kernel(a) =>
      && Enabled(k.s, a)
      && (a.DoSleep? ==> a.newstate == EXITED && Actor(k, a.c) !in k.frame)
      && (a.DoSpawnAlloc? ==> Actor(k, a.c) !in k.frame)
  }

  // The head of the ring leaves it ...
  ghost function TakeHead(k: CvState, cv: Cv): CvState
    requires Ring(k, cv) != [] && Ring(k, cv)[0] in k.frame
  {
    var w := Ring(k, cv)[0];
    k.(ring := k.ring[cv := Ring(k, cv)[1..]], frame := k.frame[w := k.frame[w].(removed := true)])
  }

  // ... and, if it was still asleep, is woken.
  ghost function WakeHead(k: CvState, cv: Cv): CvState
    requires Ring(k, cv) != [] && Ring(k, cv)[0] in k.frame && Stoppable(k.s, Ring(k, cv)[0])
  {
    var w := Ring(k, cv)[0];
    k.(s := MakeReady(k.s, w), ring := k.ring[cv := Ring(k, cv)[1..]],
       frame := k.frame[w := k.frame[w].(removed := true, signalled := true, woken := BySignal)])
  }

  // cv_signal: take waiters off the front until one of them was still asleep.
  ghost function SignalRing(k: CvState, cv: Cv): CvState
    requires forall i :: 0 <= i < |Ring(k, cv)| ==> Ring(k, cv)[i] in k.frame
    decreases |Ring(k, cv)|
  {
    if Ring(k, cv) == [] then k
    else if Stoppable(k.s, Ring(k, cv)[0]) then WakeHead(k, cv)
    else SignalRing(TakeHead(k, cv), cv)
  }

  // Record which waits were ended by a step of the kernel.
  ghost function Noticed(frame: map<Tid, Waiter>, s: State): map<Tid, Waiter> {
    map t | t in frame ::
      if frame[t].pc == Asleep && frame[t].woken == NotYet && !Stopped(s, t)
      then frame[t].(woken := ByOther) else frame[t]
  }

  ghost function CvApply(k: CvState, a: CvStep): CvState
    requires CvInv(k) && CvEnabled(k, a)
  {
    match a
    case Lock(c, m) => k.(mutex := k.mutex[m := Actor(k, c)])
    case Unlock(c, m) => k.(mutex := k.mutex - {m})
    case Push(c, m, cv) =>
      var t := Actor(k, c);
      k.(ring := k.ring[cv := Ring(k, cv) + [t]], wlock := k.wlock[cv := t], mutex := k.mutex - {m},
         frame := k.frame[t := Waiter(m, cv, Pushed, false, false, NotYet)])
    case FallAsleep(c, timeout, now) =>
      var t := Actor(k, c);
      k.(s := Sleep(k.s, c, STOPPED, timeout, now), wlock := k.wlock - {k.frame[t].cv},
         frame := k.frame[t := k.frame[t].(pc := Asleep)])
    case Tidy(c) =>
      var t := Actor(k, c);
      var f := k.frame[t];
      k.(ring := if f.removed then k.ring else k.ring[f.cv := Without(Ring(k, f.cv), t)],
         frame := k.frame[t := f.(pc := Relock)])
    case Return(c) =>
      var t := Actor(k, c);
      k.(mutex := k.mutex[k.frame[t].mutex := t], frame := k.frame - {t})
    case Signal(c, cv) => RingFramed(k, cv); SignalRing(k, cv)
    case Broadcast(c, cv) => BroadcastRing(k, cv)
    case Kernel(a) =>
      var s' := Apply(k.s, a);
      k.(s := s', frame := Noticed(k.frame, s'))
  }

  // while (cv->waitset) cv_signal(cv);
  ghost function BroadcastRing(k: CvState, cv: Cv): CvState
    requires CvInv(k) && cv !in k.wlock
    decreases |Ring(k, cv)|
  {
    RingFramed(k, cv);
    if Ring(k, cv) == [] then k
    else
      SignalInv(k, cv);
      BroadcastRing(SignalRing(k, cv), cv)
  }

  // ------------------------------------------------------------------
  // The invariant
  // ------------------------------------------------------------------

  ghost predicate FrameOk(k: CvState, t: Tid)
    requires t in k.frame
  {
    var f := k.frame[t];
    && t in k.s.tcb && t.Thread? && t !in k.s.spawning
    && k.s.tcb[t].state != INIT && k.s.tcb[t].state != EXITED
    && (t in Ring(k, f.cv) <==> f.pc != Relock && !f.removed)
    && (f.pc == Asleep && f.woken == NotYet <==> Stopped(k.s, t))
    && (f.signalled <==> f.woken == BySignal)
    && (f.signalled ==> f.removed)
    && (f.removed || f.pc == Relock ==> f.woken != NotYet)
    && (f.pc == Pushed ==> !f.removed && f.woken == NotYet && f.cv in k.wlock && k.wlock[f.cv] == t)
  }

  ghost predicate RingOk(k: CvState, cv: Cv) {
    && Distinct(Ring(k, cv))
    && (forall i :: 0 <= i < |Ring(k, cv)| ==> Ring(k, cv)[i] in k.frame && k.frame[Ring(k, cv)[i]].cv == cv)
  }

  ghost predicate WlockOk(k: CvState, cv: Cv)
    requires cv in k.wlock
  {
    k.wlock[cv] in k.frame && k.frame[k.wlock[cv]].pc == Pushed && k.frame[k.wlock[cv]].cv == cv
  }

  ghost predicate CvInv(k: CvState) {
    && Inv(k.s)
    && (forall t {:trigger FrameOk(k, t)} :: t in k.frame ==> FrameOk(k, t))
    && (forall cv {:trigger RingOk(k, cv)} :: RingOk(k, cv))
    && (forall cv {:trigger WlockOk(k, cv)} :: cv in k.wlock ==> WlockOk(k, cv))
    // the only way to be STOPPED is to be asleep in cv_wait
    && (forall t {:trigger Stopped(k.s, t)} :: Stopped(k.s, t) ==> t in k.frame)
  }

  lemma RingFramed(k: CvState, cv: Cv)
    requires CvInv(k)
    ensures forall i :: 0 <= i < |Ring(k, cv)| ==> Ring(k, cv)[i] in k.frame
  {
    assert RingOk(k, cv);
  }

  ghost predicate CvInit(k: CvState) {
    Init(k.s) && k.ring == map[] && k.wlock == map[] && k.mutex == map[] && k.frame == map[]
  }

  // ------------------------------------------------------------------
  // Preservation
  // ------------------------------------------------------------------

  // What one step of the scheduler may do to the state of a thread.
  lemma StepEffect(s: State, a: Step, t: Tid)
    requires Inv(s) && Enabled(s, a) && t in s.tcb
    ensures var s' := Apply(s, a);
      && (s.tcb[t].state != EXITED ==> t in s'.tcb)
      && (t in s'.tcb && !(a.DoSleep? && s.core[a.c].current == t) ==>
            match s.tcb[t].state
            case STOPPED => s'.tcb[t].state == STOPPED || s'.tcb[t].state == READY
            case INIT => s'.tcb[t].state == INIT || s'.tcb[t].state == READY
            case EXITED => s'.tcb[t].state == EXITED
            case _ => s'.tcb[t].state == READY || s'.tcb[t].state == RUNNING)
      && (t in s'.spawning ==> t in s.spawning || (a.DoSpawnAlloc? && s.core[a.c].current == t))
  {
    match a
    case DoYield(c, now) =>
      OfferInv(s, c);
      WakeExpiredFrame(Offer(s, c), now);
      ExpiryStates(Offer(s, c), now, t);
      WakeExpiredInv(Offer(s, c), now);
      assert CoreOk(s, c);
    case DoGain(c) =>
      assert CoreOk(s, c);
      GainHasEffect(s, c);
    case _ =>
  }

  lemma {:induction false} ExpiryStates(s: State, now: nat, t: Tid)
    requires TimeoutsListed(s) && t in s.tcb
    ensures t in WakeExpired(s, now).tcb
    ensures WakeExpired(s, now).tcb[t].state == s.tcb[t].state
            || (s.tcb[t].state == STOPPED && WakeExpired(s, now).tcb[t].state == READY)
    decreases |s.timeouts|
  {
    if s.timeouts == [] || now < s.tcb[s.timeouts[0]].wakeup_time {
    } else {
      MakeReadyListed(s);
      ExpiryStates(MakeReady(s, s.timeouts[0]), now, t);
    }
  }

  // A thread unknown before a step is new, and INIT.
  lemma NewThreads(s: State, a: Step, t: Tid)
    requires Inv(s) && Enabled(s, a) && t !in s.tcb
    ensures t in Apply(s, a).tcb ==> Apply(s, a).tcb[t].state == INIT
  {
    match a
    case DoYield(c, now) =>
      OfferInv(s, c);
      WakeExpiredFrame(Offer(s, c), now);
    case DoGain(c) =>
      assert CoreOk(s, c);
      GainHasEffect(s, c);
    case _ =>
  }

  lemma CvInitInv(k: CvState)
    requires CvInit(k)
    ensures CvInv(k)
  {
    InitInv(k.s);
  }

  lemma KernelInv(k: CvState, a: Step)
    requires CvInv(k) && CvEnabled(k, Kernel(a))
    ensures CvInv(CvApply(k, Kernel(a)))
  {
    var k' := CvApply(k, Kernel(a));
    StepInv(k.s, a);
    forall t | t in k'.frame ensures FrameOk(k', t) {
      assert FrameOk(k, t);
      StepEffect(k.s, a, t);
      if a.DoSleep? { assert CoreOk(k.s, a.c); }
    }
    forall cv ensures RingOk(k', cv) { assert RingOk(k, cv); }
    forall cv | cv in k'.wlock ensures WlockOk(k', cv) { assert WlockOk(k, cv); }
    forall t | Stopped(k'.s, t) ensures t in k'.frame { StoppedBefore(k, a, t); }
  }

  lemma StoppedBefore(k: CvState, a: Step, t: Tid)
    requires CvInv(k) && CvEnabled(k, Kernel(a)) && Stopped(Apply(k.s, a), t)
    ensures Stopped(k.s, t)
  {
    if t in k.s.tcb { StepEffect(k.s, a, t); } else { NewThreads(k.s, a, t); }
  }

  // The exit of a thread that is in no wait ends no wait.
  lemma NobodyNoticesExit(k: CvState, c: nat)
    requires CvInv(k) && Acting(k.s, c) && Actor(k, c) !in k.frame
    requires Actor(k, c) in k.s.tcb
    ensures Noticed(k.frame, Sleep(k.s, c, EXITED, NO_TIMEOUT, 0)) == k.frame
  {
    forall u | u in k.frame ensures FrameOk(k, u) { }
  }

  lemma SignalInv(k: CvState, cv: Cv)
    requires CvInv(k) && cv !in k.wlock
    ensures (forall i :: 0 <= i < |Ring(k, cv)| ==> Ring(k, cv)[i] in k.frame)
    ensures CvInv(SignalRing(k, cv)) && SignalRing(k, cv).wlock == k.wlock && SignalRing(k, cv).mutex == k.mutex
    ensures Ring(k, cv) != [] ==> |Ring(SignalRing(k, cv), cv)| < |Ring(k, cv)|
    decreases |Ring(k, cv)|
  {
    RingFramed(k, cv);
    if Ring(k, cv) != [] {
      if Stoppable(k.s, Ring(k, cv)[0]) {
        WakeHeadInv(k, cv);
      } else {
        TakeHeadInv(k, cv);
        SignalInv(TakeHead(k, cv), cv);
      }
    }
  }

  // The head of the ring was already awake.
  lemma TakeHeadInv(k: CvState, cv: Cv)
    requires CvInv(k) && cv !in k.wlock && Ring(k, cv) != []
    requires Ring(k, cv)[0] in k.frame && !Stoppable(k.s, Ring(k, cv)[0])
    ensures CvInv(TakeHead(k, cv)) && Ring(TakeHead(k, cv), cv) == Ring(k, cv)[1..]
  {
    var w := Ring(k, cv)[0];
    assert RingOk(k, cv) && w in Ring(k, cv) && FrameOk(k, w);
    RemovedHead(k, TakeHead(k, cv), cv);
  }

  lemma WakeHeadInv(k: CvState, cv: Cv)
    requires CvInv(k) && cv !in k.wlock && Ring(k, cv) != []
    requires Ring(k, cv)[0] in k.frame && Stoppable(k.s, Ring(k, cv)[0])
    ensures CvInv(WakeHead(k, cv)) && Ring(WakeHead(k, cv), cv) == Ring(k, cv)[1..]
  {
    var w := Ring(k, cv)[0];
    assert RingOk(k, cv) && w in Ring(k, cv) && FrameOk(k, w);
    Spawner(k.s, w);
    ReadyInv(k.s, w);
    RemovedHead(k, WakeHead(k, cv), cv);
  }

  lemma HeadlessRing(k: CvState, k': CvState, cv: Cv, d: Cv)
    requires RingOk(k, d) && Ring(k, cv) != [] && k'.ring == k.ring[cv := Ring(k, cv)[1..]]
    requires k'.frame.Keys == k.frame.Keys && (forall t :: t in k.frame ==> k'.frame[t].cv == k.frame[t].cv)
    ensures RingOk(k', d)
  {
    forall i | 0 <= i < |Ring(k', d)| ensures Ring(k', d)[i] in k'.frame && k'.frame[Ring(k', d)[i]].cv == d {
      if d == cv { assert Ring(k', d)[i] == Ring(k, d)[i + 1]; }
    }
  }

  // The head w of the ring leaves it, awake.
  lemma RemovedHead(k: CvState, k': CvState, cv: Cv)
    requires CvInv(k) && cv !in k.wlock && Ring(k, cv) != [] && Inv(k'.s)
    requires var w := Ring(k, cv)[0];
      && w in k.frame && w in k.s.tcb
      && k'.ring == k.ring[cv := Ring(k, cv)[1..]] && k'.wlock == k.wlock
      && k'.frame.Keys == k.frame.Keys
      && (forall t :: t in k.frame && t != w ==> k'.frame[t] == k.frame[t])
      && k'.s.tcb.Keys == k.s.tcb.Keys && k'.s.spawning == k.s.spawning
      && (forall t :: t in k.s.tcb && t != w ==> k'.s.tcb[t] == k.s.tcb[t])
      && k'.s.tcb[w].state != STOPPED && k'.s.tcb[w].state != INIT && k'.s.tcb[w].state != EXITED
      && k'.frame[w].cv == cv && k'.frame[w].pc == k.frame[w].pc && k'.frame[w].removed
      && (k'.frame[w].signalled <==> k'.frame[w].woken == BySignal)
      && (k'.frame[w].woken == k.frame[w].woken || k'.frame[w].woken == BySignal)
      && (k'.frame[w].woken == NotYet ==> Stopped(k'.s, w))
    ensures CvInv(k')
  {
    var q := Ring(k, cv);
    var w := q[0];
    assert q == [w] + q[1..] && RingOk(k, cv) && FrameOk(k, w);
    assert Ring(k', cv) == q[1..];
    forall t | t in k'.frame ensures FrameOk(k', t) { assert FrameOk(k, t); }
    forall d ensures RingOk(k', d) { HeadlessRing(k, k', cv, d); }
    forall d | d in k'.wlock ensures WlockOk(k', d) { assert WlockOk(k, d); }
    forall t | Stopped(k'.s, t) ensures t in k'.frame { assert Stopped(k.s, t); }
  }

  lemma {:induction false} BroadcastInv(k: CvState, cv: Cv)
    requires CvInv(k) && cv !in k.wlock
    ensures CvInv(BroadcastRing(k, cv)) && Ring(BroadcastRing(k, cv), cv) == []
    ensures BroadcastRing(k, cv).wlock == k.wlock && BroadcastRing(k, cv).mutex == k.mutex
    decreases |Ring(k, cv)|
  {
    if Ring(k, cv) == [] {
    } else {
      SignalInv(k, cv);
      BroadcastInv(SignalRing(k, cv), cv);
    }
  }

  lemma LongerRing(k: CvState, k': CvState, t: Tid, cv: Cv, d: Cv)
    requires RingOk(k, d) && t !in k.frame && k'.ring == k.ring[cv := Ring(k, cv) + [t]]
    requires k'.frame.Keys == k.frame.Keys + {t} && k'.frame[t].cv == cv
    requires forall u :: u in k.frame ==> k'.frame[u].cv == k.frame[u].cv
    ensures RingOk(k', d)
  {
  }

  lemma PushRings(k: CvState, c: nat, m: Mutex, cv: Cv)
    requires CvInv(k) && CvEnabled(k, Push(c, m, cv))
    ensures var k' := CvApply(k, Push(c, m, cv));
      Ring(k', cv) == Ring(k, cv) + [Actor(k, c)] && forall d {:trigger RingOk(k', d)} :: RingOk(k', d)
  {
    var k', t := CvApply(k, Push(c, m, cv)), Actor(k, c);
    assert RingOk(k, cv) && t !in Ring(k, cv);
    forall d ensures RingOk(k', d) { LongerRing(k, k', t, cv, d); }
  }

  lemma PushFrame(k: CvState, c: nat, m: Mutex, cv: Cv, u: Tid)
    requires CvInv(k) && CvEnabled(k, Push(c, m, cv)) && u in CvApply(k, Push(c, m, cv)).frame
    ensures FrameOk(CvApply(k, Push(c, m, cv)), u)
  {
    PushRings(k, c, m, cv);
    if u == Actor(k, c) {
      assert CoreOk(k.s, c) && ThreadOk(k.s, u);
    } else {
      assert FrameOk(k, u);
    }
  }

  lemma PushInv(k: CvState, c: nat, m: Mutex, cv: Cv)
    requires CvInv(k) && CvEnabled(k, Push(c, m, cv))
    ensures CvInv(CvApply(k, Push(c, m, cv)))
  {
    var k' := CvApply(k, Push(c, m, cv));
    PushRings(k, c, m, cv);
    forall u | u in k'.frame ensures FrameOk(k', u) { PushFrame(k, c, m, cv, u); }
    forall d | d in k'.wlock ensures WlockOk(k', d) { if d != cv { assert WlockOk(k, d); } }
    forall u | Stopped(k'.s, u) ensures u in k'.frame { assert Stopped(k.s, u); }
  }

  lemma FallAsleepInv(k: CvState, c: nat, timeout: nat, now: nat)
    requires CvInv(k) && CvEnabled(k, FallAsleep(c, timeout, now))
    ensures CvInv(CvApply(k, FallAsleep(c, timeout, now)))
  {
    var k', t := CvApply(k, FallAsleep(c, timeout, now)), Actor(k, c);
    SleepInv(k.s, c, STOPPED, timeout, now);
    assert FrameOk(k, t) && WlockOk(k, k.frame[t].cv);
    forall u | u in k'.frame ensures FrameOk(k', u) { assert FrameOk(k, u); }
    forall d ensures RingOk(k', d) { assert RingOk(k, d); }
    forall d | d in k'.wlock ensures WlockOk(k', d) { assert WlockOk(k, d); }
    forall u | Stopped(k'.s, u) ensures u in k'.frame { assert u == t || Stopped(k.s, u); }
  }

  lemma TidyInv(k: CvState, c: nat)
    requires CvInv(k) && CvEnabled(k, Tidy(c))
    ensures CvInv(CvApply(k, Tidy(c)))
  {
    var k', t := CvApply(k, Tidy(c)), Actor(k, c);
    var cv := k.frame[t].cv;
    assert CoreOk(k.s, c) && FrameOk(k, t) && RingOk(k, cv);
    WithoutSpec(Ring(k, cv), t);
    assert !k.frame[t].removed ==> Ring(k', cv) == Without(Ring(k, cv), t);
    forall u | u in k'.frame ensures FrameOk(k', u) { assert FrameOk(k, u); }
    forall d ensures RingOk(k', d) {
      assert RingOk(k, d);
      forall i | 0 <= i < |Ring(k', d)| ensures Ring(k', d)[i] in k'.frame && k'.frame[Ring(k', d)[i]].cv == d {
        assert Ring(k', d)[i] in Ring(k', d) && Ring(k', d)[i] in Ring(k, d);
      }
    }
    forall d | d in k'.wlock ensures WlockOk(k', d) { assert WlockOk(k, d); }
    forall u | Stopped(k'.s, u) ensures u in k'.frame { assert Stopped(k.s, u); }
  }

  lemma ReturnInv(k: CvState, c: nat)
    requires CvInv(k) && CvEnabled(k, Return(c))
    ensures CvInv(CvApply(k, Return(c)))
  {
    var k', t := CvApply(k, Return(c)), Actor(k, c);
    assert CoreOk(k.s, c) && FrameOk(k, t);
    forall u | u in k'.frame ensures FrameOk(k', u) { assert FrameOk(k, u); }
    forall d ensures RingOk(k', d) {
      assert RingOk(k, d);
      forall i | 0 <= i < |Ring(k, d)| ensures Ring(k, d)[i] != t { assert Ring(k, d)[i] in Ring(k, d); }
    }
    forall d | d in k'.wlock ensures WlockOk(k', d) { assert WlockOk(k, d); }
    forall u | Stopped(k'.s, u) ensures u in k'.frame { assert Stopped(k.s, u); }
  }

  lemma MutexInv(k: CvState, k': CvState)
    requires CvInv(k) && k' == k.(mutex := k'.mutex)
    ensures CvInv(k')
  {
    forall u | u in k'.frame ensures FrameOk(k', u) { assert FrameOk(k, u); }
    forall d ensures RingOk(k', d) { assert RingOk(k, d); }
    forall d | d in k'.wlock ensures WlockOk(k', d) { assert WlockOk(k, d); }
    forall u | Stopped(k'.s, u) ensures u in k'.frame { assert Stopped(k.s, u); }
  }

  lemma CvStepInv(k: CvState, a: CvStep)
    requires CvInv(k) && CvEnabled(k, a)
    ensures CvInv(CvApply(k, a))
  {
    match a
    case Lock(c, m) => MutexInv(k, CvApply(k, a));
    case Unlock(c, m) => MutexInv(k, CvApply(k, a));
    case Push(c, m, cv) => PushInv(k, c, m, cv);
    case FallAsleep(c, timeout, now) => FallAsleepInv(k, c, timeout, now);
    case Tidy(c) => TidyInv(k, c);
    case Return(c) => ReturnInv(k, c);
    case Signal(c, cv) => SignalInv(k, cv);
    case Broadcast(c, cv) => BroadcastInv(k, cv);
    case Kernel(b) => KernelInv(k, b);
  }

  // ------------------------------------------------------------------
  // Runs, and what they guarantee
  // ------------------------------------------------------------------

  ghost predicate IsCvRun(ks: seq<CvState>, acts: seq<CvStep>) {
    && |ks| == |acts| + 1 && CvInit(ks[0])
    && (forall i {:trigger acts[i]} :: 0 <= i < |acts| ==>
          CvEnabled(ks[i], acts[i]) && (CvInv(ks[i]) ==> ks[i + 1] == CvApply(ks[i], acts[i])))
  }

  lemma {:induction false} CvRunInv(ks: seq<CvState>, acts: seq<CvStep>, n: nat)
    requires IsCvRun(ks, acts) && n < |ks|
    ensures CvInv(ks[n])
  {
    if n == 0 {
      CvInitInv(ks[0]);
    } else {
      CvRunInv(ks, acts, n - 1);
      assert CvEnabled(ks[n - 1], acts[n - 1]);
      CvStepInv(ks[n - 1], acts[n - 1]);
    }
  }

  ghost predicate CvReached(k: CvState) {
    exists ks, acts {:trigger IsCvRun(ks, acts)} :: IsCvRun(ks, acts) && ks[|acts|] == k
  }

  lemma CvReachedInv(k: CvState)
    requires CvReached(k)
    ensures CvInv(k)
  {
    var ks, acts :| IsCvRun(ks, acts) && ks[|acts|] == k;
    CvRunInv(ks, acts, |acts|);
  }

  // A waiter is in the ring exactly while its `removed` is 0 and it has not
  // tidied up after its sleep.
  lemma InRingWhileWaiting(k: CvState, t: Tid)
    requires CvReached(k)
    ensures forall cv :: t in Ring(k, cv) <==>
      t in k.frame && k.frame[t].cv == cv && k.frame[t].pc != Relock && !k.frame[t].removed
  {
    CvReachedInv(k);
    forall cv ensures t in Ring(k, cv) <==>
      t in k.frame && k.frame[t].cv == cv && k.frame[t].pc != Relock && !k.frame[t].removed
    {
      assert RingOk(k, cv);
      if t in k.frame { assert FrameOk(k, t); }
    }
  }

  // The gap admits no missed signal: once the mutex is released (the waiter is
  // in the ring), whoever gets to signal or broadcast finds it asleep, unless
  // something else has already woken it.
  lemma NoMissedSignal(k: CvState, t: Tid, cv: Cv)
    requires CvReached(k) && cv !in k.wlock
    requires t in k.frame && k.frame[t].cv == cv && k.frame[t].pc != Relock && k.frame[t].woken == NotYet
    ensures t in Ring(k, cv) && Stopped(k.s, t)
  {
    CvReachedInv(k);
    assert FrameOk(k, t);
  }

  // Cond_Signal wakes exactly the first waiter that is still asleep: it takes
  // the i waiters before it off the ring without waking them, and touches no
  // one behind it. With no one asleep it empties the ring.
  lemma {:induction false} SignalWakesFirst(k: CvState, cv: Cv) returns (i: nat)
    requires CvInv(k) && cv !in k.wlock
    ensures forall j :: 0 <= j < |Ring(k, cv)| ==> Ring(k, cv)[j] in k.frame
    ensures i <= |Ring(k, cv)| && (forall j :: 0 <= j < i ==> !Stopped(k.s, Ring(k, cv)[j]))
    ensures i < |Ring(k, cv)| ==> Stopped(k.s, Ring(k, cv)[i])
    ensures SignalEffect(k, SignalRing(k, cv), cv, i)
    decreases |Ring(k, cv)|
  {
    RingFramed(k, cv);
    i := 0;
    if Ring(k, cv) == [] {
    } else {
      HeadIsStopped(k, cv);
      if Stoppable(k.s, Ring(k, cv)[0]) {
        SignalHeadEffect(k, cv);
      } else {
        TakeHeadInv(k, cv);
        var j := SignalWakesFirst(TakeHead(k, cv), cv);
        i := j + 1;
        SkipsHead(k, cv, j);
        SignalCompose(k, SignalRing(k, cv), cv, j);
      }
    }
  }

  lemma HeadIsStopped(k: CvState, cv: Cv)
    requires CvInv(k) && Ring(k, cv) != []
    ensures Stoppable(k.s, Ring(k, cv)[0]) <==> Stopped(k.s, Ring(k, cv)[0])
  {
    var w := Ring(k, cv)[0];
    assert RingOk(k, cv) && w in Ring(k, cv) && FrameOk(k, w);
  }

  // What was said of the ring without its head, said of the ring.
  lemma SkipsHead(k: CvState, cv: Cv, j: nat)
    requires Ring(k, cv) != [] && Ring(k, cv)[0] in k.frame && !Stopped(k.s, Ring(k, cv)[0])
    requires Ring(TakeHead(k, cv), cv) == Ring(k, cv)[1..] && TakeHead(k, cv).s == k.s && j < |Ring(k, cv)|
    requires forall i :: 0 <= i < j ==> !Stopped(k.s, Ring(k, cv)[1..][i])
    requires j < |Ring(k, cv)[1..]| ==> Stopped(k.s, Ring(k, cv)[1..][j])
    ensures forall i :: 0 <= i < j + 1 ==> !Stopped(k.s, Ring(k, cv)[i])
    ensures j + 1 < |Ring(k, cv)| ==> Stopped(k.s, Ring(k, cv)[j + 1])
  {
    var q := Ring(k, cv);
    assert forall i :: 1 <= i < |q| ==> q[i] == q[1..][i - 1];
  }

  lemma SignalHeadEffect(k: CvState, cv: Cv)
    requires (forall i :: 0 <= i < |Ring(k, cv)| ==> Ring(k, cv)[i] in k.frame)
    requires Ring(k, cv) != [] && Stoppable(k.s, Ring(k, cv)[0])
    ensures SignalEffect(k, SignalRing(k, cv), cv, 0)
  {
  }

  lemma SignalCompose(k: CvState, k': CvState, cv: Cv, j: nat)
    requires RingOk(k, cv) && Ring(k, cv) != [] && Ring(k, cv)[0] in k.frame
    requires Ring(TakeHead(k, cv), cv) == Ring(k, cv)[1..]
    requires SignalEffect(TakeHead(k, cv), k', cv, j)
    ensures SignalEffect(k, k', cv, j + 1)
  {
    var q, k1 := Ring(k, cv), TakeHead(k, cv);
    TailAt(q, j);
    forall d | d != cv ensures Ring(k', d) == Ring(k, d) { assert Ring(k1, d) == Ring(k, d); }
    forall i | 0 <= i < |q| ensures q[i] in k.frame { if i > 0 { assert q[1..][i - 1] in k1.frame; } }
    forall t | t in k.frame ensures Signalled(k, k', q, j + 1, t) { assert Signalled(k1, k', q[1..], j, t); }
  }

  // The first j + 1 elements of q, and the one after them, seen from its tail.
  lemma TailAt(q: seq<Tid>, j: nat)
    requires Distinct(q) && j < |q|
    ensures q[..j + 1] == [q[0]] + q[1..][..j] && q[0] !in q[1..][..j]
    ensures j + 1 < |q| ==> q[1..][j] == q[j + 1] != q[0] && q[1..][j + 1..] == q[j + 2..]
  {
  }

  // What a signal that stops at the i-th of the waiters q does to thread t.
  ghost predicate Signalled(k: CvState, k': CvState, q: seq<Tid>, i: nat, t: Tid)
    requires i <= |q| && t in k.frame
  {
    && t in k'.frame
    && k'.frame[t] == if t in q[..i] then k.frame[t].(removed := true)
                      else if i == |q| || t != q[i] then k.frame[t]
                      else k.frame[t].(removed := true, signalled := true, woken := BySignal)
  }

  ghost predicate SignalEffect(k: CvState, k': CvState, cv: Cv, i: nat) {
    var q := Ring(k, cv);
    && i <= |q|
    && (forall j :: 0 <= j < |q| ==> q[j] in k.frame)
    && Ring(k', cv) == (if i < |q| then q[i + 1..] else [])
    && (forall d :: d != cv ==> Ring(k', d) == Ring(k, d))
    && k'.frame.Keys == k.frame.Keys
    && (forall t {:trigger Signalled(k, k', q, i, t)} {:trigger k'.frame[t]} ::
          t in k.frame ==> Signalled(k, k', q, i, t))
    && k'.s == (if i < |q| && Stoppable(k.s, q[i]) then MakeReady(k.s, q[i]) else k.s)
  }

  // What a signal does to waiter t of the condition, asleep or not.
  lemma SignalOne(k: CvState, cv: Cv, t: Tid)
    requires CvInv(k) && cv !in k.wlock && t in k.frame && Ring(k, cv) != []
    ensures (forall i :: 0 <= i < |Ring(k, cv)| ==> Ring(k, cv)[i] in k.frame)
    ensures var k1 := SignalRing(k, cv);
      && t in k1.frame && k1.frame[t].cv == k.frame[t].cv && k1.frame[t].pc == k.frame[t].pc
      && (k.frame[t].woken != NotYet ==> k1.frame[t].woken == k.frame[t].woken)
      && (k1.frame[t].woken == k.frame[t].woken || k1.frame[t].woken == BySignal)
  {
    var i := SignalWakesFirst(k, cv);
    assert FrameOk(k, t) && Signalled(k, SignalRing(k, cv), Ring(k, cv), i, t);
  }

  // With an empty ring nobody waits unwoken.
  lemma EmptyRing(k: CvState, cv: Cv, t: Tid)
    requires CvInv(k) && cv !in k.wlock && t in k.frame && Ring(k, cv) == []
    ensures k.frame[t].cv == cv && k.frame[t].pc != Relock ==> k.frame[t].woken != NotYet
  {
    assert FrameOk(k, t);
  }

  // After a broadcast the ring is empty and every waiter that was asleep on the
  // condition has been woken by it.
  lemma {:induction false} BroadcastWakesAll(k: CvState, cv: Cv, t: Tid)
    requires CvInv(k) && cv !in k.wlock && t in k.frame
    ensures CvInv(BroadcastRing(k, cv)) && Ring(BroadcastRing(k, cv), cv) == []
    ensures t in BroadcastRing(k, cv).frame
    ensures k.frame[t].cv == cv && k.frame[t].pc != Relock && k.frame[t].woken == NotYet
            ==> BroadcastRing(k, cv).frame[t].woken == BySignal && !Stopped(BroadcastRing(k, cv).s, t)
    ensures k.frame[t].woken != NotYet ==> BroadcastRing(k, cv).frame[t].woken == k.frame[t].woken
    decreases |Ring(k, cv)|
  {
    BroadcastInv(k, cv);
    if Ring(k, cv) == [] {
      EmptyRing(k, cv, t);
    } else {
      SignalInv(k, cv);
      SignalOne(k, cv, t);
      BroadcastWakesAll(SignalRing(k, cv), cv, t);
      assert FrameOk(BroadcastRing(k, cv), t);
    }
  }

  // cv_wait returns 1 exactly when a signal or broadcast ended the sleep.
  lemma WaitReturnsSignalled(k: CvState, c: nat)
    requires CvReached(k) && CvEnabled(k, Return(c))
    ensures k.frame[Actor(k, c)].signalled <==> k.frame[Actor(k, c)].woken == BySignal
    ensures k.frame[Actor(k, c)].woken != NotYet
  {
    CvReachedInv(k);
    assert FrameOk(k, Actor(k, c));
  }

  // `woken` says what it means: only a signal or a broadcast on the waiter's
  // own condition sets it to BySignal, and nothing changes it afterwards.
  lemma WokenIsHonest(k: CvState, a: CvStep, t: Tid)
    requires CvInv(k) && CvEnabled(k, a) && t in k.frame && t in CvApply(k, a).frame
    ensures var w, w' := k.frame[t].woken, CvApply(k, a).frame[t].woken;
      && (w != NotYet ==> w' == w)
      && (w == NotYet && w' == BySignal ==>
            (a.Signal? || a.Broadcast?) && a.cv == k.frame[t].cv && Stopped(k.s, t))
      && (w == NotYet && w' == ByOther ==> a.Kernel? && Stopped(k.s, t))
  {
    CvStepInv(k, a);
    assert FrameOk(k, t);
    match a
    case Signal(c, cv) => SignalHonest(k, cv, t);
    case Broadcast(c, cv) => BroadcastHonest(k, cv, t);
    case _ =>
  }

  lemma SignalHonest(k: CvState, cv: Cv, t: Tid)
    requires CvInv(k) && cv !in k.wlock && t in k.frame
    ensures forall i :: 0 <= i < |Ring(k, cv)| ==> Ring(k, cv)[i] in k.frame
    ensures t in SignalRing(k, cv).frame
    ensures SignalRing(k, cv).frame[t].woken != k.frame[t].woken ==>
              && k.frame[t].woken == NotYet && SignalRing(k, cv).frame[t].woken == BySignal
              && k.frame[t].cv == cv && Stopped(k.s, t)
  {
    var i := SignalWakesFirst(k, cv);
    assert FrameOk(k, t) && RingOk(k, cv);
  }

  lemma {:induction false} BroadcastHonest(k: CvState, cv: Cv, t: Tid)
    requires CvInv(k) && cv !in k.wlock && t in k.frame
    ensures t in BroadcastRing(k, cv).frame
    ensures BroadcastRing(k, cv).frame[t].woken != k.frame[t].woken ==>
              && k.frame[t].woken == NotYet && BroadcastRing(k, cv).frame[t].woken == BySignal
              && k.frame[t].cv == cv && Stopped(k.s, t)
    decreases |Ring(k, cv)|
  {
    if Ring(k, cv) == [] {
    } else {
      var i := SignalWakesFirst(k, cv);
      SignalHonest(k, cv, t);
      SignalInv(k, cv);
      var k1 := SignalRing(k, cv);
      assert FrameOk(k, t) && FrameOk(k1, t);
      BroadcastHonest(k1, cv, t);
    }
  }

  // ------------------------------------------------------------------
  // The ring is a queue: order of arrival is kept
  // ------------------------------------------------------------------

  ghost predicate Before(q: seq<Tid>, t: Tid, u: Tid) {
    exists i, j :: 0 <= i < j < |q| && q[i] == t && q[j] == u
  }

  ghost predicate KeepsOrder(q: seq<Tid>, q': seq<Tid>) {
    && (forall t, u :: t in q' && u in q' && Before(q, t, u) ==> Before(q', t, u))
    && (forall t, u :: t in q' && u in q' && t in q && u !in q ==> Before(q', t, u))
  }

  lemma ArrivalOrder(k: CvState, a: CvStep, cv: Cv)
    requires CvInv(k) && CvEnabled(k, a)
    ensures KeepsOrder(Ring(k, cv), Ring(CvApply(k, a), cv))
  {
    var q, q' := Ring(k, cv), Ring(CvApply(k, a), cv);
    assert RingOk(k, cv);
    match a
    case Signal(c, d) =>
      var i := SignalWakesFirst(k, d);
      if d == cv { SuffixOrder(q, if i < |q| then i + 1 else |q|); }
    case Broadcast(c, d) => BroadcastOrder(k, d, cv);
    case Tidy(c) => WithoutOrder(q, Actor(k, c));
    case Push(c, m, d) => if d == cv { PushOrder(q, Actor(k, c)); }
    case _ =>
  }

  lemma PushOrder(q: seq<Tid>, w: Tid)
    requires w !in q
    ensures KeepsOrder(q, q + [w])
  {
    var q' := q + [w];
    forall t | t in q ensures Before(q', t, w) {
      var i :| 0 <= i < |q| && q[i] == t;
      assert q'[i] == t && q'[|q|] == w;
    }
    forall t, u | Before(q, t, u) ensures Before(q', t, u) {
      var i, j :| 0 <= i < j < |q| && q[i] == t && q[j] == u;
      assert q'[i] == t && q'[j] == u;
    }
  }

  lemma SuffixOrder(q: seq<Tid>, n: nat)
    requires n <= |q| && Distinct(q)
    ensures KeepsOrder(q, q[n..])
  {
    forall t, u | t in q[n..] && u in q[n..] && Before(q, t, u) ensures Before(q[n..], t, u) {
      var i, j :| 0 <= i < j < |q| && q[i] == t && q[j] == u;
      var x :| n <= x < |q| && q[x] == t;
      assert x == i && q[n..][i - n] == t && q[n..][j - n] == u;
    }
  }

  lemma {:induction false} BroadcastOrder(k: CvState, d: Cv, cv: Cv)
    requires CvInv(k) && d !in k.wlock
    ensures Ring(BroadcastRing(k, d), cv) == if cv == d then [] else Ring(k, cv)
    decreases |Ring(k, d)|
  {
    if Ring(k, d) == [] {
    } else {
      var i := SignalWakesFirst(k, d);
      SignalInv(k, d);
      BroadcastOrder(SignalRing(k, d), d, cv);
    }
  }

  lemma WithoutOrder(q: seq<Tid>, x: Tid)
    requires Distinct(q)
    ensures KeepsOrder(q, Without(q, x))
  {
    WithoutSpec(q, x);
    forall t, u | t in Without(q, x) && u in Without(q, x) && Before(q, t, u) ensures Before(Without(q, x), t, u) {
      OrderAround(q, x, t, u);
    }
  }

  lemma OrderAround(q: seq<Tid>, x: Tid, t: Tid, u: Tid)
    requires Distinct(q) && t != x && u != x && Before(q, t, u)
    ensures Before(Without(q, x), t, u)
  {
    if x !in q {
      WithoutSpec(q, x);
    } else {
      var n :| 0 <= n < |q| && q[n] == x;
      WithoutAt(q, x, n);
      OrderAroundAt(q, n, t, u);
    }
  }

  lemma OrderAroundAt(q: seq<Tid>, n: nat, t: Tid, u: Tid)
    requires n < |q| && t != q[n] && u != q[n] && Before(q, t, u)
    ensures Before(q[..n] + q[n + 1..], t, u)
  {
    var i, j :| 0 <= i < j < |q| && q[i] == t && q[j] == u;
    GapOrder(q, n, i, j);
  }

  lemma GapOrder(q: seq<Tid>, n: nat, i: nat, j: nat)
    requires n < |q| && i < j < |q| && i != n && j != n
    ensures Before(q[..n] + q[n + 1..], q[i], q[j])
  {
    var p := q[..n] + q[n + 1..];
    var i', j' := if i < n then i else i - 1, if j < n then j else j - 1;
    assert p[i'] == q[i] && p[j'] == q[j];
  }
}
