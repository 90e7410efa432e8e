// kernel_lock, kernel_wait and kernel_sleep (kernel_cc.c) seen from one thread:
// where it queues, and how it comes back.
module KernelWaits {
  import opened Sched
  import opened SchedInv
  import opened SchedLife
  import opened CondVar
  import opened KernelSem

  // The condition on which t waits with kernel_mutex.
  ghost predicate WaitsFor(k: K, t: Tid, d: Cv) {
    t in k.pc && k.pc[t] == Waiting && t in k.cv.frame && k.cv.frame[t].mutex == KM && k.cv.frame[t].cv == d
  }

  // A thread that has to wait for the lock queues on kernel_sem_cv, and one in
  // kernel_wait on the condition it was called with; at the end of that ring and in
  // no other, with the mutex kernel_mutex, which it has released.
  lemma WaitsInItsRing(k: K, a: KStep, d: Cv)
    requires KShape(k) && KEnabled(k, a) && ((a.Block? && d == SEM) || (a.WaitOn? && d == a.d))
    ensures var k', t := KApply(k, a), Actor(k.cv, a.c);
      && Ring(k'.cv, d) == Ring(k.cv, d) + [t]
      && (forall e :: e != d ==> Ring(k'.cv, e) == Ring(k.cv, e) && t !in Ring(k'.cv, e))
      && WaitsFor(k', t, d) && KM !in k'.cv.mutex
  {
    var k', t := KApply(k, a), Actor(k.cv, a.c);
    forall e | e != d ensures Ring(k'.cv, e) == Ring(k.cv, e) && t !in Ring(k'.cv, e) {
      assert RingOk(k.cv, e);
    }
  }

  // Such a wait goes on, on the same condition, until cv_wait returns with
  // kernel_mutex; then the semaphore is tested.
  lemma WaitStep(k: K, a: KStep, t: Tid, d: Cv)
    requires KShape(k) && KEnabled(k, a) && WaitsFor(k, t, d)
    ensures var k' := KApply(k, a);
      if a.Recheck? && Actor(k.cv, a.c) == t
      then t in k'.pc && k'.pc[t] == Check && KM in k'.cv.mutex && k'.cv.mutex[KM] == t
      else WaitsFor(k', t, d)
  {
    var k' := KApply(k, a);
    assert PcOk(k, t);
    FrameEffect(k.cv, Inner(a), t);
    MutexEffect(k.cv, Inner(a));
  }

  // A thread on its way into the lock, by kernel_lock or at the end of kernel_wait.
  ghost predicate Entering(k: K, t: Tid) {
    t in k.pc && (k.pc[t] == Check || k.pc[t] == Waiting)
  }

  // It does not get past the test of the semaphore without taking it: it stays on
  // its way until it holds the lock, with the semaphore one lower.
  lemma EntersAsHolder(k: K, a: KStep, t: Tid)
    requires KShape(k) && KEnabled(k, a) && Entering(k, t)
    ensures var k' := KApply(k, a);
      || Entering(k', t)
      || (t !in Holders(k) && t in Holders(k') && k.sem > 0 && k'.sem == k.sem - 1)
  {
  }

  lemma RunStep(ks: seq<K>, acts: seq<KStep>, i: nat, t: Tid)
    requires IsKRun(ks, acts) && i < |acts| && Entering(ks[i], t)
    ensures Entering(ks[i + 1], t) || t in Holders(ks[i + 1])
  {
    KRunShape(ks, acts, i);
    assert KEnabled(ks[i], acts[i]);
    EntersAsHolder(ks[i], acts[i], t);
  }

  // Over runs: between a call of kernel_lock, or the wait of kernel_wait, and the
  // next time the thread is out of it, it gets the lock.
  lemma {:induction false} NoWayAroundTheLock(ks: seq<K>, acts: seq<KStep>, i: nat, j: nat, t: Tid)
      returns (m: nat)
    requires IsKRun(ks, acts) && i < j < |ks| && Entering(ks[i], t) && !Entering(ks[j], t)
    ensures i < m <= j && t in Holders(ks[m]) && forall l :: i <= l < m ==> Entering(ks[l], t)
    decreases j - i
  {
    RunStep(ks, acts, i, t);
    if Entering(ks[i + 1], t) {
      m := NoWayAroundTheLock(ks, acts, i + 1, j, t);
    } else {
      m := i + 1;
    }
  }

  // The lock is given up by kernel_unlock, kernel_wait or kernel_sleep of its
  // holder, and only so: the semaphore is then one higher.
  lemma GivenUpByHolder(k: K, a: KStep, t: Tid)
    requires KShape(k) && KEnabled(k, a) && t in Holders(k) && t !in Holders(KApply(k, a))
    ensures a.Raise? && Actor(k.cv, a.c) == t && KApply(k, a).sem == k.sem + 1
  {
  }

  // kernel_sleep(EXITED) ends a thread: it is on its way out of its core, which
  // will release it, and kernel_mutex is free.
  lemma SleepExits(k: K, c: nat)
    requires KShape(k) && KEnabled(k, Exit(c))
    ensures var k', t := KApply(k, Exit(c)), Actor(k.cv, c);
      && OnWayOut(k'.cv.s, t, c) && NeverRuns(k'.cv.s, t)
      && KM !in k'.cv.mutex && t !in k'.pc && t !in k'.cv.frame
  {
    var a := DoSleep(c, EXITED, NO_TIMEOUT, 0);
    ExitBegins(k.cv.s, c, NO_TIMEOUT, 0);
    SleepInv(k.cv.s, c, EXITED, NO_TIMEOUT, 0);
    assert KApply(k, Exit(c)).cv.s == SchedInv.Apply(k.cv.s, a);
    ExitedNeverRuns(KApply(k, Exit(c)).cv.s, Actor(k.cv, c), c);
    assert PcOk(k, Actor(k.cv, c));
  }
}
