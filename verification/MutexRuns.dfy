// The mutexes of kernel_cc.c over runs of locks, unlocks and waits.
module MutexRuns {
  import opened Sched
  import opened SchedInv
  import opened CondVar
  import opened KernelSem

  ghost predicate Has(k: CvState, t: Tid, m: Mutex) { m in k.mutex && k.mutex[m] == t }

  // Thread t gets m from Mutex_Lock or at the end of cv_wait, ...
  ghost predicate Takes(k: CvState, a: CvStep, t: Tid, m: Mutex) {
    && (a.Lock? || a.Return?) && a.c < |k.s.core| && Actor(k, a.c) == t
    && if a.Lock? then m == a.m else t in k.frame && m == k.frame[t].mutex
  }

  // ... and gives it up with Mutex_Unlock or at the beginning of cv_wait.
  ghost predicate Gives(k: CvState, a: CvStep, t: Tid, m: Mutex) {
    (a.Unlock? || a.Push?) && a.c < |k.s.core| && Actor(k, a.c) == t && a.m == m
  }

  // Nobody else takes a mutex away or gives it, and it is taken only when free.
  lemma HolderStep(k: CvState, a: CvStep, t: Tid, m: Mutex)
    requires CvInv(k) && CvEnabled(k, a)
    ensures Has(CvApply(k, a), t, m) <==> Takes(k, a, t, m) || (Has(k, t, m) && !Gives(k, a, t, m))
    ensures Takes(k, a, t, m) ==> m !in k.mutex
  {
    MutexEffect(k, a);
  }

  lemma RunStep(ks: seq<CvState>, acts: seq<CvStep>, j: nat, t: Tid, m: Mutex)
    requires IsCvRun(ks, acts) && j < |acts|
    ensures Has(ks[j + 1], t, m) <==> Takes(ks[j], acts[j], t, m) || (Has(ks[j], t, m) && !Gives(ks[j], acts[j], t, m))
    ensures Takes(ks[j], acts[j], t, m) ==> m !in ks[j].mutex
  {
    CvRunInv(ks, acts, j);
    assert CvEnabled(ks[j], acts[j]);
    HolderStep(ks[j], acts[j], t, m);
  }

  // From step i on and before step j thread t gives m up.
  ghost predicate GivesBetween(ks: seq<CvState>, acts: seq<CvStep>, i: nat, j: nat, t: Tid, m: Mutex)
    requires i <= j <= |acts| <= |ks|
  {
    exists l: nat {:trigger Gives(ks[l], acts[l], t, m)} :: i <= l < j && Gives(ks[l], acts[l], t, m)
  }

  // In any run, a thread that has m has it until it gives it up, ...
  lemma {:induction false} HeldUntilGiven(ks: seq<CvState>, acts: seq<CvStep>, i: nat, j: nat, t: Tid, m: Mutex)
    requires IsCvRun(ks, acts) && i <= j < |ks| && Has(ks[i], t, m)
    requires !GivesBetween(ks, acts, i, j, t, m)
    ensures Has(ks[j], t, m)
    decreases j
  {
    if i == j {
    } else {
      HeldUntilGiven(ks, acts, i, j - 1, t, m);
      RunStep(ks, acts, j - 1, t, m);
    }
  }

  // ... so between two threads that take it the first gives it up.
  lemma TakenOnce(ks: seq<CvState>, acts: seq<CvStep>, i: nat, j: nat, t: Tid, u: Tid, m: Mutex)
    requires IsCvRun(ks, acts) && i < j < |acts| && Takes(ks[i], acts[i], t, m) && Takes(ks[j], acts[j], u, m)
    ensures GivesBetween(ks, acts, i + 1, j, t, m)
  {
    RunStep(ks, acts, i, t, m);
    RunStep(ks, acts, j, u, m);
    if !GivesBetween(ks, acts, i + 1, j, t, m) {
      HeldUntilGiven(ks, acts, i + 1, j, t, m);
    }
  }

  // t is in a wait on cv with mutex m.
  ghost predicate InWait(k: CvState, t: Tid, m: Mutex, cv: Cv) {
    t in k.frame && k.frame[t].mutex == m && k.frame[t].cv == cv && !Has(k, t, m)
  }

  lemma InWaitStep(k: CvState, a: CvStep, t: Tid, m: Mutex, cv: Cv)
    requires CvInv(k) && CvEnabled(k, a) && InWait(k, t, m, cv)
    ensures if t in CvApply(k, a).frame then InWait(CvApply(k, a), t, m, cv) else Has(CvApply(k, a), t, m)
  {
    FrameEffect(k, a, t);
    HolderStep(k, a, t, m);
  }

  lemma WaitStarts(ks: seq<CvState>, acts: seq<CvStep>, i: nat, t: Tid)
    requires IsCvRun(ks, acts) && i < |acts| && acts[i].Push?
    requires acts[i].c < |ks[i].s.core| && Actor(ks[i], acts[i].c) == t
    ensures InWait(ks[i + 1], t, acts[i].m, acts[i].cv)
  {
    CvRunInv(ks, acts, i);
    assert CvEnabled(ks[i], acts[i]);
    HolderStep(ks[i], acts[i], t, acts[i].m);
  }

  lemma WaitGoesOn(ks: seq<CvState>, acts: seq<CvStep>, j: nat, t: Tid, m: Mutex, cv: Cv)
    requires IsCvRun(ks, acts) && j < |acts| && InWait(ks[j], t, m, cv)
    ensures if t in ks[j + 1].frame then InWait(ks[j + 1], t, m, cv) else Has(ks[j + 1], t, m)
  {
    CvRunInv(ks, acts, j);
    assert CvEnabled(ks[j], acts[j]);
    InWaitStep(ks[j], acts[j], t, m, cv);
  }

  // In any run, cv_wait on cv gives up the mutex for all of the wait, stays with
  // its condition, and returns with the mutex.
  lemma {:induction false} WaitsWithoutMutex(ks: seq<CvState>, acts: seq<CvStep>, i: nat, j: nat, t: Tid)
    requires IsCvRun(ks, acts) && i < j < |ks| && acts[i].Push?
    requires acts[i].c < |ks[i].s.core| && Actor(ks[i], acts[i].c) == t
    requires forall l :: i < l < j ==> t in ks[l].frame
    ensures if t in ks[j].frame then InWait(ks[j], t, acts[i].m, acts[i].cv) else Has(ks[j], t, acts[i].m)
    ensures j == i + 1 ==> t in ks[j].frame
    decreases j
  {
    if j == i + 1 {
      WaitStarts(ks, acts, i, t);
    } else {
      WaitsWithoutMutex(ks, acts, i, j - 1, t);
      WaitGoesOn(ks, acts, j - 1, t, acts[i].m, acts[i].cv);
    }
  }
}
