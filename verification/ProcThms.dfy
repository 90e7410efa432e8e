// What holds of the process table in every run.
module ProcThms {
  import opened Lists
  import opened Procs
  import opened ProcInv

  // ------------------------------------------------------------------
  // Runs
  // ------------------------------------------------------------------

  // The table as initialize_processes builds it, all PCBs on the free list.
  function Unused(n: nat): Procs {
    Procs(seq(n, q => PCB(FREE, if q + 1 < n then q + 1 else NOPROC, 0, 0, [], [])),
          if n > 0 then 0 else NOPROC, 0, seq(n, q => q), map[], map[])
  }

  // initialize_processes and the Exec of the init task by the boot code, whose
  // main thread is u.
  function Booted(n: nat, u: ThreadId): Procs
    requires n >= 2
  {
    var s1 := Exec(Unused(n), 0, false, u);
    assert s1.head == 1 && s1.free[0] == 1;
    Exec(s1, 0, true, u)
  }

  lemma BootInv(n: nat, u: ThreadId)
    requires n >= 2
    ensures Inv(Booted(n, u))
    ensures Booted(n, u).count == 2 && Booted(n, u).pt[0].state == ALIVE && Booted(n, u).pt[1].state == ALIVE
  {
    var s := Booted(n, u);
    assert s.free == seq(n - 2, q => q + 2);
    forall q: nat ensures q in s.free <==> 2 <= q < n {
      if 2 <= q < n { assert s.free[q - 2] == q; }
    }
    forall q | 0 <= q < n ensures PcbOk(s, q) && ListOk(s, q) { }
    forall i | 0 <= i < |s.free| ensures LinkOk(s, i) { }
    assert Ranked(s, seq(n, q => 0));
    forall q | 0 <= q < n ensures CountOk(s, q) {
      assert ThreadsOf(s, q) == if q == 1 then {u} else {};
    }
  }

  ghost predicate IsRun(n: nat, u: ThreadId, ss: seq<Procs>, steps: seq<Step>) {
    && |ss| == |steps| + 1 && n >= 2 && ss[0] == Booted(n, u)
    && (forall i {:trigger Taken(ss, steps, i)} :: 0 <= i < |steps| ==> Taken(ss, steps, i))
  }

  ghost predicate Taken(ss: seq<Procs>, steps: seq<Step>, i: nat)
    requires i < |steps| && |ss| == |steps| + 1
  {
    Inv(ss[i]) ==> Enabled(ss[i], steps[i]) && ss[i + 1] == Apply(ss[i], steps[i])
  }

  lemma {:induction false} RunInv(n: nat, u: ThreadId, ss: seq<Procs>, steps: seq<Step>, i: nat)
    requires IsRun(n, u, ss, steps) && i < |ss|
    ensures Inv(ss[i])
  {
    if i == 0 {
      BootInv(n, u);
    } else {
      RunInv(n, u, ss, steps, i - 1);
      assert Taken(ss, steps, i - 1);
      StepInv(ss[i - 1], steps[i - 1]);
    }
  }

  ghost predicate Reached(s: Procs) {
    exists n, u, ss, steps {:trigger IsRun(n, u, ss, steps)} :: IsRun(n, u, ss, steps) && ss[|steps|] == s
  }

  lemma ReachedInv(s: Procs)
    requires Reached(s)
    ensures Inv(s)
  {
    var n, u, ss, steps :| IsRun(n, u, ss, steps) && ss[|steps|] == s;
    RunInv(n, u, ss, steps, |steps|);
  }

  // ------------------------------------------------------------------
  // The tree
  // ------------------------------------------------------------------

  // The k-th ancestor of q, NOPROC above the root.
  function Ancestor(s: Procs, q: int, k: nat): int
    decreases k
  {
    if k == 0 then q else if Pid(s, q) then Ancestor(s, s.pt[q].parent, k - 1) else NOPROC
  }

  // Every process but the idle one descends from init.
  lemma RootedAtInit(s: Procs, q: nat)
    requires Reached(s) && 1 <= q < |s.pt| && s.pt[q].state != FREE
    ensures exists k: nat :: Ancestor(s, q, k) == INIT_PID
  {
    ReachedInv(s);
    var rank :| Ranked(s, rank);
    Climb(s, rank, q);
  }

  lemma {:induction false} Climb(s: Procs, rank: seq<nat>, q: nat)
    requires Inv(s) && Ranked(s, rank) && 1 <= q < |s.pt| && s.pt[q].state != FREE
    ensures exists k: nat :: Ancestor(s, q, k) == INIT_PID
    decreases rank[q]
  {
    if q == INIT_PID {
      assert Ancestor(s, q, 0) == INIT_PID;
    } else {
      var p := s.pt[q].parent;
      assert PcbOk(s, q);
      assert PcbOk(s, p);
      Climb(s, rank, p);
      var k: nat :| Ancestor(s, p, k) == INIT_PID;
      assert Ancestor(s, q, k + 1) == INIT_PID;
    }
  }

  // The two lists of a process are exact: all its children in use, and all its
  // zombie children, each once. Only a process that is alive has any.
  lemma ListsAreExact(s: Procs, p: nat, c: nat)
    requires Reached(s) && p < |s.pt| && c < |s.pt|
    ensures multiset(s.pt[p].children)[c] == if c >= 2 && s.pt[c].state != FREE && s.pt[c].parent == p then 1 else 0
    ensures multiset(s.pt[p].exited)[c] == if c >= 2 && s.pt[c].state == ZOMBIE && s.pt[c].parent == p then 1 else 0
    ensures c in s.pt[p].children ==> s.pt[p].state == ALIVE
  {
    ReachedInv(s);
    assert PcbOk(s, p) && ListOk(s, p) && PcbOk(s, c);
    OnceIn(s.pt[p].children, c);
    OnceIn(s.pt[p].exited, c);
    assert c in s.pt[p].children <==> c >= 2 && s.pt[c].state != FREE && s.pt[c].parent == p by {
      assert c in s.pt[p].children ==> Child(s, p, c);
    }
  }

  lemma {:induction false} OnceIn(q: seq<nat>, c: nat)
    requires Distinct(q)
    ensures multiset(q)[c] == if c in q then 1 else 0
  {
    if q == [] {
    } else {
      assert q == [q[0]] + q[1..] && q[0] !in q[1..];
      OnceIn(q[1..], c);
    }
  }

  // process_count counts the PCBs in use.
  lemma ProcessCountExact(s: Procs)
    requires Reached(s)
    ensures s.count == |UsedBelow(s, |s.pt|)|
  {
    ReachedInv(s);
    var n := |s.pt|;
    assert forall q {:trigger q in UsedBelow(s, n)} :: 0 <= q < n ==> PcbOk(s, q);
    forall i | 0 <= i < |s.free| ensures s.free[i] < n { assert LinkOk(s, i); }
    forall q: nat ensures q in Below(n) <==> q in UsedBelow(s, n) || q in Elems(s.free) {
      if q < n { assert PcbOk(s, q); }
    }
    assert Below(n) == UsedBelow(s, n) + Elems(s.free);
    assert UsedBelow(s, n) !! Elems(s.free);
    ElemsSize(s.free);
  }

  function Below(n: nat): (r: set<nat>)
    ensures |r| == n && forall q: nat {:trigger q in r} :: q in r <==> q < n
  {
    if n == 0 then {} else Below(n - 1) + {n - 1}
  }

  // The PCBs in use among the first n.
  function UsedBelow(s: Procs, n: nat): (r: set<nat>)
    ensures forall q: nat {:trigger q in r} :: q in r <==> q < n && q < |s.pt| && s.pt[q].state != FREE
  {
    set q | q in Below(n) && q < |s.pt| && s.pt[q].state != FREE
  }

  // ------------------------------------------------------------------
  // The end of init
  // ------------------------------------------------------------------

  // Once init is a zombie no process is left but the idle one and init.
  lemma NothingAfterInit(s: Procs, q: nat)
    requires Reached(s) && 2 <= q < |s.pt| && s.pt[INIT_PID].state != ALIVE
    ensures s.pt[q].state == FREE
  {
    ReachedInv(s);
    assert PcbOk(s, INIT_PID);
    if s.pt[q].state != FREE {
      var rank :| Ranked(s, rank);
      InitHasChildren(s, rank, q);
    }
  }

  // Init has no children exactly if no other process is left.
  lemma NoChildrenIff(s: Procs)
    requires Inv(s)
    ensures s.pt[INIT_PID].children == [] <==> forall q :: 2 <= q < |s.pt| ==> s.pt[q].state == FREE
  {
    forall q | 2 <= q < |s.pt| ensures s.pt[q].state != FREE ==> s.pt[INIT_PID].children != [] {
      if s.pt[q].state != FREE {
        var rank :| Ranked(s, rank);
        InitHasChildren(s, rank, q);
      }
    }
    if s.pt[INIT_PID].children != [] {
      var c := s.pt[INIT_PID].children[0];
      assert ListOk(s, INIT_PID) && c in s.pt[INIT_PID].children && Child(s, INIT_PID, c);
    }
  }

  // The last round of the loop of sys_Exit in init: the call of WaitChild finds
  // no children. The assertions of sys_ThreadExit then hold, and if this was the
  // last thread init becomes a zombie.
  lemma InitLeavesLast(s: Procs, t: ThreadId)
    requires Inv(s) && t in s.live && s.live[t] == INIT_PID && s.pt[INIT_PID].children == []
    ensures NoAbort(Awake(s, t), t)
    ensures var s' := (InvPids(s, t); LoopAny(s, t, true));
      && t !in s'.live && t !in s'.waiting
      && (s'.pt[INIT_PID].state == ZOMBIE <==> s.pt[INIT_PID].threads == 1)
      && forall q :: 2 <= q < |s'.pt| ==> s'.pt[q].state == FREE
  {
    InvPids(s, t);
    NoChildrenIff(s);
  }

  // The state at lines 204-205 of sys_ThreadExit when the last thread t of a
  // process leaves: for every process but init the children have been moved.
  function AtAssertions(s: Procs, t: ThreadId): Procs
    requires t in s.live && Pid(s, s.live[t]) && Pid(s, INIT_PID)
  {
    if s.live[t] != INIT_PID then Died(Gone(s, t), s.live[t]) else Gone(s, t)
  }

  // The two assertions hold exactly if the process is not init, or no process
  // but init and the idle one is left. Leaving init by ThreadExit does not wait
  // for this.
  lemma AssertionsHoldIff(s: Procs, t: ThreadId)
    requires Inv(s) && t in s.live && Pid(s, s.live[t]) && s.pt[s.live[t]].threads == 1
    ensures var b := AtAssertions(s, t).pt[s.live[t]];
      b.children == [] && b.exited == []
      <==> s.live[t] != INIT_PID || forall q :: 2 <= q < |s.pt| ==> s.pt[q].state == FREE
  {
    assert ListOk(s, s.live[t]);
    NoExitedChild(s, s.live[t]);
    NoChildrenIff(s);
  }

  // So a thread that is in no call may leave exactly if it is not the last one of
  // init, or no other process is left.
  lemma ThreadExitPossibleIff(s: Procs, t: ThreadId)
    requires Inv(s) && t in s.live && t !in s.waiting && Pid(s, s.live[t])
    ensures Enabled(s, DoThreadExit(t))
      <==> s.live[t] != INIT_PID || s.pt[INIT_PID].threads > 1 || forall q :: 2 <= q < |s.pt| ==> s.pt[q].state == FREE
  {
    InvPids(s, t);
    LiveProcess(s, t);
    NoChildrenIff(s);
  }

  // Exit ends the process exactly if its caller is the only thread left; the
  // others are not ended by it.
  lemma ExitEndsProcessIff(s: Procs, t: ThreadId, v: int)
    requires Inv(s) && Enabled(s, DoExit(t, v)) && s.live[t] != INIT_PID && Pid(s, s.live[t])
    ensures Apply(s, DoExit(t, v)).pt[s.live[t]].state == ZOMBIE <==> s.pt[s.live[t]].threads == 1
    ensures Apply(s, DoExit(t, v)).pt[s.live[t]].exitval == v
  {
    InvPids(s, t);
  }

  // ------------------------------------------------------------------
  // Waiting for children
  // ------------------------------------------------------------------

  // No exit goes unnoticed: a thread that sleeps in WaitChild and was not
  // signalled waits for a live child, or has children none of which has exited.
  lemma SleepersWaitForTheLiving(s: Procs, t: ThreadId)
    requires Reached(s) && t in s.waiting && !s.waiting[t].signalled
    ensures t in s.live && Pid(s, s.live[t]) && s.pt[s.live[t]].state == ALIVE
    ensures var c, p := s.waiting[t].child, s.live[t];
      if c != NOPROC then Pid(s, c) && s.pt[c].state == ALIVE && s.pt[c].parent == p
      else s.pt[p].children != [] && forall q :: 0 <= q < |s.pt| && q in s.pt[p].children ==> s.pt[q].state == ALIVE
  {
    ReachedInv(s);
    assert WaitOk(s, t);
    InvPids(s, t);
    var p := s.live[t];
    assert ListOk(s, p);
    forall q | 0 <= q < |s.pt| && q in s.pt[p].children
      ensures s.waiting[t].child == NOPROC ==> s.pt[q].state == ALIVE
    {
      assert Child(s, p, q);
      assert q in s.pt[p].exited <==> s.pt[q].state == ZOMBIE;
    }
  }

  // Process p has given back its zombie child c and nothing else has changed.
  ghost predicate Reaped(s: Procs, s': Procs, p: nat, c: nat) {
    && Child(s, p, c) && s.pt[c].state == ZOMBIE && p < |s.pt| == |s'.pt|
    && s'.pt[c].state == FREE && s'.free == [c] + s.free && s'.count == s.count - 1
    && (forall x: nat {:trigger x in s'.pt[p].children} :: x in s'.pt[p].children <==> x in s.pt[p].children && x != c)
    && (forall x: nat {:trigger x in s'.pt[p].exited} :: x in s'.pt[p].exited <==> x in s.pt[p].exited && x != c)
    && (forall q :: 0 <= q < |s.pt| && q != c && q != p ==> s'.pt[q] == s.pt[q])
    && s'.live == s.live
  }

  // What a call of WaitChild by a thread of p, new or resumed, does: it sleeps,
  // or it has nothing to wait for, or it reaps one zombie child.
  lemma WaitOutcome(s: Procs, t: ThreadId, cpid: int)
    requires Inv(s) && t in s.live && Alone(s, t, cpid) && (cpid == NOPROC || Legal(s, t, cpid))
    requires Pid(s, s.live[t])
    ensures var p := s.live[t];
      var s' := if cpid == NOPROC then (InvPids(s, t); LoopAny(s, t, false)) else LoopSpecific(s, t, cpid);
      var noChild := cpid == NOPROC && s.pt[p].children == [];
      var none := if cpid == NOPROC then s.pt[p].exited == [] else s.pt[cpid].state == ALIVE;
      if noChild then s' == Awake(s, t)
      else if none then s' == Blocked(s, t, Wait(cpid, false, false))
      else exists c: nat :: Reaped(Awake(s, t), s', p, c) && t !in s'.waiting
             && (if cpid == NOPROC then s.pt[p].exited[0] == c else c == cpid)
  {
    InvPids(s, t);
    var p, s1 := s.live[t], Awake(s, t);
    AwakeInv(s, t);
    assert ListOk(s, p);
    if cpid == NOPROC {
      NoExitedChild(s, p);
      if s.pt[p].exited != [] {
        assert s.pt[p].exited[0] in s.pt[p].exited;
        ReapOne(s1, p, s.pt[p].exited[0]);
      }
    } else {
      assert PcbOk(s, cpid);
      if s.pt[cpid].state == ZOMBIE { ReapOne(s1, p, cpid); }
    }
  }

  lemma ReapOne(s: Procs, p: nat, c: nat)
    requires Inv(s) && 1 <= p < |s.pt| && c in s.pt[p].children && c < |s.pt| && s.pt[c].state == ZOMBIE
    ensures Reaped(s, Cleanup(s, c), p, c)
  {
    assert ListOk(s, p) && Child(s, p, c);
    CleanupHas(s, p, c);
    WithoutSpec(s.pt[p].children, c);
    WithoutSpec(s.pt[p].exited, c);
  }

  ghost predicate SameExits(s: Procs, s': Procs) {
    |s'.pt| == |s.pt| && forall q :: 0 <= q < |s.pt| ==> s'.pt[q].exitval == s.pt[q].exitval
  }

  lemma ThreadExitExits(s: Procs, t: ThreadId)
    requires t in s.live && Pid(s, s.live[t]) && Pid(s, INIT_PID)
    ensures SameExits(s, ThreadExit(s, t))
  {
    var p := s.live[t];
    var s1 := Gone(s, t);
    assert SameExits(s, s1);
    assert SameExits(s1, Die(s1, p));
  }

  lemma LoopAnyExits(s: Procs, t: ThreadId, leaving: bool)
    requires t in s.live && Pid(s, s.live[t]) && Pid(s, INIT_PID)
    requires s.pt[s.live[t]].exited != [] ==> Pid(s, s.pt[s.live[t]].exited[0])
    ensures SameExits(s, LoopAny(s, t, leaving))
  {
    ThreadExitExits(Awake(s, t), t);
  }

  lemma ExecExits(s: Procs, p: nat, hasTask: bool, u: ThreadId)
    requires s.head != NOPROC ==> Pid(s, s.head) && s.free != []
    requires Pid(s, p)
    ensures SameExits(s, Exec(s, p, hasTask, u))
  {
    if s.head != NOPROC {
      var c, s1 := s.head, Acquire(s);
      var s0 := Put(s1, c, s1.pt[c].(parent := p));
      var s2 := Put(s0, p, s0.pt[p].(children := [c as nat] + s0.pt[p].children));
      var s3 := if c <= INIT_PID then Put(s1, c, s1.pt[c].(parent := NOPROC)) else s2;
      assert SameExits(s, s1) && SameExits(s1, s0) && SameExits(s0, s2) && SameExits(s, s3);
      assert SameExits(s3, AddThread(s3, c, u));
    }
  }

  // Only Exit changes the exit value of its process. Giving the PCB to a new one
  // does not.
  lemma ExitValueKept(s: Procs, step: Step, q: nat)
    requires Inv(s) && Enabled(s, step) && q < |s.pt|
    ensures |Apply(s, step).pt| == |s.pt|
    ensures Apply(s, step).pt[q].exitval == if step.DoExit? && s.live[step.t] == q then step.v else s.pt[q].exitval
  {
    var t := step.t;
    InvPids(s, t);
    var p := s.live[t];
    match step
    case DoExec(_, hasTask, u) => ExecExits(s, p, hasTask, u);
    case DoCreateThread(_, u) =>
    case DoThreadExit(_) => ThreadExitExits(s, t);
    case DoExit(_, v) =>
      if p == INIT_PID { LoopAnyExits(SetExit(s, p, v), t, true); } else { ThreadExitExits(SetExit(s, p, v), t); }
    case DoWaitChild(_, cpid) => if cpid == NOPROC { LoopAnyExits(s, t, false); }
    case DoResume(_) => if s.waiting[t].child == NOPROC { LoopAnyExits(s, t, s.waiting[t].leaving); }
  }

  // ------------------------------------------------------------------
  // Two threads that wait for the same child
  // ------------------------------------------------------------------

  // Reaping a zombie leaves every other waiter with a process to wait for exactly
  // if no other thread waits for this child.
  lemma ReapIsSafeIff(s: Procs, t: ThreadId, c: nat)
    requires Inv(s) && t in s.live && t !in s.waiting && Child(s, s.live[t], c) && s.pt[c].state == ZOMBIE
    ensures (forall u {:trigger WaitOk(Cleanup(s, c), u)} :: u in s.waiting ==> WaitOk(Cleanup(s, c), u))
       <==> (forall u :: u in s.waiting ==> s.waiting[u].child != c)
  {
    InvPids(s, t);
    CleanupHas(s, s.live[t], c);
    var s' := Cleanup(s, c);
    if forall u :: u in s.waiting ==> s.waiting[u].child != c {
      CleanupInv(s, t, c);
    } else {
      var u :| u in s.waiting && s.waiting[u].child == c;
      assert s'.pt[c].state == FREE && !WaitOk(s', u);
    }
  }

  // When it is not safe: u waits for the child c that t reaps. When u goes on it
  // finds c not ALIVE and reaps it again; the PCB is then on the free list twice,
  // process_count is one too small, and the next two processes share the PCB.
  lemma SecondReap(s: Procs, t: ThreadId, u: ThreadId, c: nat)
    requires Inv(s) && t in s.live && t !in s.waiting && Child(s, s.live[t], c) && s.pt[c].state == ZOMBIE
    requires u in s.waiting && s.waiting[u].child == c
    ensures var s1 := Cleanup(s, c);
      var s2 := LoopSpecific(s1, u, c);
      && s1.pt[c].state == FREE && u in s1.waiting && s1.waiting[u].child == c
      && s2.count == s.count - 2 && s2.free == [c, c] + s.free && s2.head == c
      && (var s3 := Acquire(s2); s3.head == c && s3.pt[c].state == ALIVE && Acquire(s3).pt == s3.pt)
  {
    InvPids(s, t);
    CleanupHas(s, s.live[t], c);
  }

  // The table after both have reaped has lost its invariant, and two processes that
  // the parent then executes, with main threads v and w, are one PCB: it is twice
  // among the children, and has the threads of both.
  lemma TwoProcessesShare(s: Procs, t: ThreadId, u: ThreadId, c: nat, v: ThreadId, w: ThreadId)
    requires Inv(s) && t in s.live && t !in s.waiting && Child(s, s.live[t], c) && s.pt[c].state == ZOMBIE
    requires u in s.waiting && s.waiting[u].child == c && v != w
    ensures var p, s2 := s.live[t], LoopSpecific(Cleanup(s, c), u, c);
      && !Inv(s2) && s2.head == c && p < |s2.pt| && p != c && s2.pt[c].threads == 0
      && (var e1 := Exec(s2, p, true, v);
          && e1.head == c && e1.free != []
          && (var e2 := Exec(e1, p, true, w);
              && e2.live == s.live[v := c][w := c] && e2.pt[c].threads == 2 && e2.pt[c].state == ALIVE
              && e2.pt[p].children == [c, c] + Without(s.pt[p].children, c)))
  {
    ReapedTwice(s, t, u, c);
    ExecTwice(LoopSpecific(Cleanup(s, c), u, c), s.live[t], c, v, w);
  }

  // What the second reaping leaves.
  lemma ReapedTwice(s: Procs, t: ThreadId, u: ThreadId, c: nat)
    requires Inv(s) && t in s.live && t !in s.waiting && Child(s, s.live[t], c) && s.pt[c].state == ZOMBIE
    requires u in s.waiting && s.waiting[u].child == c
    ensures var p, s2 := s.live[t], LoopSpecific(Cleanup(s, c), u, c);
      && !Inv(s2) && s2.head == c && |s2.free| >= 2 && p < |s2.pt| == |s.pt| && p != c && 2 <= c < |s.pt|
      && s2.live == s.live && s2.pt[c].threads == 0 && s2.pt[c].parent == c
      && s2.pt[p].children == Without(s.pt[p].children, c)
  {
    var p, s2 := s.live[t], LoopSpecific(Cleanup(s, c), u, c);
    InvPids(s, t);
    SecondReap(s, t, u, c);
    CleanupHas(s, p, c);
    assert PcbOk(s, c) && ListOk(s, p);
    assert s2.free[0] == s2.free[1];
    TwiceWithout(s.pt[p].children, c);
  }

  // Two calls of Exec when the head of the free list links to itself.
  lemma ExecTwice(s: Procs, p: nat, c: nat, v: ThreadId, w: ThreadId)
    requires s.head == c && |s.free| >= 2 && p < |s.pt| && p != c && 2 <= c < |s.pt|
    requires s.pt[c].threads == 0 && s.pt[c].parent == c
    ensures var e1 := Exec(s, p, true, v);
      && e1.head == c && e1.free != []
      && (var e2 := Exec(e1, p, true, w);
          && e2.live == s.live[v := c][w := c] && e2.pt[c].threads == 2 && e2.pt[c].state == ALIVE
          && e2.pt[p].children == [c, c] + s.pt[p].children)
  {
    assert [c] + ([c] + s.pt[p].children) == [c, c] + s.pt[p].children;
  }

  lemma TwiceWithout(q: seq<nat>, c: nat)
    ensures Distinct(q) ==> Without(Without(q, c), c) == Without(q, c)
  {
    if Distinct(q) {
      WithoutSpec(q, c);
      WithoutSpec(Without(q, c), c);
    }
  }
}
