// Reachable process tables at which the code departs from what it is meant to do.
module ProcExamples {
  import opened Lists
  import opened Procs
  import opened ProcInv
  import opened ProcThms
  import opened ProcExits

  lemma ExtendRun(n: nat, u: ThreadId, ss: seq<Procs>, steps: seq<Step>, a: Step, s': Procs)
    requires IsRun(n, u, ss, steps) && Inv(ss[|steps|]) && Enabled(ss[|steps|], a) && s' == Apply(ss[|steps|], a)
    ensures IsRun(n, u, ss + [s'], steps + [a])
  {
    var ss', steps' := ss + [s'], steps + [a];
    forall i | 0 <= i < |steps'| ensures Taken(ss', steps', i) {
      if i < |steps| { assert Taken(ss, steps, i); }
    }
  }

  lemma ReachedNext(s: Procs, a: Step, s': Procs)
    requires Reached(s) && Inv(s) && Enabled(s, a) && s' == Apply(s, a)
    ensures Reached(s')
  {
    var n, u, ss, steps :| IsRun(n, u, ss, steps) && ss[|steps|] == s;
    ExtendRun(n, u, ss, steps, a, s');
    assert (ss + [s'])[|steps + [a]|] == s';
  }

  lemma ReachedStep(s: Procs, a: Step)
    requires Reached(s) && Inv(s) && Enabled(s, a)
    ensures Reached(Apply(s, a)) && Inv(Apply(s, a))
  {
    ReachedNext(s, a, Apply(s, a));
    StepInv(s, a);
  }

  lemma BootedIsReached(n: nat, u: ThreadId)
    requires n >= 2
    ensures Reached(Booted(n, u)) && Inv(Booted(n, u))
  {
    BootInv(n, u);
    var none: seq<Step> := [];
    assert IsRun(n, u, [Booted(n, u)], none) && [Booted(n, u)][|none|] == Booted(n, u);
  }

  // A table of three PCBs: the idle process, init with so many threads, and b,
  // which is free or the only child of init.
  function With(b: PCB, threads: int, live: map<ThreadId, nat>, waiting: map<ThreadId, Wait>): Procs {
    var children, exited := if b.state == FREE then [] else [2], if b.state == ZOMBIE then [2] else [];
    Procs([PCB(ALIVE, NOPROC, 0, 0, [], []), PCB(ALIVE, NOPROC, 0, threads, children, exited), b],
          if b.state == FREE then 2 else NOPROC, if b.state == FREE then 2 else 3,
          if b.state == FREE then [2] else [], live, waiting)
  }

  // PCB 2 when it is free, when one thread lives in it, and when that is gone.
  function Free(v: int): PCB { PCB(FREE, NOPROC, v, 0, [], []) }

  function Alive(v: int): PCB { PCB(ALIVE, INIT_PID, v, 1, [], []) }

  function Zombie(v: int): PCB { PCB(ZOMBIE, INIT_PID, v, 0, [], []) }

  const ONLY_INIT: map<ThreadId, nat> := map[0 := INIT_PID]

  function BootTable(): Procs { With(Free(0), 1, ONLY_INIT, map[]) }

  lemma ThreeIsBooted()
    ensures Booted(3, 0) == BootTable()
  {
    var s0 := Unused(3);
    assert s0.pt == [PCB(FREE, 1, 0, 0, [], []), PCB(FREE, 2, 0, 0, [], []), Free(0)];
    assert s0.free == [0, 1, 2];
    var s1 := Exec(s0, 0, false, 0);
    assert s1.pt == [PCB(ALIVE, NOPROC, 0, 0, [], []), PCB(FREE, 2, 0, 0, [], []), Free(0)];
    assert s1.free == [1, 2];
    var s2 := Exec(s1, 0, true, 0);
    assert s2.pt == BootTable().pt && s2.free == [2];
  }

  ghost predicate StepTo(s: Procs, step: Step, s': Procs) {
    Inv(s) ==> Enabled(s, step) && Apply(s, step) == s'
  }

  lemma ReachedTo(s: Procs, step: Step, s': Procs)
    requires Reached(s) && Inv(s) && StepTo(s, step, s')
    ensures Reached(s') && Inv(s')
  {
    ReachedStep(s, step);
  }

  // Init executes process 2, whose PCB has exit value v.
  lemma InitExecs(v: int)
    ensures StepTo(With(Free(v), 1, ONLY_INIT, map[]), DoExec(0, true, 1),
                   With(Alive(v), 1, map[0 := INIT_PID, 1 := 2], map[]))
  {
    var s, s' := With(Free(v), 1, ONLY_INIT, map[]), With(Alive(v), 1, map[0 := INIT_PID, 1 := 2], map[]);
    var none: seq<nat>, r := [], Exec(s, INIT_PID, true, 1);
    assert [2] + none == [2];
    assert r.pt[0] == s'.pt[0] && r.pt[1] == s'.pt[1] && r.pt[2] == s'.pt[2];
    assert r.pt == s'.pt && r.free == s'.free;
  }

  // Init has executed one process: thread 0 in init, thread 1 in process 2.
  lemma InitWithChild() returns (s: Procs)
    ensures Reached(s) && Inv(s) && s == With(Alive(0), 1, map[0 := INIT_PID, 1 := 2], map[])
  {
    BootedIsReached(3, 0);
    ThreeIsBooted();
    InitExecs(0);
    s := With(Alive(0), 1, map[0 := INIT_PID, 1 := 2], map[]);
    ReachedTo(BootTable(), DoExec(0, true, 1), s);
  }

  // The only thread of init calls ThreadExit: the assertion of line 204 fails.
  lemma InitLeavesTooEarly() returns (s: Procs)
    ensures Reached(s) && Inv(s) && 0 in s.live && s.live[0] == INIT_PID
    ensures Pid(s, INIT_PID) && s.pt[INIT_PID].threads == 1
    ensures AtAssertions(s, 0).pt[INIT_PID].children == [2] && !Enabled(s, DoThreadExit(0))
  {
    s := InitWithChild();
  }

  // One of two threads of process 2 calls Exit: the process stays ALIVE, and the
  // other thread goes on.
  lemma ExitLeavesAThread() returns (s: Procs)
    ensures Reached(s) && Inv(s) && Enabled(s, DoExit(1, 7)) && s.live[1] == 2
    ensures Apply(s, DoExit(1, 7)).pt[2].state == ALIVE
    ensures 2 in Apply(s, DoExit(1, 7)).live && Apply(s, DoExit(1, 7)).live[2] == 2
  {
    var s1 := InitWithChild();
    ReachedStep(s1, DoCreateThread(1, 2));
    s := Apply(s1, DoCreateThread(1, 2));
    assert s.pt[2].threads == 2;
  }

  // ------------------------------------------------------------------
  // A status that is not the process's own
  // ------------------------------------------------------------------

  lemma ChildDies(s: Procs, s': Procs, v: int)
    requires |s.pt| == |s'.pt| == 3 && s.pt[0] == s'.pt[0] == PCB(ALIVE, NOPROC, 0, 0, [], [])
    requires s.pt[1].children == [2] && s.pt[1].exited == [] && s'.pt[1] == s.pt[1].(exited := [2])
    requires s.pt[1].parent == NOPROC
    requires s.pt[2] == PCB(ALIVE, INIT_PID, v, 0, [], []) && s'.pt[2] == Zombie(v)
    ensures Died(s, 2).pt == s'.pt
  {
    var none: seq<nat> := [];
    assert none + (none + none) == none && [2] + (none + none) == [2];
    assert Moved(s, 2, 0) == s'.pt[0] && Moved(s, 2, 1) == s'.pt[1] && Moved(s, 2, 2) == s'.pt[2];
  }

  // Its only thread calls Exit.
  lemma ChildExits(threads: int, live: map<ThreadId, nat>, waiting: map<ThreadId, Wait>, v: int)
    requires 1 in live && live[1] == 2 && 1 !in waiting
    ensures StepTo(With(Alive(0), threads, live, waiting), DoExit(1, v),
                   With(Zombie(v), threads, live - {1}, SignalAll(waiting, live - {1}, INIT_PID)))
  {
    var s := With(Alive(0), threads, live, waiting);
    var s' := With(Zombie(v), threads, live - {1}, SignalAll(waiting, live - {1}, INIT_PID));
    ChildDies(Gone(SetExit(s, 2, v), 1), s', v);
  }

  // Its only thread leaves by ThreadExit.
  lemma ChildLeaves(v: int)
    ensures StepTo(With(Alive(v), 1, map[0 := INIT_PID, 1 := 2], map[]), DoThreadExit(1),
                   With(Zombie(v), 1, ONLY_INIT, map[]))
  {
    var s, s' := With(Alive(v), 1, map[0 := INIT_PID, 1 := 2], map[]), With(Zombie(v), 1, ONLY_INIT, map[]);
    assert map[0 := INIT_PID, 1 := 2] - {1} == ONLY_INIT;
    ChildDies(Gone(s, 1), s', v);
  }

  // Init reaps it.
  lemma InitReaps(v: int)
    ensures StepTo(With(Zombie(v), 1, ONLY_INIT, map[]), DoWaitChild(0, 2), With(Free(v), 1, ONLY_INIT, map[]))
  {
    var s, s' := With(Zombie(v), 1, ONLY_INIT, map[]), With(Free(v), 1, ONLY_INIT, map[]);
    assert s.waiting - {0} == map[];
    var q, r := [2], LoopSpecific(s, 0, 2);
    assert Without(q, 2) == q[1..] == [];
    assert r.pt[1].children == [] && r.pt[1].exited == [] && r.pt[1] == s'.pt[1];
    assert r.pt[2] == s'.pt[2] && r.pt[0] == s'.pt[0];
    assert r.pt == s'.pt && r.free == s'.free;
  }

  // Process 2 exits with 7 and is reaped. The next process gets its PCB, never
  // calls Exit, and reports 7.
  lemma StaleStatus() returns (ss: seq<Procs>, steps: seq<Step>)
    ensures IsRun(3, 0, ss, steps) && |steps| == 6
    ensures steps[..4] == [DoExec(0, true, 1), DoExit(1, 7), DoWaitChild(0, 2), DoExec(0, true, 1)]
    ensures steps[4..] == [DoThreadExit(1), DoWaitChild(0, 2)]
    ensures |ss[5].pt| == 3 && ss[5].pt[2].state == ZOMBIE && ss[5].pt[2].exitval == 7
    ensures Birth(ss, 2, 5) == 4 && !CalledExit(ss, steps, 2, 5)
    ensures |ss[6].pt| == 3 && ss[6].pt[2].state == FREE
  {
    var both := map[0 := INIT_PID, 1 := 2];
    ThreeIsBooted();
    InitExecs(0);
    FirstChildExits();
    InitReaps(7);
    InitExecs(7);
    ChildLeaves(7);
    ss := [BootTable(), With(Alive(0), 1, both, map[]), With(Zombie(7), 1, ONLY_INIT, map[]),
           With(Free(7), 1, ONLY_INIT, map[]), With(Alive(7), 1, both, map[]),
           With(Zombie(7), 1, ONLY_INIT, map[]), With(Free(7), 1, ONLY_INIT, map[])];
    steps := [DoExec(0, true, 1), DoExit(1, 7), DoWaitChild(0, 2), DoExec(0, true, 1), DoThreadExit(1),
              DoWaitChild(0, 2)];
    StepsMakeARun(ss, steps);
    BornAtFour(ss, steps);
  }

  lemma StepsMakeARun(ss: seq<Procs>, steps: seq<Step>)
    requires |steps| == 6 && |ss| == 7 && ss[0] == Booted(3, 0)
    requires StepTo(ss[0], steps[0], ss[1]) && StepTo(ss[1], steps[1], ss[2]) && StepTo(ss[2], steps[2], ss[3])
    requires StepTo(ss[3], steps[3], ss[4]) && StepTo(ss[4], steps[4], ss[5]) && StepTo(ss[5], steps[5], ss[6])
    ensures IsRun(3, 0, ss, steps)
  {
    StepIsTaken(ss, steps, 0);
    StepIsTaken(ss, steps, 1);
    StepIsTaken(ss, steps, 2);
    StepIsTaken(ss, steps, 3);
    StepIsTaken(ss, steps, 4);
    StepIsTaken(ss, steps, 5);
  }

  lemma StepIsTaken(ss: seq<Procs>, steps: seq<Step>, i: nat)
    requires i < |steps| && |ss| == |steps| + 1 && StepTo(ss[i], steps[i], ss[i + 1])
    ensures Taken(ss, steps, i)
  {
  }

  lemma FirstChildExits()
    ensures StepTo(With(Alive(0), 1, map[0 := INIT_PID, 1 := 2], map[]), DoExit(1, 7),
                   With(Zombie(7), 1, ONLY_INIT, map[]))
  {
    var both := map[0 := INIT_PID, 1 := 2];
    assert both - {1} == ONLY_INIT && SignalAll(map[], ONLY_INIT, INIT_PID) == map[];
    ChildExits(1, both, map[], 7);
  }

  lemma BornAtFour(ss: seq<Procs>, steps: seq<Step>)
    requires |ss| == |steps| + 1 == 7 && steps[4] == DoThreadExit(1)
    requires |ss[3].pt| == |ss[4].pt| == 3 && ss[3].pt[2].state == FREE && ss[4].pt[2].state == ALIVE
    ensures Birth(ss, 2, 5) == 4 && !CalledExit(ss, steps, 2, 5)
  {
    assert Birth(ss, 2, 4) == 4;
  }

  // ------------------------------------------------------------------
  // Two threads that wait for the same child
  // ------------------------------------------------------------------

  lemma InitWithWaiter() returns (s: Procs)
    ensures Reached(s) && Inv(s)
    ensures s == With(Alive(0), 2, map[0 := INIT_PID, 1 := 2, 2 := INIT_PID], map[2 := Wait(2, false, false)])
  {
    var s1 := InitWithChild();
    InitCreates();
    var s2 := With(Alive(0), 2, map[0 := INIT_PID, 1 := 2, 2 := INIT_PID], map[]);
    ReachedTo(s1, DoCreateThread(0, 2), s2);
    InitWaits();
    s := With(Alive(0), 2, map[0 := INIT_PID, 1 := 2, 2 := INIT_PID], map[2 := Wait(2, false, false)]);
    ReachedTo(s2, DoWaitChild(2, 2), s);
  }

  // Thread 2 of init waits for process 2, which exits. Before it goes on, thread 0
  // of init can reap the child.
  lemma TwoToReap() returns (s: Procs)
    ensures Reached(s) && Inv(s)
    ensures s == With(Zombie(7), 2, map[0 := INIT_PID, 2 := INIT_PID], map[2 := Wait(2, true, false)])
  {
    var s1 := InitWithWaiter();
    WaitedForExits();
    s := With(Zombie(7), 2, map[0 := INIT_PID, 2 := INIT_PID], map[2 := Wait(2, true, false)]);
    ReachedTo(s1, DoExit(1, 7), s);
  }

  lemma WaitedForExits()
    ensures StepTo(With(Alive(0), 2, map[0 := INIT_PID, 1 := 2, 2 := INIT_PID], map[2 := Wait(2, false, false)]),
                   DoExit(1, 7),
                   With(Zombie(7), 2, map[0 := INIT_PID, 2 := INIT_PID], map[2 := Wait(2, true, false)]))
  {
    var live, w := map[0 := INIT_PID, 1 := 2, 2 := INIT_PID], map[2 := Wait(2, false, false)];
    assert live - {1} == map[0 := INIT_PID, 2 := INIT_PID];
    assert SignalAll(w, live - {1}, INIT_PID) == map[2 := Wait(2, true, false)];
    ChildExits(2, live, w, 7);
  }

  lemma InitCreates()
    ensures StepTo(With(Alive(0), 1, map[0 := INIT_PID, 1 := 2], map[]), DoCreateThread(0, 2),
                   With(Alive(0), 2, map[0 := INIT_PID, 1 := 2, 2 := INIT_PID], map[]))
  {
  }

  lemma InitWaits()
    ensures StepTo(With(Alive(0), 2, map[0 := INIT_PID, 1 := 2, 2 := INIT_PID], map[]), DoWaitChild(2, 2),
                   With(Alive(0), 2, map[0 := INIT_PID, 1 := 2, 2 := INIT_PID], map[2 := Wait(2, false, false)]))
  {
  }

  // Both do, and init executes two more processes: they are both process 2.
  lemma TwoShareAPcb() returns (s: Procs, s': Procs)
    ensures Reached(s) && Pid(s, 2) && 2 in s.waiting && s.waiting[2].child == 2
    ensures s' == LoopSpecific(Cleanup(s, 2), 2, 2) && s'.head == 2 && Pid(s', 2) && |s'.free| >= 2
    ensures var s1 := Exec(s', INIT_PID, true, 3);
      && s1.head == 2 && 3 in s1.live && s1.live[3] == 2
      && (var s2 := Exec(s1, INIT_PID, true, 4); 4 in s2.live && s2.live[4] == 2 && 3 in s2.live && s2.live[3] == 2)
  {
    s := TwoToReap();
    SecondReap(s, 0, 2, 2);
    s' := LoopSpecific(Cleanup(s, 2), 2, 2);
  }
}
