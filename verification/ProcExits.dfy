// What exit status WaitChild reports, over runs of the process table.
module ProcExits {
  import opened Procs
  import opened ProcInv
  import opened ProcThms

  // Step k is a call of Exit by a thread of process q.
  ghost predicate ExitsAt(ss: seq<Procs>, steps: seq<Step>, k: nat, q: nat)
    requires k < |steps| && |ss| == |steps| + 1
  {
    steps[k].DoExit? && steps[k].t in ss[k].live && ss[k].live[steps[k].t] == q
  }

  // The last such call among the first i steps, by any process that has had PCB q;
  // -1 if there was none.
  ghost function LastExit(ss: seq<Procs>, steps: seq<Step>, q: nat, i: nat): (k: int)
    requires i <= |steps| && |ss| == |steps| + 1
    ensures -1 <= k < i && (k >= 0 ==> ExitsAt(ss, steps, k, q))
    ensures forall j :: 0 <= j < i && ExitsAt(ss, steps, j, q) ==> j <= k
  {
    if i == 0 then -1 else if ExitsAt(ss, steps, i - 1, q) then i - 1 else LastExit(ss, steps, q, i - 1)
  }

  // The first state of the process that has PCB q in state i: the one after
  // acquire_PCB, or the first of the run.
  ghost function Birth(ss: seq<Procs>, q: nat, i: nat): (b: nat)
    requires i < |ss|
    ensures b <= i && (b > 0 && q < |ss[b - 1].pt| ==> ss[b - 1].pt[q].state == FREE)
    ensures forall j :: b <= j < i ==> q < |ss[j].pt| && ss[j].pt[q].state != FREE
  {
    if i == 0 || q >= |ss[i - 1].pt| || ss[i - 1].pt[q].state == FREE then i else Birth(ss, q, i - 1)
  }

  // The process in PCB q has called Exit before state i.
  ghost predicate CalledExit(ss: seq<Procs>, steps: seq<Step>, q: nat, i: nat)
    requires i <= |steps| && |ss| == |steps| + 1
  {
    exists k: nat :: Birth(ss, q, i) <= k < i && ExitsAt(ss, steps, k, q)
  }

  // The exit value of a PCB is the argument of the last Exit by any process that
  // has had it, and 0 if there was none.
  lemma {:induction false} ExitValueIsLast(n: nat, u: ThreadId, ss: seq<Procs>, steps: seq<Step>, q: nat, i: nat)
    requires IsRun(n, u, ss, steps) && i < |ss| && q < n
    ensures |ss[i].pt| == n
    ensures var k := LastExit(ss, steps, q, i);
      ss[i].pt[q].exitval == if k < 0 then 0 else steps[k].v
  {
    if i == 0 {
    } else {
      ExitValueIsLast(n, u, ss, steps, q, i - 1);
      RunInv(n, u, ss, steps, i - 1);
      assert Taken(ss, steps, i - 1);
      ExitValueKept(ss[i - 1], steps[i - 1], q);
    }
  }

  // The status that is delivered for a process is its own, the argument of its
  // last Exit, exactly if one of its threads has called Exit. If none has, it is
  // the value that the PCB had when it was acquired: the argument of the last Exit
  // of an earlier process, or 0.
  lemma StatusIsOwnIff(n: nat, u: ThreadId, ss: seq<Procs>, steps: seq<Step>, q: nat, i: nat)
    requires IsRun(n, u, ss, steps) && i < |ss| && q < n
    ensures |ss[i].pt| == n && |ss[Birth(ss, q, i)].pt| == n
    ensures var k, b := LastExit(ss, steps, q, i), Birth(ss, q, i);
      && ss[i].pt[q].exitval == (if k < 0 then 0 else steps[k].v)
      && (k >= b <==> CalledExit(ss, steps, q, i))
      && (k < b ==> ss[i].pt[q].exitval == ss[b].pt[q].exitval && LastExit(ss, steps, q, b) == k)
  {
    var k, b := LastExit(ss, steps, q, i), Birth(ss, q, i);
    ExitValueIsLast(n, u, ss, steps, q, i);
    ExitValueIsLast(n, u, ss, steps, q, b);
    if k >= b { assert ExitsAt(ss, steps, k, q); }
  }

  // ------------------------------------------------------------------
  // The life of a PCB
  // ------------------------------------------------------------------

  // A PCB is FREE, then ALIVE, then a ZOMBIE, then FREE: it is acquired by Exec
  // from the head of the free list, dies with the last thread that leaves it, and
  // is freed when its parent reaps it.
  ghost predicate Lives(s: Procs, s': Procs, t: ThreadId, q: nat) {
    && q < |s.pt| == |s'.pt| && t in s.live
    && (s'.pt[q].state != s.pt[q].state ==>
          match s.pt[q].state
          case FREE => s'.pt[q].state == ALIVE && q == s.head
          case ALIVE => s'.pt[q].state == ZOMBIE && s.live[t] == q && s.pt[q].threads == 1
          case ZOMBIE => s'.pt[q].state == FREE && Child(s, s.live[t], q))
  }

  lemma ThreadExitLives(s: Procs, t: ThreadId, q: nat)
    requires Pid(s, INIT_PID) && t in s.live && Pid(s, s.live[t]) && s.pt[s.live[t]].state == ALIVE && q < |s.pt|
    ensures Lives(s, ThreadExit(s, t), t, q) && (s.pt[q].state == ZOMBIE ==> ThreadExit(s, t).pt[q].state == ZOMBIE)
  {
    var p, s1 := s.live[t], Gone(s, t);
    assert Die(s1, p).pt[q].state == if q == p then ZOMBIE else s.pt[q].state;
  }

  lemma ExecLives(s: Procs, t: ThreadId, p: nat, hasTask: bool, u: ThreadId, q: nat)
    requires s.head != NOPROC ==> Pid(s, s.head) && s.free != [] && s.pt[s.head].state == FREE
    requires Pid(s, p) && t in s.live && q < |s.pt|
    ensures Lives(s, Exec(s, p, hasTask, u), t, q)
  {
  }

  lemma LoopAnyLives(s: Procs, s0: Procs, t: ThreadId, leaving: bool, q: nat)
    requires Inv(s) && t in s.live && q < |s.pt| && Pid(s, s.live[t])
    requires s0 == s || exists v :: s0 == SetExit(s, s.live[t], v)
    ensures s0.live == s.live && |s0.pt| == |s.pt|
    ensures s0.pt[s.live[t]].exited != [] ==> Pid(s0, s0.pt[s.live[t]].exited[0])
    ensures Lives(s, LoopAny(s0, t, leaving), t, q)
  {
    InvPids(s, t);
    var b := s.pt[s.live[t]];
    if b.children == [] {
      ThreadExitLives(Awake(s0, t), t, q);
    } else if b.exited != [] {
      assert ListOk(s, s.live[t]) && b.exited[0] in b.exited && Child(s, s.live[t], b.exited[0]);
    }
  }

  lemma SpecificLives(s: Procs, t: ThreadId, c: int, q: nat)
    requires Inv(s) && t in s.live && q < |s.pt|
    ensures Pid(s, c) && Legal(s, t, c) ==> Lives(s, LoopSpecific(s, t, c), t, q)
  {
    InvPids(s, t);
    if Pid(s, c) && Legal(s, t, c) {
      assert PcbOk(s, c);
    }
  }

  lemma ResumeLives(s: Procs, t: ThreadId, q: nat)
    requires Inv(s) && Enabled(s, DoResume(t)) && q < |s.pt|
    ensures Lives(s, Apply(s, DoResume(t)), t, q)
  {
    InvPids(s, t);
    var w := s.waiting[t];
    assert WaitOk(s, t);
    if w.child == NOPROC { LoopAnyLives(s, s, t, w.leaving, q); } else { SpecificLives(s, t, w.child, q); }
  }

  lemma ExitLives(s: Procs, t: ThreadId, v: int, q: nat)
    requires Inv(s) && Enabled(s, DoExit(t, v)) && q < |s.pt|
    ensures Lives(s, Apply(s, DoExit(t, v)), t, q)
    ensures s.live[t] != INIT_PID && s.pt[q].state == ZOMBIE ==> Apply(s, DoExit(t, v)).pt[q].state == ZOMBIE
  {
    InvPids(s, t);
    var s0 := SetExit(s, s.live[t], v);
    if s.live[t] == INIT_PID { LoopAnyLives(s, s0, t, true, q); } else { ThreadExitLives(s0, t, q); }
  }

  // Every step keeps to this order.
  lemma StepLives(s: Procs, step: Step, q: nat)
    requires Inv(s) && Enabled(s, step) && q < |s.pt|
    ensures Lives(s, Apply(s, step), step.t, q)
  {
    var t := step.t;
    InvPids(s, t);
    match step
    case DoExec(_, hasTask, u) =>
      if s.head != NOPROC { assert PcbOk(s, s.head) && s.free[0] in s.free; }
      ExecLives(s, t, s.live[t], hasTask, u, q);
    case DoCreateThread(_, u) =>
    case DoThreadExit(_) => ThreadExitLives(s, t, q);
    case DoExit(_, v) => ExitLives(s, t, v, q);
    case DoWaitChild(_, c) => if c == NOPROC { LoopAnyLives(s, s, t, false, q); } else { SpecificLives(s, t, c, q); }
    case DoResume(_) => ResumeLives(s, t, q);
  }

  // Only these steps reap.
  lemma ReapsOnly(s: Procs, step: Step, q: nat)
    requires Inv(s) && Enabled(s, step) && q < |s.pt| && q < |Apply(s, step).pt|
    ensures s.pt[q].state == ZOMBIE && Apply(s, step).pt[q].state != ZOMBIE ==>
              step.DoWaitChild? || step.DoResume? || (step.DoExit? && s.live[step.t] == INIT_PID)
  {
    var t := step.t;
    InvPids(s, t);
    match step
    case DoExec(_, hasTask, u) =>
      if s.head != NOPROC { assert PcbOk(s, s.head) && s.free[0] in s.free; }
    case DoThreadExit(_) => ThreadExitLives(s, t, q);
    case DoExit(_, v) => ExitLives(s, t, v, q);
    case _ =>
  }

  // A process that has become a zombie reports what it had then, whenever it is
  // reaped.
  lemma {:induction false} ZombieKeepsStatus(n: nat, u: ThreadId, ss: seq<Procs>, steps: seq<Step>, q: nat,
                                             i: nat, j: nat)
    requires IsRun(n, u, ss, steps) && i <= j < |ss| && q < n
    requires |ss[i].pt| == n && ss[i].pt[q].state == ZOMBIE && Birth(ss, q, j) <= i
    ensures |ss[j].pt| == n && ss[j].pt[q].exitval == ss[i].pt[q].exitval
    ensures ss[j].pt[q].state != ALIVE
    decreases j
  {
    ExitValueIsLast(n, u, ss, steps, q, j);
    if i == j {
    } else {
      ZombieKeepsStatus(n, u, ss, steps, q, i, j - 1);
      RunInv(n, u, ss, steps, j - 1);
      assert Taken(ss, steps, j - 1);
      ExitValueKept(ss[j - 1], steps[j - 1], q);
      StepLives(ss[j - 1], steps[j - 1], q);
      InvPids(ss[j - 1], steps[j - 1].t);
    }
  }

  // A PCB in use is freed only by a call of WaitChild, or by the loop of Exit in
  // init, of its parent, when it is a zombie. It then delivers what StatusIsOwnIff
  // says.
  lemma FreedByWait(n: nat, u: ThreadId, ss: seq<Procs>, steps: seq<Step>, q: nat, i: nat)
    requires IsRun(n, u, ss, steps) && i < |steps| && q < n
    ensures |ss[i].pt| == n && |ss[i + 1].pt| == n
    ensures ss[i].pt[q].state != FREE && ss[i + 1].pt[q].state == FREE ==>
              && ss[i].pt[q].state == ZOMBIE && steps[i].t in ss[i].live && Child(ss[i], ss[i].live[steps[i].t], q)
              && (steps[i].DoWaitChild? || steps[i].DoResume?
                  || (steps[i].DoExit? && ss[i].live[steps[i].t] == INIT_PID))
  {
    ExitValueIsLast(n, u, ss, steps, q, i);
    ExitValueIsLast(n, u, ss, steps, q, i + 1);
    RunInv(n, u, ss, steps, i);
    assert Taken(ss, steps, i);
    StepLives(ss[i], steps[i], q);
    ReapsOnly(ss[i], steps[i], q);
  }
}
