// The system calls of the process table seen from the processes and threads: who
// is born where, who dies how, and how init leaves.
module ProcLife {
  import opened Lists
  import opened Procs
  import opened ProcInv
  import opened ProcThms

  // ------------------------------------------------------------------
  // Birth
  // ------------------------------------------------------------------

  // Exec fails and changes nothing if no PCB is free. Otherwise the first free one
  // becomes a new process, a child of the caller's, with its main thread if it has
  // a task, and nothing else changes.
  lemma ExecBears(s: Procs, t: ThreadId, hasTask: bool, u: ThreadId)
    requires Inv(s) && Enabled(s, DoExec(t, hasTask, u))
    ensures s.free == [] ==> Apply(s, DoExec(t, hasTask, u)) == s
    ensures s.free != [] ==> var s', p, c := Apply(s, DoExec(t, hasTask, u)), s.live[t], s.free[0];
      && p < |s.pt| == |s'.pt| && 2 <= c < |s.pt| && s.pt[c].state == FREE
      && s'.pt[c] == PCB(ALIVE, p, s.pt[c].exitval, if hasTask then 1 else 0, [], [])
      && s'.pt[p] == s.pt[p].(children := [c] + s.pt[p].children)
      && (forall q :: 0 <= q < |s.pt| && q != c && q != p ==> s'.pt[q] == s.pt[q])
      && s'.live == (if hasTask then s.live[u := c] else s.live)
      && s'.free == s.free[1..] && s'.count == s.count + 1 && s'.waiting == s.waiting
  {
    InvPids(s, t);
    if s.free != [] {
      assert LinkOk(s, 0) && PcbOk(s, s.free[0]);
      var c := s.free[0];
      assert c in s.free && CountOk(s, c);
      NobodyIn(s, c);
    }
  }

  lemma NobodyIn(s: Procs, c: nat)
    requires Inv(s) && c < |s.pt| && s.pt[c].state == FREE
    ensures s.pt[c].threads == 0 && s.pt[c].children == [] && s.pt[c].exited == []
  {
    assert PcbOk(s, c);
  }

  // A new thread lives in the process of its creator.
  lemma ThreadIsBorn(s: Procs, t: ThreadId, u: ThreadId)
    requires Inv(s) && Enabled(s, DoCreateThread(t, u))
    ensures var s', p := Apply(s, DoCreateThread(t, u)), s.live[t];
      && p < |s.pt| == |s'.pt| && s'.live == s.live[u := p]
      && s'.pt[p] == s.pt[p].(threads := s.pt[p].threads + 1)
      && (forall q :: 0 <= q < |s.pt| && q != p ==> s'.pt[q] == s.pt[q])
      && s'.free == s.free && s'.count == s.count && s'.waiting == s.waiting
  {
    InvPids(s, t);
  }

  // ------------------------------------------------------------------
  // Death
  // ------------------------------------------------------------------

  // Thread t of p, not init, leaves by ThreadExit or Exit, with the exit value v of
  // p afterwards. If others are left nothing else changes.
  ghost predicate JustLeaves(s: Procs, s': Procs, t: ThreadId, p: nat, v: int) {
    && p < |s.pt| == |s'.pt| && s'.live == s.live - {t} && s'.waiting == s.waiting
    && s'.pt[p] == s.pt[p].(threads := s.pt[p].threads - 1, exitval := v)
    && (forall q :: 0 <= q < |s.pt| && q != p ==> s'.pt[q] == s.pt[q])
    && s'.free == s.free && s'.count == s.count
  }

  // If it was the last, p becomes a zombie without children. Its children become
  // init's, last first; its zombies go behind those of init, and p before those of
  // its parent.
  ghost predicate Dies(s: Procs, s': Procs, t: ThreadId, p: nat, v: int) {
    && INIT_PID < |s.pt| == |s'.pt| && p < |s.pt| && s'.live == s.live - {t}
    && s'.pt[p] == PCB(ZOMBIE, s.pt[p].parent, v, 0, [], [])
    && (forall q :: 0 <= q < |s.pt| && q != p ==>
          && s'.pt[q].state == s.pt[q].state && s'.pt[q].threads == s.pt[q].threads
          && s'.pt[q].exitval == s.pt[q].exitval
          && s'.pt[q].parent == (if q in s.pt[p].children then INIT_PID else s.pt[q].parent))
    && (forall q :: 0 <= q < |s.pt| && q != p && q != INIT_PID ==> s'.pt[q].children == s.pt[q].children)
    && s'.pt[INIT_PID].children == Reversed(s.pt[p].children) + s.pt[INIT_PID].children
    && (forall q :: 0 <= q < |s.pt| && q != p ==>
          s'.pt[q].exited == (if q == s.pt[p].parent then [p] else [])
                             + (s.pt[q].exited + if q == INIT_PID then s.pt[p].exited else []))
    && s'.free == s.free && s'.count == s.count
  }

  // The threads in WaitChild that are told: those of the parent, and those of init
  // if it has got a zombie.
  ghost predicate Told(s: Procs, s': Procs, p: nat) {
    && p < |s.pt| && s'.waiting.Keys == s.waiting.Keys
    && (forall u {:trigger s'.waiting[u]} :: u in s.waiting && u in s.live && u in s'.waiting ==>
          s'.waiting[u] == if s.live[u] == s.pt[p].parent || (s.live[u] == INIT_PID && s.pt[p].exited != [])
                           then s.waiting[u].(signalled := true) else s.waiting[u])
  }

  lemma LeavesOrDies(s: Procs, t: ThreadId)
    requires Inv(s) && t in s.live && t !in s.waiting && s.live[t] != INIT_PID && Pid(s, s.live[t])
    ensures var s', p := ThreadExit(s, t), s.live[t];
      if s.pt[p].threads > 1 then JustLeaves(s, s', t, p, s.pt[p].exitval)
      else Dies(s, s', t, p, s.pt[p].exitval) && Told(s, s', p)
  {
    LiveProcess(s, t);
    if s.pt[s.live[t]].threads == 1 {
      LastOneDies(s, t);
      LastOneTells(s, t);
    }
  }

  lemma LastOneDies(s: Procs, t: ThreadId)
    requires Inv(s) && t in s.live && t !in s.waiting && s.live[t] != INIT_PID && Pid(s, s.live[t])
    requires s.pt[s.live[t]].threads == 1 && s.pt[s.live[t]].state == ALIVE
    ensures Dies(s, ThreadExit(s, t), t, s.live[t], s.pt[s.live[t]].exitval)
  {
    var p, s1 := s.live[t], Gone(s, t);
    InvPids(s, t);
    GoneInv(s, t);
    assert PcbOk(s1, p);
    DyingFacts(s1, p);
    PushAllReversed(s1.pt[p].children, s1.pt[INIT_PID].children);
    forall q | 0 <= q < |s.pt| ensures ThreadExit(s, t).pt[q] == Moved(s1, p, q) {
    }
  }

  // Reparenting puts the children, last first, before those of init.
  lemma {:induction false} PushAllReversed(q: seq<nat>, r: seq<nat>)
    ensures PushAll(q, r) == Reversed(q) + r
  {
    if q == [] {
      assert [] + r == r;
    } else {
      PushAllReversed(q[1..], [q[0]] + r);
      ReversedFront(q);
      assert Reversed(q[1..]) + ([q[0]] + r) == (Reversed(q[1..]) + [q[0]]) + r;
    }
  }

  lemma {:induction false} ReversedFront(q: seq<nat>)
    requires q != []
    ensures Reversed(q) == Reversed(q[1..]) + [q[0]]
  {
    var n := |q| - 1;
    if n == 0 {
      assert q[..n] == [] && q[1..] == [];
    } else {
      ReversedFront(q[..n]);
      assert q[..n][1..] == q[1..][..n - 1] && q[1..][n - 1] == q[n];
    }
  }

  // Everybody in WaitChild in these processes is told: nobody waits in the process
  // that has died.
  lemma LastOneTells(s: Procs, t: ThreadId)
    requires Inv(s) && t in s.live && t !in s.waiting && s.live[t] != INIT_PID && Pid(s, s.live[t])
    requires s.pt[s.live[t]].threads == 1
    ensures Told(s, ThreadExit(s, t), s.live[t])
  {
  }

  // sys_ThreadExit and sys_Exit of a process other than init.
  lemma ThreadExitSpec(s: Procs, t: ThreadId)
    requires Inv(s) && Enabled(s, DoThreadExit(t)) && s.live[t] != INIT_PID
    ensures var s', p := Apply(s, DoThreadExit(t)), s.live[t];
      && p < |s.pt|
      && if s.pt[p].threads > 1 then JustLeaves(s, s', t, p, s.pt[p].exitval)
         else Dies(s, s', t, p, s.pt[p].exitval) && Told(s, s', p)
  {
    InvPids(s, t);
    LeavesOrDies(s, t);
  }

  lemma ExitSpec(s: Procs, t: ThreadId, v: int)
    requires Inv(s) && Enabled(s, DoExit(t, v)) && s.live[t] != INIT_PID
    ensures var s', p := Apply(s, DoExit(t, v)), s.live[t];
      && p < |s.pt|
      && if s.pt[p].threads > 1 then JustLeaves(s, s', t, p, v) else Dies(s, s', t, p, v) && Told(s, s', p)
  {
    InvPids(s, t);
    SetExitInv(s, s.live[t], v);
    LeavesOrDies(SetExit(s, s.live[t], v), t);
  }

  // ------------------------------------------------------------------
  // WaitChild
  // ------------------------------------------------------------------

  // A call for a pid that is not a child of the caller does nothing. No call, and
  // no end of one, moves a thread, except out of init when it exits.
  lemma WaitMovesNobody(s: Procs, t: ThreadId, cpid: int)
    requires Inv(s) && Enabled(s, DoWaitChild(t, cpid))
    ensures Apply(s, DoWaitChild(t, cpid)).live == s.live
    ensures cpid != NOPROC && !(Pid(s, cpid) && Child(s, s.live[t], cpid)) ==> Apply(s, DoWaitChild(t, cpid)) == s
  {
    InvPids(s, t);
    if Pid(s, cpid) { assert PcbOk(s, cpid); }
  }

  // A round of the loop for child cpid or, with NOPROC, any child, by thread t: it
  // sleeps if there is none to reap, else it reaps that child or the front of the
  // exited list. A thread in Exit goes round again.
  ghost predicate Looks(s: Procs, s': Procs, t: ThreadId, cpid: int, leaving: bool) {
    t in s.live && Pid(s, s.live[t]) && (cpid != NOPROC ==> Pid(s, cpid)) &&
    var p := s.live[t];
    if cpid == NOPROC && s.pt[p].children == [] then s' == s.(waiting := s.waiting - {t})
    else if if cpid == NOPROC then s.pt[p].exited == [] else s.pt[cpid].state == ALIVE
    then s' == s.(waiting := s.waiting[t := Wait(cpid, false, leaving)])
    else
      && Reaped(s, s', p, if cpid == NOPROC then s.pt[p].exited[0] else cpid)
      && s'.waiting == if leaving then s.waiting[t := Wait(NOPROC, true, true)] else s.waiting - {t}
  }

  lemma AnyLooks(s: Procs, t: ThreadId, leaving: bool)
    requires Inv(s) && t in s.live && Pid(s, s.live[t])
    requires leaving ==> s.pt[s.live[t]].children != []
    ensures (InvPids(s, t); Looks(s, LoopAny(s, t, leaving), t, NOPROC, leaving))
  {
    InvPids(s, t);
    var p, s1 := s.live[t], Awake(s, t);
    if s.pt[p].children != [] && s.pt[p].exited != [] {
      AwakeInv(s, t);
      var c := s.pt[p].exited[0];
      assert ListOk(s, p) && c in s.pt[p].exited;
      ReapOne(s1, p, c);
      assert Child(s, p, c);
    }
  }

  lemma SpecificLooks(s: Procs, t: ThreadId, c: nat)
    requires Inv(s) && t in s.live && Pid(s, s.live[t]) && Child(s, s.live[t], c)
    ensures Looks(s, LoopSpecific(s, t, c), t, c, false)
  {
    InvPids(s, t);
    var p := s.live[t];
    if s.pt[c].state != ALIVE {
      AwakeInv(s, t);
      assert ListOk(s, p) && PcbOk(s, c);
      ReapOne(Awake(s, t), p, c);
    }
  }

  lemma CallLooks(s: Procs, t: ThreadId, cpid: int)
    requires Inv(s) && Enabled(s, DoWaitChild(t, cpid))
    requires cpid == NOPROC || (Pid(s, cpid) && Child(s, s.live[t], cpid))
    ensures Looks(s, Apply(s, DoWaitChild(t, cpid)), t, cpid, false)
  {
    InvPids(s, t);
    if cpid == NOPROC { AnyLooks(s, t, false); } else { SpecificLooks(s, t, cpid); }
  }

  lemma ResumeLooks(s: Procs, t: ThreadId)
    requires Inv(s) && Enabled(s, DoResume(t)) && Pid(s, s.live[t])
    requires !s.waiting[t].leaving || s.pt[s.live[t]].children != []
    ensures Looks(s, Apply(s, DoResume(t)), t, s.waiting[t].child, s.waiting[t].leaving)
  {
    InvPids(s, t);
    assert WaitOk(s, t);
    var c := s.waiting[t].child;
    if c == NOPROC { AnyLooks(s, t, s.waiting[t].leaving); } else { SpecificLooks(s, t, c); }
  }

  // Exit in init is such a round, after the exit value is stored.
  lemma ExitLooks(s: Procs, t: ThreadId, v: int)
    requires Inv(s) && Enabled(s, DoExit(t, v)) && s.live[t] == INIT_PID && INIT_PID < |s.pt|
    requires s.pt[INIT_PID].children != []
    ensures Looks(s.(pt := s.pt[INIT_PID := s.pt[INIT_PID].(exitval := v)]), Apply(s, DoExit(t, v)), t, NOPROC, true)
  {
    InvPids(s, t);
    SetExitInv(s, INIT_PID, v);
    AnyLooks(SetExit(s, INIT_PID, v), t, true);
  }

  // ------------------------------------------------------------------
  // Exit in init
  // ------------------------------------------------------------------

  // t is in the loop of sys_Exit.
  ghost predicate InLoop(s: Procs, t: ThreadId) {
    && t in s.live && s.live[t] == INIT_PID
    && t in s.waiting && s.waiting[t].child == NOPROC && s.waiting[t].leaving
  }

  // A round of the loop ends with the thread out of the process exactly if init has
  // no children.
  lemma LoopRound(s: Procs, t: ThreadId)
    requires Inv(s) && t in s.live && s.live[t] == INIT_PID && INIT_PID < |s.pt|
    ensures (InvPids(s, t); if s.pt[INIT_PID].children == [] then t !in LoopAny(s, t, true).live
                            else InLoop(LoopAny(s, t, true), t))
  {
    InvPids(s, t);
  }

  lemma ExitStarts(s: Procs, t: ThreadId, v: int)
    requires Inv(s) && Enabled(s, DoExit(t, v)) && s.live[t] == INIT_PID && INIT_PID < |s.pt|
    ensures if s.pt[INIT_PID].children == [] then t !in Apply(s, DoExit(t, v)).live
            else InLoop(Apply(s, DoExit(t, v)), t)
  {
    InvPids(s, t);
    SetExitInv(s, INIT_PID, v);
    LoopRound(SetExit(s, INIT_PID, v), t);
  }

  // No step of another thread takes it out of the loop.
  lemma OtherStep(s: Procs, step: Step, t: ThreadId)
    requires Inv(s) && Enabled(s, step) && InLoop(s, t) && step.t != t
    ensures InLoop(Apply(s, step), t)
  {
    var u := step.t;
    InvPids(s, u);
    match step
    case DoExec(_, hasTask, v) =>
    case DoCreateThread(_, v) =>
    case DoThreadExit(_) => OtherExits(s, u, t);
    case DoExit(_, v) =>
      var s1 := SetExit(s, s.live[u], v);
      if s.live[u] == INIT_PID { OtherLoops(s1, u, t, true); } else { OtherExits(s1, u, t); }
    case DoWaitChild(_, cpid) =>
      if cpid == NOPROC { OtherLoops(s, u, t, false); }
    case DoResume(_) =>
      if s.waiting[u].child == NOPROC { OtherLoops(s, u, t, s.waiting[u].leaving); }
  }

  lemma OtherExits(s: Procs, u: ThreadId, t: ThreadId)
    requires u in s.live && Pid(s, s.live[u]) && Pid(s, INIT_PID) && InLoop(s, t) && u != t
    ensures InLoop(ThreadExit(s, u), t)
  {
  }

  lemma OtherLoops(s: Procs, u: ThreadId, t: ThreadId, leaving: bool)
    requires u in s.live && Pid(s, s.live[u]) && Pid(s, INIT_PID) && InLoop(s, t) && u != t
    requires s.pt[s.live[u]].exited != [] ==> Pid(s, s.pt[s.live[u]].exited[0])
    ensures InLoop(LoopAny(s, u, leaving), t)
  {
    if leaving { OtherExits(Awake(s, u), u, t); }
  }

  lemma LoopStep(s: Procs, step: Step, t: ThreadId)
    requires Inv(s) && Enabled(s, step) && InLoop(s, t) && INIT_PID < |s.pt|
    ensures if step.t == t && s.pt[INIT_PID].children == [] then t !in Apply(s, step).live
            else InLoop(Apply(s, step), t)
  {
    InvPids(s, step.t);
    if step.t == t {
      LoopRound(s, t);
    } else {
      OtherStep(s, step, t);
    }
  }

  // In any run: after the call of Exit at step i thread t of init stays in init and
  // in WaitChild, and leaves with the first of its own steps that finds init
  // without children, which may be the call itself.
  lemma {:induction false} InitExitsLast(n: nat, w: ThreadId, ss: seq<Procs>, steps: seq<Step>,
                                         i: nat, j: nat, t: ThreadId)
    requires IsRun(n, w, ss, steps) && i < j < |ss|
    requires steps[i].DoExit? && steps[i].t == t && t in ss[i].live && ss[i].live[t] == INIT_PID
    requires forall m :: i < m < j ==> t in ss[m].live
    ensures INIT_PID < |ss[j - 1].pt|
    ensures t !in ss[j].live <==> steps[j - 1].t == t && ss[j - 1].pt[INIT_PID].children == []
    ensures t in ss[j].live ==> ss[j].live[t] == INIT_PID && t in ss[j].waiting && InLoop(ss[j], t)
    decreases j
  {
    RunInv(n, w, ss, steps, j - 1);
    assert Taken(ss, steps, j - 1);
    if j == i + 1 {
      ExitStarts(ss[i], t, steps[i].v);
    } else {
      InitExitsLast(n, w, ss, steps, i, j - 1, t);
      LoopStep(ss[j - 1], steps[j - 1], t);
    }
  }
}
