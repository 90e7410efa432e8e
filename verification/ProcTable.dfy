// kernel_proc.c and sys_ThreadExit as code that updates PT in place. Every
// method is one stretch of a system call under the kernel lock and takes exactly
// the step of the specification.
module ProcTable {
  import opened Lists
  import opened Procs
  import opened ProcInv
  import opened ProcThms

  class ProcTable {
    const pt: array<PCB>  // PT
    var head: int         // pcb_freelist
    var count: int        // process_count
    var live: map<ThreadId, nat>      // the process of every thread
    var waiting: map<ThreadId, Wait>  // the child_exit condition variables
    ghost var free: seq<nat>

    ghost function Abs(): Procs
      reads this, pt
    {
      Procs(pt[..], head, count, free, live, waiting)
    }

    // initialize_processes, lines 55-71. The loop runs from the last PCB down.
    constructor (maxProc: nat)
      ensures Abs() == Unused(maxProc) && fresh(pt)
    {
      pt := new PCB[maxProc](_ => PCB(FREE, NOPROC, 0, 0, [], []));
      head, count := NOPROC, 0;
      live, waiting, free := map[], map[], [];
      new;
      var i := maxProc;
      while i > 0
        invariant i <= maxProc && head == (if i < maxProc then i else NOPROC)
        invariant count == 0 && live == map[] && waiting == map[]
        invariant free == seq(maxProc - i, q => q + i)
        invariant forall q :: 0 <= q < maxProc
                    ==> pt[q] == PCB(FREE, if i <= q < maxProc - 1 then q + 1 else NOPROC, 0, 0, [], [])
        modifies pt, this`head, this`free
      {
        i := i - 1;
        pt[i] := pt[i].(parent := head);
        head := i;
        free := [i as nat] + free;
      }
      assert pt[..] == Unused(maxProc).pt;
      assert free == Unused(maxProc).free;
    }

    // The rest of initialize_processes, and the Exec of the init task.
    method Boot(u: ThreadId)
      requires pt.Length >= 2 && Abs() == Unused(pt.Length)
      modifies this, pt
      ensures Abs() == Booted(pt.Length, u) && Inv(Abs())
    {
      var p0 := SysExec(0, false, u);
      ghost var s1 := Abs();
      assert s1.head == 1 && s1.free[0] == 1;
      var p1 := SysExec(0, true, u);
      BootInv(pt.Length, u);
    }

    // acquire_PCB
    method AcquirePCB() returns (pcb: int)
      requires head != NOPROC ==> Pid(Abs(), head) && free != []
      modifies this`head, this`count, this`free, pt
      ensures pcb == old(head)
      ensures Abs() == if pcb == NOPROC then old(Abs()) else Acquire(old(Abs()))
    {
      pcb := NOPROC;
      if head != NOPROC {
        pcb := head;
        pt[pcb] := pt[pcb].(state := ALIVE);
        head := pt[pcb].parent;
        count := count + 1;
        free := free[1..];
        assert pt[..] == old(pt[..])[pcb := old(pt[head]).(state := ALIVE)];
      }
    }

    // release_PCB
    method ReleasePCB(pcb: nat)
      requires pcb < pt.Length
      modifies this`head, this`count, this`free, pt
      ensures Abs() == Release(old(Abs()), pcb)
    {
      pt[pcb] := pt[pcb].(state := FREE);
      pt[pcb] := pt[pcb].(parent := head);
      head := pcb;
      count := count - 1;
      free := [pcb] + free;
      assert pt[..] == old(pt[..])[pcb := old(pt[pcb]).(state := FREE, parent := old(head))];
    }

    // sys_Exec by a thread of process cur.
    method SysExec(cur: nat, hasTask: bool, u: ThreadId) returns (pid: int)
      requires cur < pt.Length && (head != NOPROC ==> Pid(Abs(), head) && free != [])
      modifies this, pt
      ensures Abs() == Exec(old(Abs()), cur, hasTask, u)
      ensures pid == old(head)
    {
      pid := AcquirePCB();
      if pid == NOPROC { return; }
      if pid <= INIT_PID {
        pt[pid] := pt[pid].(parent := NOPROC);
      } else {
        pt[pid] := pt[pid].(parent := cur);
        pt[cur] := pt[cur].(children := [pid as nat] + pt[cur].children);
      }
      if hasTask {
        pt[pid] := pt[pid].(threads := pt[pid].threads + 1);
        live := live[u := pid];
      }
      assert pt[..] == Exec(old(Abs()), cur, hasTask, u).pt;
    }

    // sys_Exec as a step of a running kernel.
    method ExecStep(t: ThreadId, hasTask: bool, u: ThreadId) returns (pid: int)
      requires Inv(Abs()) && Enabled(Abs(), DoExec(t, hasTask, u))
      modifies this, pt
      ensures Abs() == Apply(old(Abs()), DoExec(t, hasTask, u)) && Inv(Abs())
      ensures pid == old(head)
    {
      InvPids(Abs(), t);
      StepInv(Abs(), DoExec(t, hasTask, u));
      pid := SysExec(live[t], hasTask, u);
    }

    // The part of sys_CreateThread that counts the thread.
    method CreateThread(t: ThreadId, u: ThreadId)
      requires Inv(Abs()) && Enabled(Abs(), DoCreateThread(t, u))
      modifies this, pt
      ensures Abs() == Apply(old(Abs()), DoCreateThread(t, u)) && Inv(Abs())
    {
      InvPids(Abs(), t);
      StepInv(Abs(), DoCreateThread(t, u));
      var p := live[t];
      pt[p] := pt[p].(threads := pt[p].threads + 1);
      live := live[u := p];
      assert pt[..] == old(pt[..])[p := old(pt[p]).(threads := old(pt[p].threads) + 1)];
    }

    // kernel_broadcast(& PT[p].child_exit)
    method BroadcastExit(p: int)
      modifies this`waiting
      ensures Abs() == Broadcast(old(Abs()), p)
    {
      waiting := SignalAll(waiting, live, p);
    }

    // cleanup_zombie
    method CleanupZombie(pcb: nat) returns (status: int)
      requires pcb < pt.Length
      modifies this`head, this`count, this`free, pt
      ensures Abs() == Cleanup(old(Abs()), pcb) && status == old(pt[pcb].exitval)
    {
      status := pt[pcb].exitval;
      var p := pt[pcb].parent;
      if 0 <= p < pt.Length {
        pt[p] := pt[p].(children := Without(pt[p].children, pcb));
        pt[p] := pt[p].(exited := Without(pt[p].exited, pcb));
        assert pt[..] == old(pt[..])[p := old(pt[p]).(children := Without(old(pt[p].children), pcb),
                                                      exited := Without(old(pt[p].exited), pcb))];
      }
      ReleasePCB(pcb);
    }

    // wait_for_specific_child from the guard of its loop.
    method LoopForChild(t: ThreadId, cpid: nat) returns (blocked: bool, status: int)
      requires cpid < pt.Length
      modifies this, pt
      ensures Abs() == LoopSpecific(old(Abs()), t, cpid)
      ensures blocked <==> old(pt[cpid].state) == ALIVE
      ensures !blocked ==> status == old(pt[cpid].exitval)
    {
      blocked, status := pt[cpid].state == ALIVE, 0;
      if blocked {
        waiting := waiting[t := Wait(cpid, false, false)];
      } else {
        waiting := waiting - {t};
        status := CleanupZombie(cpid);
      }
    }

    // One round of wait_for_any_child.
    method LoopForAny(t: ThreadId, leaving: bool) returns (blocked: bool, pid: int, status: int)
      requires t in live && live[t] < pt.Length && pt.Length >= 2
      requires Inv(Abs()) && (leaving ==> live[t] == INIT_PID) && Alone(Abs(), t, NOPROC)
      modifies this, pt
      ensures Abs() == (InvPids(old(Abs()), t); LoopAny(old(Abs()), t, leaving))
      ensures blocked <==> old(pt[live[t]].children) != [] && old(pt[live[t]].exited) == []
      ensures !blocked ==> pid == if old(pt[live[t]].exited) == [] then NOPROC else old(pt[live[t]].exited)[0]
      ensures !blocked && pid != NOPROC ==> 0 <= pid < pt.Length && status == old(pt[pid].exitval)
      ensures blocked <==> t in waiting && !waiting[t].signalled
      ensures !blocked && !leaving ==> t !in waiting
    {
      ghost var s := Abs();
      InvPids(s, t);
      assert ListOk(s, live[t]);
      NoExitedChild(s, live[t]);
      blocked, pid, status := false, NOPROC, 0;
      var p := live[t];
      if pt[p].children == [] {
        AwakeInv(s, t);
        waiting := waiting - {t};
        if leaving { SysThreadExit(t); }
      } else if pt[p].exited == [] {
        blocked := true;
        waiting := waiting[t := Wait(NOPROC, false, leaving)];
      } else {
        pid := pt[p].exited[0];
        waiting := waiting - {t};
        status := CleanupZombie(pid);
        if leaving { waiting := waiting[t := Wait(NOPROC, true, true)]; }
      }
    }

    // sys_WaitChild, up to its first wait.
    method WaitChild(t: ThreadId, cpid: int) returns (blocked: bool, pid: int, status: int)
      requires Inv(Abs()) && Enabled(Abs(), DoWaitChild(t, cpid))
      modifies this, pt
      ensures Abs() == Apply(old(Abs()), DoWaitChild(t, cpid)) && Inv(Abs())
      ensures !blocked && pid != NOPROC ==> 0 <= pid < pt.Length && Child(old(Abs()), old(live[t]), pid)
                                            && old(pt[pid].state) == ZOMBIE && status == old(pt[pid].exitval)
      ensures cpid != NOPROC && !Legal(old(Abs()), t, cpid) ==> !blocked && pid == NOPROC
      ensures blocked <==> t in waiting
      ensures !blocked && cpid != NOPROC && Legal(old(Abs()), t, cpid) ==> pid == cpid
      ensures !blocked && cpid == NOPROC ==> (pid == NOPROC <==> old(pt[live[t]].children) == [])
    {
      ghost var s := Abs();
      InvPids(s, t);
      StepInv(s, DoWaitChild(t, cpid));
      assert ListOk(s, live[t]);
      NoExitedChild(s, live[t]);
      ghost var kids := s.pt[live[t]].exited;
      assert kids != [] ==> kids[0] in kids && Child(s, live[t], kids[0]);
      blocked, pid, status := false, NOPROC, 0;
      if cpid == NOPROC {
        blocked, pid, status := LoopForAny(t, false);
      } else if 0 <= cpid < pt.Length && pt[cpid].state != FREE && pt[cpid].parent == live[t] {
        pid := cpid;
        blocked, status := LoopForChild(t, cpid);
        assert PcbOk(s, cpid);
      }
    }

    // A thread that child_exit woke goes on. A thread of init in sys_Exit goes
    // round again after each child it reaps.
    method Resume(t: ThreadId) returns (blocked: bool, pid: int, status: int)
      requires Inv(Abs()) && Enabled(Abs(), DoResume(t))
      modifies this, pt
      ensures Abs() == Apply(old(Abs()), DoResume(t)) && Inv(Abs())
      ensures blocked <==> t in waiting && !waiting[t].signalled
      ensures !blocked && !old(waiting[t].leaving) ==> t !in waiting
      ensures !blocked && pid != NOPROC ==> 0 <= pid < pt.Length && Child(old(Abs()), old(live[t]), pid)
                                            && old(pt[pid].state) == ZOMBIE && status == old(pt[pid].exitval)
      ensures !blocked && old(waiting[t].child) != NOPROC ==> pid == old(waiting[t].child)
      ensures !blocked && old(waiting[t].child) == NOPROC ==> (pid == NOPROC <==> old(pt[live[t]].children) == [])
    {
      ghost var s := Abs();
      InvPids(s, t);
      StepInv(s, DoResume(t));
      AloneInPeace(s, t);
      assert WaitOk(s, t) && ListOk(s, live[t]);
      NoExitedChild(s, live[t]);
      ghost var kids := s.pt[live[t]].exited;
      assert kids != [] ==> kids[0] in kids && Child(s, live[t], kids[0]);
      var w := waiting[t];
      if w.child == NOPROC {
        blocked, pid, status := LoopForAny(t, w.leaving);
      } else {
        pid := w.child;
        blocked, status := LoopForChild(t, pid);
        assert PcbOk(s, pid);
      }
    }

    // sys_Exit
    method SysExit(t: ThreadId, v: int)
      requires Inv(Abs()) && Enabled(Abs(), DoExit(t, v))
      modifies this, pt
      ensures Abs() == Apply(old(Abs()), DoExit(t, v)) && Inv(Abs())
    {
      ghost var s := Abs();
      InvPids(s, t);
      StepInv(s, DoExit(t, v));
      var p := live[t];
      pt[p] := pt[p].(exitval := v);
      assert pt[..] == old(pt[..])[p := old(pt[p]).(exitval := v)];
      SetExitInv(s, p, v);
      if p == INIT_PID {
        var blocked, pid, status := LoopForAny(t, true);
      } else {
        SysThreadExit(t);
      }
    }

    // sys_ThreadExit, without the thread's own control block and the files.
    method SysThreadExit(t: ThreadId)
      requires Inv(Abs()) && t in live && t !in waiting && live[t] < pt.Length && pt.Length >= 2 && NoAbort(Abs(), t)
      modifies this, pt
      ensures Abs() == ThreadExit(old(Abs()), t) && Inv(Abs())
    {
      ghost var s := Abs();
      InvPids(s, t);
      ThreadExitInv(s, t);
      GoneInv(s, t);
      var p := live[t];
      pt[p] := pt[p].(threads := pt[p].threads - 1);
      live := live - {t};
      ghost var s1 := Gone(s, t);
      assert pt[..] == s1.pt;
      if pt[p].threads == 0 {
        if p != INIT_PID {
          assert PcbOk(s1, p);
          EndProcess(p);
        } else {
          pt[p] := pt[p].(state := ZOMBIE);
          assert pt[..] == ThreadExit(s, t).pt;
        }
      }
    }

    // Lines 181-201 and 246, for a process other than init.
    method EndProcess(p: nat)
      requires Dying(Abs(), p)
      modifies pt, this`waiting
      ensures Abs() == Die(old(Abs()), p)
    {
      ghost var s := Abs();
      DyingFacts(s, p);
      Reparent(p);
      ghost var a := pt[..];
      MoveExited(p);
      ghost var b := pt[..];
      pt[p] := pt[p].(state := ZOMBIE);
      assert pt[..] == b[p := b[p].(state := ZOMBIE)];
      ThreePartsOfDying(s, p, a, b);
    }

    // Lines 184-189: the loop that reparents the children of p.
    method Reparent(p: nat)
      requires Dying(Abs(), p)
      modifies pt
      ensures Reparented(old(pt[..]), pt[..], p)
    {
      ghost var s := Abs();
      ghost var kids := pt[p].children;
      DyingFacts(s, p);
      assert ListOk(s, p);
      while pt[p].children != []
        invariant forall c :: c in pt[p].children ==> c in kids
        invariant Distinct(pt[p].children)
        invariant PushAll(pt[p].children, pt[INIT_PID].children) == PushAll(kids, s.pt[INIT_PID].children)
        invariant forall q :: 0 <= q < pt.Length ==>
          pt[q] == s.pt[q].(parent := if q in kids && q !in pt[p].children then INIT_PID else s.pt[q].parent,
                            children := if q == p || q == INIT_PID then pt[q].children else s.pt[q].children)
        decreases |pt[p].children|
      {
        var child := pt[p].children[0];
        assert child in kids && Child(s, p, child);
        assert pt[p].children == [child] + pt[p].children[1..] && child !in pt[p].children[1..];
        pt[p] := pt[p].(children := pt[p].children[1..]);
        pt[child] := pt[child].(parent := INIT_PID);
        pt[INIT_PID] := pt[INIT_PID].(children := [child] + pt[INIT_PID].children);
      }
    }

    // Lines 193-201.
    method MoveExited(p: nat)
      requires 2 <= p < pt.Length && 1 <= pt[p].parent < pt.Length && pt[p].parent != p
      modifies pt, this`waiting
      ensures var told := if old(pt[p].exited) != [] then SignalAll(old(waiting), live, INIT_PID) else old(waiting);
        waiting == SignalAll(told, live, old(pt[p].parent))
      ensures ExitsMoved(old(pt[..]), pt[..], p)
    {
      ghost var before := pt[..];
      if pt[p].exited != [] {
        pt[INIT_PID] := pt[INIT_PID].(exited := pt[INIT_PID].exited + pt[p].exited);
        pt[p] := pt[p].(exited := []);
        BroadcastExit(INIT_PID);
      }
      var r := pt[p].parent;
      pt[r] := pt[r].(exited := [p] + pt[r].exited);
      BroadcastExit(r);
      forall q | 0 <= q < pt.Length ensures [] + (before[q].exited + []) == before[q].exited { }
      assert forall q :: 0 <= q < pt.Length ==> before[q].exited + [] == before[q].exited;
    }
  }

  // The loop has moved all children of p to init.
  ghost predicate Reparented(a: seq<PCB>, b: seq<PCB>, p: nat) {
    && |a| == |b| && 2 <= p < |a|
    && forall q {:trigger b[q]} :: 0 <= q < |a| ==>
      b[q] == a[q].(parent := if q in a[p].children then INIT_PID else a[q].parent,
                    children := if q == p then [] else if q == INIT_PID
                                then PushAll(a[p].children, a[INIT_PID].children) else a[q].children)
  }

  // The zombies of p have moved to init, and p is on the list of its parent.
  ghost predicate ExitsMoved(a: seq<PCB>, b: seq<PCB>, p: nat) {
    && |a| == |b| && 2 <= p < |a|
    && forall q {:trigger b[q]} :: 0 <= q < |a| ==>
      b[q] == a[q].(exited := if q == p then []
                              else (if q == a[p].parent then [p] else [])
                                   + (a[q].exited + (if q == INIT_PID then a[p].exited else [])))
  }

  lemma ThreePartsOfDying(s: Procs, p: nat, a: seq<PCB>, b: seq<PCB>)
    requires Dying(s, p) && Reparented(s.pt, a, p) && ExitsMoved(a, b, p)
    ensures b[p := b[p].(state := ZOMBIE)] == Died(s, p).pt
    ensures a[p].exited == s.pt[p].exited && a[p].parent == s.pt[p].parent
  {
    DyingFacts(s, p);
    var c, d := b[p := b[p].(state := ZOMBIE)], Died(s, p).pt;
    forall q | 0 <= q < |s.pt| ensures c[q] == d[q] {
      assert b[q].children == a[q].children && a[q].exited == s.pt[q].exited;
    }
  }
}
