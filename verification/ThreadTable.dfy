// kernel_threads.c as code that updates the PTCBs, the ptcb_list and the
// thread_count of a process in place.
module ThreadTable {
  import opened Lists
  import opened Threads

  class ThreadTable {
    var ptcb: map<Tid, PTCB>
    var list: seq<Tid>        // ptcb_list
    var count: int            // thread_count
    var joining: map<Tid, Join>  // the exit_cv condition variables
    ghost var live: set<Tid>

    ghost function Abs(): Team
      reads this
    {
      Team(ptcb, list, count, live, joining)
    }

    // add_tcb_to_process for the main thread of a new process.
    constructor (x: Tid)
      ensures Abs() == Started(x) && Inv(Abs())
    {
      ptcb := map[x := PTCB(false, false, 0, 0)];
      list, count, joining, live := [x], 1, map[], {x};
      new;
      assert Joiners(Abs(), x) == {};
      assert PtcbOk(Abs(), x);
    }

    // sys_CreateThread
    method CreateThread(ghost t: Tid, hasTask: bool, x: Tid) returns (tid: Tid)
      requires Inv(Abs()) && Enabled(Abs(), DoCreate(t, hasTask, x))
      modifies this
      ensures Abs() == Apply(old(Abs()), DoCreate(t, hasTask, x)) && Inv(Abs())
      ensures tid == x
    {
      StepInv(Abs(), DoCreate(t, hasTask, x));
      ptcb := ptcb[x := PTCB(false, false, 0, 0)];
      if hasTask {
        list := list + [x];
        count := count + 1;
        live := live + {x};
      }
      tid := x;
    }

    // kernel_broadcast(& x->exit_cv)
    method BroadcastExit(x: Tid)
      modifies this`joining
      ensures Abs() == Broadcast(old(Abs()), x)
    {
      joining := map t | t in joining :: if joining[t].target == x then joining[t].(signalled := true) else joining[t];
    }

    // The loop of sys_ThreadJoin: one look at the target, by a caller that is
    // counted in its refcount.
    method LoopJoin(t: Tid, x: Tid) returns (asleep: bool, ret: int, exitval: int)
      requires x in ptcb
      modifies this
      ensures Abs() == JoinLoop(old(Abs()), t, x)
      ensures asleep <==> !old(ptcb)[x].exited && !old(ptcb)[x].detached
      ensures !asleep ==> ret == if old(ptcb)[x].detached then -1 else 0
      ensures !asleep && ret == 0 ==> exitval == old(ptcb)[x].exitval
    {
      asleep, ret, exitval := !ptcb[x].exited && !ptcb[x].detached, -1, 0;
      if asleep {
        joining := joining[t := Join(x, false)];
        return;
      }
      joining := joining - {t};
      ptcb := ptcb[x := ptcb[x].(refcount := ptcb[x].refcount - 1)];
      if ptcb[x].detached { return; }
      exitval := ptcb[x].exitval;
      if ptcb[x].refcount == 0 {
        list := Without(list, x);
        ptcb := ptcb - {x};
      }
      ret := 0;
    }

    // sys_ThreadJoin, up to its first wait.
    method ThreadJoin(t: Tid, x: Tid) returns (asleep: bool, ret: int, exitval: int)
      requires Inv(Abs()) && Enabled(Abs(), DoJoin(t, x))
      modifies this
      ensures Abs() == Apply(old(Abs()), DoJoin(t, x)) && Inv(Abs())
      ensures match Result(old(Abs()), DoJoin(t, x))
              case Asleep => asleep
              case Failed => !asleep && ret == -1
              case Joined(v) => !asleep && ret == 0 && exitval == v
    {
      StepInv(Abs(), DoJoin(t, x));
      asleep, ret, exitval := false, -1, 0;
      if x !in list { return; }
      if ptcb[x].detached || x == t { return; }
      ptcb := ptcb[x := ptcb[x].(refcount := ptcb[x].refcount + 1)];
      asleep, ret, exitval := LoopJoin(t, x);
    }

    // A joiner that exit_cv woke goes on.
    method Resume(t: Tid) returns (asleep: bool, ret: int, exitval: int)
      requires Inv(Abs()) && Enabled(Abs(), DoResume(t))
      modifies this
      ensures Abs() == Apply(old(Abs()), DoResume(t)) && Inv(Abs())
      ensures match Result(old(Abs()), DoResume(t))
              case Asleep => asleep
              case Failed => !asleep && ret == -1
              case Joined(v) => !asleep && ret == 0 && exitval == v
    {
      StepInv(Abs(), DoResume(t));
      asleep, ret, exitval := LoopJoin(t, joining[t].target);
    }

    // sys_ThreadDetach
    method ThreadDetach(ghost t: Tid, x: Tid) returns (ret: int)
      requires Inv(Abs()) && Enabled(Abs(), DoDetach(t, x))
      modifies this
      ensures Abs() == Apply(old(Abs()), DoDetach(t, x)) && Inv(Abs())
      ensures ret == 0 <==> Detachable(old(Abs()), x)
      ensures ret != 0 ==> ret == -1
    {
      StepInv(Abs(), DoDetach(t, x));
      ret := -1;
      if x !in list || ptcb[x].exited { return; }
      ptcb := ptcb[x := ptcb[x].(detached := true)];
      BroadcastExit(x);
      ret := 0;
    }

    // The part of sys_ThreadExit that concerns the threads of the process.
    method ThreadExit(t: Tid, v: int)
      requires Inv(Abs()) && Enabled(Abs(), DoExit(t, v))
      modifies this
      ensures Abs() == Apply(old(Abs()), DoExit(t, v)) && Inv(Abs())
    {
      StepInv(Abs(), DoExit(t, v));
      ptcb := ptcb[t := ptcb[t].(exited := true, exitval := v)];
      BroadcastExit(t);
      count := count - 1;
      live := live - {t};
      if count == 0 { FreeList(); }
    }

    // Lines 213-222. Every PTCB that is freed is allocated at that time.
    method FreeList()
      requires Distinct(list) && forall x :: x in list ==> x in ptcb
      modifies this`list, this`ptcb
      ensures list == [] && ptcb == old(ptcb) - Elems(old(list))
    {
      ghost var all := list;
      while list != []
        invariant Distinct(list) && (forall x :: x in list ==> x in ptcb)
        invariant Elems(list) <= Elems(all) && ptcb == old(ptcb) - (Elems(all) - Elems(list))
        decreases |list|
      {
        var x := list[0];
        assert x in ptcb;
        assert list == [x] + list[1..] && x !in list[1..];
        ghost var before := list;
        list := list[1..];
        ptcb := ptcb - {x};
        assert Elems(before) == Elems(list) + {x};
      }
    }
  }
}
