// Every step on the process table keeps its invariant.
module ProcInv {
  import opened Lists
  import opened Procs

  // ------------------------------------------------------------------
  // List facts
  // ------------------------------------------------------------------

  // Reparenting keeps every child, once.
  lemma {:induction false} PushAllSpec(q: seq<nat>, r: seq<nat>)
    requires Distinct(q) && Distinct(r) && forall x :: x in q ==> x !in r
    ensures Distinct(PushAll(q, r))
    ensures forall x: nat {:trigger x in PushAll(q, r)} {:trigger x in q} {:trigger x in r} ::
              x in PushAll(q, r) <==> x in q || x in r
  {
    if q == [] {
    } else {
      assert q == [q[0]] + q[1..] && q[0] !in q[1..];
      assert q[0] in q;
      PushAllSpec(q[1..], [q[0]] + r);
    }
  }

  // ------------------------------------------------------------------
  // Steps that leave the tree alone
  // ------------------------------------------------------------------

  // Process p keeps its place; its thread count or exit value changes.
  lemma KeepTable(s: Procs, s': Procs, p: nat)
    requires Table(s) && FreeOk(s) && Tree(s) && 1 <= p < |s.pt| && s.pt[p].state == ALIVE
    requires |s'.pt| == |s.pt| && s'.head == s.head && s'.count == s.count && s'.free == s.free
    requires s'.pt[p] == s.pt[p].(threads := s'.pt[p].threads, exitval := s'.pt[p].exitval)
    requires forall q :: 0 <= q < |s.pt| && q != p ==> s'.pt[q] == s.pt[q]
    ensures Table(s') && FreeOk(s') && Tree(s')
  {
    forall q | 0 <= q < |s.pt| ensures PcbOk(s', q) { assert PcbOk(s, q); }
    forall q | 0 <= q < |s.pt| ensures ListOk(s', q) {
      assert ListOk(s, q);
      forall c | c in s'.pt[q].children ensures Child(s', q, c) { assert Child(s, q, c); }
    }
    forall i | 0 <= i < |s.free| ensures LinkOk(s', i) {
      assert LinkOk(s, i) && s.free[i] in s.free && PcbOk(s, s.free[i]);
    }
    var rank :| Ranked(s, rank);
    assert Ranked(s', rank);
  }

  // Fewer waiters, for the same children, do not clash either.
  lemma KeepPeace(s: Procs, s': Procs)
    requires WaitsOk(s)
    requires forall t :: t in s'.waiting ==> t in s.waiting && s'.waiting[t].child == s.waiting[t].child
    requires forall t :: t in s'.waiting && t in s.live ==> t in s'.live && s'.live[t] == s.live[t]
    ensures forall t, u {:trigger Peaceful(s', t, u)} :: t in s'.waiting && u in s'.waiting ==> Peaceful(s', t, u)
  {
    forall t, u | t in s'.waiting && u in s'.waiting ensures Peaceful(s', t, u) {
      assert WaitOk(s, t) && WaitOk(s, u) && Peaceful(s, t, u);
    }
  }

  lemma KeepWaits(s: Procs, s': Procs, p: nat)
    requires WaitsOk(s) && p < |s.pt| == |s'.pt| && s'.waiting == s.waiting
    requires forall t :: t in s.waiting && t in s.live ==> t in s'.live && s'.live[t] == s.live[t]
    requires s'.pt[p] == s.pt[p].(threads := s'.pt[p].threads, exitval := s'.pt[p].exitval)
    requires forall q :: 0 <= q < |s.pt| && q != p ==> s'.pt[q] == s.pt[q]
    ensures WaitsOk(s')
  {
    forall t | t in s'.waiting ensures WaitOk(s', t) { assert WaitOk(s, t); }
    KeepPeace(s, s');
  }

  lemma AddThreadCount(s: Procs, p: nat, u: ThreadId)
    requires ThreadsOk(s) && p < |s.pt| && u !in s.live
    ensures ThreadsOk(AddThread(s, p, u))
  {
    var s' := AddThread(s, p, u);
    forall q | 0 <= q < |s'.pt| ensures CountOk(s', q) {
      assert CountOk(s, q);
      assert ThreadsOf(s', q) == ThreadsOf(s, q) + if q == p then {u} else {};
      assert u !in ThreadsOf(s, q);
    }
  }

  lemma AddThreadInv(s: Procs, p: nat, u: ThreadId)
    requires Inv(s) && 1 <= p < |s.pt| && s.pt[p].state == ALIVE && u !in s.live
    ensures Inv(AddThread(s, p, u))
  {
    var s' := AddThread(s, p, u);
    KeepTable(s, s', p);
    forall t | t in s.waiting ensures t in s.live { assert WaitOk(s, t); }
    KeepWaits(s, s', p);
    AddThreadCount(s, p, u);
  }

  lemma SetExitInv(s: Procs, p: nat, v: int)
    requires Inv(s) && 1 <= p < |s.pt| && s.pt[p].state == ALIVE
    ensures Inv(SetExit(s, p, v))
  {
    var s' := SetExit(s, p, v);
    KeepTable(s, s', p);
    KeepWaits(s, s', p);
    forall q | 0 <= q < |s'.pt| ensures CountOk(s', q) {
      assert CountOk(s, q) && ThreadsOf(s', q) == ThreadsOf(s, q);
    }
  }

  // ------------------------------------------------------------------
  // Exec
  // ------------------------------------------------------------------

  // What Exec does to the table, when there is a free PCB.
  ghost predicate ExecEffect(s: Procs, s': Procs, p: nat, c: nat) {
    && |s'.pt| == |s.pt| && p < |s.pt| && c < |s.pt| && p != c
    && s.free != [] && c == s.free[0] && s'.free == s.free[1..] && s'.count == s.count + 1
    && s'.head == s.pt[c].parent
    && s'.pt[c] == s.pt[c].(state := ALIVE, parent := p)
    && s'.pt[p] == s.pt[p].(children := [c] + s.pt[p].children)
    && (forall q :: 0 <= q < |s.pt| && q != c && q != p ==> s'.pt[q] == s.pt[q])
  }

  lemma ExecTable(s: Procs, s': Procs, p: nat, c: nat)
    requires Table(s) && FreeOk(s) && ExecEffect(s, s', p, c) && p >= 1 && s.pt[p].state == ALIVE
    ensures Table(s') && c >= 2
  {
    assert PcbOk(s, c) && c in s.free;
    assert s.free == [c] + s'.free && c !in s'.free;
    assert PcbOk(s, p) && ListOk(s, p);
    forall d | d in s.pt[p].children ensures d != c { assert Child(s, p, d); }
    ConcatDistinct([c], s.pt[p].children);
    forall q | 0 <= q < |s.pt| ensures PcbOk(s', q) {
      assert PcbOk(s, q);
    }
    forall q | 0 <= q < |s.pt| ensures ListOk(s', q) {
      assert ListOk(s, q) && ListOk(s, p) && PcbOk(s, q);
      forall d | d in s'.pt[q].children ensures Child(s', q, d) {
        if !(q == p && d == c) { assert Child(s, q, d); }
      }
      assert forall d :: d in s.pt[q].exited ==> d in s.pt[q].children;
      assert forall d :: d in s'.pt[q].children && d < |s.pt| && s'.pt[d].state == ZOMBIE ==> d != c;
    }
  }

  lemma ExecFree(s: Procs, s': Procs, p: nat, c: nat)
    requires Table(s) && FreeOk(s) && ExecEffect(s, s', p, c) && s.pt[p].state == ALIVE
    ensures FreeOk(s')
  {
    assert s.free == [c] + s'.free && LinkOk(s, 0);
    forall i | 0 <= i < |s'.free| ensures LinkOk(s', i) {
      var q := s'.free[i];
      assert q == s.free[i + 1] && q in s.free && LinkOk(s, i + 1);
      assert PcbOk(s, q) && PcbOk(s, p);
      assert q != c && q != p;
    }
  }

  lemma ExecTree(s: Procs, s': Procs, p: nat, c: nat)
    requires Table(s) && FreeOk(s) && Tree(s) && ExecEffect(s, s', p, c) && p >= 1 && c >= 2 && s.pt[p].state == ALIVE
    ensures Tree(s')
  {
    var rank :| Ranked(s, rank);
    var rank' := rank[c := rank[p] + 1];
    forall q | 2 <= q < |s'.pt| && s'.pt[q].state != FREE && 0 <= s'.pt[q].parent < |s'.pt|
      ensures rank'[s'.pt[q].parent] < rank'[q]
    {
      if q != c {
        assert rank[s.pt[q].parent] < rank[q];
        assert PcbOk(s, q) && PcbOk(s, s.pt[q].parent) && PcbOk(s, c) && c in s.free;
        assert s.pt[q].parent != c;
      }
    }
    assert Ranked(s', rank');
  }

  lemma ExecInv(s: Procs, p: nat, hasTask: bool, u: ThreadId)
    requires Inv(s) && 1 <= p < |s.pt| && s.pt[p].state == ALIVE && u !in s.live
    requires s.head != NOPROC ==> Pid(s, s.head) && s.free != []
    ensures Inv(Exec(s, p, hasTask, u))
  {
    if s.head != NOPROC {
      var c := s.head;
      assert c in s.free && PcbOk(s, c);
      var s1 := Acquire(s);
      var s0 := Put(s1, c, s1.pt[c].(parent := p));
      var s2 := Put(s0, p, s0.pt[p].(children := [c as nat] + s0.pt[p].children));
      assert Exec(s, p, hasTask, u) == if hasTask then AddThread(s2, c, u) else s2;
      assert ExecEffect(s, s2, p, c);
      ExecTable(s, s2, p, c);
      ExecFree(s, s2, p, c);
      ExecTree(s, s2, p, c);
      forall q | 0 <= q < |s2.pt| ensures CountOk(s2, q) {
        assert CountOk(s, q) && ThreadsOf(s2, q) == ThreadsOf(s, q);
      }
      forall t | t in s2.waiting ensures WaitOk(s2, t) {
        assert WaitOk(s, t);
        var w := s.waiting[t];
        if w.child != NOPROC { assert Child(s2, s.live[t], w.child) by { assert PcbOk(s, w.child); } }
        LiveProcess(s, t);
      }
      KeepPeace(s, s2);
      if hasTask { AddThreadInv(s2, c, u); }
    }
  }

  // ------------------------------------------------------------------
  // Reaping a zombie
  // ------------------------------------------------------------------

  ghost predicate CleanupEffect(s: Procs, s': Procs, p: nat, c: nat) {
    && |s'.pt| == |s.pt| && p < |s.pt| && c < |s.pt| && p != c
    && s'.free == [c] + s.free && s'.head == c && s'.count == s.count - 1
    && s'.pt[c] == s.pt[c].(state := FREE, parent := s.head)
    && s'.pt[p] == s.pt[p].(children := Without(s.pt[p].children, c), exited := Without(s.pt[p].exited, c))
    && (forall q :: 0 <= q < |s.pt| && q != c && q != p ==> s'.pt[q] == s.pt[q])
    && s'.live == s.live && s'.waiting == s.waiting
  }

  lemma CleanupHas(s: Procs, p: nat, c: nat)
    requires Table(s) && Tree(s) && Child(s, p, c) && p < |s.pt|
    ensures CleanupEffect(s, Cleanup(s, c), p, c)
    ensures c in s.pt[p].children && s.pt[p].state == ALIVE
  {
    assert PcbOk(s, c) && PcbOk(s, p) && ListOk(s, p);
    NotItsOwnParent(s, p, c);
  }

  lemma NotItsOwnParent(s: Procs, p: nat, c: nat)
    requires Table(s) && Tree(s) && Child(s, p, c) && p < |s.pt|
    ensures p != c
  {
    var rank :| Ranked(s, rank);
    assert s.pt[c].parent == p && rank[s.pt[c].parent] < rank[c];
  }

  lemma CleanupTable(s: Procs, s': Procs, p: nat, c: nat)
    requires Table(s) && CleanupEffect(s, s', p, c) && Child(s, p, c) && s.pt[c].state == ZOMBIE
    ensures Table(s')
  {
    assert PcbOk(s, c) && PcbOk(s, p) && ListOk(s, p);
    WithoutSpec(s.pt[p].children, c);
    WithoutSpec(s.pt[p].exited, c);
    forall q | 0 <= q < |s.pt| ensures PcbOk(s', q) {
      assert PcbOk(s, q);
      if q == p { assert s.pt[p].children != []; }
    }
    forall q | 0 <= q < |s.pt| ensures ListOk(s', q) {
      assert ListOk(s, q) && PcbOk(s, q);
      forall d | d in s'.pt[q].children ensures Child(s', q, d) {
        assert Child(s, q, d);
        assert d != c;
      }
    }
  }

  lemma CleanupFree(s: Procs, s': Procs, p: nat, c: nat)
    requires Table(s) && FreeOk(s) && CleanupEffect(s, s', p, c) && s.pt[c].state == ZOMBIE && s.pt[p].state == ALIVE
    ensures FreeOk(s')
  {
    assert PcbOk(s, c) && PcbOk(s, p) && c !in s.free;
    forall i | 0 <= i < |s'.free| ensures LinkOk(s', i) {
      if i > 0 {
        assert s'.free[i] == s.free[i - 1] && s.free[i - 1] in s.free && LinkOk(s, i - 1);
        assert PcbOk(s, s.free[i - 1]);
      }
    }
  }

  lemma CleanupTree(s: Procs, s': Procs, p: nat, c: nat)
    requires Table(s) && Tree(s) && CleanupEffect(s, s', p, c)
    ensures Tree(s')
  {
    var rank :| Ranked(s, rank);
    assert Ranked(s', rank);
  }

  // Thread t, not blocked, reaps the zombie c, which no other thread waits for.
  lemma CleanupInv(s: Procs, t: ThreadId, c: nat)
    requires Inv(s) && t in s.live && t !in s.waiting && Child(s, s.live[t], c) && s.pt[c].state == ZOMBIE
    requires forall u :: u in s.waiting ==> s.waiting[u].child != c
    ensures Inv(Cleanup(s, c))
  {
    var p := s.live[t];
    var s' := Cleanup(s, c);
    InvPids(s, t);
    CleanupHas(s, p, c);
    CleanupTable(s, s', p, c);
    CleanupFree(s, s', p, c);
    CleanupTree(s, s', p, c);
    assert ListOk(s, p);
    assert c in s.pt[p].exited;
    forall q | 0 <= q < |s'.pt| ensures CountOk(s', q) {
      assert CountOk(s, q) && ThreadsOf(s', q) == ThreadsOf(s, q);
    }
    forall u | u in s'.waiting ensures WaitOk(s', u) {
      assert WaitOk(s, u);
      if s.waiting[u].child != NOPROC { assert Child(s', s.live[u], s.waiting[u].child); }
    }
    KeepPeace(s, s');
  }

  // ------------------------------------------------------------------
  // The end of a process
  // ------------------------------------------------------------------

  // Every process but 0 and 1 descends from init.
  lemma {:induction false} InitHasChildren(s: Procs, rank: seq<nat>, q: nat)
    requires Table(s) && Ranked(s, rank) && 2 <= q < |s.pt| && s.pt[q].state != FREE
    ensures s.pt[INIT_PID].children != []
    decreases rank[q]
  {
    var p := s.pt[q].parent;
    assert PcbOk(s, q);
    if p != INIT_PID {
      assert PcbOk(s, p) && ListOk(s, p);
      InitHasChildren(s, rank, p);
    }
  }

  // What is known of a process p that is about to become a zombie.
  ghost predicate Dying(s: Procs, p: nat) {
    && Table(s) && Tree(s) && 2 <= p < |s.pt| && s.pt[p].state == ALIVE && s.pt[p].threads == 0
    && 1 <= s.pt[p].parent < |s.pt|
  }

  lemma DyingFacts(s: Procs, p: nat)
    requires Dying(s, p)
    ensures var r := s.pt[p].parent;
      && r != p && s.pt[r].state == ALIVE && s.pt[INIT_PID].state == ALIVE
      && p in s.pt[r].children && p !in s.pt[r].exited
    ensures forall c :: c in s.pt[p].children ==> c != p && Child(s, p, c) && c !in s.pt[INIT_PID].children
    ensures forall c :: c in s.pt[p].exited ==> c in s.pt[p].children && c !in s.pt[INIT_PID].exited
  {
    var r := s.pt[p].parent;
    var rank :| Ranked(s, rank);
    InitHasChildren(s, rank, p);
    assert PcbOk(s, p) && PcbOk(s, r) && PcbOk(s, INIT_PID) && ListOk(s, r) && ListOk(s, p) && ListOk(s, INIT_PID);
    NotItsOwnParent(s, r, p);
    forall c | c in s.pt[p].children ensures c != p && Child(s, p, c) && c !in s.pt[INIT_PID].children {
      assert Child(s, p, c);
      NotItsOwnParent(s, p, c);
      forall d | d in s.pt[INIT_PID].children ensures d != c { assert Child(s, INIT_PID, d); }
    }
  }

  lemma DieChildren(s: Procs, p: nat, q: nat)
    requires Dying(s, p) && q < |s.pt|
    ensures var s' := Died(s, p);
      && Distinct(s'.pt[q].children)
      && (forall c {:trigger Child(s', q, c)} :: c in s'.pt[q].children ==> Child(s', q, c))
      && (forall c: nat {:trigger c in s'.pt[q].children} :: c in s'.pt[q].children <==>
            q != p && (c in s.pt[q].children || (q == INIT_PID && c in s.pt[p].children)))
  {
    var s' := Died(s, p);
    DyingFacts(s, p);
    assert ListOk(s, q) && ListOk(s, p);
    if q == INIT_PID { PushAllSpec(s.pt[p].children, s.pt[q].children); }
    forall c | c in s'.pt[q].children ensures Child(s', q, c) {
      if c in s.pt[q].children {
        assert Child(s, q, c);
      } else {
        assert Child(s, p, c);
      }
    }
  }

  lemma DieExited(s: Procs, p: nat, q: nat)
    requires Dying(s, p) && q < |s.pt|
    ensures ListOk(Died(s, p), q)
  {
    var s' := Died(s, p);
    var r, b := s.pt[p].parent, s.pt[q].exited;
    DyingFacts(s, p);
    DieChildren(s, p, q);
    assert ListOk(s, q) && ListOk(s, p) && PcbOk(s, p);
    if q != p {
      var tail := if q == INIT_PID then s.pt[p].exited else [];
      forall c | c in b ensures c !in tail {
        assert q == INIT_PID ==> c in s.pt[INIT_PID].exited;
      }
      ConcatDistinct(b, tail);
      var front := if q == r then [p] else [];
      forall c | c in front ensures c !in b + tail { assert c == p; }
      ConcatDistinct(front, b + tail);
      forall c | c in s'.pt[q].children && c < |s.pt| && s'.pt[c].state == ZOMBIE ensures c in s'.pt[q].exited {
        if c == p {
          assert Child(s', q, p);
          assert q == r && p in front;
        } else if c in s.pt[q].children {
          assert c in b;
        }
      }
      assert forall c :: c in s'.pt[q].exited <==> c in front || c in b || c in tail;
    }
  }

  lemma DiePcb(s: Procs, p: nat, q: nat)
    requires Dying(s, p) && q < |s.pt|
    ensures PcbOk(Died(s, p), q)
  {
    var s' := Died(s, p);
    DyingFacts(s, p);
    assert PcbOk(s, q) && PcbOk(s, p) && ListOk(s, p) && PcbOk(s, INIT_PID);
    var b := s.pt[q];
    if q in s.pt[p].children {
      assert Child(s, p, q);
      DieChildren(s, p, INIT_PID);
    } else if b.state != FREE && q >= 2 {
      DieChildren(s, p, b.parent);
    }
    if q in s.free { assert q != p && q != INIT_PID && q != s.pt[p].parent; }
  }

  lemma DieTable(s: Procs, p: nat)
    requires Dying(s, p)
    ensures Table(Died(s, p)) && Tree(Died(s, p))
  {
    var s' := Died(s, p);
    forall q | 0 <= q < |s.pt| ensures PcbOk(s', q) { DiePcb(s, p, q); }
    forall q | 0 <= q < |s.pt| ensures ListOk(s', q) { DieExited(s, p, q); }
    var rank :| Ranked(s, rank);
    forall q | 2 <= q < |s'.pt| && s'.pt[q].state != FREE && 0 <= s'.pt[q].parent < |s'.pt|
      ensures rank[s'.pt[q].parent] < rank[q]
    {
      assert rank[s.pt[q].parent] < rank[q] by { assert PcbOk(s, q); }
    }
    assert Ranked(s', rank);
  }

  lemma DieFree(s: Procs, p: nat)
    requires Dying(s, p) && FreeOk(s)
    ensures FreeOk(Died(s, p))
  {
    var s' := Died(s, p);
    DyingFacts(s, p);
    forall i | 0 <= i < |s.free| ensures LinkOk(s', i) {
      var q := s.free[i];
      assert q in s.free && LinkOk(s, i) && PcbOk(s, q) && PcbOk(s, p);
      assert q != p && q !in s.pt[p].children;
    }
  }

  lemma DieWaits(s: Procs, p: nat)
    requires Inv(s) && Dying(s, p)
    ensures WaitsOk(Die(s, p))
  {
    var s', d := Die(s, p), Died(s, p);
    DyingFacts(s, p);
    assert s'.pt == d.pt && s'.live == s.live && s'.waiting.Keys == s.waiting.Keys;
    forall u | u in s'.waiting ensures WaitOk(s', u) {
      assert WaitOk(s, u);
      LiveProcess(s, u);
      var w, o := s.waiting[u], s.live[u];
      assert o != p;
      assert ListOk(s, p) && ListOk(s, o);
      if w.child != NOPROC {
        assert w.child !in s.pt[p].children;
        assert Child(s', o, w.child);
      } else {
        DieChildren(s, p, o);
        if s.pt[o].children != [] { assert s.pt[o].children[0] in s.pt[o].children; }
      }
    }
    KeepPeace(s, s');
  }

  lemma DieInv(s: Procs, p: nat)
    requires Inv(s) && Dying(s, p)
    ensures Inv(Die(s, p))
  {
    var s', d := Die(s, p), Died(s, p);
    DieTable(s, p);
    DieFree(s, p);
    DieWaits(s, p);
    assert s'.pt == d.pt && s'.free == s.free && s'.head == s.head && s'.count == s.count && s'.live == s.live;
    assert Table(s') by {
      forall q | 0 <= q < |s'.pt| ensures PcbOk(s', q) { assert PcbOk(d, q); }
      forall q | 0 <= q < |s'.pt| ensures ListOk(s', q) { assert ListOk(d, q); ChildAlike(d, s', q); }
    }
    forall i | 0 <= i < |s'.free| ensures LinkOk(s', i) { assert LinkOk(d, i); }
    assert Tree(s') by { var rank :| Ranked(d, rank); assert Ranked(s', rank); }
    forall q | 0 <= q < |s'.pt| ensures CountOk(s', q) {
      assert CountOk(s, q) && ThreadsOf(s', q) == ThreadsOf(s, q);
    }
  }

  lemma ChildAlike(s: Procs, s': Procs, p: nat)
    requires s'.pt == s.pt && p < |s.pt| && ListOk(s, p)
    ensures ListOk(s', p)
  {
    forall c | c in s'.pt[p].children ensures Child(s', p, c) { assert Child(s, p, c); }
  }

  lemma GoneInv(s: Procs, t: ThreadId)
    requires Inv(s) && t in s.live && t !in s.waiting && Pid(s, s.live[t])
    ensures Inv(Gone(s, t))
    ensures Gone(s, t).pt[s.live[t]].threads == 0 ==>
              forall u :: u in s.waiting ==> u in s.live && s.live[u] != s.live[t]
  {
    var s', p := Gone(s, t), s.live[t];
    InvPids(s, t);
    KeepTable(s, s', p);
    KeepWaits(s, s', p);
    forall q | 0 <= q < |s'.pt| ensures CountOk(s', q) {
      assert CountOk(s, q);
      assert ThreadsOf(s, q) == ThreadsOf(s', q) + if q == p then {t} else {};
      assert t !in ThreadsOf(s', q);
    }
    assert CountOk(s', p);
    forall u | u in s.waiting ensures u in s.live && (s.live[u] == p ==> u in ThreadsOf(s', p)) { assert WaitOk(s, u); }
  }

  lemma ThreadExitInv(s: Procs, t: ThreadId)
    requires Inv(s) && t in s.live && t !in s.waiting && Pid(s, s.live[t]) && NoAbort(s, t)
    ensures Inv(ThreadExit(s, t))
  {
    var p, s1 := s.live[t], Gone(s, t);
    GoneInv(s, t);
    InvPids(s, t);
    if s1.pt[p].threads == 0 {
      if p != INIT_PID {
        assert PcbOk(s1, p);
        DieInv(s1, p);
      } else {
        InitEnds(s1);
      }
    }
  }

  lemma NoExitedChild(s: Procs, p: nat)
    requires p < |s.pt| && ListOk(s, p)
    ensures s.pt[p].exited == [] || s.pt[p].exited[0] in s.pt[p].children
  {
    if s.pt[p].exited != [] { assert s.pt[p].exited[0] in s.pt[p].exited; }
  }

  // Init becomes a zombie when it has no children and no threads.
  lemma InitEnds(s: Procs)
    requires Inv(s) && s.pt[INIT_PID].children == [] && s.pt[INIT_PID].threads == 0
    ensures Inv(Put(s, INIT_PID, s.pt[INIT_PID].(state := ZOMBIE)))
  {
    var s' := Put(s, INIT_PID, s.pt[INIT_PID].(state := ZOMBIE));
    assert PcbOk(s, INIT_PID) && ListOk(s, INIT_PID);
    NoExitedChild(s, INIT_PID);
    var rank :| Ranked(s, rank);
    assert Ranked(s', rank);
    forall q | 0 <= q < |s'.pt| ensures PcbOk(s', q) { assert PcbOk(s, q); }
    forall q | 0 <= q < |s'.pt| ensures ListOk(s', q) {
      assert ListOk(s, q);
      forall c | c in s'.pt[q].children ensures Child(s', q, c) { assert Child(s, q, c); }
    }
    forall i | 0 <= i < |s.free| ensures LinkOk(s', i) {
      assert LinkOk(s, i) && s.free[i] in s.free && PcbOk(s, s.free[i]);
    }
    forall q | 0 <= q < |s'.pt| ensures CountOk(s', q) {
      assert CountOk(s, q) && ThreadsOf(s', q) == ThreadsOf(s, q);
    }
    forall u | u in s'.waiting ensures WaitOk(s', u) { assert WaitOk(s, u); }
    KeepPeace(s, s');
  }

  // ------------------------------------------------------------------
  // WaitChild and Exit
  // ------------------------------------------------------------------

  lemma AwakeInv(s: Procs, t: ThreadId)
    requires Inv(s)
    ensures Inv(Awake(s, t))
  {
    var s' := Awake(s, t);
    forall q | 0 <= q < |s'.pt| ensures PcbOk(s', q) { assert PcbOk(s, q); }
    forall q | 0 <= q < |s'.pt| ensures ListOk(s', q) { assert ListOk(s, q); ChildAlike(s, s', q); }
    forall i | 0 <= i < |s'.free| ensures LinkOk(s', i) { assert LinkOk(s, i); }
    var rank :| Ranked(s, rank);
    assert Ranked(s', rank);
    forall q | 0 <= q < |s'.pt| ensures CountOk(s', q) {
      assert CountOk(s, q) && ThreadsOf(s', q) == ThreadsOf(s, q);
    }
    forall u | u in s'.waiting ensures WaitOk(s', u) {
      assert WaitOk(s, u);
      if s.waiting[u].child != NOPROC { assert Child(s', s.live[u], s.waiting[u].child); }
    }
    KeepPeace(s, s');
  }

  function Blocked(s: Procs, t: ThreadId, w: Wait): Procs { s.(waiting := s.waiting[t := w]) }

  // Thread t starts to wait, or waits again.
  lemma BlockInv(s: Procs, t: ThreadId, w: Wait)
    requires Inv(s) && t in s.live && Alone(s, t, w.child)
    requires WaitOk(Blocked(s, t, w), t)
    ensures Inv(Blocked(s, t, w))
  {
    var s' := Blocked(s, t, w);
    forall q | 0 <= q < |s'.pt| ensures PcbOk(s', q) { assert PcbOk(s, q); }
    forall q | 0 <= q < |s'.pt| ensures ListOk(s', q) { assert ListOk(s, q); ChildAlike(s, s', q); }
    forall i | 0 <= i < |s'.free| ensures LinkOk(s', i) { assert LinkOk(s, i); }
    var rank :| Ranked(s, rank);
    assert Ranked(s', rank);
    forall q | 0 <= q < |s'.pt| ensures CountOk(s', q) {
      assert CountOk(s, q) && ThreadsOf(s', q) == ThreadsOf(s, q);
    }
    forall u | u in s'.waiting ensures WaitOk(s', u) {
      if u != t {
        assert WaitOk(s, u);
        if s.waiting[u].child != NOPROC { assert Child(s', s.live[u], s.waiting[u].child); }
      }
    }
    forall u, v | u in s'.waiting && v in s'.waiting ensures Peaceful(s', u, v) {
      if u != t && v != t {
        assert Peaceful(s, u, v);
      }
    }
  }

  // Nobody else waits for a child that thread t may reap.
  lemma AloneReap(s: Procs, t: ThreadId, cpid: int, c: nat)
    requires Inv(s) && t in s.live && t !in s.waiting && Alone(s, t, cpid) && (cpid == NOPROC || cpid == c)
    requires Child(s, s.live[t], c)
    ensures forall u :: u in s.waiting ==> s.waiting[u].child != c
  {
    forall u | u in s.waiting ensures s.waiting[u].child != c { assert WaitOk(s, u); }
  }

  lemma LoopSpecificInv(s: Procs, t: ThreadId, c: nat)
    requires Inv(s) && t in s.live && Child(s, s.live[t], c) && Alone(s, t, c)
    ensures Inv(LoopSpecific(s, t, c))
  {
    InvPids(s, t);
    if s.pt[c].state == ALIVE {
      var w := Wait(c, false, false);
      assert Child(Blocked(s, t, w), s.live[t], c);
      BlockInv(s, t, w);
    } else {
      AwakeInv(s, t);
      assert Child(Awake(s, t), s.live[t], c);
      AloneReap(Awake(s, t), t, c, c);
      CleanupInv(Awake(s, t), t, c);
    }
  }

  lemma LoopAnyInv(s: Procs, t: ThreadId, leaving: bool)
    requires Inv(s) && t in s.live && Alone(s, t, NOPROC) && (leaving ==> s.live[t] == INIT_PID)
    requires Pid(s, s.live[t]) && (s.pt[s.live[t]].exited != [] ==> Pid(s, s.pt[s.live[t]].exited[0]))
    ensures Inv(LoopAny(s, t, leaving))
  {
    var p, s1 := s.live[t], Awake(s, t);
    var b := s.pt[p];
    AwakeInv(s, t);
    InvPids(s, t);
    if b.children == [] {
      if leaving { ThreadExitInv(s1, t); }
    } else if b.exited == [] {
      BlockInv(s, t, Wait(NOPROC, false, leaving));
    } else {
      var c := b.exited[0];
      assert ListOk(s1, p) && c in b.exited && c in b.children;
      assert Child(s1, p, c);
      AloneReap(s1, t, NOPROC, c);
      CleanupInv(s1, t, c);
      var s2 := Cleanup(s1, c);
      assert s2.live == s1.live && s2.waiting == s1.waiting && |s2.pt| == |s1.pt|;
      if leaving { BlockInv(s2, t, Wait(NOPROC, true, true)); }
    }
  }

  lemma AloneInPeace(s: Procs, t: ThreadId)
    requires WaitsOk(s) && t in s.waiting
    ensures Alone(s, t, s.waiting[t].child)
  {
    forall u | u in s.waiting && u != t && u in s.live && t in s.live && s.live[u] == s.live[t]
      ensures !Clash(s.waiting[u].child, s.waiting[t].child)
    {
      assert Peaceful(s, u, t);
    }
  }

  // Every step keeps the invariant.
  lemma StepInv(s: Procs, step: Step)
    requires Inv(s) && Enabled(s, step)
    ensures Inv(Apply(s, step))
  {
    var t := step.t;
    InvPids(s, t);
    var p := s.live[t];
    match step
    case DoExec(_, hasTask, u) => ExecInv(s, p, hasTask, u);
    case DoCreateThread(_, u) => AddThreadInv(s, p, u);
    case DoThreadExit(_) => ThreadExitInv(s, t);
    case DoExit(_, v) =>
      SetExitInv(s, p, v);
      var s1 := SetExit(s, p, v);
      if p == INIT_PID {
        LoopAnyInv(s1, t, true);
      } else {
        ThreadExitInv(s1, t);
      }
    case DoWaitChild(_, cpid) =>
      if cpid == NOPROC {
        LoopAnyInv(s, t, false);
      } else if Legal(s, t, cpid) {
        assert Child(s, p, cpid) by { assert PcbOk(s, cpid); }
        LoopSpecificInv(s, t, cpid);
      }
    case DoResume(_) =>
      AloneInPeace(s, t);
      assert WaitOk(s, t);
      if s.waiting[t].child == NOPROC {
        LoopAnyInv(s, t, s.waiting[t].leaving);
      } else {
        LoopSpecificInv(s, t, s.waiting[t].child);
      }
  }
}
