// SCHED and TIMEOUT_LIST as the rings of nodes they are (kernel_sched.c). Both
// are threaded through the one sched_node of every TCB.
module SchedNodes {
  import opened Lists
  import opened RList
  import opened RListOps
  import opened Sched
  import opened SchedInv

  ghost function Nodes(node: map<Tid, RlNode>, q: seq<Tid>): seq<RlNode>
    requires forall t :: t in q ==> t in node
  {
    seq(|q|, i requires 0 <= i < |q| => assert q[i] in q; node[q[i]])
  }

  lemma NodesConcat(node: map<Tid, RlNode>, q: seq<Tid>, r: seq<Tid>)
    requires (forall t :: t in q ==> t in node) && forall t :: t in r ==> t in node
    ensures forall t :: t in q + r ==> t in node
    ensures Nodes(node, q + r) == Nodes(node, q) + Nodes(node, r)
  {
  }

  // Every thread has its own node.
  ghost predicate OwnNodes(node: map<Tid, RlNode>) {
    forall t, u :: t in node && u in node && t != u ==> node[t] != node[u]
  }

  lemma NodeOf(node: map<Tid, RlNode>, q: seq<Tid>, t: Tid)
    requires OwnNodes(node) && t in node && forall u :: u in q ==> u in node
    ensures node[t] in Nodes(node, q) <==> t in q
  {
    if t in q {
      var i :| 0 <= i < |q| && q[i] == t;
      assert Nodes(node, q)[i] == node[t];
    }
    if node[t] in Nodes(node, q) {
      var i :| 0 <= i < |q| && Nodes(node, q)[i] == node[t];
      assert q[i] in q;
    }
  }

  // rl_splice(n->prev, k) puts the single node k before n, which is the first of
  // y, or the sentinel if y is empty.
  lemma InsertBefore(l: Links, list: RlNode, x: seq<RlNode>, y: seq<RlNode>, k: RlNode)
    requires WellFormed(l) && IsList(l, list, x + y) && IsRing(l, [k]) && k !in [list] + (x + y)
    ensures var n := if y == [] then list else y[0];
      && n in l.prev && l.prev[n] in l.next && k in l.next
      && IsList(Spliced(l, l.prev[n], k), list, x + [k] + y)
      && Elsewhere(l, Spliced(l, l.prev[n], k), [list] + (x + y) + [k])
  {
    if y == [] {
      assert [k] + [] == [k] && x + y == x && x + [] + [k] == x + [k] + y;
      PushBackSpec(l, list, x, k, []);
      SameElsewhere(l, Spliced(l, l.prev[list], k), [list] + x + [k] + [], [list] + (x + y) + [k]);
    } else {
      var a := [list] + x;
      var front, p := a[..|x|], a[|x|];
      assert a == front + [p];
      BeforeParts(list, x, y, k, front, p);
      InsertInside(l, front, p, y, k);
      SameElsewhere(l, Spliced(l, p, k), front + [p] + y + [k], [list] + (x + y) + [k]);
    }
  }

  lemma BeforeParts(list: RlNode, x: seq<RlNode>, y: seq<RlNode>, k: RlNode, front: seq<RlNode>, p: RlNode)
    requires [list] + x == front + [p]
    ensures [list] + (x + y) == front + [p] + y && [list] + (x + [k] + y) == front + [p] + [k] + y
  {
    assert [list] + (x + y) == ([list] + x) + y;
    assert [list] + (x + [k] + y) == ([list] + x) + [k] + y;
  }

  // The same between two nodes p and y[0] of any ring.
  lemma InsertInside(l: Links, front: seq<RlNode>, p: RlNode, y: seq<RlNode>, k: RlNode)
    requires WellFormed(l) && y != [] && IsRing(l, front + [p] + y) && IsRing(l, [k]) && k !in front + [p] + y
    ensures y[0] in l.prev && l.prev[y[0]] == p && p in l.next && k in l.next
    ensures IsRing(Spliced(l, p, k), front + [p] + [k] + y)
    ensures Elsewhere(l, Spliced(l, p, k), front + [p] + y + [k])
  {
    var r := front + [p] + y;
    assert r[|front| + 1] == y[0] && r[|front|] == p;
    RingPrev(l, r, |front| + 1);
    Rotate(l, front + [p], y);
    assert y + (front + [p]) == (y + front) + [p] && [k] + [] == [k];
    JoinAfter(l, y + front, p, k, []);
    var m := Spliced(l, p, k);
    assert (y + front) + [p] + [] + [k] == y + (front + [p] + [k]);
    Rotate(m, y, front + [p] + [k]);
    SameElsewhere(l, m, (y + front) + [p] + [k] + [], front + [p] + y + [k]);
  }

  lemma SameElsewhere(l: Links, m: Links, s: seq<RlNode>, t: seq<RlNode>)
    requires Elsewhere(l, m, s) && forall n :: n in s ==> n in t
    ensures Elsewhere(l, m, t)
  {
  }

  // The sentinels of the two lists, and the node of every TCB.
  datatype Heads = Heads(SCHED: RlNode, TIMEOUT_LIST: RlNode, node: map<Tid, RlNode>)

  function Swapped(a: Heads): Heads { Heads(a.TIMEOUT_LIST, a.SCHED, a.node) }

  ghost predicate Shape(l: Links, a: Heads) {
    && WellFormed(l) && OwnNodes(a.node) && a.SCHED != a.TIMEOUT_LIST && a.SCHED in l.next && a.TIMEOUT_LIST in l.next
    && (forall t :: t in a.node ==> a.node[t] in l.next && a.node[t] != a.SCHED && a.node[t] != a.TIMEOUT_LIST)
  }

  ghost predicate Members(a: Heads, q: seq<Tid>, d: seq<Tid>) {
    && (forall t :: t in q ==> t in a.node && t !in d) && (forall t :: t in d ==> t in a.node)
  }

  // SCHED holds the threads q and TIMEOUT_LIST the threads d; all other nodes are
  // alone.
  ghost predicate Holds(l: Links, a: Heads, q: seq<Tid>, d: seq<Tid>) {
    && Shape(l, a) && Members(a, q, d)
    && IsList(l, a.SCHED, Nodes(a.node, q)) && IsList(l, a.TIMEOUT_LIST, Nodes(a.node, d))
    && (forall t :: t in a.node && t !in q && t !in d ==> IsRing(l, [a.node[t]]))
  }

  lemma Swap(l: Links, a: Heads, q: seq<Tid>, d: seq<Tid>)
    requires Holds(l, a, q, d)
    ensures Holds(l, Swapped(a), d, q)
  {
  }

  // An operation on SCHED that gives it the threads q', where t comes or goes.
  lemma Changed(l: Links, m: Links, a: Heads, q: seq<Tid>, q': seq<Tid>, d: seq<Tid>, t: Tid, s: seq<RlNode>)
    requires Holds(l, a, q, d) && WellFormed(m) && Elsewhere(l, m, s) && t in a.node && t !in d
    requires forall u {:trigger u in q} {:trigger u in q'} :: u != t ==> (u in q <==> u in q')
    requires forall n :: n in s ==> n == a.SCHED || n == a.node[t] || n in Nodes(a.node, q)
    requires IsList(m, a.SCHED, Nodes(a.node, q')) && (t !in q' ==> IsRing(m, [a.node[t]]))
    ensures Holds(m, a, q', d)
  {
    forall u | u in a.node && u !in q ensures u != t ==> a.node[u] !in s { NodeOf(a.node, q, u); }
    var r := [a.TIMEOUT_LIST] + Nodes(a.node, d);
    NotANode(a, q);
    forall i | 0 <= i < |r| ensures r[i] !in s { assert i > 0 ==> d[i - 1] in d; }
    ElsewhereRing(l, m, s, r);
    forall u | u in a.node && u !in q' && u !in d ensures IsRing(m, [a.node[u]]) {
      if u != t { ElsewhereRing(l, m, s, [a.node[u]]); }
    }
  }

  lemma NotANode(a: Heads, q: seq<Tid>)
    requires forall t :: t in a.node ==> a.node[t] != a.SCHED && a.node[t] != a.TIMEOUT_LIST
    requires forall t :: t in q ==> t in a.node
    ensures a.SCHED !in Nodes(a.node, q) && a.TIMEOUT_LIST !in Nodes(a.node, q)
  {
    forall i | 0 <= i < |q| ensures Nodes(a.node, q)[i] != a.SCHED && Nodes(a.node, q)[i] != a.TIMEOUT_LIST {
      assert q[i] in q;
    }
  }

  // sched_queue_add
  method SchedQueueAdd(a: Heads, t: Tid, ghost h: set<RlNode>, ghost q: seq<Tid>, ghost d: seq<Tid>)
    requires Holds(Snap(h), a, q, d) && t in a.node && t !in q && t !in d
    modifies h`next, h`prev
    ensures Holds(Snap(h), a, q + [t], d)
  {
    ghost var l, x, k := Snap(h), Nodes(a.node, q), a.node[t];
    NodeOf(a.node, q, t);
    NotANode(a, q);
    assert [k] + [] == [k];
    RlistPushBack(a.SCHED, a.node[t], h, x, []);
    assert Nodes(a.node, q + [t]) == x + [] + [k];
    Changed(l, Snap(h), a, q, q + [t], d, t, [a.SCHED] + x + [k] + []);
  }

  // rlist_remove of a node on SCHED, or with the lists swapped on TIMEOUT_LIST.
  method TakeOut(a: Heads, t: Tid, ghost h: set<RlNode>, ghost q: seq<Tid>, ghost d: seq<Tid>)
    requires Holds(Snap(h), a, q, d) && t in q
    modifies h`next, h`prev
    ensures Holds(Snap(h), a, Without(q, t), d)
  {
    ghost var l, k := Snap(h), a.node[t];
    DistinctThreads(l, a.SCHED, a.node, q);
    ghost var x, y := AroundNode(a.node, q, t);
    WithoutSpec(q, t);
    ListParts(a.SCHED, x, k, y);
    var r := RlistRemove(a.node[t], h, [a.SCHED] + x, y);
    Changed(l, Snap(h), a, q, Without(q, t), d, t, [a.SCHED] + x + [k] + y);
  }

  lemma OneMore(node: map<Tid, RlNode>, d: seq<Tid>, i: nat, t: Tid)
    requires i <= |d| && t in node && forall u :: u in d ==> u in node
    ensures var d' := d[..i] + [t] + d[i..];
      forall u {:trigger u in d} {:trigger u in d'} :: u in d' <==> u == t || u in d
    ensures Nodes(node, d) == Nodes(node, d[..i]) + Nodes(node, d[i..])
    ensures Nodes(node, d[..i] + [t] + d[i..]) == Nodes(node, d[..i]) + [node[t]] + Nodes(node, d[i..])
  {
    assert d == d[..i] + d[i..];
    NodesConcat(node, d[..i], d[i..]);
    NodesConcat(node, d[..i], [t]);
    NodesConcat(node, d[..i] + [t], d[i..]);
  }

  lemma OneLess(q: seq<Tid>, t: Tid, i: nat)
    requires i < |q| && q[i] == t
    ensures var w := q[..i] + q[i + 1..];
      w[..i] == q[..i] && w[i..] == q[i + 1..] && q == w[..i] + [t] + w[i..]
  {
  }

  // The nodes before and after that of t.
  lemma AroundNode(node: map<Tid, RlNode>, q: seq<Tid>, t: Tid) returns (x: seq<RlNode>, y: seq<RlNode>)
    requires (forall u :: u in q ==> u in node) && Distinct(q) && t in q
    ensures Nodes(node, q) == x + [node[t]] + y
    ensures (forall u :: u in Without(q, t) ==> u in node) && Nodes(node, Without(q, t)) == x + y
  {
    var i :| 0 <= i < |q| && q[i] == t;
    WithoutSpec(q, t);
    WithoutAt(q, t, i);
    OneLess(q, t, i);
    OneMore(node, Without(q, t), i, t);
    x, y := Nodes(node, Without(q, t)[..i]), Nodes(node, Without(q, t)[i..]);
  }

  lemma DistinctThreads(l: Links, list: RlNode, node: map<Tid, RlNode>, q: seq<Tid>)
    requires (forall t :: t in q ==> t in node) && IsList(l, list, Nodes(node, q))
    ensures Distinct(q)
  {
    var r := [list] + Nodes(node, q);
    forall i, j | 0 <= i < j < |q| ensures q[i] != q[j] { assert r[i + 1] != r[j + 1]; }
  }

  // The list part of sched_make_ready. Its assertion on sched_node.next holds.
  method SchedMakeReady(a: Heads, t: Tid, b: TCB, ghost s: State, ghost h: set<RlNode>)
    requires Inv(s) && Stoppable(s, t) && b == s.tcb[t] && t in a.node
    requires Holds(Snap(h), a, s.sched, s.timeouts)
    modifies h`next, h`prev
    ensures Holds(Snap(h), a, MakeReady(s, t).sched, MakeReady(s, t).timeouts)
  {
    ghost var d := s.timeouts;
    assert ThreadOk(s, t);
    if b.wakeup_time != NO_TIMEOUT {
      Swap(Snap(h), a, s.sched, d);
      OnAList(Snap(h), a.TIMEOUT_LIST, a.node, d, t);
      assert a.node[t].next != a.node[t];
      WithoutSpec(d, t);
      TakeOut(Swapped(a), t, h, d, s.sched);
      d := Without(d, t);
      Swap(Snap(h), Swapped(a), d, s.sched);
    }
    if b.phase == CTX_CLEAN {
      SchedQueueAdd(a, t, h, s.sched, d);
    }
  }

  // A node on a list is not its own successor.
  lemma OnAList(l: Links, list: RlNode, node: map<Tid, RlNode>, q: seq<Tid>, t: Tid)
    requires (forall u :: u in q ==> u in node) && IsList(l, list, Nodes(node, q)) && t in q
    ensures node[t] in l.next && l.next[node[t]] != node[t]
  {
    var r := [list] + Nodes(node, q);
    var i :| 0 <= i < |q| && q[i] == t;
    assert r[i + 1] == node[t] && Follows(l, r, i + 1);
  }

  // The list part of sched_queue_select, rlist_pop_front of SCHED. Of an empty
  // list it gives the sentinel, whose tcb is NULL.
  method SchedQueuePop(a: Heads, ghost s: State, ghost c: nat, ghost h: set<RlNode>) returns (sel: RlNode)
    requires Holds(Snap(h), a, s.sched, s.timeouts) && c < |s.core| && s.core[c].current in s.tcb
    modifies h`next, h`prev
    ensures Holds(Snap(h), a, Switch(s, c).sched, s.timeouts)
    ensures sel == if s.sched == [] then a.SCHED else a.node[s.sched[0]]
  {
    ghost var l, q := Snap(h), s.sched;
    ghost var x := Nodes(a.node, q);
    sel := RlistPopFront(a.SCHED, h, x);
    if q != [] {
      DistinctThreads(l, a.SCHED, a.node, q);
      assert [sel] + [] == [sel] && q == [q[0]] + q[1..] && Nodes(a.node, q[1..]) == x[1..];
      Changed(l, Snap(h), a, q, q[1..], s.timeouts, q[0], [a.SCHED] + x);
    }
  }

  // sched_register_timeout, from "rlnode* n = TIMEOUT_LIST.next". `owner` gives
  // the thread of a node, and `time` the TCBs after wakeup_time has been set.
  method SchedRegisterTimeout(a: Heads, t: Tid, time: map<Tid, TCB>, owner: map<RlNode, Tid>,
                              ghost s: State, ghost timeout: nat, ghost now: nat, ghost h: set<RlNode>)
    requires Holds(Snap(h), a, s.sched, s.timeouts) && t in a.node && t !in s.sched && t !in s.timeouts
    requires t in s.tcb && (forall u :: u in s.timeouts ==> u in s.tcb && a.node[u] in owner && owner[a.node[u]] == u)
    requires timeout != NO_TIMEOUT && time == s.tcb[t := s.tcb[t].(wakeup_time := (now + timeout) % TIME_LIMIT)]
    modifies h`next, h`prev
    ensures Holds(Snap(h), a, s.sched, RegisterTimeout(s, t, timeout, now).timeouts)
  {
    ghost var d, i := s.timeouts, 0;
    ghost var r := [a.TIMEOUT_LIST] + Nodes(a.node, d);
    var w := time[t].wakeup_time;
    assert Follows(Snap(h), r, 0);
    var n := a.TIMEOUT_LIST.next;
    while n != a.TIMEOUT_LIST
      invariant 0 <= i <= |d| && n == r[if i < |d| then i + 1 else 0]
      invariant forall j :: 0 <= j < i ==> time[d[j]].wakeup_time <= w
      decreases |d| - i
    {
      assert r[i + 1] == a.node[d[i]] && d[i] in d && Follows(Snap(h), r, i + 1);
      if w < time[owner[n]].wakeup_time { break; }
      n := n.next;
      i := i + 1;
    }
    InsertPosition(d, time, t, w, i);
    Place(a, t, n, h, s.sched, d, i);
  }

  // "insert before n", the node of d[i], or the sentinel.
  method Place(a: Heads, t: Tid, n: RlNode, ghost h: set<RlNode>, ghost q: seq<Tid>, ghost d: seq<Tid>, ghost i: nat)
    requires Holds(Snap(h), a, q, d) && t in a.node && t !in q && t !in d && i <= |d|
    requires n == if i < |d| then (assert d[i] in d; a.node[d[i]]) else a.TIMEOUT_LIST
    modifies h`next, h`prev
    ensures Holds(Snap(h), a, q, d[..i] + [t] + d[i..])
  {
    PlaceSpec(Snap(h), a, t, n, q, d, i);
    Neighbours(h, n);
    Neighbours(h, n.prev);
    Neighbours(h, a.node[t]);
    var r := RlSplice(n.prev, a.node[t], h);
  }

  lemma PlaceSpec(l: Links, a: Heads, t: Tid, n: RlNode, q: seq<Tid>, d: seq<Tid>, i: nat)
    requires Holds(l, a, q, d) && t in a.node && t !in q && t !in d && i <= |d|
    requires n == if i < |d| then (assert d[i] in d; a.node[d[i]]) else a.TIMEOUT_LIST
    ensures n in l.prev && l.prev[n] in l.next && a.node[t] in l.next
    ensures Holds(Spliced(l, l.prev[n], a.node[t]), a, q, d[..i] + [t] + d[i..])
  {
    var k, x, y := a.node[t], Nodes(a.node, d[..i]), Nodes(a.node, d[i..]);
    OneMore(a.node, d, i, t);
    NodeOf(a.node, d, t);
    NotANode(a, d);
    InsertBefore(l, a.TIMEOUT_LIST, x, y, k);
    SpliceKeepsInverse(l, l.prev[n], k);
    Placed(l, Spliced(l, l.prev[n], k), a, t, q, d, i, x, y);
  }

  lemma Placed(l: Links, m: Links, a: Heads, t: Tid, q: seq<Tid>, d: seq<Tid>, i: nat, x: seq<RlNode>, y: seq<RlNode>)
    requires Holds(l, a, q, d) && WellFormed(m) && t in a.node && t !in q && t !in d && i <= |d|
    requires x == Nodes(a.node, d[..i]) && y == Nodes(a.node, d[i..])
    requires IsList(m, a.TIMEOUT_LIST, x + [a.node[t]] + y)
    requires Elsewhere(l, m, [a.TIMEOUT_LIST] + (x + y) + [a.node[t]])
    ensures Holds(m, a, q, d[..i] + [t] + d[i..])
  {
    var d' := d[..i] + [t] + d[i..];
    OneMore(a.node, d, i, t);
    Swap(l, a, q, d);
    Changed(l, m, Swapped(a), d, d', q, t, [a.TIMEOUT_LIST] + (x + y) + [a.node[t]]);
    Swap(m, Swapped(a), d', q);
  }
}
