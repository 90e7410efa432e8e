// The waiters of a condition variable as the ring of nodes it is (kernel_cc.c):
// a ring without a sentinel, and a pointer to its first node.
module WaitRing {
  import opened Lists
  import opened RList
  import opened RListOps
  import opened Sched
  import opened SchedNodes

  class WaitSet {
    var waitset: RlNode?  // & cv->waitset->node

    constructor ()
      ensures waitset == null
    {
      waitset := null;
    }

    // The waiters are q, in this order; node[t] is & waiter.node of thread t.
    ghost predicate Holds(node: map<Tid, RlNode>, h: set<RlNode>, q: seq<Tid>)
      reads this, h
    {
      && WellFormed(Snap(h)) && OwnNodes(node) && (forall t :: t in node ==> node[t] in h)
      && (forall t :: t in q ==> t in node)
      && if q == [] then waitset == null
         else waitset == Nodes(node, q)[0] && IsRing(Snap(h), Nodes(node, q))
    }

    // cv_wait, lines 127-134: a new waiter, whose node is alone, goes to the end.
    method Push(t: Tid, node: map<Tid, RlNode>, ghost h: set<RlNode>, ghost q: seq<Tid>)
      requires Holds(node, h, q) && t in node && t !in q && IsRing(Snap(h), [node[t]])
      modifies this, h`next, h`prev
      ensures Holds(node, h, q + [t])
      ensures Elsewhere(old(Snap(h)), Snap(h), Nodes(node, q) + [node[t]])
    {
      NodeOf(node, q, t);
      NodesConcat(node, q, [t]);
      assert Nodes(node, [t]) == [node[t]] && [] + [node[t]] == [node[t]];
      if waitset != null {
        ghost var x := Nodes(node, q);
        assert x == [x[0]] + x[1..] && [node[t]] + [] == [node[t]];
        RlistPushBack(waitset, node[t], h, x[1..], []);
        assert [x[0]] + (x[1..] + [] + [node[t]]) == x + [node[t]];
        assert [x[0]] + x[1..] + [node[t]] + [] == x + [node[t]];
      } else {
        waitset := node[t];
      }
    }

    // remove_from_ring
    method RemoveFromRing(t: Tid, node: map<Tid, RlNode>, ghost h: set<RlNode>, ghost q: seq<Tid>)
      requires Holds(node, h, q) && t in q
      modifies this, h`next, h`prev
      ensures Holds(node, h, Without(q, t)) && IsRing(Snap(h), [node[t]])
      ensures Elsewhere(old(Snap(h)), Snap(h), Nodes(node, q))
    {
      DistinctWaiters(Snap(h), node, q);
      ghost var x, y := AroundNode(node, q, t);
      ghost var r := Nodes(node, q);
      assert r[|x|] == node[t];
      assert Follows(Snap(h), r, |x|);
      WithoutSpec(q, t);
      if waitset == node[t] {
        assert x == [];
        var next := node[t].next;
        waitset := if next == node[t] then null else next;
      }
      var n := RlistRemove(node[t], h, x, y);
    }
  }

  lemma DistinctWaiters(l: Links, node: map<Tid, RlNode>, q: seq<Tid>)
    requires (forall t :: t in q ==> t in node) && IsRing(l, Nodes(node, q))
    ensures Distinct(q)
  {
    var r := Nodes(node, q);
    forall i, j | 0 <= i < j < |q| ensures q[i] != q[j] { assert r[i] != r[j]; }
  }
}
