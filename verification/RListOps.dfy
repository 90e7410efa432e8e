// The list operations of util.h, in place on the nodes, each proved against the
// sequence it should produce. `h` is the set of all nodes in the heap; a list
// is a sentinel node and the sequence of nodes after it.
module RListOps {
  import opened RList

  ghost function Snap(h: set<RlNode>): Links
    reads h
  {
    Links(map n | n in h :: n.next, map n | n in h :: n.prev)
  }

  // Pointers of nodes outside s are the same in both.
  ghost predicate Elsewhere(l: Links, m: Links, s: seq<RlNode>) {
    && m.next.Keys == l.next.Keys && m.prev.Keys == l.prev.Keys
    && (forall n :: n in l.next && n in l.prev && n !in s
          ==> m.next[n] == l.next[n] && m.prev[n] == l.prev[n])
  }

  // ------------------------------------------------------------------
  // Lemmas: what one splice does to lists
  // ------------------------------------------------------------------

  lemma RingPrev(l: Links, r: seq<RlNode>, i: nat)
    requires WellFormed(l) && IsRing(l, r) && i < |r|
    ensures r[i] in l.prev && l.prev[r[i]] == if i == 0 then r[|r| - 1] else r[i - 1]
    ensures l.next[r[i]] in r
  {
    var k := if i == 0 then |r| - 1 else i - 1;
    assert Follows(l, r, k) && Follows(l, r, i);
    assert Inverse(l, r[k]);
  }

  lemma SpliceElsewhere(l: Links, a: RlNode, b: RlNode, s: seq<RlNode>)
    requires WellFormed(l) && a in l.next && b in l.next
    requires a in s && b in s && l.next[a] in s && l.next[b] in s
    ensures Elsewhere(l, Spliced(l, a, b), s)
  {
    SpliceKeepsInverse(l, a, b);
  }

  lemma ElsewhereRing(l: Links, m: Links, s: seq<RlNode>, r: seq<RlNode>)
    requires WellFormed(l) && Elsewhere(l, m, s) && IsRing(l, r) && Disjoint(r, s)
    ensures IsRing(m, r)
  {
    forall i | 0 <= i < |r| ensures Follows(m, r, i) {
      assert Follows(l, r, i) && Inverse(l, r[i]);
      assert r[i] !in s;
    }
  }

  // Splicing the last node p of one ring with the first node n of another.
  lemma JoinAfter(l: Links, front: seq<RlNode>, p: RlNode, n: RlNode, y: seq<RlNode>)
    requires WellFormed(l) && IsRing(l, front + [p]) && IsRing(l, [n] + y) && Disjoint(front + [p], [n] + y)
    ensures p in l.next && n in l.next
    ensures IsRing(Spliced(l, p, n), front + [p] + y + [n])
    ensures Elsewhere(l, Spliced(l, p, n), front + [p] + [n] + y)
  {
    var r, q := front + [p], [n] + y;
    assert Follows(l, r, |front|) && Follows(l, q, 0);
    RingPrev(l, r, |front|);
    RingPrev(l, q, 0);
    Rotate(l, front, [p]);
    assert Disjoint([p] + front, q) by { assert forall k :: k in [p] + front ==> k in r; }
    SpliceJoins(l, p, front, n, y);
    var m := Spliced(l, p, n);
    assert [p] + y + [n] + front == ([p] + y + [n]) + front;
    Rotate(m, [p] + y + [n], front);
    assert front + ([p] + y + [n]) == front + [p] + y + [n];
    SpliceElsewhere(l, p, n, front + [p] + [n] + y);
  }

  // splice(list->prev, n) with [list, x...] and [n, y...] gives [list, x..., y..., n].
  lemma PushBackSpec(l: Links, list: RlNode, x: seq<RlNode>, n: RlNode, y: seq<RlNode>)
    requires WellFormed(l) && IsList(l, list, x) && IsList(l, n, y) && Disjoint([list] + x, [n] + y)
    ensures list in l.prev && l.prev[list] in l.next && n in l.next
    ensures IsList(Spliced(l, l.prev[list], n), list, x + y + [n])
    ensures Elsewhere(l, Spliced(l, l.prev[list], n), [list] + x + [n] + y)
  {
    var r := [list] + x;
    var front, p := r[..|x|], r[|x|];
    assert r == front + [p];
    RingPrev(l, r, 0);
    JoinAfter(l, front, p, n, y);
    assert front + [p] + y + [n] == [list] + (x + y + [n]) by { Unfold(list, x, front, p, y, n); }
  }

  lemma Unfold(list: RlNode, x: seq<RlNode>, front: seq<RlNode>, p: RlNode, y: seq<RlNode>, n: RlNode)
    requires [list] + x == front + [p]
    ensures front + [p] + y + [n] == [list] + (x + y + [n])
  {
    assert [list] + (x + y + [n]) == [list] + x + y + [n];
  }

  // splice(list, n) with [list, x...] and [n, y...] gives [list, y..., n, x...].
  lemma PushFrontSpec(l: Links, list: RlNode, x: seq<RlNode>, n: RlNode, y: seq<RlNode>)
    requires WellFormed(l) && IsList(l, list, x) && IsList(l, n, y) && Disjoint([list] + x, [n] + y)
    ensures list in l.next && n in l.next
    ensures IsList(Spliced(l, list, n), list, y + [n] + x)
    ensures Elsewhere(l, Spliced(l, list, n), [list] + x + [n] + y)
  {
    var r, q := [list] + x, [n] + y;
    assert Follows(l, r, 0) && Follows(l, q, 0);
    SpliceJoins(l, list, x, n, y);
    assert [list] + y + [n] + x == [list] + (y + [n] + x);
    RingPrev(l, r, 0);
    RingPrev(l, q, 0);
    SpliceElsewhere(l, list, n, [list] + x + [n] + y);
  }

  // splice(n, n->prev) takes n out of its ring {x..., n, y...}, and has no effect
  // on a node that is alone.
  lemma RemoveSpec(l: Links, x: seq<RlNode>, n: RlNode, y: seq<RlNode>)
    requires WellFormed(l) && IsRing(l, x + [n] + y)
    ensures n in l.next && n in l.prev && l.prev[n] in l.next
    ensures IsRing(Spliced(l, n, l.prev[n]), [n])
    ensures if x + y == [] then Spliced(l, n, l.prev[n]) == l else IsRing(Spliced(l, n, l.prev[n]), x + y)
    ensures Elsewhere(l, Spliced(l, n, l.prev[n]), x + [n] + y)
  {
    if x != [] {
      RemoveFromRing(l, x, n, y);
    } else if y != [] {
      assert [] + [n] + y == [n] + y && [] + y == y;
      Rotate(l, [n], y);
      assert y + [n] + [] == y + [n] && y + [] == y;
      RemoveFromRing(l, y, n, []);
    } else {
      assert [] + [n] + [] == [n];
      RingPrev(l, [n], 0);
      assert Inverse(l, n);
      SpliceKeepsInverse(l, n, n);
      assert Spliced(l, n, n).next == l.next && Spliced(l, n, n).prev == l.prev;
    }
  }

  // The nodes of a list with n in it, and without it.
  lemma ListParts(list: RlNode, x: seq<RlNode>, n: RlNode, y: seq<RlNode>)
    ensures [list] + (x + [n] + y) == ([list] + x) + [n] + y
    ensures [list] + (x + y) == ([list] + x) + y
  {
  }

  lemma RemoveFromRing(l: Links, x: seq<RlNode>, n: RlNode, y: seq<RlNode>)
    requires WellFormed(l) && IsRing(l, x + [n] + y) && x != []
    ensures n in l.next && n in l.prev && l.prev[n] in l.next
    ensures IsRing(Spliced(l, n, l.prev[n]), x + y)
    ensures IsRing(Spliced(l, n, l.prev[n]), [n])
    ensures Elsewhere(l, Spliced(l, n, l.prev[n]), x + [n] + y)
  {
    var r, k := x + [n] + y, |x|;
    var front, p := x[..k - 1], x[k - 1];
    assert x == front + [p];
    assert r[k] == n && r[k - 1] == p;
    RingPrev(l, r, k);
    RingPrev(l, r, k - 1);
    assert Follows(l, r, k) && Follows(l, r, k - 1);
    assert r == x + ([n] + y);
    Rotate(l, x, [n] + y);
    assert ([n] + y) + x == [n] + (y + front) + [p] + [];
    SpliceSplits(l, n, y + front, p, []);
    var m := Spliced(l, n, p);
    assert [n] + [] == [n] && [p] + (y + front) == ([p] + y) + front;
    Rotate(m, [p] + y, front);
    assert front + ([p] + y) == x + y;
    SpliceElsewhere(l, n, p, r);
  }

  // ------------------------------------------------------------------
  // The primitive and the one-splice operations
  // ------------------------------------------------------------------

  // The pointwise effect of the two swaps is the spliced heap.
  lemma SnapAfterSplice(h: set<RlNode>, l: Links, a: RlNode, b: RlNode)
    requires WellFormed(l) && l.next.Keys == h && a in h && b in h
    requires forall n :: n in h ==> n.next == if n == a then l.next[b] else if n == b then l.next[a] else l.next[n]
    requires forall n :: n in h && n in l.prev ==>
               n.prev == if n == l.next[a] then b else if n == l.next[b] then a else l.prev[n]
    ensures Snap(h) == Spliced(l, a, b)
  {
    assert Inverse(l, a) && Inverse(l, b);
    assert Snap(h).next == Spliced(l, a, b).next;
    assert Snap(h).prev == Spliced(l, a, b).prev;
  }

  // The heap is closed under next and prev.
  lemma Neighbours(h: set<RlNode>, n: RlNode)
    requires WellFormed(Snap(h)) && n in h
    ensures n.next in h && n.prev in h && n.prev.next == n && n.next.prev == n
  {
    assert Inverse(Snap(h), n);
  }

  method RlSplice(a: RlNode, b: RlNode, ghost h: set<RlNode>) returns (r: RlNode)
    requires WellFormed(Snap(h)) && a in h && b in h
    modifies a`next, b`next, a.next`prev, b.next`prev
    ensures r == b
    ensures Snap(h) == Spliced(old(Snap(h)), a, b)
    ensures WellFormed(Snap(h))
  {
    ghost var l := Snap(h);
    assert Inverse(l, a) && Inverse(l, b);
    SpliceKeepsInverse(l, a, b);
    var an, bn := a.next, b.next;
    assert l.next[a] == an && l.next[b] == bn && l.prev[an] == a && l.prev[bn] == b;
    an.prev, bn.prev := bn.prev, an.prev;
    a.next, b.next := b.next, a.next;
    SnapAfterSplice(h, l, a, b);
    r := b;
  }

  method RlistRemove(a: RlNode, ghost h: set<RlNode>, ghost x: seq<RlNode>, ghost y: seq<RlNode>) returns (r: RlNode)
    requires WellFormed(Snap(h)) && a in h && IsRing(Snap(h), x + [a] + y)
    modifies h`next, h`prev
    ensures r == a && WellFormed(Snap(h)) && IsRing(Snap(h), [a])
    ensures if x + y == [] then Snap(h) == old(Snap(h)) else IsRing(Snap(h), x + y)
    ensures Elsewhere(old(Snap(h)), Snap(h), x + [a] + y)
  {
    RemoveSpec(Snap(h), x, a, y);
    Neighbours(h, a);
    var b := RlSplice(a, a.prev, h);
    r := a;
  }

  method RlistPushBack(list: RlNode, node: RlNode, ghost h: set<RlNode>, ghost x: seq<RlNode>, ghost y: seq<RlNode>)
    requires WellFormed(Snap(h)) && list in h && node in h
    requires IsList(Snap(h), list, x) && IsList(Snap(h), node, y) && Disjoint([list] + x, [node] + y)
    modifies h`next, h`prev
    ensures WellFormed(Snap(h)) && IsList(Snap(h), list, x + y + [node])
    ensures Elsewhere(old(Snap(h)), Snap(h), [list] + x + [node] + y)
  {
    PushBackSpec(Snap(h), list, x, node, y);
    Neighbours(h, list);
    Neighbours(h, node);
    var b := RlSplice(list.prev, node, h);
  }

  method RlistPushFront(list: RlNode, node: RlNode, ghost h: set<RlNode>, ghost x: seq<RlNode>, ghost y: seq<RlNode>)
    requires WellFormed(Snap(h)) && list in h && node in h
    requires IsList(Snap(h), list, x) && IsList(Snap(h), node, y) && Disjoint([list] + x, [node] + y)
    modifies h`next, h`prev
    ensures WellFormed(Snap(h)) && IsList(Snap(h), list, y + [node] + x)
    ensures Elsewhere(old(Snap(h)), Snap(h), [list] + x + [node] + y)
  {
    PushFrontSpec(Snap(h), list, x, node, y);
    Neighbours(h, list);
    Neighbours(h, node);
    var b := RlSplice(list, node, h);
  }

  // On an empty list the sentinel itself is returned and nothing changes.
  method RlistPopFront(list: RlNode, ghost h: set<RlNode>, ghost x: seq<RlNode>) returns (r: RlNode)
    requires WellFormed(Snap(h)) && list in h && IsList(Snap(h), list, x)
    modifies h`next, h`prev
    ensures WellFormed(Snap(h))
    ensures x == [] ==> r == list && Snap(h) == old(Snap(h))
    ensures x != [] ==> r == x[0] && IsList(Snap(h), list, x[1..]) && IsList(Snap(h), r, [])
    ensures Elsewhere(old(Snap(h)), Snap(h), [list] + x)
  {
    ghost var l := Snap(h);
    ghost var q := [list] + x;
    assert Inverse(l, list) && Follows(l, q, 0);
    RingPrev(l, q, 0);
    if x != [] {
      assert q == [list] + [] + [x[0]] + x[1..];
      RingPrev(l, q, 1);
      SpliceSplits(l, list, [], x[0], x[1..]);
      assert [x[0]] + [] == [x[0]];
      SpliceElsewhere(l, list, x[0], q);
    }
    Neighbours(h, list);
    Neighbours(h, list.next);
    r := RlSplice(list, list.next, h);
    if x == [] { assert Snap(h).next == l.next && Snap(h).prev == l.prev; }
  }

  // rlist_pop_back is documented to remove the tail. It splices the sentinel
  // with the tail, and that leaves the list empty and the tail in a ring with
  // all the other nodes.
  method RlistPopBack(list: RlNode, ghost h: set<RlNode>, ghost x: seq<RlNode>) returns (r: RlNode)
    requires WellFormed(Snap(h)) && list in h && IsList(Snap(h), list, x)
    modifies h`next, h`prev
    ensures WellFormed(Snap(h)) && list in old(Snap(h)).prev
    ensures old(Snap(h)).prev[list] in old(Snap(h)).next
    ensures Snap(h) == Spliced(old(Snap(h)), list, old(Snap(h)).prev[list])
    ensures x == [] ==> r == list && Snap(h) == old(Snap(h))
    ensures x != [] ==> r == x[|x| - 1] && IsList(Snap(h), list, []) && IsList(Snap(h), r, x[..|x| - 1])
  {
    ghost var l := Snap(h);
    assert Inverse(l, list);
    if x == [] { assert l.prev[list] == list by { RingPrev(l, [list] + x, 0); } } else { PopBackSpec(l, list, x); }
    Neighbours(h, list);
    Neighbours(h, list.prev);
    r := RlSplice(list, list.prev, h);
    if x == [] { assert Snap(h).next == l.next && Snap(h).prev == l.prev; }
  }

  lemma PopBackSpec(l: Links, list: RlNode, x: seq<RlNode>)
    requires WellFormed(l) && IsList(l, list, x) && x != []
    ensures list in l.next && list in l.prev && l.prev[list] == x[|x| - 1] && x[|x| - 1] in l.next
    ensures IsList(Spliced(l, list, x[|x| - 1]), list, [])
    ensures IsList(Spliced(l, list, x[|x| - 1]), x[|x| - 1], x[..|x| - 1])
  {
    var q, n := [list] + x, |x| - 1;
    assert q == [list] + x[..n] + [x[n]] + [];
    RingPrev(l, q, 0);
    RingPrev(l, q, n + 1);
    assert Follows(l, q, 0) && Follows(l, q, n + 1);
    SpliceSplits(l, list, x[..n], x[n], []);
    assert [list] + [] == [list];
  }

  // The documented effect of pop_back holds exactly for lists of one node.
  lemma PopBackRemovesTailIff(l: Links, list: RlNode, x: seq<RlNode>)
    requires WellFormed(l) && IsList(l, list, x) && x != []
    requires list in l.next && x[|x| - 1] in l.next
    ensures IsList(Spliced(l, list, x[|x| - 1]), list, x[..|x| - 1]) <==> |x| == 1
  {
    PopBackSpec(l, list, x);
    var m := Spliced(l, list, x[|x| - 1]);
    if IsList(m, list, x[..|x| - 1]) {
      RingIsUnique(m, [list] + [], [list] + x[..|x| - 1]);
      assert |[list] + []| == 1;
    }
  }

  // The list {u, v}.
  function TwoNodes(list: RlNode, u: RlNode, v: RlNode): Links {
    Links(map[list := u, u := v, v := list], map[list := v, u := list, v := u])
  }

  lemma TwoNodesList(list: RlNode, u: RlNode, v: RlNode)
    requires list != u && list != v && u != v
    ensures WellFormed(TwoNodes(list, u, v)) && IsList(TwoNodes(list, u, v), list, [u, v])
  {
    var l := TwoNodes(list, u, v);
    forall n | n in l.next ensures Inverse(l, n) {}
    assert [list] + [u, v] == [list, u, v];
    assert IsRing(l, [list, u, v]);
  }

  // On a list of two nodes pop_back loses the first one.
  lemma PopBackCounterexample(list: RlNode, u: RlNode, v: RlNode)
    requires list != u && list != v && u != v
    ensures var l := TwoNodes(list, u, v);
            && WellFormed(l) && IsList(l, list, [u, v])
            && IsList(Spliced(l, list, l.prev[list]), list, [])
            && IsRing(Spliced(l, list, l.prev[list]), [v, u])
  {
    TwoNodesList(list, u, v);
    PopBackSpec(TwoNodes(list, u, v), list, [u, v]);
    assert [u, v][..1] == [u] && [v] + [u] == [v, u];
  }
}
