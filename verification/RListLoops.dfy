// The compound list operations of util.h. The loops rewrite the links they
// walk along; their invariants say which part of the list is already done.
module RListLoops {
  import opened Lists
  import opened RList
  import opened RListOps

  lemma ElsewhereTrans(l: Links, m: Links, o: Links, s: seq<RlNode>, t: seq<RlNode>, u: seq<RlNode>)
    requires Elsewhere(l, m, s) && Elsewhere(m, o, t)
    requires (forall n :: n in s ==> n in u) && (forall n :: n in t ==> n in u)
    ensures Elsewhere(l, o, u)
  {
  }

  //   [ldest, x...] [lsrc, y...]  ==>  [ldest, x..., y...]  [lsrc]
  method RlistAppend(ldest: RlNode, lsrc: RlNode, ghost h: set<RlNode>, ghost x: seq<RlNode>, ghost y: seq<RlNode>)
    requires WellFormed(Snap(h)) && ldest in h && lsrc in h
    requires IsList(Snap(h), ldest, x) && IsList(Snap(h), lsrc, y) && Disjoint([ldest] + x, [lsrc] + y)
    modifies h`next, h`prev
    ensures WellFormed(Snap(h))
    ensures IsList(Snap(h), ldest, x + y) && IsList(Snap(h), lsrc, [])
    ensures Elsewhere(old(Snap(h)), Snap(h), [ldest] + x + [lsrc] + y)
  {
    RlistPushBack(ldest, lsrc, h, x, y);
    assert x + y + [lsrc] == (x + y) + [lsrc] + [];
    ListParts(ldest, x + y, lsrc, []);
    var r := RlistRemove(lsrc, h, [ldest] + (x + y), []);
    assert (x + y) + [] == x + y && [lsrc] + [] == [lsrc];
  }

  //   [ldest, x...] [lsrc, y...]  ==>  [ldest, y..., x...]  [lsrc]
  method RlistPrepend(ldest: RlNode, lsrc: RlNode, ghost h: set<RlNode>, ghost x: seq<RlNode>, ghost y: seq<RlNode>)
    requires WellFormed(Snap(h)) && ldest in h && lsrc in h
    requires IsList(Snap(h), ldest, x) && IsList(Snap(h), lsrc, y) && Disjoint([ldest] + x, [lsrc] + y)
    modifies h`next, h`prev
    ensures WellFormed(Snap(h))
    ensures IsList(Snap(h), ldest, y + x) && IsList(Snap(h), lsrc, [])
    ensures Elsewhere(old(Snap(h)), Snap(h), [ldest] + x + [lsrc] + y)
  {
    RlistPushFront(ldest, lsrc, h, x, y);
    ListParts(ldest, y, lsrc, x);
    var r := RlistRemove(lsrc, h, [ldest] + y, x);
    assert [lsrc] + [] == [lsrc];
  }

  // ------------------------------------------------------------------
  // rlist_select: a stable partition
  // ------------------------------------------------------------------

  // The nodes of s on which p gives `keep`, in order.
  ghost function Filter(s: seq<RlNode>, p: RlNode -> bool, keep: bool): seq<RlNode> {
    if s == [] then []
    else Filter(s[..|s| - 1], p, keep) + if p(s[|s| - 1]) == keep then [s[|s| - 1]] else []
  }

  lemma {:induction false} FilterMembers(s: seq<RlNode>, p: RlNode -> bool, keep: bool)
    ensures forall n :: n in Filter(s, p, keep) ==> n in s && p(n) == keep
    ensures forall n :: n in s && p(n) == keep ==> n in Filter(s, p, keep)
    ensures Distinct(s) ==> Distinct(Filter(s, p, keep))
  {
    if s == [] {
    } else {
      FilterMembers(s[..|s| - 1], p, keep);
      assert s == s[..|s| - 1] + [s[|s| - 1]];
    }
  }

  // Both halves together have the nodes of s, each as often as in s.
  lemma {:induction false} FilterIsPartition(s: seq<RlNode>, p: RlNode -> bool)
    ensures multiset(Filter(s, p, true)) + multiset(Filter(s, p, false)) == multiset(s)
  {
    if s == [] {
    } else {
      var t, x := s[..|s| - 1], s[|s| - 1];
      FilterIsPartition(t, p);
      assert s == t + [x];
      OneMore(Filter(t, p, true), Filter(t, p, false), x);
    }
  }

  lemma OneMore(q: seq<RlNode>, r: seq<RlNode>, x: RlNode)
    ensures multiset(q + [x]) + multiset(r) == multiset(q) + multiset(r) + multiset([x])
    ensures multiset(q) + multiset(r + [x]) == multiset(q) + multiset(r) + multiset([x])
    ensures q + [] == q && r + [] == r
  {
  }

  lemma FilterStep(s: seq<RlNode>, p: RlNode -> bool, keep: bool, k: nat)
    requires k < |s|
    ensures p(s[k]) == keep ==> Filter(s[..k + 1], p, keep) == Filter(s[..k], p, keep) + [s[k]]
    ensures p(s[k]) != keep ==> Filter(s[..k + 1], p, keep) == Filter(s[..k], p, keep)
  {
    assert s[..k + 1][..k] == s[..k];
  }

  // Take n out of [lsrc, a..., n, b...] and put it at the end of [ldest, c...].
  method MoveNode(n: RlNode, ghost lsrc: RlNode, ldest: RlNode, ghost h: set<RlNode>,
                  ghost a: seq<RlNode>, ghost b: seq<RlNode>, ghost c: seq<RlNode>)
    requires WellFormed(Snap(h)) && n in h && ldest in h
    requires IsList(Snap(h), lsrc, a + [n] + b) && IsList(Snap(h), ldest, c)
    requires Disjoint([lsrc] + a + [n] + b, [ldest] + c)
    modifies h`next, h`prev
    ensures WellFormed(Snap(h))
    ensures IsList(Snap(h), lsrc, a + b) && IsList(Snap(h), ldest, c + [n])
    ensures Elsewhere(old(Snap(h)), Snap(h), [lsrc] + a + [n] + b + [ldest] + c)
  {
    ghost var l := Snap(h);
    ghost var src := [lsrc] + a + [n] + b;
    NotTwice(l, lsrc, a, n, b);
    ListParts(lsrc, a, n, b);
    var p := RlistRemove(n, h, [lsrc] + a, b);
    ghost var m := Snap(h);
    ElsewhereRing(l, m, src, [ldest] + c);
    assert n in src && [n] + [] == [n];
    RlistPushBack(ldest, p, h, c, []);
    assert c + [] + [p] == c + [n];
    assert Disjoint([lsrc] + (a + b), [ldest] + c + [p] + []) by {
      forall k | k in [lsrc] + (a + b) ensures k !in [ldest] + c + [p] + [] { assert k in src; }
    }
    ElsewhereRing(m, Snap(h), [ldest] + c + [p] + [], [lsrc] + (a + b));
    ElsewhereTrans(l, m, Snap(h), src, [ldest] + c + [p] + [], src + ([ldest] + c));
    assert src + ([ldest] + c) == [lsrc] + a + [n] + b + [ldest] + c;
  }

  lemma NotTwice(l: Links, list: RlNode, a: seq<RlNode>, n: RlNode, b: seq<RlNode>)
    requires IsList(l, list, a + [n] + b)
    ensures n !in [list] + (a + b)
  {
    var r := [list] + (a + [n] + b);
    assert r[|a| + 1] == n;
    forall i | 0 <= i < |[list] + (a + b)|
      ensures ([list] + (a + b))[i] == r[if i <= |a| then i else i + 1] {}
  }

  ghost function LastOf(list: RlNode, s: seq<RlNode>): RlNode {
    if s == [] then list else s[|s| - 1]
  }

  // In the list {a..., b...} the node before b[0] points to it.
  lemma NextAt(l: Links, list: RlNode, a: seq<RlNode>, b: seq<RlNode>)
    requires IsList(l, list, a + b)
    ensures LastOf(list, a) in l.next
    ensures l.next[LastOf(list, a)] == if b == [] then list else b[0]
  {
    var r := [list] + (a + b);
    assert r == [list] + a + b;
    assert Follows(l, r, |a|);
  }

  // After k nodes: kept has the rejected ones, taken ends with the selected ones.
  ghost predicate SelectInv(l: Links, cur: Links, lsrc: RlNode, ldest: RlNode, x: seq<RlNode>, y: seq<RlNode>,
                            pred: RlNode -> bool, k: nat, kept: seq<RlNode>, taken: seq<RlNode>, i: RlNode)
  {
    && k <= |x|
    && kept == Filter(x[..k], pred, false) && taken == y + Filter(x[..k], pred, true)
    && IsList(cur, lsrc, kept + x[k..]) && IsList(cur, ldest, taken)
    && i == LastOf(lsrc, kept) && i in cur.next && cur.next[i] == (if k < |x| then x[k] else lsrc)
    && Elsewhere(l, cur, [lsrc] + x + [ldest] + y)
  }

  lemma SelectStart(l: Links, lsrc: RlNode, ldest: RlNode, x: seq<RlNode>, y: seq<RlNode>, pred: RlNode -> bool)
    requires IsList(l, lsrc, x) && IsList(l, ldest, y) && l.next.Keys == l.prev.Keys
    ensures SelectInv(l, l, lsrc, ldest, x, y, pred, 0, [], y, lsrc)
  {
    assert x[0..] == x && [] + x == x && y == y + [];
    NextAt(l, lsrc, [], x);
  }

  // What MoveNode needs to know when it takes the node after i.
  lemma SelectMoves(l: Links, cur: Links, lsrc: RlNode, ldest: RlNode, x: seq<RlNode>, y: seq<RlNode>,
                    pred: RlNode -> bool, k: nat, kept: seq<RlNode>, taken: seq<RlNode>, i: RlNode)
    requires SelectInv(l, cur, lsrc, ldest, x, y, pred, k, kept, taken, i) && k < |x|
    requires Disjoint([lsrc] + x, [ldest] + y) && Distinct([lsrc] + x)
    ensures x[k] in cur.next && IsList(cur, lsrc, kept + [x[k]] + x[k + 1..])
    ensures Disjoint([lsrc] + kept + [x[k]] + x[k + 1..], [ldest] + taken)
  {
    var r, q := [lsrc] + (kept + x[k..]), [lsrc] + x;
    FilterMembers(x[..k], pred, true);
    FilterMembers(x[..k], pred, false);
    assert kept + x[k..] == kept + [x[k]] + x[k + 1..];
    assert Follows(cur, r, |kept| + 1) && r[|kept| + 1] == x[k];
    forall n | n in [lsrc] + kept + [x[k]] + x[k + 1..] ensures n !in [ldest] + taken {
      assert n in q;
      if n in Filter(x[..k], pred, true) {
        var j :| 0 <= j < k && x[j] == n;
        assert q[j + 1] == n && q[0] == lsrc && q[k + 1] == x[k];
        forall j' | k < j' < |x| ensures x[j'] != n { assert q[j' + 1] == x[j']; }
      }
    }
  }

  lemma SelectTakes(l: Links, cur: Links, m: Links, lsrc: RlNode, ldest: RlNode, x: seq<RlNode>, y: seq<RlNode>,
                    pred: RlNode -> bool, k: nat, kept: seq<RlNode>, taken: seq<RlNode>, i: RlNode)
    requires SelectInv(l, cur, lsrc, ldest, x, y, pred, k, kept, taken, i) && k < |x| && pred(x[k])
    requires IsList(m, lsrc, kept + x[k + 1..]) && IsList(m, ldest, taken + [x[k]])
    requires Elsewhere(cur, m, [lsrc] + kept + [x[k]] + x[k + 1..] + [ldest] + taken)
    ensures SelectInv(l, m, lsrc, ldest, x, y, pred, k + 1, kept, taken + [x[k]], i)
  {
    FilterStep(x, pred, true, k);
    FilterStep(x, pred, false, k);
    assert taken + [x[k]] == y + (Filter(x[..k], pred, true) + [x[k]]);
    NextAt(m, lsrc, kept, x[k + 1..]);
    FilterMembers(x[..k], pred, true);
    FilterMembers(x[..k], pred, false);
    ElsewhereTrans(l, cur, m, [lsrc] + x + [ldest] + y, [lsrc] + kept + [x[k]] + x[k + 1..] + [ldest] + taken,
                   [lsrc] + x + [ldest] + y);
  }

  lemma SelectKeeps(l: Links, cur: Links, lsrc: RlNode, ldest: RlNode, x: seq<RlNode>, y: seq<RlNode>,
                    pred: RlNode -> bool, k: nat, kept: seq<RlNode>, taken: seq<RlNode>, i: RlNode)
    requires SelectInv(l, cur, lsrc, ldest, x, y, pred, k, kept, taken, i) && k < |x| && !pred(x[k])
    ensures SelectInv(l, cur, lsrc, ldest, x, y, pred, k + 1, kept + [x[k]], taken, x[k])
  {
    FilterStep(x, pred, true, k);
    FilterStep(x, pred, false, k);
    assert kept + x[k..] == (kept + [x[k]]) + x[k + 1..];
    NextAt(cur, lsrc, kept + [x[k]], x[k + 1..]);
  }

  lemma SelectEnds(l: Links, cur: Links, lsrc: RlNode, ldest: RlNode, x: seq<RlNode>, y: seq<RlNode>,
                   pred: RlNode -> bool, k: nat, kept: seq<RlNode>, taken: seq<RlNode>, i: RlNode)
    requires SelectInv(l, cur, lsrc, ldest, x, y, pred, k, kept, taken, i) && Distinct([lsrc] + x)
    ensures k < |x| <==> cur.next[i] != lsrc
    ensures k == |x| ==> IsList(cur, lsrc, Filter(x, pred, false)) && IsList(cur, ldest, y + Filter(x, pred, true))
  {
    var q := [lsrc] + x;
    if k < |x| {
      assert q[0] == lsrc && q[k + 1] == x[k];
    } else {
      assert x[..k] == x && kept + x[k..] == kept;
    }
  }

  method RlistSelect(lsrc: RlNode, ldest: RlNode, pred: RlNode -> bool,
                     ghost h: set<RlNode>, ghost x: seq<RlNode>, ghost y: seq<RlNode>)
    requires WellFormed(Snap(h)) && lsrc in h && ldest in h
    requires IsList(Snap(h), lsrc, x) && IsList(Snap(h), ldest, y) && Disjoint([lsrc] + x, [ldest] + y)
    modifies h`next, h`prev
    ensures WellFormed(Snap(h))
    ensures IsList(Snap(h), lsrc, Filter(x, pred, false))
    ensures IsList(Snap(h), ldest, y + Filter(x, pred, true))
    ensures Elsewhere(old(Snap(h)), Snap(h), [lsrc] + x + [ldest] + y)
  {
    ghost var l, k, kept, taken := Snap(h), 0, [], y;
    var i := lsrc;
    SelectStart(l, lsrc, ldest, x, y, pred);
    SelectEnds(l, l, lsrc, ldest, x, y, pred, k, kept, taken, i);
    while i.next != lsrc
      invariant i in h && WellFormed(Snap(h))
      invariant SelectInv(l, Snap(h), lsrc, ldest, x, y, pred, k, kept, taken, i)
      invariant k < |x| <==> i.next != lsrc
      decreases |x| - k
    {
      ghost var cur := Snap(h);
      SelectMoves(l, cur, lsrc, ldest, x, y, pred, k, kept, taken, i);
      if pred(i.next) {
        MoveNode(i.next, lsrc, ldest, h, kept, x[k + 1..], taken);
        SelectTakes(l, cur, Snap(h), lsrc, ldest, x, y, pred, k, kept, taken, i);
        taken := taken + [x[k]];
      } else {
        SelectKeeps(l, cur, lsrc, ldest, x, y, pred, k, kept, taken, i);
        i, kept := i.next, kept + [x[k]];
      }
      k := k + 1;
      SelectEnds(l, Snap(h), lsrc, ldest, x, y, pred, k, kept, taken, i);
    }
    SelectEnds(l, Snap(h), lsrc, ldest, x, y, pred, k, kept, taken, i);
  }

  // ------------------------------------------------------------------
  // rlist_reverse
  // ------------------------------------------------------------------

  ghost predicate TurnedAt(l: Links, m: Links, s: seq<RlNode>, n: RlNode) {
    && n in l.next && n in l.prev && n in m.next && n in m.prev
    && m.next[n] == (if n in s then l.prev[n] else l.next[n])
    && m.prev[n] == (if n in s then l.next[n] else l.prev[n])
  }

  // The links of the nodes in s turned around.
  ghost predicate Turned(l: Links, m: Links, s: seq<RlNode>) {
    && l.next.Keys == l.prev.Keys == m.next.Keys == m.prev.Keys
    && (forall n {:trigger TurnedAt(l, m, s, n)} :: n in l.next ==> TurnedAt(l, m, s, n))
  }

  // Turning every node of one ring keeps the heap well formed.
  lemma TurnedInverse(l: Links, m: Links, r: seq<RlNode>)
    requires WellFormed(l) && IsRing(l, r) && Turned(l, m, r)
    ensures WellFormed(m)
  {
    forall n | n in m.next ensures Inverse(m, n) {
      assert Inverse(l, n);
      var a, b := l.next[n], l.prev[n];
      assert Inverse(l, a) && Inverse(l, b);
      assert TurnedAt(l, m, r, n) && TurnedAt(l, m, r, a) && TurnedAt(l, m, r, b);
      if n in r {
        var i :| 0 <= i < |r| && r[i] == n;
        RingPrev(l, r, i);
      } else {
        OffRing(l, r, n);
      }
    }
  }

  lemma TurnedRing(l: Links, m: Links, list: RlNode, x: seq<RlNode>)
    requires WellFormed(l) && IsList(l, list, x) && Turned(l, m, [list] + x)
    ensures IsList(m, list, Reversed(x)) && Elsewhere(l, m, [list] + x)
  {
    var r, q := [list] + x, [list] + Reversed(x);
    forall i | 0 <= i < |q| ensures q[i] == r[if i == 0 then 0 else |r| - i] {
      if i > 0 { ReversedAt(x, i - 1); }
    }
    forall i | 0 <= i < |q| ensures Follows(m, q, i) {
      var k := if i == 0 then 0 else |r| - i;
      RingPrev(l, r, k);
      assert Follows(l, r, k) && r[k] in r && TurnedAt(l, m, r, r[k]);
    }
    forall n | n in l.next && n !in r ensures m.next[n] == l.next[n] && m.prev[n] == l.prev[n] {
      assert TurnedAt(l, m, r, n);
    }
  }

  // The neighbours of a node outside a ring are outside it.
  lemma OffRing(l: Links, r: seq<RlNode>, n: RlNode)
    requires WellFormed(l) && IsRing(l, r) && n in l.next && n in l.prev && n !in r
    ensures l.next[n] !in r && l.prev[n] !in r
  {
    assert Inverse(l, n);
    forall i | 0 <= i < |r| ensures l.next[n] != r[i] && l.prev[n] != r[i] {
      RingPrev(l, r, i);
      assert Inverse(l, r[i]);
    }
  }

  ghost predicate SameNodes(s: seq<RlNode>, t: seq<RlNode>) {
    (forall n :: n in s ==> n in t) && (forall n :: n in t ==> n in s)
  }

  lemma TurnedStep(l: Links, m: Links, o: Links, s: seq<RlNode>, t: seq<RlNode>, n: RlNode)
    requires Turned(l, m, s) && n !in s && n in l.next && n in m.next && n in m.prev
    requires SameNodes(t, s + [n])
    requires o.next == m.next[n := m.prev[n]] && o.prev == m.prev[n := m.next[n]]
    ensures Turned(l, o, t)
  {
    forall k | k in l.next ensures TurnedAt(l, o, t, k) {
      assert TurnedAt(l, m, s, k);
      assert k in t <==> k in s + [n];
    }
  }

  // The nodes turned after k rounds: the sentinel and the last k - 1 others.
  ghost function Done(r: seq<RlNode>, k: nat): seq<RlNode>
    requires 1 <= k <= |r|
  {
    [r[0]] + r[|r| - k + 1..]
  }

  method RlistReverse(l: RlNode, ghost h: set<RlNode>, ghost x: seq<RlNode>)
    requires WellFormed(Snap(h)) && l in h && IsList(Snap(h), l, x)
    modifies h`next, h`prev
    ensures WellFormed(Snap(h)) && IsList(Snap(h), l, Reversed(x))
    ensures Elsewhere(old(Snap(h)), Snap(h), [l] + x)
  {
    ghost var before, r, k := Snap(h), [l] + x, 1;
    RingPrev(before, r, 0);
    var p := Turn(l, h, before, [], Done(r, 1));
    while p != l
      invariant 1 <= k <= |r| && p == r[if k < |r| then |r| - k else 0]
      invariant Turned(before, Snap(h), Done(r, k))
      decreases |r| - k
    {
      ghost var i := |r| - k;
      RingPrev(before, r, i);
      DoneStep(r, k);
      p := Turn(p, h, before, Done(r, k), Done(r, k + 1));
      k := k + 1;
    }
    assert Done(r, k) == r;
    TurnedInverse(before, Snap(h), r);
    TurnedRing(before, Snap(h), l, x);
  }

  lemma DoneStep(r: seq<RlNode>, k: nat)
    requires 1 <= k < |r| && Distinct(r)
    ensures r[|r| - k] !in Done(r, k)
    ensures SameNodes(Done(r, k + 1), Done(r, k) + [r[|r| - k]])
  {
    assert r[|r| - k..] == [r[|r| - k]] + r[|r| - k + 1..];
  }

  lemma SnapAfterTurn(h: set<RlNode>, m: Links, p: RlNode)
    requires m.next.Keys == m.prev.Keys == h && p in h
    requires forall n :: n in h && n in m.next && n in m.prev ==> n.next == if n == p then m.prev[p] else m.next[n]
    requires forall n :: n in h && n in m.next && n in m.prev ==> n.prev == if n == p then m.next[p] else m.prev[n]
    ensures Snap(h).next == m.next[p := m.prev[p]] && Snap(h).prev == m.prev[p := m.next[p]]
  {
  }

  // One round of the loop: swap the two pointers of p and step along the new next.
  method Turn(p: RlNode, ghost h: set<RlNode>, ghost l: Links, ghost s: seq<RlNode>, ghost t: seq<RlNode>)
      returns (q: RlNode)
    requires WellFormed(l) && p in h && p !in s && Turned(l, Snap(h), s) && p in l.prev
    requires SameNodes(t, s + [p])
    modifies p`next, p`prev
    ensures Turned(l, Snap(h), t) && q == l.prev[p]
  {
    ghost var m := Snap(h);
    assert m.next.Keys == m.prev.Keys == h;
    assert TurnedAt(l, m, s, p);
    p.prev, p.next := p.next, p.prev;
    SnapAfterTurn(h, m, p);
    TurnedStep(l, m, Snap(h), s, t, p);
    q := p.next;
  }

  // ------------------------------------------------------------------
  // Read-only loops
  // ------------------------------------------------------------------

  method RlistLen(list: RlNode, ghost h: set<RlNode>, ghost x: seq<RlNode>) returns (count: nat)
    requires WellFormed(Snap(h)) && list in h && IsList(Snap(h), list, x)
    ensures count == |x|
  {
    ghost var r := [list] + x;
    count := 0;
    assert Follows(Snap(h), r, 0);
    var p := list.next;
    while p != list
      invariant count <= |x| && p == r[if count < |x| then count + 1 else 0]
      decreases |x| - count
    {
      assert Follows(Snap(h), r, count + 1);
      p := p.next;
      count := count + 1;
    }
  }

  // The first node of the list whose key is `key`, and `fail` when there is none.
  method RlistFind(list: RlNode, key: int, fail: RlNode?, ghost h: set<RlNode>, ghost x: seq<RlNode>)
      returns (r: RlNode?)
    requires WellFormed(Snap(h)) && list in h && IsList(Snap(h), list, x)
    ensures (forall j :: 0 <= j < |x| ==> x[j].obj != key) ==> r == fail
    ensures forall j :: 0 <= j < |x| && x[j].obj == key && (forall k :: 0 <= k < j ==> x[k].obj != key) ==> r == x[j]
  {
    ghost var ring, k := [list] + x, 0;
    assert Follows(Snap(h), ring, 0);
    var i := list.next;
    while i != list
      invariant k <= |x| && i == ring[if k < |x| then k + 1 else 0]
      invariant forall j :: 0 <= j < k ==> x[j].obj != key
      decreases |x| - k
    {
      assert Follows(Snap(h), ring, k + 1) && i == x[k];
      if i.obj == key { return i; }
      i := i.next;
      k := k + 1;
    }
    r := fail;
  }

  ghost function Keys(s: seq<RlNode>): seq<int>
    reads s
  {
    seq(|s|, i requires 0 <= i < |s| reads s => s[i].obj)
  }

  method RlistEqual(l1: RlNode, l2: RlNode, ghost h: set<RlNode>, ghost x: seq<RlNode>, ghost y: seq<RlNode>)
      returns (eq: bool)
    requires WellFormed(Snap(h)) && l1 in h && l2 in h && IsList(Snap(h), l1, x) && IsList(Snap(h), l2, y)
    ensures eq <==> Keys(x) == Keys(y)
  {
    ghost var p, q, k := [l1] + x, [l2] + y, 0;
    assert Follows(Snap(h), p, 0) && Follows(Snap(h), q, 0);
    var i1, i2 := l1.next, l2.next;
    while i1 != l1
      invariant k <= |x| && k <= |y|
      invariant i1 == p[if k < |x| then k + 1 else 0] && i2 == q[if k < |y| then k + 1 else 0]
      invariant forall j :: 0 <= j < k ==> x[j].obj == y[j].obj
      decreases |x| - k
    {
      assert k < |y| ==> q[0] != q[k + 1] && i2 == y[k];
      if i2 == l2 || i1.obj != i2.obj {
        assert k < |y| ==> Keys(x)[k] != Keys(y)[k];
        return false;
      }
      assert Follows(Snap(h), p, k + 1) && Follows(Snap(h), q, k + 1);
      i1, i2 := i1.next, i2.next;
      k := k + 1;
    }
    assert k < |y| ==> q[0] != q[k + 1];
    eq := i2 == l2;
  }
}
