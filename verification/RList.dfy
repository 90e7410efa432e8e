// Resource lists (util.h): circular, doubly linked, intrusive lists in which
// every operation is a call, or a loop of calls, of one primitive: rl_splice.
//
// The pointer structure of a set of nodes is described by a value of type
// Links; the laws of splicing are lemmas about Links, and the methods work in
// place on the nodes and are proved against them.
module RList {
  import opened Lists

  class RlNode {
    var prev: RlNode
    var next: RlNode
    var obj: int  // the key, a union of pointers and integers in the source

    constructor (obj: int)
      ensures this.prev == this && this.next == this && this.obj == obj
    {
      this.obj := obj;
      this.prev := this;
      this.next := this;
    }
  }

  datatype Links = Links(next: map<RlNode, RlNode>, prev: map<RlNode, RlNode>)

  ghost predicate Inverse(l: Links, n: RlNode) {
    && n in l.next && n in l.prev
    && l.next[n] in l.prev && l.prev[l.next[n]] == n
    && l.prev[n] in l.next && l.next[l.prev[n]] == n
  }

  // next and prev are mutually inverse on a closed set of nodes.
  ghost predicate WellFormed(l: Links) {
    && l.next.Keys == l.prev.Keys
    && (forall n {:trigger Inverse(l, n)} :: n in l.next ==> Inverse(l, n))
  }

  ghost predicate Disjoint(s: seq<RlNode>, t: seq<RlNode>) {
    forall n :: n in s ==> n !in t
  }

  ghost predicate Follows(l: Links, s: seq<RlNode>, i: int)
    requires 0 <= i < |s|
  {
    s[i] in l.next && l.next[s[i]] == if i + 1 < |s| then s[i + 1] else s[0]
  }

  // s is a ring: following next from s[0] visits s and returns to s[0].
  ghost predicate IsRing(l: Links, s: seq<RlNode>) {
    && s != [] && Distinct(s)
    && (forall i {:trigger Follows(l, s, i)} :: 0 <= i < |s| ==> Follows(l, s, i))
  }

  // The list {s[0], s[1], ...} with sentinel node `head`.
  ghost predicate IsList(l: Links, head: RlNode, s: seq<RlNode>) {
    IsRing(l, [head] + s)
  }

  // rl_splice, as the source states it: swap the prev pointers of the two
  // successors, then swap the two next pointers.
  ghost function Spliced(l: Links, a: RlNode, b: RlNode): Links
    requires WellFormed(l) && a in l.next && b in l.next
  {
    assert Inverse(l, a) && Inverse(l, b);
    var an, bn := l.next[a], l.next[b];
    Links(l.next[a := bn][b := an], l.prev[an := l.prev[bn]][bn := l.prev[an]])
  }

  // ------------------------------------------------------------------
  // The laws of splicing
  // ------------------------------------------------------------------

  lemma SpliceKeepsInverse(l: Links, a: RlNode, b: RlNode)
    requires WellFormed(l) && a in l.next && b in l.next
    ensures WellFormed(Spliced(l, a, b))
    ensures Spliced(l, a, b).next.Keys == l.next.Keys
  {
    var m := Spliced(l, a, b);
    assert Inverse(l, a) && Inverse(l, b);
    assert m.next.Keys == l.next.Keys && m.prev.Keys == l.prev.Keys;
    forall n | n in m.next ensures Inverse(m, n) {
      assert Inverse(l, n) && Inverse(l, l.next[n]) && Inverse(l, l.prev[n]);
    }
  }

  // Repeating a splice undoes it, whether or not a and b are equal or adjacent.
  lemma SpliceIsItsOwnInverse(l: Links, a: RlNode, b: RlNode)
    requires WellFormed(l) && a in l.next && b in l.next
    ensures WellFormed(Spliced(l, a, b))
    ensures a in Spliced(l, a, b).next && b in Spliced(l, a, b).next
    ensures Spliced(Spliced(l, a, b), a, b) == l
  {
    SpliceKeepsInverse(l, a, b);
    assert Inverse(l, a) && Inverse(l, b);
    var m := Spliced(Spliced(l, a, b), a, b);
    assert m.next == l.next;
    assert m.prev == l.prev;
  }

  //   [a, x...]  [b, y...]   ==>   [a, y..., b, x...]
  lemma SpliceJoins(l: Links, a: RlNode, x: seq<RlNode>, b: RlNode, y: seq<RlNode>)
    requires WellFormed(l) && IsRing(l, [a] + x) && IsRing(l, [b] + y)
    requires Disjoint([a] + x, [b] + y)
    requires a in l.next && b in l.next
    ensures IsRing(Spliced(l, a, b), [a] + y + [b] + x)
  {
    var m := Spliced(l, a, b);
    var p, q, r := [a] + x, [b] + y, [a] + y + [b] + x;
    assert Inverse(l, a) && Inverse(l, b) && Follows(l, p, 0) && Follows(l, q, 0);
    DistinctSplice(a, x, b, y);
    forall i | 0 <= i < |r| ensures Follows(m, r, i) {
      assert r[0] == a && r[|y| + 1] == b;
      if i == 0 || i == |y| + 1 {
      } else if i <= |y| {
        assert r[i] == q[i] && Follows(l, q, i);
      } else {
        assert r[i] == p[i - |y| - 1] && Follows(l, p, i - |y| - 1);
      }
    }
  }

  //   [a, x..., b, y...]   ==>   [a, y...]  [b, x...]
  lemma SpliceSplits(l: Links, a: RlNode, x: seq<RlNode>, b: RlNode, y: seq<RlNode>)
    requires WellFormed(l) && IsRing(l, [a] + x + [b] + y)
    requires a in l.next && b in l.next
    ensures IsRing(Spliced(l, a, b), [a] + y)
    ensures IsRing(Spliced(l, a, b), [b] + x)
    ensures Disjoint([a] + y, [b] + x)
  {
    var m := Spliced(l, a, b);
    var p, q, r := [a] + y, [b] + x, [a] + x + [b] + y;
    assert r[0] == a && r[|x| + 1] == b;
    assert Follows(l, r, 0) && Follows(l, r, |x| + 1);
    forall i | 0 <= i < |p| ensures p[i] == r[if i == 0 then 0 else |x| + 1 + i] {}
    forall i | 0 <= i < |q| ensures q[i] == r[if i == 0 then |x| + 1 else i] {}
    forall i | 0 <= i < |p| ensures Follows(m, p, i) {
      if i > 0 { assert Follows(l, r, |x| + 1 + i); }
    }
    forall i | 0 <= i < |q| ensures Follows(m, q, i) {
      if i > 0 { assert Follows(l, r, i); }
    }
  }

  lemma DistinctSplice(a: RlNode, x: seq<RlNode>, b: RlNode, y: seq<RlNode>)
    requires Distinct([a] + x) && Distinct([b] + y) && Disjoint([a] + x, [b] + y)
    ensures Distinct([a] + y + [b] + x)
  {
    var p, q, r := [a] + x, [b] + y, [a] + y + [b] + x;
    forall i | 0 <= i < |r|
      ensures r[i] == if i == 0 then p[0] else if i <= |y| then q[i] else if i == |y| + 1 then q[0] else p[i - |y| - 1]
    {}
    forall i | 0 <= i < |p| ensures p[i] !in q { assert p[i] in p; }
    forall i | 0 <= i < |q| ensures q[i] in q {}
  }

  // Rings that contain neither node are left alone.
  lemma SpliceFrame(l: Links, a: RlNode, b: RlNode, r: seq<RlNode>)
    requires WellFormed(l) && a in l.next && b in l.next
    requires IsRing(l, r) && a !in r && b !in r
    ensures IsRing(Spliced(l, a, b), r)
  {
    forall i | 0 <= i < |r| ensures Follows(Spliced(l, a, b), r, i) {
      assert Follows(l, r, i);
    }
  }

  lemma Rotate(l: Links, x: seq<RlNode>, y: seq<RlNode>)
    requires IsRing(l, x + y)
    ensures IsRing(l, y + x)
  {
    var r, t := x + y, y + x;
    forall i | 0 <= i < |t| ensures t[i] == r[if i < |y| then |x| + i else i - |y|] {}
    forall i | 0 <= i < |t| ensures Follows(l, t, i) {
      assert Follows(l, r, if i < |y| then |x| + i else i - |y|);
    }
  }

  // ------------------------------------------------------------------
  // A well-formed heap is a disjoint union of rings
  // ------------------------------------------------------------------

  ghost predicate IsPath(l: Links, s: seq<RlNode>) {
    && s != [] && Distinct(s) && s[|s| - 1] in l.next
    && (forall i {:trigger Follows(l, s, i)} :: 0 <= i < |s| - 1 ==> Follows(l, s, i))
  }

  lemma {:induction false} DistinctBound(s: seq<RlNode>, k: set<RlNode>)
    requires Distinct(s) && (forall i :: 0 <= i < |s| ==> s[i] in k)
    ensures |s| <= |k|
  {
    if s == [] {
    } else {
      var n := |s| - 1;
      DistinctBound(s[..n], k - {s[n]});
    }
  }

  // Following next from any path closes a ring that begins with the path.
  lemma {:induction false} CloseRing(l: Links, s: seq<RlNode>) returns (r: seq<RlNode>)
    requires WellFormed(l) && IsPath(l, s)
    ensures IsRing(l, r) && s <= r
    decreases |l.next| - |s|
  {
    PathBound(l, s);
    var last := s[|s| - 1];
    assert Inverse(l, last);
    if l.next[last] == s[0] {
      assert Follows(l, s, |s| - 1);
      r := s;
    } else {
      var t := s + [l.next[last]];
      forall i | 0 <= i < |s| ensures s[i] != l.next[last] {
        if 0 < i { assert Follows(l, s, i - 1) && Inverse(l, s[i - 1]); }
      }
      forall i | 0 <= i < |t| - 1 ensures Follows(l, t, i) {
        if i < |s| - 1 { assert Follows(l, s, i); }
      }
      assert Inverse(l, l.next[last]) by { assert l.next[last] in l.prev; }
      PathBound(l, t);
      r := CloseRing(l, t);
    }
  }

  lemma PathBound(l: Links, s: seq<RlNode>)
    requires WellFormed(l) && IsPath(l, s)
    ensures |s| <= |l.next|
  {
    forall i | 0 <= i < |s| ensures s[i] in l.next.Keys {
      if i < |s| - 1 { assert Follows(l, s, i); }
    }
    DistinctBound(s, l.next.Keys);
  }

  // Two rings that share their first node are the same ring.
  lemma RingIsUnique(l: Links, s: seq<RlNode>, t: seq<RlNode>)
    requires IsRing(l, s) && IsRing(l, t) && s[0] == t[0]
    ensures s == t
  {
    if |s| <= |t| { RingPrefix(l, s, t, |s|); } else { RingPrefix(l, t, s, |t|); }
  }

  lemma {:induction false} RingPrefix(l: Links, s: seq<RlNode>, t: seq<RlNode>, k: nat)
    requires IsRing(l, s) && IsRing(l, t) && s[0] == t[0] && k <= |s| <= |t|
    ensures forall i :: 0 <= i < k ==> s[i] == t[i]
    ensures k == |s| ==> s == t
  {
    if k > 1 {
      RingPrefix(l, s, t, k - 1);
      assert Follows(l, s, k - 2) && Follows(l, t, k - 2);
    }
    if k == |s| {
      assert Follows(l, s, k - 1) && Follows(l, t, k - 1);
      assert |s| == |t|;
    }
  }

  // The general statement: in any well-formed heap, and for any two nodes, a
  // splice is exactly one of the two documented transformations.
  lemma SpliceGeneral(l: Links, a: RlNode, b: RlNode)
      returns (x: seq<RlNode>, y: seq<RlNode>, split: bool)
    requires WellFormed(l) && a in l.next && b in l.next && a != b
    ensures split ==> IsRing(l, [a] + x + [b] + y)
                      && IsRing(Spliced(l, a, b), [a] + y) && IsRing(Spliced(l, a, b), [b] + x)
    ensures !split ==> IsRing(l, [a] + x) && IsRing(l, [b] + y) && Disjoint([a] + x, [b] + y)
                       && IsRing(Spliced(l, a, b), [a] + y + [b] + x)
  {
    var r := CloseRing(l, [a]);
    if b in r {
      var k :| 0 <= k < |r| && r[k] == b;
      x, y, split := r[1..k], r[k + 1..], true;
      assert r == [a] + x + [b] + y;
      SpliceSplits(l, a, x, b, y);
    } else {
      var t := CloseRing(l, [b]);
      x, y, split := r[1..], t[1..], false;
      assert r == [a] + x && t == [b] + y;
      forall n | n in r ensures n !in t {
        if n in t {
          var i :| 0 <= i < |r| && r[i] == n;
          var j :| 0 <= j < |t| && t[j] == n;
          SharedNode(l, r, i, t, j);
        }
      }
      SpliceJoins(l, a, x, b, y);
    }
  }

  // Rings that share a node are the same ring, up to where they begin.
  lemma SharedNode(l: Links, r: seq<RlNode>, i: nat, t: seq<RlNode>, j: nat)
    requires IsRing(l, r) && IsRing(l, t)
    requires i < |r| && j < |t| && r[i] == t[j]
    ensures r[i..] + r[..i] == t[j..] + t[..j]
    ensures forall n {:trigger n in r} {:trigger n in t} :: n in r <==> n in t
  {
    assert r == r[..i] + r[i..] && t == t[..j] + t[j..];
    Rotate(l, r[..i], r[i..]);
    Rotate(l, t[..j], t[j..]);
    RingIsUnique(l, r[i..] + r[..i], t[j..] + t[..j]);
    assert forall n :: n in r <==> n in r[i..] + r[..i];
    assert forall n :: n in t <==> n in t[j..] + t[..j];
  }
}
