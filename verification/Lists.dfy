// Lists without repetitions, as the kernel's intrusive lists are.
module Lists {
  ghost predicate Distinct<T>(q: seq<T>) {
    forall i, j :: 0 <= i < j < |q| ==> q[i] != q[j]
  }

  // rlist_remove of the node of t.
  function Without<T(==)>(q: seq<T>, t: T): seq<T> {
    if q == [] then [] else if q[0] == t then q[1..] else [q[0]] + Without(q[1..], t)
  }

  lemma {:induction false} WithoutSpec<T>(q: seq<T>, t: T)
    requires Distinct(q)
    ensures forall u {:trigger u in Without(q, t)} {:trigger u in q} :: u in Without(q, t) <==> u in q && u != t
    ensures Distinct(Without(q, t))
    ensures t !in q ==> Without(q, t) == q
  {
    if q == [] {
    } else {
      assert q == [q[0]] + q[1..] && q[0] !in q[1..];
      WithoutSpec(q[1..], t);
      if q[0] != t {
        var w := Without(q[1..], t);
        forall i | 0 <= i < |w| ensures w[i] != q[0] { assert w[i] in w; }
      }
    }
  }

  lemma {:induction false} WithoutAt<T>(q: seq<T>, x: T, n: nat)
    requires Distinct(q) && n < |q| && q[n] == x
    ensures Without(q, x) == q[..n] + q[n + 1..]
  {
    if n == 0 {
    } else {
      WithoutAt(q[1..], x, n - 1);
      assert q[..n] == [q[0]] + q[1..][..n - 1];
    }
  }

  lemma ConcatDistinct<T>(q: seq<T>, r: seq<T>)
    requires Distinct(q) && Distinct(r) && forall x :: x in q ==> x !in r
    ensures Distinct(q + r)
  {
    forall i, j | 0 <= i < j < |q + r| ensures (q + r)[i] != (q + r)[j] {
      if i < |q| <= j { assert q[i] in q && r[j - |q|] in r; }
    }
  }

  lemma AppendAssoc<T>(q: seq<T>, x: T, r: seq<T>)
    ensures q + ([x] + r) == (q + [x]) + r
  {
  }

  lemma SubsetSize<T>(a: set<T>, b: set<T>)
    requires a <= b
    ensures |a| <= |b|
  {
    assert b == a + (b - a);
  }

  function Elems<T>(q: seq<T>): set<T> { set x | x in q }

  lemma {:induction false} ElemsSize<T>(q: seq<T>)
    requires Distinct(q)
    ensures |Elems(q)| == |q|
  {
    if q == [] {
    } else {
      ElemsSize(q[1..]);
      assert q == [q[0]] + q[1..] && q[0] !in q[1..];
      assert Elems(q) == {q[0]} + Elems(q[1..]);
    }
  }

  function Reversed<T>(q: seq<T>): (r: seq<T>)
    ensures |r| == |q|
  {
    if q == [] then [] else [q[|q| - 1]] + Reversed(q[..|q| - 1])
  }

  lemma {:induction false} ReversedAt<T>(q: seq<T>, i: nat)
    requires i < |q|
    ensures Reversed(q)[i] == q[|q| - 1 - i]
  {
    if i == 0 {
    } else {
      ReversedAt(q[..|q| - 1], i - 1);
    }
  }

  lemma {:induction false} ReversedMultiset<T>(q: seq<T>)
    ensures multiset(Reversed(q)) == multiset(q)
  {
    if q == [] {
    } else {
      ReversedMultiset(q[..|q| - 1]);
      assert q == q[..|q| - 1] + [q[|q| - 1]];
    }
  }

  lemma ReversedMembers<T>(q: seq<T>)
    ensures forall x {:trigger x in Reversed(q)} {:trigger x in q} :: x in Reversed(q) <==> x in q
    ensures Distinct(q) ==> Distinct(Reversed(q))
  {
    forall i | 0 <= i < |q| ensures Reversed(q)[i] == q[|q| - 1 - i] && q[i] == Reversed(q)[|q| - 1 - i] {
      ReversedAt(q, i);
      ReversedAt(q, |q| - 1 - i);
    }
    if Distinct(q) {
      forall i, j | 0 <= i < j < |q| ensures Reversed(q)[i] != Reversed(q)[j] {
        assert Reversed(q)[i] == q[|q| - 1 - i] && Reversed(q)[j] == q[|q| - 1 - j];
      }
    }
  }
}
