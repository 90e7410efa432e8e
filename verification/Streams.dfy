// Stream references of kernel_streams.c. FCBs are shared by the file tables of
// all processes and by the Read and Write calls in progress; the kernel lock
// makes every stretch of a system call between two waits atomic.
module Streams {
  import opened Lists

  type Fcb = nat

  datatype Slot = Slot(pid: nat, fid: nat)

  // fidt[Slot(p, i)] is PT[p].FIDT[i], absent for NULL. `using` maps a thread
  // inside sys_Read or sys_Write to the FCB it has taken a reference of.
  datatype Files = Files(refcount: seq<int>, freelist: seq<Fcb>, fidt: map<Slot, Fcb>, using: map<nat, Fcb>)

  ghost function Holders(s: Files, f: Fcb): set<Slot> {
    set k | k in s.fidt && s.fidt[k] == f
  }

  ghost function Users(s: Files, f: Fcb): set<nat> {
    set t | t in s.using && s.using[t] == f
  }

  // The references that exist to f.
  ghost function Count(s: Files, f: Fcb): nat {
    |Holders(s, f)| + |Users(s, f)|
  }

  // The references to f, with those that code in progress has in hand.
  ghost function Total(s: Files, extra: multiset<Fcb>, f: Fcb): nat {
    Count(s, f) + extra[f]
  }

  ghost predicate FcbOk(s: Files, extra: multiset<Fcb>, taken: seq<Fcb>, f: Fcb)
    requires f < |s.refcount|
  {
    && (f in s.freelist || f in taken <==> Total(s, extra, f) == 0)
    && (f !in s.freelist ==> s.refcount[f] == Total(s, extra, f))
    && !(f in s.freelist && f in taken)
  }

  // Conservation: an FCB that is not on the free list has as many references
  // counted as there are, and it is on the free list exactly when there are
  // none. `extra` are references in hand, `taken` FCBs popped from the free list
  // and not yet counted; both are empty between system calls.
  ghost predicate Inv(s: Files, extra: multiset<Fcb>, taken: seq<Fcb>) {
    && (forall f {:trigger FcbOk(s, extra, taken, f)} :: 0 <= f < |s.refcount| ==> FcbOk(s, extra, taken, f))
    && Distinct(s.freelist) && Distinct(taken)
    && (forall i :: 0 <= i < |s.freelist| ==> s.freelist[i] < |s.refcount|)
    && (forall i :: 0 <= i < |taken| ==> taken[i] < |s.refcount|)
    && (forall k :: k in s.fidt ==> s.fidt[k] < |s.refcount|)
    && (forall t :: t in s.using ==> s.using[t] < |s.refcount|)
    && (forall f :: f in extra ==> f < |s.refcount|)
  }

  ghost predicate Conserved(s: Files) {
    Inv(s, multiset{}, [])
  }

  // ------------------------------------------------------------------
  // Moving a reference between a table slot, a call in progress, and the hand
  // ------------------------------------------------------------------

  function PutSlot(s: Files, k: Slot, f: Fcb): Files { s.(fidt := s.fidt[k := f]) }

  function ClearSlot(s: Files, k: Slot): Files { s.(fidt := s.fidt - {k}) }

  lemma PutSlotHolders(s: Files, k: Slot, f: Fcb, g: Fcb)
    requires k !in s.fidt
    ensures k !in Holders(s, g) && Users(PutSlot(s, k, f), g) == Users(s, g)
    ensures Holders(PutSlot(s, k, f), g) == if g == f then Holders(s, g) + {k} else Holders(s, g)
  {
  }

  lemma PutSlotCount(s: Files, k: Slot, f: Fcb, g: Fcb)
    requires k !in s.fidt
    ensures Count(PutSlot(s, k, f), g) == Count(s, g) + if g == f then 1 else 0
  {
    PutSlotHolders(s, k, f, g);
  }

  lemma ClearSlotCount(s: Files, k: Slot, g: Fcb)
    requires k in s.fidt
    ensures Count(s, g) == Count(ClearSlot(s, k), g) + if g == s.fidt[k] then 1 else 0
  {
    var s' := ClearSlot(s, k);
    assert s'.fidt[k := s.fidt[k]] == s.fidt;
    PutSlotCount(s', k, s.fidt[k], g);
    assert PutSlot(s', k, s.fidt[k]) == s;
  }

  lemma PutSlotInv(s: Files, extra: multiset<Fcb>, taken: seq<Fcb>, k: Slot, f: Fcb)
    requires Inv(s, extra, taken) && k !in s.fidt && f in extra
    ensures Inv(PutSlot(s, k, f), extra - multiset{f}, taken)
  {
    var s', x := PutSlot(s, k, f), extra - multiset{f};
    forall g | 0 <= g < |s'.refcount| ensures FcbOk(s', x, taken, g) {
      assert FcbOk(s, extra, taken, g);
      PutSlotCount(s, k, f, g);
    }
  }

  lemma ClearSlotInv(s: Files, extra: multiset<Fcb>, taken: seq<Fcb>, k: Slot)
    requires Inv(s, extra, taken) && k in s.fidt
    ensures Inv(ClearSlot(s, k), extra + multiset{s.fidt[k]}, taken)
  {
    var s', x := ClearSlot(s, k), extra + multiset{s.fidt[k]};
    forall g | 0 <= g < |s'.refcount| ensures FcbOk(s', x, taken, g) {
      assert FcbOk(s, extra, taken, g);
      ClearSlotCount(s, k, g);
    }
  }

  function PutUse(s: Files, t: nat, f: Fcb): Files { s.(using := s.using[t := f]) }

  function ClearUse(s: Files, t: nat): Files { s.(using := s.using - {t}) }

  lemma PutUseUsers(s: Files, t: nat, f: Fcb, g: Fcb)
    requires t !in s.using
    ensures t !in Users(s, g) && Holders(PutUse(s, t, f), g) == Holders(s, g)
    ensures Users(PutUse(s, t, f), g) == if g == f then Users(s, g) + {t} else Users(s, g)
  {
  }

  lemma PutUseCount(s: Files, t: nat, f: Fcb, g: Fcb)
    requires t !in s.using
    ensures Count(PutUse(s, t, f), g) == Count(s, g) + if g == f then 1 else 0
  {
    PutUseUsers(s, t, f, g);
  }

  lemma PutUseInv(s: Files, extra: multiset<Fcb>, taken: seq<Fcb>, t: nat, f: Fcb)
    requires Inv(s, extra, taken) && t !in s.using && f in extra
    ensures Inv(PutUse(s, t, f), extra - multiset{f}, taken)
  {
    var s', x := PutUse(s, t, f), extra - multiset{f};
    forall g | 0 <= g < |s'.refcount| ensures FcbOk(s', x, taken, g) {
      assert FcbOk(s, extra, taken, g);
      PutUseCount(s, t, f, g);
    }
  }

  lemma ClearUseInv(s: Files, extra: multiset<Fcb>, taken: seq<Fcb>, t: nat)
    requires Inv(s, extra, taken) && t in s.using
    ensures Inv(ClearUse(s, t), extra + multiset{s.using[t]}, taken)
  {
    var s', x := ClearUse(s, t), extra + multiset{s.using[t]};
    assert s'.using[t := s.using[t]] == s.using && PutUse(s', t, s.using[t]) == s;
    forall g | 0 <= g < |s'.refcount| ensures FcbOk(s', x, taken, g) {
      assert FcbOk(s, extra, taken, g);
      PutUseCount(s', t, s.using[t], g);
    }
  }

  // ------------------------------------------------------------------
  // The counting primitives
  // ------------------------------------------------------------------

  function IncRef(s: Files, f: Fcb): Files
    requires f < |s.refcount|
  {
    s.(refcount := s.refcount[f := s.refcount[f] + 1])
  }

  // FCB_decref, without the call of Close.
  function DecRef(s: Files, f: Fcb): Files
    requires f < |s.refcount|
  {
    s.(refcount := s.refcount[f := s.refcount[f] - 1],
       freelist := if s.refcount[f] == 1 then s.freelist + [f] else s.freelist)
  }

  lemma SameCount(s: Files, s': Files, f: Fcb)
    requires s'.fidt == s.fidt && s'.using == s.using
    ensures Count(s', f) == Count(s, f)
  {
    assert Holders(s', f) == Holders(s, f);
    assert Users(s', f) == Users(s, f);
  }

  // A further reference may be taken of an FCB that is in use, or has just been
  // acquired.
  lemma IncRefInv(s: Files, extra: multiset<Fcb>, taken: seq<Fcb>, f: Fcb)
    requires Inv(s, extra, taken) && f < |s.refcount| && f !in s.freelist && f !in taken
    ensures Inv(IncRef(s, f), extra + multiset{f}, taken)
  {
    var s', x := IncRef(s, f), extra + multiset{f};
    forall g | 0 <= g < |s'.refcount| ensures FcbOk(s', x, taken, g) {
      assert FcbOk(s, extra, taken, g);
      SameCount(s, s', g);
    }
  }

  lemma IncRefTakenInv(s: Files, extra: multiset<Fcb>, taken: seq<Fcb>)
    requires Inv(s, extra, taken) && taken != [] && taken[0] < |s.refcount|
    ensures Inv(IncRef(s, taken[0]), extra + multiset{taken[0]}, taken[1..])
  {
    var s', x := IncRef(s, taken[0]), extra + multiset{taken[0]};
    assert taken == [taken[0]] + taken[1..];
    forall g | 0 <= g < |s'.refcount| ensures FcbOk(s', x, taken[1..], g) {
      assert FcbOk(s, extra, taken, g);
      SameCount(s, s', g);
    }
  }

  // Giving back a reference: the FCB is freed exactly when it was the last.
  lemma DecRefInv(s: Files, extra: multiset<Fcb>, taken: seq<Fcb>, f: Fcb)
    requires Inv(s, extra, taken) && f in extra && f < |s.refcount|
    ensures Inv(DecRef(s, f), extra - multiset{f}, taken)
    ensures s.refcount[f] == Total(s, extra, f)
    ensures f in DecRef(s, f).freelist <==> Total(s, extra, f) == 1
  {
    var s', x := DecRef(s, f), extra - multiset{f};
    assert FcbOk(s, extra, taken, f);
    forall g | 0 <= g < |s'.refcount| ensures FcbOk(s', x, taken, g) {
      assert FcbOk(s, extra, taken, g);
      SameCount(s, s', g);
    }
  }

  // acquire_FCB on a non-empty free list.
  function Acquire(s: Files): Files
    requires s.freelist != [] && s.freelist[0] < |s.refcount|
  {
    s.(freelist := s.freelist[1..], refcount := s.refcount[s.freelist[0] := 0])
  }

  lemma AcquireInv(s: Files, extra: multiset<Fcb>, taken: seq<Fcb>)
    requires Inv(s, extra, taken) && s.freelist != [] && s.freelist[0] < |s.refcount|
    ensures Inv(Acquire(s), extra, taken + [s.freelist[0]])
  {
    var s', f := Acquire(s), s.freelist[0];
    assert s.freelist == [f] + s'.freelist;
    assert FcbOk(s, extra, taken, f);
    forall g | 0 <= g < |s'.refcount| ensures FcbOk(s', extra, taken + [f], g) {
      assert FcbOk(s, extra, taken, g);
      SameCount(s, s', g);
    }
  }

  // release_FCB of an FCB that was acquired and not used.
  lemma ReleaseInv(s: Files, extra: multiset<Fcb>, taken: seq<Fcb>)
    requires Inv(s, extra, taken) && taken != []
    ensures Inv(s.(freelist := s.freelist + [taken[|taken| - 1]]), extra, taken[..|taken| - 1])
  {
    var f, rest := taken[|taken| - 1], taken[..|taken| - 1];
    var s' := s.(freelist := s.freelist + [f]);
    assert taken == rest + [f];
    assert FcbOk(s, extra, taken, f);
    forall g | 0 <= g < |s'.refcount| ensures FcbOk(s', extra, rest, g) {
      assert FcbOk(s, extra, taken, g);
      SameCount(s, s', g);
    }
  }

  // FCB_unreserve of one file id. The count of the released FCB stays 1, which
  // is why the invariant says nothing of the counts on the free list.
  function Unreserve(s: Files, k: Slot): Files
    requires k in s.fidt
  {
    s.(fidt := s.fidt - {k}, freelist := s.freelist + [s.fidt[k]])
  }

  lemma UnreserveInv(s: Files, k: Slot)
    requires Conserved(s) && k in s.fidt && Count(s, s.fidt[k]) == 1
    ensures Conserved(Unreserve(s, k))
    ensures forall g: Fcb :: g != s.fidt[k] ==> Count(Unreserve(s, k), g) == Count(s, g)
  {
    var s', f := Unreserve(s, k), s.fidt[k];
    assert FcbOk(s, multiset{}, [], f);
    forall g: Fcb ensures Count(s, g) == Count(s', g) + if g == f then 1 else 0 {
      ClearSlotCount(s, k, g);
      SameCount(ClearSlot(s, k), s', g);
    }
    forall g | 0 <= g < |s'.refcount| ensures FcbOk(s', multiset{}, [], g) {
      assert FcbOk(s, multiset{}, [], g);
    }
  }

  // An FCB held by a table or by a call is in use.
  lemma InUse(s: Files, extra: multiset<Fcb>, taken: seq<Fcb>, f: Fcb)
    requires Inv(s, extra, taken) && f < |s.refcount|
    requires (exists k :: k in s.fidt && s.fidt[k] == f) || (exists t :: t in s.using && s.using[t] == f)
    ensures f !in s.freelist && f !in taken && s.refcount[f] >= 1
  {
    assert FcbOk(s, extra, taken, f);
    if k :| k in s.fidt && s.fidt[k] == f { assert k in Holders(s, f); }
    if t :| t in s.using && s.using[t] == f { assert t in Users(s, f); }
  }
}
