// References to FCBs are conserved in every run, and every stream is closed once.
module StreamRuns {
  import opened Lists
  import opened Streams
  import opened StreamSteps

  // ------------------------------------------------------------------
  // The life of an FCB
  // ------------------------------------------------------------------

  ghost predicate Live(s: Files, f: Fcb) { Count(s, f) > 0 }

  // In h, f is installed only when it is free, and closed or unreserved only when
  // it is in use; `live` says which at the start.
  predicate Alternates(h: seq<Event>, f: Fcb, live: bool) {
    if h == [] then true
    else if h[0] == Installed(f) then !live && Alternates(h[1..], f, true)
    else if h[0] == Closed(f) || h[0] == Unreserved(f) then live && Alternates(h[1..], f, false)
    else Alternates(h[1..], f, live)
  }

  // Whether f is in use after h.
  predicate LiveAfter(h: seq<Event>, f: Fcb, live: bool) {
    if h == [] then live
    else LiveAfter(h[1..], f, if h[0] == Installed(f) then true else if Ends(h[0], f) then false else live)
  }

  predicate Ends(e: Event, f: Fcb) { e == Closed(f) || e == Unreserved(f) }

  lemma {:induction false} AlternatesConcat(g: seq<Event>, h: seq<Event>, f: Fcb, live: bool)
    ensures Alternates(g + h, f, live) <==> Alternates(g, f, live) && Alternates(h, f, LiveAfter(g, f, live))
    ensures Alternates(g, f, live) ==> LiveAfter(g + h, f, live) == LiveAfter(h, f, LiveAfter(g, f, live))
  {
    if g == [] {
      assert [] + h == h;
    } else {
      assert (g + h)[1..] == g[1..] + h && (g + h)[0] == g[0];
      var live' := if g[0] == Installed(f) then true else if Ends(g[0], f) then false else live;
      AlternatesConcat(g[1..], h, f, live');
    }
  }

  // Between two installations of f there is exactly one end of its use.
  lemma {:induction false} OneEndBetween(h: seq<Event>, f: Fcb, live: bool, a: nat, b: nat) returns (c: nat)
    requires Alternates(h, f, live) && a < b < |h| && h[a] == Installed(f) && h[b] == Installed(f)
    requires forall i :: a < i < b ==> h[i] != Installed(f)
    ensures a < c < b && Ends(h[c], f)
    ensures forall i :: a < i < b && Ends(h[i], f) ==> i == c
  {
    if a > 0 {
      var live' := if h[0] == Installed(f) then true else if Ends(h[0], f) then false else live;
      c := OneEndBetween(h[1..], f, live', a - 1, b - 1);
      c := c + 1;
      forall i | a < i < b && Ends(h[i], f) ensures i == c { assert h[1..][i - 1] == h[i]; }
      assert h[c] == h[1..][c - 1];
    } else {
      c := FirstEnd(h[1..], f, b - 1);
      c := c + 1;
      assert h[c] == h[1..][c - 1];
      forall i | a < i < b && Ends(h[i], f) ensures i == c { assert h[1..][i - 1] == h[i]; }
    }
  }

  // An FCB in use that is installed at b has been given up once before.
  lemma {:induction false} FirstEnd(h: seq<Event>, f: Fcb, b: nat) returns (c: nat)
    requires Alternates(h, f, true) && b < |h| && h[b] == Installed(f)
    requires forall i :: 0 <= i < b ==> h[i] != Installed(f)
    ensures c < b && Ends(h[c], f) && forall i :: 0 <= i < b && Ends(h[i], f) ==> i == c
  {
    assert b > 0;
    if Ends(h[0], f) {
      c := 0;
      forall i | 0 < i < b ensures !Ends(h[i], f) { NoEndWhileFree(h[1..], f, b - 1, i - 1); }
    } else {
      c := FirstEnd(h[1..], f, b - 1);
      c := c + 1;
      assert h[c] == h[1..][c - 1];
      forall i | 0 <= i < b && Ends(h[i], f) ensures i == c { assert i > 0 && h[1..][i - 1] == h[i]; }
    }
  }

  lemma {:induction false} NoEndWhileFree(h: seq<Event>, f: Fcb, b: nat, i: nat)
    requires Alternates(h, f, false) && i < b < |h| && forall j :: 0 <= j < b ==> h[j] != Installed(f)
    ensures !Ends(h[i], f)
  {
    if i == 0 {
    } else {
      NoEndWhileFree(h[1..], f, b - 1, i - 1);
    }
  }

  // ------------------------------------------------------------------
  // Steps account for what they do
  // ------------------------------------------------------------------

  ghost predicate AccountOk(s: Files, s': Files, es: seq<Event>, f: Fcb) {
    Alternates(es, f, Live(s, f)) && LiveAfter(es, f, Live(s, f)) == Live(s', f)
  }

  ghost predicate Accounts(s: Files, s': Files, es: seq<Event>) {
    forall f: Fcb {:trigger AccountOk(s, s', es, f)} :: AccountOk(s, s', es, f)
  }

  lemma Chain(s: Files, m: Files, s': Files, es: seq<Event>, fs: seq<Event>)
    requires Accounts(s, m, es) && Accounts(m, s', fs)
    ensures Accounts(s, s', es + fs)
  {
    forall f: Fcb ensures AccountOk(s, s', es + fs, f) {
      assert AccountOk(s, m, es, f) && AccountOk(m, s', fs, f);
      AlternatesConcat(es, fs, f, Live(s, f));
    }
  }

  lemma NoEvents(s: Files, s': Files)
    requires forall f: Fcb :: Live(s, f) == Live(s', f)
    ensures Accounts(s, s', [])
  {
    forall f: Fcb ensures AccountOk(s, s', [], f) { }
  }

  // One reference to f goes.
  lemma FewerByOne(s: Files, s': Files, f: Fcb)
    requires Conserved(s) && f < |s.refcount|
    requires forall g: Fcb :: Count(s, g) == Count(s', g) + if g == f then 1 else 0
    ensures Accounts(s, s', CloseEvent(s, f))
  {
    assert FcbOk(s, multiset{}, [], f) && Count(s, f) > 0;
    assert s.refcount[f] == Count(s, f);
    forall g: Fcb ensures AccountOk(s, s', CloseEvent(s, f), g) {
      assert Count(s, g) == Count(s', g) + if g == f then 1 else 0;
      if g == f && Count(s, f) == 1 { assert CloseEvent(s, f) == [Closed(f)]; }
    }
  }

  lemma DropSlotOk(s: Files, k: Slot)
    requires Conserved(s) && k in s.fidt && s.fidt[k] < |s.refcount|
    ensures Conserved(DropSlot(s, k)) && Accounts(s, DropSlot(s, k), CloseEvent(s, s.fidt[k]))
    ensures DropSlot(s, k).fidt == s.fidt - {k} && DropSlot(s, k).using == s.using
  {
    var f := s.fidt[k];
    ClearSlotInv(s, multiset{}, [], k);
    DecRefInv(ClearSlot(s, k), multiset{} + multiset{f}, [], f);
    assert multiset{} + multiset{f} - multiset{f} == multiset{};
    forall g: Fcb ensures Count(s, g) == Count(DropSlot(s, k), g) + if g == f then 1 else 0 {
      ClearSlotCount(s, k, g);
      SameCount(ClearSlot(s, k), DropSlot(s, k), g);
    }
    FewerByOne(s, DropSlot(s, k), f);
  }

  lemma DropUseOk(s: Files, t: nat)
    requires Conserved(s) && t in s.using && s.using[t] < |s.refcount|
    ensures Conserved(DropUse(s, t)) && Accounts(s, DropUse(s, t), CloseEvent(s, s.using[t]))
    ensures DropUse(s, t).fidt == s.fidt
  {
    var f, m := s.using[t], ClearUse(s, t);
    ClearUseInv(s, multiset{}, [], t);
    DecRefInv(m, multiset{} + multiset{f}, [], f);
    assert multiset{} + multiset{f} - multiset{f} == multiset{};
    assert m.using[t := f] == s.using && PutUse(m, t, f) == s;
    forall g: Fcb ensures Count(s, g) == Count(DropUse(s, t), g) + if g == f then 1 else 0 {
      PutUseCount(m, t, f, g);
      SameCount(m, DropUse(s, t), g);
    }
    FewerByOne(s, DropUse(s, t), f);
  }

  // One more reference to an FCB in use.
  lemma OneMoreOk(s: Files, f: Fcb)
    requires Conserved(s) && f < |s.refcount| && Live(s, f)
    ensures Inv(IncRef(s, f), multiset{f}, [])
    ensures forall g: Fcb :: Count(IncRef(s, f), g) == Count(s, g)
  {
    assert FcbOk(s, multiset{}, [], f);
    IncRefInv(s, multiset{}, [], f);
    assert multiset{} + multiset{f} == multiset{f};
    forall g: Fcb ensures Count(IncRef(s, f), g) == Count(s, g) { SameCount(s, IncRef(s, f), g); }
  }

  lemma CopySlotOk(s: Files, f: Fcb, k: Slot)
    requires Conserved(s) && f < |s.refcount| && Live(s, f) && k !in s.fidt
    ensures Conserved(CopySlot(s, f, k)) && Accounts(s, CopySlot(s, f, k), [])
    ensures CopySlot(s, f, k).fidt == s.fidt[k := f] && CopySlot(s, f, k).using == s.using
  {
    OneMoreOk(s, f);
    var m, s' := IncRef(s, f), CopySlot(s, f, k);
    PutSlotInv(m, multiset{f}, [], k, f);
    assert multiset{f} - multiset{f} == multiset{};
    forall g: Fcb ensures Live(s, g) == Live(s', g) {
      PutSlotCount(m, k, f, g);
      assert Count(m, g) == Count(s, g);
    }
    NoEvents(s, s');
  }

  lemma TakeUseOk(s: Files, f: Fcb, t: nat)
    requires Conserved(s) && f < |s.refcount| && Live(s, f) && t !in s.using
    ensures Conserved(TakeUse(s, f, t)) && Accounts(s, TakeUse(s, f, t), [])
    ensures TakeUse(s, f, t).fidt == s.fidt
  {
    OneMoreOk(s, f);
    var m, s' := IncRef(s, f), TakeUse(s, f, t);
    PutUseInv(m, multiset{f}, [], t, f);
    assert multiset{f} - multiset{f} == multiset{};
    forall g: Fcb ensures Live(s, g) == Live(s', g) {
      PutUseCount(m, t, f, g);
      assert Count(m, g) == Count(s, g);
    }
    NoEvents(s, s');
  }

  lemma HeldIsLive(s: Files, k: Slot)
    requires k in s.fidt
    ensures Live(s, s.fidt[k])
  {
    assert k in Holders(s, s.fidt[k]);
  }

  lemma InstallOk(s: Files, k: Slot)
    requires Conserved(s) && s.freelist != [] && s.freelist[0] < |s.refcount| && k !in s.fidt
    ensures Conserved(Install(s, k)) && Accounts(s, Install(s, k), [Installed(s.freelist[0])])
    ensures Install(s, k).fidt == s.fidt[k := s.freelist[0]] && Install(s, k).freelist == s.freelist[1..]
    ensures Install(s, k).using == s.using && Count(Install(s, k), s.freelist[0]) == 1
  {
    var f, s' := s.freelist[0], Install(s, k);
    var m1 := Acquire(s);
    AcquireInv(s, multiset{}, []);
    assert [] + [f] == [f];
    IncRefTakenInv(m1, multiset{}, [f]);
    var m2 := IncRef(m1, f);
    assert multiset{} + multiset{f} == multiset{f} && [f][1..] == [];
    PutSlotInv(m2, multiset{f}, [], k, f);
    assert multiset{f} - multiset{f} == multiset{};
    assert FcbOk(s, multiset{}, [], f) && Count(s, f) == 0;
    forall g: Fcb ensures Count(s', g) == Count(s, g) + if g == f then 1 else 0 {
      PutSlotCount(m2, k, f, g);
      SameCount(s, m2, g);
    }
    forall g: Fcb ensures AccountOk(s, s', [Installed(f)], g) {
      assert Count(s', g) == Count(s, g) + if g == f then 1 else 0;
    }
  }

  lemma UnreserveOk(s: Files, k: Slot)
    requires Conserved(s) && k in s.fidt && Count(s, s.fidt[k]) == 1
    ensures Conserved(Unreserve(s, k)) && Accounts(s, Unreserve(s, k), [Unreserved(s.fidt[k])])
  {
    var f, s' := s.fidt[k], Unreserve(s, k);
    UnreserveInv(s, k);
    forall g: Fcb ensures Count(s, g) == Count(s', g) + if g == f then 1 else 0 {
      ClearSlotCount(s, k, g);
      SameCount(ClearSlot(s, k), s', g);
    }
    forall g: Fcb ensures AccountOk(s, s', [Unreserved(f)], g) {
      assert Count(s, g) == Count(s', g) + if g == f then 1 else 0;
    }
  }

  lemma RolledOk(s: Files)
    requires Conserved(s)
    ensures Conserved(Rolled(s)) && Accounts(s, Rolled(s), [])
  {
    var s', q := Rolled(s), s.freelist;
    ReversedMembers(q);
    forall i | 0 <= i < |q| ensures s'.freelist[i] < |s.refcount| { assert s'.freelist[i] in s'.freelist; }
    forall f: Fcb ensures Count(s', f) == Count(s, f) { SameCount(s, s', f); }
    forall f | 0 <= f < |s'.refcount| ensures FcbOk(s', multiset{}, [], f) {
      assert FcbOk(s, multiset{}, [], f);
    }
    NoEvents(s, s');
  }

  // ------------------------------------------------------------------
  // The system calls
  // ------------------------------------------------------------------

  lemma {:induction false} InstallAllOk(s: Files, pid: nat, fids: seq<nat>)
    requires Conserved(s) && |fids| <= |s.freelist| && Distinct(fids)
    requires forall i :: 0 <= i < |fids| ==> Slot(pid, fids[i]) !in s.fidt
    ensures Conserved(InstallAll(s, pid, fids))
    ensures Accounts(s, InstallAll(s, pid, fids), InstallEvents(s, |fids|))
    decreases |fids|
  {
    if fids == [] {
      NoEvents(s, s);
    } else {
      var k := Slot(pid, fids[0]);
      InstallOk(s, k);
      var m := Install(s, k);
      forall i | 0 <= i < |fids[1..]| ensures Slot(pid, fids[1..][i]) !in m.fidt { assert fids[1..][i] == fids[i + 1]; }
      InstallAllOk(m, pid, fids[1..]);
      Chain(s, m, InstallAll(s, pid, fids), [Installed(s.freelist[0])], InstallEvents(m, |fids| - 1));
      assert [Installed(s.freelist[0])] + InstallEvents(m, |fids| - 1) == InstallEvents(s, |fids|);
    }
  }

  lemma ReserveOk(s: Files, pid: nat, num: nat, max: nat)
    requires Conserved(s)
    ensures Conserved(Reserve(s, pid, num, max))
    ensures Accounts(s, Reserve(s, pid, num, max), ReserveEvents(s, pid, num, max))
  {
    var free := FreeFids(s.fidt, pid, 0, max);
    NoEvents(s, s);
    RolledOk(s);
    if CanReserve(s, pid, num, max) {
      FreeFidsSpec(s.fidt, pid, 0, max);
      forall i | 0 <= i < num ensures Slot(pid, free[..num][i]) !in s.fidt { assert free[i] in free; }
      InstallAllOk(s, pid, free[..num]);
    }
  }

  lemma OpenOk(s: Files, pid: nat, deviceOk: bool, max: nat)
    requires Conserved(s)
    ensures Conserved(Open(s, pid, deviceOk, max))
    ensures Accounts(s, Open(s, pid, deviceOk, max), OpenEvents(s, pid, deviceOk, max))
  {
    if !CanReserve(s, pid, 1, max) {
      ReserveOk(s, pid, 1, max);
    } else {
      var k := Slot(pid, FreeFids(s.fidt, pid, 0, max)[0]);
      FirstFid(s.fidt, pid, max);
      InstallOk(s, k);
      var m := Install(s, k);
      assert [Installed(s.freelist[0])] + [] == [Installed(s.freelist[0])];
      if !deviceOk {
        UnreserveOk(m, k);
        Chain(s, m, Unreserve(m, k), [Installed(s.freelist[0])], [Unreserved(s.freelist[0])]);
      }
    }
  }

  lemma PipeFidsOk(s: Files, pid: nat, max: nat)
    requires Conserved(s)
    ensures Conserved(PipeFids(s, pid, max)) && Accounts(s, PipeFids(s, pid, max), PipeEvents(s, pid, max))
  {
    if !CanReserve(s, pid, 1, max) {
      NoEvents(s, s);
    } else {
      FirstFid(s.fidt, pid, max);
      var k := Slot(pid, FreeFids(s.fidt, pid, 0, max)[0]);
      InstallOk(s, k);
      var m := Install(s, k);
      assert [Installed(s.freelist[0])] + [] == [Installed(s.freelist[0])];
      if CanReserve(m, pid, 1, max) {
        FirstFid(m.fidt, pid, max);
        InstallOk(m, Slot(pid, FreeFids(m.fidt, pid, 0, max)[0]));
        Chain(s, m, PipeFids(s, pid, max), [Installed(s.freelist[0])], [Installed(m.freelist[0])]);
      }
    }
  }

  lemma CloseOk(s: Files, k: Slot)
    requires Conserved(s)
    ensures Conserved(Close(s, k)) && Accounts(s, Close(s, k), CloseEvents(s, k))
    ensures Close(s, k).fidt == s.fidt - {k} && Close(s, k).using == s.using
  {
    if k in s.fidt {
      DropSlotOk(s, k);
    } else {
      NoEvents(s, s);
      assert s.fidt - {k} == s.fidt;
    }
  }

  lemma Dup2Ok(s: Files, ko: Slot, kn: Slot)
    requires Conserved(s)
    ensures Conserved(Dup2(s, ko, kn)) && Accounts(s, Dup2(s, ko, kn), Dup2Events(s, ko, kn))
  {
    if ko !in s.fidt || (kn in s.fidt && s.fidt[kn] == s.fidt[ko]) {
      NoEvents(s, s);
    } else {
      var m := Close(s, kn);
      CloseOk(s, kn);
      assert ko in m.fidt;
      HeldIsLive(m, ko);
      CopySlotOk(m, s.fidt[ko], kn);
      Chain(s, m, Dup2(s, ko, kn), CloseEvents(s, kn), []);
      assert CloseEvents(s, kn) + [] == CloseEvents(s, kn);
    }
  }

  lemma {:induction false} CloseFromOk(s: Files, pid: nat, i: nat, max: nat)
    requires Conserved(s)
    ensures Conserved(CloseFrom(s, pid, i, max))
    ensures Accounts(s, CloseFrom(s, pid, i, max), CloseFromEvents(s, pid, i, max))
    decreases max - i
  {
    if i >= max {
      NoEvents(s, s);
    } else {
      var m := Close(s, Slot(pid, i));
      CloseOk(s, Slot(pid, i));
      CloseFromOk(m, pid, i + 1, max);
      Chain(s, m, CloseFrom(s, pid, i, max), CloseEvents(s, Slot(pid, i)), CloseFromEvents(m, pid, i + 1, max));
    }
  }

  lemma InheritOneOk(s: Files, parent: nat, child: nat, i: nat)
    requires Conserved(s) && parent != child && Slot(child, i) !in s.fidt
    ensures Conserved(InheritOne(s, parent, child, i)) && Accounts(s, InheritOne(s, parent, child, i), [])
    ensures InheritOne(s, parent, child, i).fidt
         == if Slot(parent, i) in s.fidt then s.fidt[Slot(child, i) := s.fidt[Slot(parent, i)]] else s.fidt
    ensures InheritOne(s, parent, child, i).using == s.using
  {
    if Slot(parent, i) in s.fidt {
      HeldIsLive(s, Slot(parent, i));
      CopySlotOk(s, s.fidt[Slot(parent, i)], Slot(child, i));
    } else {
      NoEvents(s, s);
    }
  }

  lemma {:induction false} InheritFromOk(s: Files, parent: nat, child: nat, i: nat, max: nat)
    requires Conserved(s) && parent != child && forall k :: k in s.fidt && k.pid == child ==> k.fid < i
    ensures Conserved(InheritFrom(s, parent, child, i, max)) && Accounts(s, InheritFrom(s, parent, child, i, max), [])
    decreases max - i
  {
    if i >= max {
      NoEvents(s, s);
    } else {
      var m := InheritOne(s, parent, child, i);
      InheritOneOk(s, parent, child, i);
      InheritFromOk(m, parent, child, i + 1, max);
      Chain(s, m, InheritFrom(s, parent, child, i, max), [], []);
      var none: seq<Event> := [];
      assert none + none == none;
    }
  }

  lemma BeginOk(s: Files, k: Slot, t: nat)
    requires Conserved(s) && t !in s.using
    ensures Conserved(Begin(s, k, t)) && Accounts(s, Begin(s, k, t), [])
  {
    if k in s.fidt {
      HeldIsLive(s, k);
      TakeUseOk(s, s.fidt[k], t);
    } else {
      NoEvents(s, s);
    }
  }

  // Every system call keeps the counts exact and accounts for what it does.
  lemma StepOk(s: Files, step: Step, max: nat)
    requires Conserved(s) && Enabled(s, step, max)
    ensures Conserved(Apply(s, step, max)) && Accounts(s, Apply(s, step, max), Events(s, step, max))
  {
    match step
    case DoReserve(pid, num) => ReserveOk(s, pid, num, max);
    case DoOpen(pid, deviceOk) => OpenOk(s, pid, deviceOk, max);
    case DoPipe(pid) => PipeFidsOk(s, pid, max);
    case DoBegin(k, t) => BeginOk(s, k, t);
    case DoEnd(t) => DropUseOk(s, t);
    case DoClose(k) => CloseOk(s, k);
    case DoDup2(ko, kn) => Dup2Ok(s, ko, kn);
    case DoInherit(parent, child) => InheritFromOk(s, parent, child, 0, max);
    case DoExit(pid) => CloseFromOk(s, pid, 0, max);
  }

  // ------------------------------------------------------------------
  // Runs
  // ------------------------------------------------------------------

  // initialize_files
  function Unused(n: nat): Files { Files(seq(n, _ => 0), seq(n, f => f), map[], map[]) }

  lemma UnusedConserved(n: nat)
    ensures Conserved(Unused(n)) && forall f: Fcb :: !Live(Unused(n), f)
  {
    var s := Unused(n);
    forall f: Fcb ensures Count(s, f) == 0 { assert Holders(s, f) == {} && Users(s, f) == {}; }
    forall f | 0 <= f < n ensures FcbOk(s, multiset{}, [], f) { assert s.freelist[f] == f && Count(s, f) == 0; }
  }

  ghost predicate IsRun(n: nat, max: nat, ss: seq<Files>, steps: seq<Step>) {
    && |ss| == |steps| + 1 && ss[0] == Unused(n)
    && (forall i {:trigger Taken(max, ss, steps, i)} :: 0 <= i < |steps| ==> Taken(max, ss, steps, i))
  }

  ghost predicate Taken(max: nat, ss: seq<Files>, steps: seq<Step>, i: nat)
    requires i < |steps| && |ss| == |steps| + 1
  {
    InRange(ss[i]) ==> Enabled(ss[i], steps[i], max) && ss[i + 1] == Apply(ss[i], steps[i], max)
  }

  // In every state of every run, each FCB that is not free has as many references
  // counted as there are file ids and calls in progress that hold it, and it is
  // free exactly when there are none.
  lemma {:induction false} AlwaysConserved(n: nat, max: nat, ss: seq<Files>, steps: seq<Step>, i: nat)
    requires IsRun(n, max, ss, steps) && i < |ss|
    ensures Conserved(ss[i])
  {
    if i == 0 {
      UnusedConserved(n);
    } else {
      AlwaysConserved(n, max, ss, steps, i - 1);
      assert Taken(max, ss, steps, i - 1);
      StepOk(ss[i - 1], steps[i - 1], max);
    }
  }

  // All that happened in the first i steps.
  ghost function History(max: nat, ss: seq<Files>, steps: seq<Step>, i: nat): seq<Event>
    requires i <= |steps| && |ss| == |steps| + 1
  {
    if i == 0 then []
    else History(max, ss, steps, i - 1)
         + if InRange(ss[i - 1]) && Enabled(ss[i - 1], steps[i - 1], max)
           then Events(ss[i - 1], steps[i - 1], max) else []
  }

  lemma {:induction false} HistoryAccounts(n: nat, max: nat, ss: seq<Files>, steps: seq<Step>, i: nat)
    requires IsRun(n, max, ss, steps) && i < |ss|
    ensures Accounts(ss[0], ss[i], History(max, ss, steps, i))
  {
    if i == 0 {
      NoEvents(ss[0], ss[0]);
    } else {
      HistoryAccounts(n, max, ss, steps, i - 1);
      AlwaysConserved(n, max, ss, steps, i - 1);
      assert Taken(max, ss, steps, i - 1);
      StepOk(ss[i - 1], steps[i - 1], max);
      Chain(ss[0], ss[i - 1], ss[i], History(max, ss, steps, i - 1), Events(ss[i - 1], steps[i - 1], max));
    }
  }

  // Over the life of a stream: an FCB that is installed at a file id, and later
  // installed again, was in between either closed exactly once or unreserved
  // exactly once, and not both.
  lemma ClosedOnce(n: nat, max: nat, ss: seq<Files>, steps: seq<Step>, f: Fcb, a: nat, b: nat) returns (c: nat)
    requires IsRun(n, max, ss, steps)
    requires var h := History(max, ss, steps, |steps|);
      a < b < |h| && h[a] == Installed(f) && h[b] == Installed(f) && forall i :: a < i < b ==> h[i] != Installed(f)
    ensures var h := History(max, ss, steps, |steps|);
      && a < c < b < |h| && (h[c] == Closed(f) || h[c] == Unreserved(f))
      && forall i :: a < i < b && (h[i] == Closed(f) || h[i] == Unreserved(f)) ==> i == c
  {
    HistoryAccounts(n, max, ss, steps, |steps|);
    UnusedConserved(n);
    var h := History(max, ss, steps, |steps|);
    assert AccountOk(ss[0], ss[|steps|], h, f);
    c := OneEndBetween(h, f, false, a, b);
    assert Ends(h[c], f);
    forall i | a < i < b && (h[i] == Closed(f) || h[i] == Unreserved(f)) ensures i == c { assert Ends(h[i], f); }
  }

  // At any time, an FCB has been installed once more often than it was given up
  // if it is in use, and as often if it is free.
  lemma InstallsAndEnds(n: nat, max: nat, ss: seq<Files>, steps: seq<Step>, i: nat, f: Fcb)
    requires IsRun(n, max, ss, steps) && i < |ss|
    ensures var h := multiset(History(max, ss, steps, i));
      h[Installed(f)] == h[Closed(f)] + h[Unreserved(f)] + if Live(ss[i], f) then 1 else 0
  {
    HistoryAccounts(n, max, ss, steps, i);
    UnusedConserved(n);
    var h := History(max, ss, steps, i);
    assert AccountOk(ss[0], ss[i], h, f);
    Balance(h, f, false);
  }

  lemma {:induction false} Balance(h: seq<Event>, f: Fcb, live: bool)
    requires Alternates(h, f, live)
    ensures var m := multiset(h);
      m[Installed(f)] + (if live then 1 else 0)
      == m[Closed(f)] + m[Unreserved(f)] + if LiveAfter(h, f, live) then 1 else 0
  {
    if h == [] {
    } else {
      assert h == [h[0]] + h[1..];
      Balance(h[1..], f, if h[0] == Installed(f) then true else if Ends(h[0], f) then false else live);
    }
  }

  // Of streams given up by closing only: Close is called exactly once for every
  // FCB that loses its last reference, and for no other.
  ghost predicate ClosedExactly(s: Files, s': Files, es: seq<Event>) {
    forall f: Fcb {:trigger multiset(es)[Closed(f)]} ::
      multiset(es)[Closed(f)] == if Live(s, f) && !Live(s', f) then 1 else 0
  }

  predicate OnlyCloses(es: seq<Event>) {
    forall i :: 0 <= i < |es| ==> es[i].Closed?
  }

  lemma ClosesAreExact(s: Files, s': Files, es: seq<Event>)
    requires Accounts(s, s', es) && OnlyCloses(es)
    ensures ClosedExactly(s, s', es)
  {
    forall f: Fcb ensures multiset(es)[Closed(f)] == if Live(s, f) && !Live(s', f) then 1 else 0 {
      assert AccountOk(s, s', es, f);
      Balance(es, f, Live(s, f));
      NotAmong(es, f);
    }
  }

  lemma {:induction false} NotAmong(es: seq<Event>, f: Fcb)
    requires OnlyCloses(es)
    ensures multiset(es)[Installed(f)] == 0 && multiset(es)[Unreserved(f)] == 0
  {
    if es == [] {
    } else {
      assert es == [es[0]] + es[1..] && es[0].Closed?;
      NotAmong(es[1..], f);
    }
  }

  lemma {:induction false} ExitOnlyCloses(s: Files, pid: nat, i: nat, max: nat)
    requires Conserved(s)
    ensures OnlyCloses(CloseFromEvents(s, pid, i, max))
    decreases max - i
  {
    if i >= max {
    } else {
      CloseOk(s, Slot(pid, i));
      ExitOnlyCloses(Close(s, Slot(pid, i)), pid, i + 1, max);
    }
  }

  // What process exit leaves of the file tables.
  lemma {:induction false} CloseFromFids(s: Files, pid: nat, i: nat, max: nat)
    requires Conserved(s)
    ensures var t := CloseFrom(s, pid, i, max).fidt;
      && (forall k :: k in t <==> k in s.fidt && !(k.pid == pid && i <= k.fid < max))
      && (forall k :: k in t ==> t[k] == s.fidt[k])
    decreases max - i
  {
    if i >= max {
    } else {
      CloseOk(s, Slot(pid, i));
      CloseFromFids(Close(s, Slot(pid, i)), pid, i + 1, max);
    }
  }

  // What a new process inherits.
  lemma {:induction false} InheritFids(s: Files, parent: nat, child: nat, i: nat, max: nat)
    requires Conserved(s) && parent != child && forall k :: k in s.fidt && k.pid == child ==> k.fid < i
    ensures var t := InheritFrom(s, parent, child, i, max).fidt;
      && (forall k :: k in t <==> k in s.fidt || (k.pid == child && i <= k.fid < max && Slot(parent, k.fid) in s.fidt))
      && (forall k :: k in t ==> t[k] == s.fidt[if k in s.fidt then k else Slot(parent, k.fid)])
    decreases max - i
  {
    if i >= max {
    } else {
      InheritOneOk(s, parent, child, i);
      InheritFids(InheritOne(s, parent, child, i), parent, child, i + 1, max);
    }
  }

  // ------------------------------------------------------------------
  // sys_Pipe
  // ------------------------------------------------------------------

  // A table with two file ids and one FCB: sys_Pipe fails, and file id 0 stays
  // reserved. So it does with two FCBs and one file id.
  lemma PipeKeepsAnId()
    ensures IsRun(1, 2, [Unused(1), PipeFids(Unused(1), 0, 2)], [DoPipe(0)])
    ensures PipeFids(Unused(1), 0, 2).fidt == map[Slot(0, 0) := 0]
    ensures IsRun(2, 1, [Unused(2), PipeFids(Unused(2), 0, 1)], [DoPipe(0)])
    ensures PipeFids(Unused(2), 0, 1).fidt == map[Slot(0, 0) := 0]
  {
    assert FreeFids(map[], 0, 1, 2) == [1] && FreeFids(map[], 0, 0, 2) == [0, 1];
    assert FreeFids(map[], 0, 1, 1) == [] && FreeFids(map[], 0, 0, 1) == [0];
    assert Taken(2, [Unused(1), PipeFids(Unused(1), 0, 2)], [DoPipe(0)], 0);
    assert Unused(1).freelist == [0];
    var m := Install(Unused(2), Slot(0, 0));
    assert Unused(2).freelist == [0, 1] && Slot(0, 0) in m.fidt;
    assert FreeFids(m.fidt, 0, 1, 1) == [] && FreeFids(m.fidt, 0, 0, 1) == [];
    assert Taken(1, [Unused(2), PipeFids(Unused(2), 0, 1)], [DoPipe(0)], 0);
  }

  // ------------------------------------------------------------------
  // FCB_unreserve
  // ------------------------------------------------------------------

  // A device that is not found: the one FCB is free again, with its count at 1.
  lemma UnreserveLeavesCount()
    ensures var s := Open(Unused(1), 0, false, 1);
      && IsRun(1, 1, [Unused(1), s], [DoOpen(0, false)])
      && s.freelist == [0] && s.fidt == map[] && s.refcount == [1]
  {
    var s := Open(Unused(1), 0, false, 1);
    assert FreeFids(map[], 0, 0, 1) == [0] && Unused(1).freelist == [0];
    var none: map<Slot, Fcb> := map[];
    assert none[Slot(0, 0) := 0] - {Slot(0, 0)} == none;
    assert Taken(1, [Unused(1), s], [DoOpen(0, false)], 0);
  }
}
