// kernel_streams.c as code that updates FT, the free list and the file tables
// in place, with the parts of sys_Exec, sys_ThreadExit and sys_Pipe that move
// references. Every system call takes its step of StreamSteps.
module FileTable {
  import opened Lists
  import opened Streams
  import opened StreamSteps
  import opened StreamRuns

  // FCB_reserve acquires all FCBs before it installs them; the pairing is the same
  // one by one.
  lemma {:induction false} InstallAllCounts(s: Files, pid: nat, fids: seq<nat>)
    requires InRange(s) && |fids| <= |s.freelist| && Distinct(s.freelist)
    ensures var s' := InstallAll(s, pid, fids);
      && s'.freelist == s.freelist[|fids|..] && s'.using == s.using && |s'.refcount| == |s.refcount|
      && (forall f :: 0 <= f < |s.refcount| ==>
            s'.refcount[f] == if f in s.freelist[..|fids|] then 1 else s.refcount[f])
    decreases |fids|
  {
    var q, n := s.freelist, |fids|;
    if fids == [] {
    } else {
      var m := Install(s, Slot(pid, fids[0]));
      assert q == [q[0]] + q[1..];
      InstallAllCounts(m, pid, fids[1..]);
      assert q[..n] == [q[0]] + q[1..][..n - 1] && q[0] !in q[1..][..n - 1];
    }
  }

  // The fids after the first are free in the table that has the first.
  lemma RestIsFree(fidt: map<Slot, Fcb>, pid: nat, fids: seq<nat>, f: Fcb)
    requires fids != [] && Distinct(fids) && forall i :: 0 <= i < |fids| ==> Slot(pid, fids[i]) !in fidt
    ensures Distinct(fids[1..])
    ensures forall i :: 0 <= i < |fids[1..]| ==> Slot(pid, fids[1..][i]) !in fidt[Slot(pid, fids[0]) := f]
  {
    forall i | 0 <= i < |fids[1..]| ensures fids[1..][i] == fids[i + 1] { }
  }

  lemma {:induction false} InstallAllSlots(s: Files, pid: nat, fids: seq<nat>)
    requires InRange(s) && |fids| <= |s.freelist|
    ensures var t := InstallAll(s, pid, fids).fidt;
      forall k :: k in t <==> k in s.fidt || (k.pid == pid && k.fid in fids)
    decreases |fids|
  {
    if fids == [] {
    } else {
      InstallAllSlots(Install(s, Slot(pid, fids[0])), pid, fids[1..]);
      assert fids == [fids[0]] + fids[1..];
    }
  }

  lemma {:induction false} InstallAllFids(s: Files, pid: nat, fids: seq<nat>)
    requires InRange(s) && |fids| <= |s.freelist| && Distinct(fids)
    requires forall i :: 0 <= i < |fids| ==> Slot(pid, fids[i]) !in s.fidt
    ensures var t := InstallAll(s, pid, fids).fidt;
      && (forall k :: k in s.fidt ==> k in t && t[k] == s.fidt[k])
      && (forall i :: 0 <= i < |fids| ==> Slot(pid, fids[i]) in t && t[Slot(pid, fids[i])] == s.freelist[i])
    decreases |fids|
  {
    if fids == [] {
    } else {
      var k0, f0, t := Slot(pid, fids[0]), s.freelist[0], InstallAll(s, pid, fids).fidt;
      var m := Install(s, k0);
      RestIsFree(s.fidt, pid, fids, f0);
      InstallAllFids(m, pid, fids[1..]);
      assert m.fidt == s.fidt[k0 := f0] && m.freelist == s.freelist[1..];
      forall i | 0 <= i < |fids| ensures Slot(pid, fids[i]) in t && t[Slot(pid, fids[i])] == s.freelist[i] {
        assert i > 0 ==> fids[i] == fids[1..][i - 1] && s.freelist[i] == m.freelist[i - 1];
      }
    }
  }

  // What FCB_reserve leaves is determined by its parts.
  lemma IsInstallAll(s: Files, pid: nat, fids: seq<nat>, t: Files)
    requires InRange(s) && |fids| <= |s.freelist| && Distinct(s.freelist) && Distinct(fids)
    requires forall i :: 0 <= i < |fids| ==> Slot(pid, fids[i]) !in s.fidt
    requires t.freelist == s.freelist[|fids|..] && t.using == s.using && |t.refcount| == |s.refcount|
    requires forall f :: 0 <= f < |s.refcount| ==>
               t.refcount[f] == if f in s.freelist[..|fids|] then 1 else s.refcount[f]
    requires forall k :: k in t.fidt <==> k in s.fidt || (k.pid == pid && k.fid in fids)
    requires forall k :: k in s.fidt ==> k in t.fidt && t.fidt[k] == s.fidt[k]
    requires forall i :: 0 <= i < |fids| ==> Slot(pid, fids[i]) in t.fidt && t.fidt[Slot(pid, fids[i])] == s.freelist[i]
    ensures t == InstallAll(s, pid, fids)
  {
    InstallAllCounts(s, pid, fids);
    InstallAllSlots(s, pid, fids);
    InstallAllFids(s, pid, fids);
    assert t.refcount == InstallAll(s, pid, fids).refcount;
    assert t.fidt == InstallAll(s, pid, fids).fidt;
  }

  function UnreserveEvents(fcb: seq<Fcb>): seq<Event> {
    seq(|fcb|, i requires 0 <= i < |fcb| => Unreserved(fcb[i]))
  }

  lemma OneMoreEvent(trace: seq<Event>, fcb: seq<Fcb>, f: Fcb)
    ensures trace + UnreserveEvents(fcb + [f]) == (trace + UnreserveEvents(fcb)) + [Unreserved(f)]
  {
  }

  class FileTable {
    const maxFileid: nat
    const ft: array<int>  // FT[f].refcount
    var freelist: seq<Fcb>
    var fidt: map<Slot, Fcb>
    ghost var using: map<nat, Fcb>
    ghost var trace: seq<Event>  // installations, calls of Close and unreservations so far

    ghost function Abs(): Files
      reads this, ft
    {
      Files(ft[..], freelist, fidt, using)
    }

    // initialize_files
    constructor (maxFiles: nat, maxFileid: nat)
      ensures Abs() == Unused(maxFiles) && Conserved(Abs()) && fresh(ft)
      ensures this.maxFileid == maxFileid && trace == []
    {
      this.maxFileid := maxFileid;
      ft := new int[maxFiles];
      freelist := [];
      fidt, using, trace := map[], map[], [];
      new;
      for i := 0 to maxFiles
        invariant freelist == seq(i, j => j) && fidt == map[] && using == map[] && trace == []
        invariant forall j :: 0 <= j < i ==> ft[j] == 0
        modifies ft, this`freelist
      {
        ft[i] := 0;
        freelist := freelist + [i];
      }
      assert Abs() == Unused(maxFiles);
      UnusedConserved(maxFiles);
    }

    // acquire_FCB
    method AcquireFCB() returns (ok: bool, f: Fcb)
      requires freelist != [] ==> freelist[0] < ft.Length
      modifies ft, this`freelist
      ensures ok <==> old(freelist) != []
      ensures ok ==> f == old(freelist)[0] && Abs() == Acquire(old(Abs()))
      ensures !ok ==> Abs() == old(Abs())
    {
      ok, f := freelist != [], 0;
      if ok {
        f := freelist[0];
        freelist := freelist[1..];
        ft[f] := 0;
        assert ft[..] == old(ft[..])[f := 0];
      }
    }

    method ReleaseFCB(f: Fcb)
      modifies this`freelist
      ensures freelist == old(freelist) + [f]
    {
      freelist := freelist + [f];
    }

    method FcbIncref(f: Fcb)
      requires f < ft.Length
      modifies ft
      ensures Abs() == IncRef(old(Abs()), f)
    {
      ft[f] := ft[f] + 1;
      assert ft[..] == old(ft[..])[f := old(ft[f]) + 1];
    }

    // `retClose` is what the stream's Close returns if it is called.
    method FcbDecref(f: Fcb, retClose: int) returns (ret: int)
      requires f < ft.Length
      modifies ft, this`freelist, this`trace
      ensures Abs() == DecRef(old(Abs()), f)
      ensures trace == old(trace) + CloseEvent(old(Abs()), f)
      ensures ret == if old(ft[f]) == 1 then retClose else 0
    {
      ft[f] := ft[f] - 1;
      assert ft[..] == old(ft[..])[f := old(ft[f]) - 1];
      if ft[f] == 0 {
        trace := trace + [Closed(f)];
        ret := retClose;
        ReleaseFCB(f);
      } else {
        ret := 0;
      }
    }

    // sys_Read and sys_Write, up to the call of the stream's function.
    method BeginCall(pid: nat, fd: int, ghost t: nat) returns (found: bool, f: Fcb)
      requires Conserved(Abs()) && t !in using
      modifies ft, this`using
      ensures Conserved(Abs())
      ensures found <==> 0 <= fd < maxFileid && Slot(pid, fd) in fidt
      ensures found ==> f == fidt[Slot(pid, fd)]
      ensures using == if found then old(using)[t := f] else old(using)
      ensures Abs() == if 0 <= fd < maxFileid then Apply(old(Abs()), DoBegin(Slot(pid, fd), t), maxFileid)
                       else old(Abs())
    {
      found, f := false, 0;
      if 0 <= fd < maxFileid {
        ghost var s := Abs();
        BeginOk(s, Slot(pid, fd), t);
        if Slot(pid, fd) in fidt {
          found, f := true, fidt[Slot(pid, fd)];
          FcbIncref(f);
          using := using[t := f];
        }
      }
    }

    // ... and after it. The stream is closed here if its last file id went away
    // while the call was in progress.
    method EndCall(f: Fcb, ghost t: nat, retClose: int) returns (ret: int)
      requires Conserved(Abs()) && t in using && using[t] == f
      modifies ft, this`freelist, this`using, this`trace
      ensures Conserved(Abs()) && Abs() == Apply(old(Abs()), DoEnd(t), maxFileid)
      ensures using == old(using) - {t}
      ensures trace == old(trace) + Events(old(Abs()), DoEnd(t), maxFileid)
      ensures ClosedExactly(old(Abs()), Abs(), Events(old(Abs()), DoEnd(t), maxFileid))
    {
      ghost var s := Abs();
      DropUseOk(s, t);
      ClosesAreExact(s, DropUse(s, t), CloseEvent(s, f));
      using := using - {t};
      ret := FcbDecref(f, retClose);
    }

    // sys_Close
    method SysClose(pid: nat, fd: int, retClose: int) returns (ret: int)
      requires Conserved(Abs())
      modifies ft, this`freelist, this`fidt, this`trace
      ensures Conserved(Abs())
      ensures fidt == if 0 <= fd < maxFileid then old(fidt) - {Slot(pid, fd)} else old(fidt)
      ensures !(0 <= fd < maxFileid) ==> ret == -1 && Abs() == old(Abs()) && trace == old(trace)
      ensures 0 <= fd < maxFileid ==> Abs() == Apply(old(Abs()), DoClose(Slot(pid, fd)), maxFileid)
      ensures 0 <= fd < maxFileid ==> trace == old(trace) + Events(old(Abs()), DoClose(Slot(pid, fd)), maxFileid)
      ensures 0 <= fd < maxFileid ==>
                ClosedExactly(old(Abs()), Abs(), Events(old(Abs()), DoClose(Slot(pid, fd)), maxFileid))
      ensures 0 <= fd < maxFileid && Slot(pid, fd) !in old(fidt) ==> ret == 0
      ensures 0 <= fd < maxFileid && Slot(pid, fd) in old(fidt) ==>
                ret == if Count(old(Abs()), old(fidt)[Slot(pid, fd)]) == 1 then retClose else 0
    {
      ret := if fd >= 0 && fd < maxFileid then 0 else -1;
      if 0 <= fd < maxFileid {
        var k := Slot(pid, fd);
        ghost var s := Abs();
        CloseOk(s, k);
        ClosesAreExact(s, Close(s, k), CloseEvents(s, k));
        if k in fidt {
          var f := fidt[k];
          HeldIsLive(s, k);
          assert FcbOk(s, multiset{}, [], f);
          fidt := fidt - {k};
          ret := FcbDecref(f, retClose);
        }
      }
    }

    // sys_Dup2
    method SysDup2(pid: nat, oldfd: int, newfd: int, retClose: int) returns (ret: int)
      requires Conserved(Abs())
      modifies ft, this`freelist, this`fidt, this`trace
      ensures Conserved(Abs())
      ensures ret == if 0 <= oldfd < maxFileid && 0 <= newfd < maxFileid && Slot(pid, oldfd) in old(fidt) then 0 else -1
      ensures fidt == if ret == 0 then old(fidt)[Slot(pid, newfd) := old(fidt)[Slot(pid, oldfd)]] else old(fidt)
      ensures ret != 0 ==> Abs() == old(Abs()) && trace == old(trace)
      ensures ret == 0 ==> Abs() == Apply(old(Abs()), DoDup2(Slot(pid, oldfd), Slot(pid, newfd)), maxFileid)
      ensures ret == 0 ==> trace == old(trace) + Dup2Events(old(Abs()), Slot(pid, oldfd), Slot(pid, newfd))
      ensures ret == 0 ==> ClosedExactly(old(Abs()), Abs(), Dup2Events(old(Abs()), Slot(pid, oldfd), Slot(pid, newfd)))
    {
      ret := 0;
      if oldfd < 0 || newfd < 0 || oldfd >= maxFileid || newfd >= maxFileid { return -1; }
      var ko, kn := Slot(pid, oldfd), Slot(pid, newfd);
      if ko !in fidt { return -1; }
      ghost var s := Abs();
      Dup2Ok(s, ko, kn);
      ClosesAreExact(s, Dup2(s, ko, kn), Dup2Events(s, ko, kn));
      var f := fidt[ko];
      if kn !in fidt || fidt[kn] != f {
        if kn in fidt { DropFirst(kn, retClose); }
        PointSlot(s, f, kn);
      }
    }

    // The slot k, given up in state s, takes a reference to f.
    method PointSlot(ghost s: Files, f: Fcb, k: Slot)
      requires InRange(s) && f < ft.Length
      requires Abs() == Close(s, k).(fidt := s.fidt)
      modifies ft, this`fidt
      ensures Abs() == CopySlot(Close(s, k), f, k)
    {
      FcbIncref(f);
      fidt := fidt[k := f];
      assert (s.fidt - {k})[k := f] == s.fidt[k := f];
    }

    // "FCB_decref(FIDT[i])" of giving up a slot comes before "FIDT[i] = ..." in
    // sys_Dup2 and in sys_ThreadExit. The slot still holds its pointer afterwards.
    method DropFirst(k: Slot, retClose: int)
      requires k in fidt && fidt[k] < ft.Length
      modifies ft, this`freelist, this`trace
      ensures Abs().(fidt := fidt - {k}) == DropSlot(old(Abs()), k)
      ensures trace == old(trace) + CloseEvent(old(Abs()), fidt[k])
    {
      var r := FcbDecref(fidt[k], retClose);
    }

    // sys_ThreadExit, lines 232-239: the last thread closes all files.
    method CloseAll(pid: nat, retClose: int)
      requires Conserved(Abs())
      modifies ft, this`freelist, this`fidt, this`trace
      ensures Conserved(Abs()) && Abs() == Apply(old(Abs()), DoExit(pid), maxFileid)
      ensures trace == old(trace) + Events(old(Abs()), DoExit(pid), maxFileid)
      ensures forall k :: k in fidt <==> k in old(fidt) && !(k.pid == pid && k.fid < maxFileid)
      ensures forall k :: k in fidt ==> fidt[k] == old(fidt)[k]
      ensures ClosedExactly(old(Abs()), Abs(), Events(old(Abs()), DoExit(pid), maxFileid))
    {
      ghost var s, es := Abs(), CloseFromEvents(Abs(), pid, 0, maxFileid);
      CloseFromOk(s, pid, 0, maxFileid);
      CloseFromFids(s, pid, 0, maxFileid);
      ExitOnlyCloses(s, pid, 0, maxFileid);
      ClosesAreExact(s, CloseFrom(s, pid, 0, maxFileid), es);
      for i := 0 to maxFileid
        invariant Conserved(Abs()) && CloseFrom(Abs(), pid, i, maxFileid) == CloseFrom(s, pid, 0, maxFileid)
        invariant trace + CloseFromEvents(Abs(), pid, i, maxFileid) == old(trace) + es
      {
        CloseOne(Slot(pid, i), i, retClose);
      }
    }

    // The body of that loop.
    method CloseOne(k: Slot, ghost i: nat, retClose: int)
      requires Conserved(Abs()) && k.fid == i < maxFileid
      modifies ft, this`freelist, this`fidt, this`trace
      ensures Conserved(Abs()) && Abs() == Close(old(Abs()), k)
      ensures CloseFrom(Abs(), k.pid, i + 1, maxFileid) == CloseFrom(old(Abs()), k.pid, i, maxFileid)
      ensures trace + CloseFromEvents(Abs(), k.pid, i + 1, maxFileid)
           == old(trace) + CloseFromEvents(old(Abs()), k.pid, i, maxFileid)
    {
      ghost var s, tr := Abs(), trace;
      CloseOk(s, k);
      if k in fidt {
        DropFirst(k, retClose);
        fidt := fidt - {k};
      }
      ghost var rest := CloseFromEvents(Abs(), k.pid, i + 1, maxFileid);
      assert k == Slot(k.pid, i);
      assert (tr + CloseEvents(s, k)) + rest == tr + (CloseEvents(s, k) + rest);
      assert trace == tr + CloseEvents(s, k);
    }

    // sys_Exec, lines 190-195: the child inherits the parent's file ids.
    method InheritFiles(parent: nat, child: nat)
      requires Conserved(Abs()) && Enabled(Abs(), DoInherit(parent, child), maxFileid)
      modifies ft, this`fidt
      ensures Conserved(Abs()) && Abs() == Apply(old(Abs()), DoInherit(parent, child), maxFileid)
      ensures forall k :: k in fidt <==>
                k in old(fidt) || (k.pid == child && k.fid < maxFileid && Slot(parent, k.fid) in old(fidt))
      ensures forall k :: k in fidt ==> fidt[k] == old(fidt)[if k.pid == child then Slot(parent, k.fid) else k]
    {
      ghost var s := Abs();
      InheritFromOk(s, parent, child, 0, maxFileid);
      InheritFids(s, parent, child, 0, maxFileid);
      for i := 0 to maxFileid
        invariant Conserved(Abs())
        invariant InheritFrom(Abs(), parent, child, i, maxFileid) == InheritFrom(s, parent, child, 0, maxFileid)
        invariant forall k :: k in fidt && k.pid == child ==> k.fid < i
      {
        InheritFile(parent, child, i);
      }
    }

    // The body of that loop.
    method InheritFile(parent: nat, child: nat, i: nat)
      requires Conserved(Abs()) && parent != child && Slot(child, i) !in fidt
      modifies ft, this`fidt
      ensures Conserved(Abs()) && Abs() == InheritOne(old(Abs()), parent, child, i)
      ensures forall k :: k in fidt && k !in old(fidt) ==> k == Slot(child, i)
    {
      InheritOneOk(Abs(), parent, child, i);
      if Slot(parent, i) in fidt {
        var f := fidt[Slot(parent, i)];
        fidt := fidt[Slot(child, i) := f];
        FcbIncref(f);
      }
    }

    // FCB_reserve. On failure to get enough FCBs the ones acquired go back, in
    // reverse order.
    method FcbReserve(pid: nat, num: nat) returns (ok: bool, fid: seq<nat>, fcb: seq<Fcb>)
      requires Conserved(Abs())
      modifies ft, this`freelist, this`fidt, this`trace
      ensures Conserved(Abs()) && Abs() == Apply(old(Abs()), DoReserve(pid, num), maxFileid)
      ensures trace == old(trace) + Events(old(Abs()), DoReserve(pid, num), maxFileid)
      ensures ok <==> num <= |FreeFids(old(fidt), pid, 0, maxFileid)| && num <= |old(freelist)|
      ensures ok ==> fid == FreeFids(old(fidt), pid, 0, maxFileid)[..num] && fcb == old(freelist)[..num]
      ensures ok ==> freelist == old(freelist)[num..]
      ensures !ok ==> fidt == old(fidt)
      ensures !ok ==> freelist == (if num <= |FreeFids(fidt, pid, 0, maxFileid)| then Reversed(old(freelist))
                                   else old(freelist))
    {
      ghost var s := Abs();
      ReserveOk(s, pid, num, maxFileid);
      ok, fcb := false, [];
      var found;
      found, fid := FindFids(pid, num);
      if !found { return; }
      var enough;
      enough, fcb := AcquireAll(num);
      if !enough { return; }
      ok := true;
      FidsAreFree(pid, fid, num);
      InstallFound(s, pid, fid, fcb);
      trace := trace + InstallEvents(s, num);
    }

    // The FCBs that were acquired in state s are installed.
    method InstallFound(ghost s: Files, pid: nat, fid: seq<nat>, fcb: seq<Fcb>)
      requires Conserved(s) && |s.refcount| == ft.Length && s.using == using && s.fidt == fidt
      requires |fid| == |fcb| <= |s.freelist| && fcb == s.freelist[..|fid|] && freelist == s.freelist[|fid|..]
      requires Inv(Abs(), multiset{}, fcb) && Distinct(fid)
      requires forall f :: 0 <= f < ft.Length ==> ft[f] == if f in fcb then 0 else s.refcount[f]
      requires forall i :: 0 <= i < |fid| ==> Slot(pid, fid[i]) !in fidt
      modifies ft, this`fidt
      ensures Abs() == StreamSteps.InstallAll(s, pid, fid)
    {
      InstallAll(pid, fid, fcb);
      IsInstallAll(s, pid, fid, Abs());
    }

    lemma FidsAreFree(pid: nat, fid: seq<nat>, num: nat)
      requires num <= |FreeFids(fidt, pid, 0, maxFileid)| && fid == FreeFids(fidt, pid, 0, maxFileid)[..num]
      ensures Distinct(fid) && forall i :: 0 <= i < |fid| ==> Slot(pid, fid[i]) !in fidt
    {
      var free := FreeFids(fidt, pid, 0, maxFileid);
      FreeFidsSpec(fidt, pid, 0, maxFileid);
      forall i | 0 <= i < num ensures Slot(pid, fid[i]) !in fidt { assert fid[i] == free[i] && free[i] in free; }
    }

    // Lines 72-78: the first num free file ids.
    method FindFids(pid: nat, num: nat) returns (ok: bool, fid: seq<nat>)
      ensures ok <==> num <= |FreeFids(fidt, pid, 0, maxFileid)|
      ensures ok ==> fid == FreeFids(fidt, pid, 0, maxFileid)[..num]
    {
      fid := [];
      ghost var all := FreeFids(fidt, pid, 0, maxFileid);
      var f, i := 0, 0;
      while i < num
        invariant i <= num && |fid| == i && f <= maxFileid
        invariant all == fid + FreeFids(fidt, pid, f, maxFileid)
      {
        while f < maxFileid && Slot(pid, f) in fidt
          invariant f <= maxFileid && all == fid + FreeFids(fidt, pid, f, maxFileid)
        {
          f := f + 1;
        }
        if f == maxFileid { return false, fid; }
        AppendAssoc(fid, f, FreeFids(fidt, pid, f + 1, maxFileid));
        fid := fid + [f];
        f := f + 1;
        i := i + 1;
      }
      ok := true;
    }

    // Lines 80-90: acquire num FCBs, or roll back.
    method AcquireAll(num: nat) returns (ok: bool, fcb: seq<Fcb>)
      requires Conserved(Abs())
      modifies ft, this`freelist
      ensures ok <==> num <= |old(freelist)|
      ensures ok ==> fcb == old(freelist)[..num] && freelist == old(freelist)[num..] && Inv(Abs(), multiset{}, fcb)
      ensures ok ==> forall f :: 0 <= f < ft.Length ==> ft[f] == if f in fcb then 0 else old(ft[f])
      ensures !ok ==> freelist == Reversed(old(freelist)) && Abs() == Rolled(old(Abs())) && Conserved(Abs())
    {
      fcb := [];
      var i := 0;
      ghost var all := freelist;
      while i < num
        invariant i <= num && |fcb| == i && all == fcb + freelist && Inv(Abs(), multiset{}, fcb)
        invariant forall f :: 0 <= f < ft.Length ==> ft[f] == if f in fcb then 0 else old(ft[f])
        decreases num - i
      {
        var got, f := AcquireNext(fcb);
        if !got { break; }
        AppendAssoc(fcb, f, freelist);
        fcb := fcb + [f];
        i := i + 1;
      }
      ok := i == num;
      if i < num {
        assert freelist == [] && fcb + [] == fcb;
        RollBack(fcb);
        assert ft[..] == Rolled(old(Abs())).refcount;
      } else {
        assert all[..num] == fcb && all[num..] == freelist;
      }
    }

    // One round of the loop of lines 80-82.
    method AcquireNext(ghost taken: seq<Fcb>) returns (ok: bool, f: Fcb)
      requires Inv(Abs(), multiset{}, taken)
      modifies ft, this`freelist
      ensures ok <==> old(freelist) != []
      ensures ok ==> old(freelist) == [f] + freelist && Inv(Abs(), multiset{}, taken + [f])
      ensures ok ==> f < ft.Length && forall g :: 0 <= g < ft.Length ==> ft[g] == if g == f then 0 else old(ft[g])
      ensures !ok ==> Abs() == old(Abs()) && freelist == []
    {
      ghost var s := Abs();
      ok, f := AcquireFCB();
      if ok { AcquireInv(s, multiset{}, taken); }
    }

    // Lines 85-88.
    method RollBack(fcb: seq<Fcb>)
      requires Inv(Abs(), multiset{}, fcb) && freelist == []
      modifies this`freelist
      ensures freelist == Reversed(fcb) && Conserved(Abs())
    {
      var i := |fcb|;
      assert fcb[..i] == fcb;
      while i > 0
        invariant i <= |fcb| && Inv(Abs(), multiset{}, fcb[..i]) && freelist + Reversed(fcb[..i]) == Reversed(fcb)
      {
        ReleaseInv(Abs(), multiset{}, fcb[..i]);
        assert fcb[..i][..i - 1] == fcb[..i - 1];
        AppendAssoc(freelist, fcb[i - 1], Reversed(fcb[..i - 1]));
        ReleaseFCB(fcb[i - 1]);
        i := i - 1;
      }
    }

    // Lines 92-95.
    method InstallAll(pid: nat, fid: seq<nat>, fcb: seq<Fcb>)
      requires Inv(Abs(), multiset{}, fcb) && |fid| == |fcb| && Distinct(fid)
      requires forall i :: 0 <= i < |fcb| ==> fcb[i] < ft.Length && ft[fcb[i]] == 0
      requires forall i :: 0 <= i < |fid| ==> Slot(pid, fid[i]) !in fidt
      modifies ft, this`fidt
      ensures Conserved(Abs())
      ensures forall f :: 0 <= f < ft.Length ==> ft[f] == if f in fcb then 1 else old(ft[f])
      ensures forall k :: k in fidt <==> k in old(fidt) || (k.pid == pid && k.fid in fid)
      ensures forall k :: k in old(fidt) ==> k in fidt && fidt[k] == old(fidt)[k]
      ensures forall i :: 0 <= i < |fid| ==> Slot(pid, fid[i]) in fidt && fidt[Slot(pid, fid[i])] == fcb[i]
    {
      assert fcb[0..] == fcb;
      for i := 0 to |fid|
        invariant Inv(Abs(), multiset{}, fcb[i..])
        invariant forall f :: 0 <= f < ft.Length ==> ft[f] == if f in fcb[..i] then 1 else old(ft[f])
        invariant forall k :: k in fidt <==> k in old(fidt) || (k.pid == pid && k.fid in fid[..i])
        invariant forall k :: k in old(fidt) ==> k in fidt && fidt[k] == old(fidt)[k]
        invariant forall j :: 0 <= j < i ==> Slot(pid, fid[j]) in fidt && fidt[Slot(pid, fid[j])] == fcb[j]
      {
        assert fid[..i + 1] == fid[..i] + [fid[i]] && fcb[..i + 1] == fcb[..i] + [fcb[i]];
        assert fcb[i] !in fcb[..i] && fcb[i..][0] == fcb[i] && fcb[i..][1..] == fcb[i + 1..];
        InstallNext(Slot(pid, fid[i]), fcb[i], fcb[i..]);
      }
      assert fid[..|fid|] == fid && fcb[..|fcb|] == fcb;
    }

    // One round of that loop.
    method InstallNext(k: Slot, f: Fcb, ghost taken: seq<Fcb>)
      requires Inv(Abs(), multiset{}, taken) && taken != [] && taken[0] == f < ft.Length && k !in fidt
      modifies ft, this`fidt
      ensures Inv(Abs(), multiset{}, taken[1..])
      ensures fidt == old(fidt)[k := f]
      ensures forall g :: 0 <= g < ft.Length ==> ft[g] == if g == f then old(ft[g]) + 1 else old(ft[g])
    {
      ghost var s := Abs();
      fidt := fidt[k := f];
      FcbIncref(f);
      IncRefTakenInv(s, multiset{}, taken);
      PutSlotInv(IncRef(s, f), multiset{} + multiset{f}, taken[1..], k, f);
      assert multiset{} + multiset{f} - multiset{f} == multiset{};
      assert Abs() == PutSlot(IncRef(s, f), k, f);
    }

    // FCB_unreserve
    method FcbUnreserve(pid: nat, fid: seq<nat>, fcb: seq<Fcb>)
      requires Conserved(Abs()) && |fid| == |fcb| && Distinct(fcb)
      requires forall i :: 0 <= i < |fid| ==> Slot(pid, fid[i]) in fidt && fidt[Slot(pid, fid[i])] == fcb[i]
      requires forall i :: 0 <= i < |fcb| ==> Count(Abs(), fcb[i]) == 1
      modifies this`freelist, this`fidt, this`trace
      ensures Conserved(Abs()) && freelist == old(freelist) + fcb
      ensures forall k :: k in fidt <==> k in old(fidt) && !(k.pid == pid && k.fid in fid)
      ensures forall k :: k in fidt ==> fidt[k] == old(fidt)[k]
      ensures trace == old(trace) + UnreserveEvents(fcb)
    {
      assert fcb[..0] == [] && fid[..0] == [];
      for i := 0 to |fid|
        invariant Conserved(Abs()) && freelist == old(freelist) + fcb[..i]
        invariant forall k :: k in fidt <==> k in old(fidt) && !(k.pid == pid && k.fid in fid[..i])
        invariant forall k :: k in fidt ==> fidt[k] == old(fidt)[k]
        invariant forall j :: i <= j < |fid| ==> Slot(pid, fid[j]) in fidt
        invariant forall j :: i <= j < |fcb| ==> Count(Abs(), fcb[j]) == 1
        invariant trace == old(trace) + UnreserveEvents(fcb[..i])
      {
        assert fid[..i + 1] == fid[..i] + [fid[i]] && fcb[..i + 1] == fcb[..i] + [fcb[i]];
        OneMoreEvent(old(trace), fcb[..i], fcb[i]);
        assert old(freelist) + (fcb[..i] + [fcb[i]]) == (old(freelist) + fcb[..i]) + [fcb[i]];
        UnreserveOne(Slot(pid, fid[i]));
      }
      assert fid[..|fid|] == fid && fcb[..|fcb|] == fcb;
    }

    // The body of that loop.
    method UnreserveOne(k: Slot)
      requires Conserved(Abs()) && k in fidt && Count(Abs(), fidt[k]) == 1
      modifies this`freelist, this`fidt, this`trace
      ensures Conserved(Abs()) && Abs() == Unreserve(old(Abs()), k) && trace == old(trace) + [Unreserved(old(fidt)[k])]
      ensures forall g: Fcb :: g != old(fidt)[k] ==> Count(Abs(), g) == Count(old(Abs()), g)
    {
      UnreserveInv(Abs(), k);
      var f := fidt[k];
      fidt := fidt - {k};
      ReleaseFCB(f);
      trace := trace + [Unreserved(f)];
    }

    // FCB_reserve(1, ...), as its callers use it.
    method ReserveOne(pid: nat) returns (ok: bool, fid: nat, f: Fcb)
      requires Conserved(Abs())
      modifies ft, this`freelist, this`fidt, this`trace
      ensures Conserved(Abs())
      ensures ok <==> CanReserve(old(Abs()), pid, 1, maxFileid)
      ensures ok ==> fid == FreeFids(old(fidt), pid, 0, maxFileid)[0] && f == old(freelist)[0] < ft.Length
      ensures ok ==> Slot(pid, fid) !in old(fidt) && Abs() == Install(old(Abs()), Slot(pid, fid))
      ensures ok ==> trace == old(trace) + [Installed(f)]
      ensures !ok ==> Abs() == Reserve(old(Abs()), pid, 1, maxFileid) && trace == old(trace)
      ensures !ok ==> fidt == old(fidt) && multiset(freelist) == multiset(old(freelist))
    {
      ghost var s := Abs();
      var fids, fcbs;
      ok, fids, fcbs := FcbReserve(pid, 1);
      fid, f := 0, 0;
      ReversedMultiset(s.freelist);
      if ok {
        fid, f := fids[0], fcbs[0];
        FirstFid(s.fidt, pid, maxFileid);
        InstallJustOne(s, pid, fids);
      }
    }

    // open_stream; `deviceOk` says whether device_open finds the device. NOFILE
    // is -1. A failed device_open undoes the reservation.
    method OpenStream(pid: nat, deviceOk: bool) returns (fid: int)
      requires Conserved(Abs())
      modifies ft, this`freelist, this`fidt, this`trace
      ensures Conserved(Abs()) && Abs() == Open(old(Abs()), pid, deviceOk, maxFileid)
      ensures trace == old(trace) + OpenEvents(old(Abs()), pid, deviceOk, maxFileid)
      ensures fid == if deviceOk && old(freelist) != [] && FreeFids(old(fidt), pid, 0, maxFileid) != []
                     then FreeFids(old(fidt), pid, 0, maxFileid)[0] else -1
      ensures fid == -1 ==> fidt == old(fidt) && multiset(freelist) == multiset(old(freelist))
      ensures fid != -1 ==> fidt == old(fidt)[Slot(pid, fid) := old(freelist)[0]] && freelist == old(freelist)[1..]
    {
      ghost var s := Abs();
      var ok, id, f := ReserveOne(pid);
      if !ok { return -1; }
      if deviceOk { return id; }
      Unopen(s, pid, id, f);
      fid := -1;
    }

    // FCB_unreserve(1, ...), as open_stream uses it.
    method Unopen(ghost s: Files, pid: nat, id: nat, f: Fcb)
      requires Conserved(s) && s.freelist != [] && f == s.freelist[0] < |s.refcount| && Slot(pid, id) !in s.fidt
      requires Abs() == Install(s, Slot(pid, id))
      modifies this`freelist, this`fidt, this`trace
      ensures Conserved(Abs()) && Abs() == Unreserve(Install(s, Slot(pid, id)), Slot(pid, id))
      ensures trace == old(trace) + [Unreserved(f)]
      ensures fidt == s.fidt && multiset(freelist) == multiset(s.freelist)
    {
      ghost var m, k := Abs(), Slot(pid, id);
      InstallOk(s, k);
      FcbUnreserve(pid, [id], [f]);
      assert fidt == m.fidt - {k};
      assert m.fidt - {k} == s.fidt;
      assert s.freelist == [f] + s.freelist[1..];
    }

    // The two reservations of sys_Pipe (kernel_pipe.c, lines 13-14). The second
    // failing does not undo the first.
    method ReservePipe(pid: nat) returns (ok: bool, rd: nat, wr: nat)
      requires Conserved(Abs())
      modifies ft, this`freelist, this`fidt, this`trace
      ensures Conserved(Abs()) && Abs() == Apply(old(Abs()), DoPipe(pid), maxFileid)
      ensures trace == old(trace) + Events(old(Abs()), DoPipe(pid), maxFileid)
      ensures ok <==> |FreeFids(old(fidt), pid, 0, maxFileid)| >= 2 && |old(freelist)| >= 2
      ensures ok ==> rd == FreeFids(old(fidt), pid, 0, maxFileid)[0] && wr == FreeFids(old(fidt), pid, 0, maxFileid)[1]
      ensures ok ==> rd != wr && old(freelist)[0] != old(freelist)[1]
      ensures ok ==> fidt == old(fidt)[Slot(pid, rd) := old(freelist)[0]][Slot(pid, wr) := old(freelist)[1]]
      ensures !ok ==> (fidt == old(fidt) <==> FreeFids(old(fidt), pid, 0, maxFileid) == [] || old(freelist) == [])
    {
      ghost var s := Abs();
      CannotReserveOne(s, pid, maxFileid);
      var f;
      wr := 0;
      ok, rd, f := ReserveOne(pid);
      if ok {
        ok, wr := ReserveSecond(s, old(trace), pid, rd);
      }
    }

    // The second reservation, after a first one in state s.
    method ReserveSecond(ghost s: Files, ghost before: seq<Event>, pid: nat, rd: nat) returns (ok: bool, wr: nat)
      requires Conserved(Abs()) && Conserved(s) && CanReserve(s, pid, 1, maxFileid)
      requires rd == FreeFids(s.fidt, pid, 0, maxFileid)[0] && Abs() == Install(s, Slot(pid, rd))
      requires trace == before + [Installed(s.freelist[0])]
      modifies ft, this`freelist, this`fidt, this`trace
      ensures Conserved(Abs()) && Abs() == PipeFids(s, pid, maxFileid)
      ensures trace == before + PipeEvents(s, pid, maxFileid)
      ensures ok <==> |FreeFids(s.fidt, pid, 0, maxFileid)| >= 2 && |s.freelist| >= 2
      ensures ok ==> wr == FreeFids(s.fidt, pid, 0, maxFileid)[1] && wr != rd && s.freelist[0] != s.freelist[1]
      ensures fidt == if ok then s.fidt[Slot(pid, rd) := s.freelist[0]][Slot(pid, wr) := s.freelist[1]]
                      else s.fidt[Slot(pid, rd) := s.freelist[0]]
      ensures fidt != s.fidt
    {
      AfterFirst(s, pid, maxFileid);
      CannotReserveOne(Abs(), pid, maxFileid);
      var f;
      ok, wr, f := ReserveOne(pid);
      assert Slot(pid, rd) in fidt && Slot(pid, rd) !in s.fidt;
    }
  }

  // What the first reservation of sys_Pipe leaves to the second.
  lemma AfterFirst(s: Files, pid: nat, max: nat)
    requires Conserved(s) && CanReserve(s, pid, 1, max)
    ensures var free, q := FreeFids(s.fidt, pid, 0, max), s.freelist;
      && Slot(pid, free[0]) !in s.fidt
      && FreeFids(s.fidt[Slot(pid, free[0]) := q[0]], pid, 0, max) == free[1..]
      && (|free| >= 2 ==> free[0] != free[1]) && (|q| >= 2 ==> q[0] != q[1])
  {
    FirstFid(s.fidt, pid, max);
    FreeFidsTail(s.fidt, pid, 0, max, s.freelist[0]);
    FreeFidsSpec(s.fidt, pid, 0, max);
  }

  // A failed reservation of one FCB leaves all as it was.
  lemma CannotReserveOne(s: Files, pid: nat, max: nat)
    requires InRange(s)
    ensures !CanReserve(s, pid, 1, max) ==> Reserve(s, pid, 1, max) == s
  {
    if s.freelist == [] {
      assert Rolled(s).refcount == s.refcount;
    }
  }

  // A reservation of one FCB is one installation.
  lemma InstallJustOne(s: Files, pid: nat, fids: seq<nat>)
    requires InRange(s) && |fids| == 1 <= |s.freelist|
    ensures InstallAll(s, pid, fids) == Install(s, Slot(pid, fids[0]))
    ensures InstallEvents(s, 1) == [Installed(s.freelist[0])]
  {
    assert fids[1..] == [];
  }
}
