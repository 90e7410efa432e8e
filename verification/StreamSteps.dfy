// The system calls of kernel_streams.c (with Exec, Pipe and process exit) as steps
// on the table of references, and the life of a stream over runs of them.
module StreamSteps {
  import opened Lists
  import opened Streams

  // What happens to an FCB: it is acquired and installed at a file id, its Close
  // is called, or its reservation is undone.
  datatype Event = Installed(f: Fcb) | Closed(f: Fcb) | Unreserved(f: Fcb)

  // ------------------------------------------------------------------
  // Single references
  // ------------------------------------------------------------------

  // The free file ids of a process, from `from` up.
  function FreeFids(fidt: map<Slot, Fcb>, pid: nat, from: nat, max: nat): seq<nat>
    decreases max - from
  {
    if from >= max then []
    else if Slot(pid, from) in fidt then FreeFids(fidt, pid, from + 1, max)
    else [from] + FreeFids(fidt, pid, from + 1, max)
  }

  lemma {:induction false} FreeFidsSpec(fidt: map<Slot, Fcb>, pid: nat, from: nat, max: nat)
    ensures forall i :: i in FreeFids(fidt, pid, from, max) <==> from <= i < max && Slot(pid, i) !in fidt
    ensures forall i, j :: 0 <= i < j < |FreeFids(fidt, pid, from, max)|
              ==> FreeFids(fidt, pid, from, max)[i] < FreeFids(fidt, pid, from, max)[j]
    decreases max - from
  {
    if from >= max {
    } else {
      FreeFidsSpec(fidt, pid, from + 1, max);
      var r := FreeFids(fidt, pid, from + 1, max);
      if Slot(pid, from) !in fidt { SmallerInFront(from, r); }
    }
  }

  lemma SmallerInFront(x: nat, r: seq<nat>)
    requires forall i, j :: 0 <= i < j < |r| ==> r[i] < r[j]
    requires forall i :: i in r ==> x < i
    ensures forall i, j :: 0 <= i < j < |[x] + r| ==> ([x] + r)[i] < ([x] + r)[j]
    ensures forall i :: i in [x] + r <==> i == x || i in r
  {
    forall i | 0 <= i < |r| ensures x < r[i] { assert r[i] in r; }
  }

  lemma FirstFid(fidt: map<Slot, Fcb>, pid: nat, max: nat)
    requires FreeFids(fidt, pid, 0, max) != []
    ensures Slot(pid, FreeFids(fidt, pid, 0, max)[0]) !in fidt
  {
    FreeFidsSpec(fidt, pid, 0, max);
    assert FreeFids(fidt, pid, 0, max)[0] in FreeFids(fidt, pid, 0, max);
  }

  // Taking the first free file id leaves the others.
  lemma {:induction false} FreeFidsTail(fidt: map<Slot, Fcb>, pid: nat, from: nat, max: nat, f: Fcb)
    requires FreeFids(fidt, pid, from, max) != []
    ensures var free := FreeFids(fidt, pid, from, max);
      FreeFids(fidt[Slot(pid, free[0]) := f], pid, from, max) == free[1..]
    decreases max - from
  {
    if Slot(pid, from) in fidt {
      FreeFidsTail(fidt, pid, from + 1, max, f);
    } else {
      FreeFidsBeyond(fidt, pid, from, from + 1, max, f);
    }
  }

  lemma {:induction false} FreeFidsBeyond(fidt: map<Slot, Fcb>, pid: nat, fid: nat, from: nat, max: nat, f: Fcb)
    requires fid < from
    ensures FreeFids(fidt[Slot(pid, fid) := f], pid, from, max) == FreeFids(fidt, pid, from, max)
    decreases max - from
  {
    if from >= max {
    } else {
      FreeFidsBeyond(fidt, pid, fid, from + 1, max, f);
    }
  }

  // Every FCB that a table names exists.
  predicate InRange(s: Files) {
    && (forall k :: k in s.fidt ==> s.fidt[k] < |s.refcount|)
    && (forall t :: t in s.using ==> s.using[t] < |s.refcount|)
    && (forall i :: 0 <= i < |s.freelist| ==> s.freelist[i] < |s.refcount|)
  }

  // A file id is given up: "FCB_decref(FIDT[i]); FIDT[i] = NULL".
  function DropSlot(s: Files, k: Slot): Files
    requires k in s.fidt && s.fidt[k] < |s.refcount|
  {
    DecRef(ClearSlot(s, k), s.fidt[k])
  }

  // The call of Close in FCB_decref(f).
  function CloseEvent(s: Files, f: Fcb): seq<Event>
    requires f < |s.refcount|
  {
    if s.refcount[f] == 1 then [Closed(f)] else []
  }

  function DropUse(s: Files, t: nat): Files
    requires t in s.using && s.using[t] < |s.refcount|
  {
    DecRef(ClearUse(s, t), s.using[t])
  }

  function CopySlot(s: Files, f: Fcb, k: Slot): Files
    requires f < |s.refcount|
  {
    PutSlot(IncRef(s, f), k, f)
  }

  function TakeUse(s: Files, f: Fcb, t: nat): Files
    requires f < |s.refcount|
  {
    PutUse(IncRef(s, f), t, f)
  }

  // acquire_FCB, FIDT[fid] = fcb, FCB_incref(fcb)
  function Install(s: Files, k: Slot): Files
    requires s.freelist != [] && s.freelist[0] < |s.refcount|
  {
    PutSlot(IncRef(Acquire(s), s.freelist[0]), k, s.freelist[0])
  }

  // Acquiring all free FCBs, and giving them back last first.
  function Rolled(s: Files): Files {
    s.(freelist := Reversed(s.freelist),
       refcount := seq(|s.refcount|, f requires 0 <= f < |s.refcount| => if f in s.freelist then 0 else s.refcount[f]))
  }

  // ------------------------------------------------------------------
  // The system calls
  // ------------------------------------------------------------------

  // The installation loop of FCB_reserve.
  function InstallAll(s: Files, pid: nat, fids: seq<nat>): Files
    requires |fids| <= |s.freelist| && forall i :: 0 <= i < |s.freelist| ==> s.freelist[i] < |s.refcount|
    decreases |fids|
  {
    if fids == [] then s else InstallAll(Install(s, Slot(pid, fids[0])), pid, fids[1..])
  }

  function InstallEvents(s: Files, n: nat): seq<Event>
    requires n <= |s.freelist|
  {
    seq(n, i requires 0 <= i < n => Installed(s.freelist[i]))
  }

  function Reserve(s: Files, pid: nat, num: nat, max: nat): Files
    requires InRange(s)
  {
    var free := FreeFids(s.fidt, pid, 0, max);
    if num > |free| then s else if num > |s.freelist| then Rolled(s) else InstallAll(s, pid, free[..num])
  }

  predicate CanReserve(s: Files, pid: nat, num: nat, max: nat) {
    num <= |FreeFids(s.fidt, pid, 0, max)| && num <= |s.freelist|
  }

  function ReserveEvents(s: Files, pid: nat, num: nat, max: nat): seq<Event> {
    if CanReserve(s, pid, num, max) then InstallEvents(s, num) else []
  }

  // open_stream
  function Open(s: Files, pid: nat, deviceOk: bool, max: nat): Files
    requires InRange(s)
  {
    if !CanReserve(s, pid, 1, max) then Reserve(s, pid, 1, max)
    else
      var k := Slot(pid, FreeFids(s.fidt, pid, 0, max)[0]);
      if deviceOk then Install(s, k) else Unreserve(Install(s, k), k)
  }

  function OpenEvents(s: Files, pid: nat, deviceOk: bool, max: nat): seq<Event> {
    if !CanReserve(s, pid, 1, max) then []
    else [Installed(s.freelist[0])] + if deviceOk then [] else [Unreserved(s.freelist[0])]
  }

  // sys_Close
  function Close(s: Files, k: Slot): Files
    requires InRange(s)
  {
    if k in s.fidt then DropSlot(s, k) else s
  }

  function CloseEvents(s: Files, k: Slot): seq<Event>
    requires InRange(s)
  {
    if k in s.fidt then CloseEvent(s, s.fidt[k]) else []
  }

  // sys_Dup2 for two valid ids.
  function Dup2(s: Files, ko: Slot, kn: Slot): Files
    requires InRange(s)
  {
    if ko !in s.fidt || (kn in s.fidt && s.fidt[kn] == s.fidt[ko]) then s
    else CopySlot(Close(s, kn), s.fidt[ko], kn)
  }

  function Dup2Events(s: Files, ko: Slot, kn: Slot): seq<Event>
    requires InRange(s)
  {
    if ko !in s.fidt || (kn in s.fidt && s.fidt[kn] == s.fidt[ko]) then [] else CloseEvents(s, kn)
  }

  // The loop of sys_ThreadExit over file ids i, i + 1, ...
  function CloseFrom(s: Files, pid: nat, i: nat, max: nat): Files
    requires InRange(s)
    decreases max - i
  {
    if i >= max then s else CloseFrom(Close(s, Slot(pid, i)), pid, i + 1, max)
  }

  function CloseFromEvents(s: Files, pid: nat, i: nat, max: nat): seq<Event>
    requires InRange(s)
    decreases max - i
  {
    if i >= max then []
    else CloseEvents(s, Slot(pid, i)) + CloseFromEvents(Close(s, Slot(pid, i)), pid, i + 1, max)
  }

  // One round of the loop of sys_Exec, and the rounds from i on.
  function InheritOne(s: Files, parent: nat, child: nat, i: nat): Files
    requires InRange(s)
  {
    if Slot(parent, i) in s.fidt then CopySlot(s, s.fidt[Slot(parent, i)], Slot(child, i)) else s
  }

  function InheritFrom(s: Files, parent: nat, child: nat, i: nat, max: nat): Files
    requires InRange(s)
    decreases max - i
  {
    if i >= max then s else InheritFrom(InheritOne(s, parent, child, i), parent, child, i + 1, max)
  }

  // sys_Read and sys_Write, up to the stream's function.
  function Begin(s: Files, k: Slot, t: nat): Files
    requires InRange(s)
  {
    if k in s.fidt then TakeUse(s, s.fidt[k], t) else s
  }

  // The two reservations of sys_Pipe.
  function PipeFids(s: Files, pid: nat, max: nat): Files
    requires InRange(s)
  {
    if CanReserve(s, pid, 1, max) then
      var s1 := Install(s, Slot(pid, FreeFids(s.fidt, pid, 0, max)[0]));
      if CanReserve(s1, pid, 1, max) then Install(s1, Slot(pid, FreeFids(s1.fidt, pid, 0, max)[0])) else s1
    else s
  }

  function PipeEvents(s: Files, pid: nat, max: nat): seq<Event>
    requires InRange(s)
  {
    if CanReserve(s, pid, 1, max) then
      var s1 := Install(s, Slot(pid, FreeFids(s.fidt, pid, 0, max)[0]));
      [Installed(s.freelist[0])] + if CanReserve(s1, pid, 1, max) then [Installed(s1.freelist[0])] else []
    else []
  }

  datatype Step =
    | DoReserve(pid: nat, num: nat)
    | DoOpen(pid: nat, deviceOk: bool)
    | DoPipe(pid: nat)
    | DoBegin(k: Slot, t: nat)
    | DoEnd(t: nat)
    | DoClose(k: Slot)
    | DoDup2(ko: Slot, kn: Slot)
    | DoInherit(parent: nat, child: nat)
    | DoExit(pid: nat)

  // A process names its own file ids, below MAX_FILEID. A new process has none.
  ghost predicate Enabled(s: Files, step: Step, max: nat) {
    match step
    case DoBegin(k, t) => k.fid < max && t !in s.using
    case DoEnd(t) => t in s.using
    case DoClose(k) => k.fid < max
    case DoDup2(ko, kn) => ko.pid == kn.pid && ko.fid < max && kn.fid < max
    case DoInherit(parent, child) => parent != child && forall k :: k in s.fidt ==> k.pid != child
    case _ => true
  }

  ghost function Apply(s: Files, step: Step, max: nat): Files
    requires InRange(s) && Enabled(s, step, max)
  {
    match step
    case DoReserve(pid, num) => Reserve(s, pid, num, max)
    case DoOpen(pid, deviceOk) => Open(s, pid, deviceOk, max)
    case DoPipe(pid) => PipeFids(s, pid, max)
    case DoBegin(k, t) => Begin(s, k, t)
    case DoEnd(t) => DropUse(s, t)
    case DoClose(k) => Close(s, k)
    case DoDup2(ko, kn) => Dup2(s, ko, kn)
    case DoInherit(parent, child) => InheritFrom(s, parent, child, 0, max)
    case DoExit(pid) => CloseFrom(s, pid, 0, max)
  }

  ghost function Events(s: Files, step: Step, max: nat): seq<Event>
    requires InRange(s) && Enabled(s, step, max)
  {
    match step
    case DoReserve(pid, num) => ReserveEvents(s, pid, num, max)
    case DoOpen(pid, deviceOk) => OpenEvents(s, pid, deviceOk, max)
    case DoPipe(pid) => PipeEvents(s, pid, max)
    case DoBegin(k, t) => []
    case DoEnd(t) => CloseEvent(s, s.using[t])
    case DoClose(k) => CloseEvents(s, k)
    case DoDup2(ko, kn) => Dup2Events(s, ko, kn)
    case DoInherit(parent, child) => []
    case DoExit(pid) => CloseFromEvents(s, pid, 0, max)
  }
}
