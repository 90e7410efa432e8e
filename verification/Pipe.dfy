// Pipes (kernel_pipe.c) as a protocol: readers and writers that block, file ids
// that are duplicated and closed, and a bounded stream of bytes between them. A
// stretch under the kernel lock between two waits is one step.
module Pipe {
  type Tid = nat
  type Byte = bv8

  // A thread asleep in pipe_read or pipe_write, with the arguments of its call.
  // `signalled` becomes true when its condition variable is broadcast.
  datatype Reading = Reading(n: nat, signalled: bool)
  datatype Writing = Writing(data: seq<Byte>, signalled: bool)

  // `rslots` and `wslots` count the file ids, in all processes, of the two ends;
  // the FCB of an end has these and its threads inside a call as references.
  // `reader` and `writer` are the fields of that name, false for NULL.
  datatype Chan = Chan(
    cap: nat, contents: seq<Byte>,
    rslots: nat, wslots: nat,
    readers: map<Tid, Reading>, writers: map<Tid, Writing>,
    reader: bool, writer: bool, freed: bool)

  function Opened(cap: nat): Chan {
    Chan(cap, [], 1, 1, map[], map[], true, true, false)
  }

  function Min(a: nat, b: nat): nat { if a < b then a else b }

  // kernel_broadcast of has_data and of has_space
  function WakeReaders(s: Chan): Chan {
    s.(readers := map t | t in s.readers :: s.readers[t].(signalled := true))
  }

  function WakeWriters(s: Chan): Chan {
    s.(writers := map t | t in s.writers :: s.writers[t].(signalled := true))
  }

  // pipe_writer_close and pipe_reader_close
  function WriterClose(s: Chan): Chan {
    if s.reader then WakeReaders(s.(writer := false)) else s.(writer := false, freed := true)
  }

  function ReaderClose(s: Chan): Chan {
    if s.writer then WakeWriters(s.(reader := false)) else s.(reader := false, freed := true)
  }

  // The end of sys_Read and sys_Write, and sys_Close: a reference is given up.
  function DropReader(s: Chan): Chan {
    if s.rslots + |s.readers| == 0 then ReaderClose(s) else s
  }

  function DropWriter(s: Chan): Chan {
    if s.wslots + |s.writers| == 0 then WriterClose(s) else s
  }

  // pipe_read and pipe_write, when they do not wait.
  function Take(s: Chan, n: nat): Chan {
    WakeWriters(s.(contents := s.contents[Min(n, |s.contents|)..]))
  }

  function Give(s: Chan, data: seq<Byte>): Chan
    requires |s.contents| <= s.cap
  {
    WakeReaders(s.(contents := s.contents + data[..Min(|data|, s.cap - |s.contents|)]))
  }

  predicate MustWaitToRead(s: Chan) { s.contents == [] && s.writer }

  predicate MustWaitToWrite(s: Chan) { |s.contents| == s.cap && s.reader }

  function TryRead(s: Chan, t: Tid, n: nat): Chan {
    if MustWaitToRead(s) then s.(readers := s.readers[t := Reading(n, false)])
    else DropReader(Take(s.(readers := s.readers - {t}), n))
  }

  function TryWrite(s: Chan, t: Tid, data: seq<Byte>): Chan
    requires |s.contents| <= s.cap
  {
    if MustWaitToWrite(s) then s.(writers := s.writers[t := Writing(data, false)])
    else var s1 := s.(writers := s.writers - {t});
         DropWriter(if s.reader then Give(s1, data) else s1)
  }

  datatype Step =
    | DupReader | DupWriter | CloseReader | CloseWriter
    | Read(t: Tid, n: nat) | Write(t: Tid, data: seq<Byte>)
    | ResumeRead(t: Tid) | ResumeWrite(t: Tid)

  // A call needs a file id of the end. A sleeping thread may run without having
  // been signalled, and then looks again.
  predicate Enabled(s: Chan, step: Step) {
    match step
    case DupReader => s.rslots > 0
    case DupWriter => s.wslots > 0
    case CloseReader => s.rslots > 0
    case CloseWriter => s.wslots > 0
    case Read(t, _) => s.rslots > 0 && t !in s.readers && t !in s.writers
    case Write(t, _) => s.wslots > 0 && t !in s.readers && t !in s.writers
    case ResumeRead(t) => t in s.readers
    case ResumeWrite(t) => t in s.writers
  }

  function Apply(s: Chan, step: Step): Chan
    requires Enabled(s, step) && |s.contents| <= s.cap
  {
    match step
    case DupReader => s.(rslots := s.rslots + 1)
    case DupWriter => s.(wslots := s.wslots + 1)
    case CloseReader => DropReader(s.(rslots := s.rslots - 1))
    case CloseWriter => DropWriter(s.(wslots := s.wslots - 1))
    case Read(t, n) => TryRead(s, t, n)
    case Write(t, data) => TryWrite(s, t, data)
    case ResumeRead(t) => TryRead(s, t, s.readers[t].n)
    case ResumeWrite(t) => TryWrite(s, t, s.writers[t].data)
  }

  // The bytes that a step takes out of the pipe and puts into it.
  function Taken(s: Chan, step: Step): seq<Byte> {
    if (step.Read? || (step.ResumeRead? && step.t in s.readers)) && !MustWaitToRead(s)
    then s.contents[..Min(if step.Read? then step.n else s.readers[step.t].n, |s.contents|)] else []
  }

  function Given(s: Chan, step: Step): seq<Byte> {
    if (step.Write? || (step.ResumeWrite? && step.t in s.writers)) && s.reader && |s.contents| < s.cap
    then var data := if step.Write? then step.data else s.writers[step.t].data;
         data[..Min(|data|, s.cap - |s.contents|)]
    else []
  }

  // ------------------------------------------------------------------
  // The invariant
  // ------------------------------------------------------------------

  ghost predicate Inv(s: Chan) {
    && s.cap > 0 && |s.contents| <= s.cap
    && (s.reader <==> s.rslots > 0 || s.readers != map[])
    && (s.writer <==> s.wslots > 0 || s.writers != map[])
    && (s.freed <==> !s.reader && !s.writer)
    && (forall t :: t in s.readers && !s.readers[t].signalled ==> s.contents == [] && s.writer)
    && (forall t :: t in s.writers && !s.writers[t].signalled ==> |s.contents| == s.cap && s.reader)
    && s.readers.Keys !! s.writers.Keys
  }

  lemma NoEntries<A, B>(m: map<A, B>)
    ensures |m| == 0 <==> m == map[]
  {
    if |m| == 0 { assert m.Keys == {}; }
  }

  lemma DropReaderInv(s: Chan)
    requires s.cap > 0 && |s.contents| <= s.cap && s.reader && !s.freed
    requires s.writer <==> s.wslots > 0 || s.writers != map[]
    requires forall t :: t in s.readers && !s.readers[t].signalled ==> s.contents == [] && s.writer
    requires forall t :: t in s.writers && !s.writers[t].signalled ==> |s.contents| == s.cap
    requires s.readers.Keys !! s.writers.Keys
    ensures Inv(DropReader(s))
  {
    NoEntries(s.readers);
    NoEntries(s.writers);
    var s' := DropReader(s);
    assert s'.writers.Keys == s.writers.Keys;
    NoEntries(s'.writers);
  }

  lemma DropWriterInv(s: Chan)
    requires s.cap > 0 && |s.contents| <= s.cap && s.writer && !s.freed
    requires s.reader <==> s.rslots > 0 || s.readers != map[]
    requires forall t :: t in s.readers && !s.readers[t].signalled ==> s.contents == []
    requires forall t :: t in s.writers && !s.writers[t].signalled ==> |s.contents| == s.cap && s.reader
    requires s.readers.Keys !! s.writers.Keys
    ensures Inv(DropWriter(s))
  {
    NoEntries(s.readers);
    NoEntries(s.writers);
    var s' := DropWriter(s);
    assert s'.readers.Keys == s.readers.Keys;
    NoEntries(s'.readers);
  }

  lemma TryReadInv(s: Chan, t: Tid, n: nat)
    requires Inv(s) && s.reader && t !in s.writers
    ensures Inv(TryRead(s, t, n))
  {
    NoEntries(s.writers);
    if MustWaitToRead(s) {
      assert t in TryRead(s, t, n).readers;
    } else {
      var s1 := s.(readers := s.readers - {t});
      var s2 := Take(s1, n);
      assert s2.writers.Keys == s.writers.Keys;
      NoEntries(s2.writers);
      DropReaderInv(s2);
    }
  }

  lemma TryWriteInv(s: Chan, t: Tid, data: seq<Byte>)
    requires Inv(s) && s.writer && t !in s.readers
    ensures Inv(TryWrite(s, t, data))
  {
    NoEntries(s.readers);
    if MustWaitToWrite(s) {
      assert t in TryWrite(s, t, data).writers;
    } else {
      var s1 := s.(writers := s.writers - {t});
      var s2 := if s.reader then Give(s1, data) else s1;
      assert s2.readers.Keys == s.readers.Keys;
      NoEntries(s2.readers);
      DropWriterInv(s2);
    }
  }

  // Every step keeps the invariant.
  lemma StepInv(s: Chan, step: Step)
    requires Inv(s) && Enabled(s, step)
    ensures Inv(Apply(s, step))
  {
    match step
    case DupReader =>
    case DupWriter =>
    case CloseReader => DropReaderInv(s.(rslots := s.rslots - 1));
    case CloseWriter => DropWriterInv(s.(wslots := s.wslots - 1));
    case Read(t, n) => TryReadInv(s, t, n);
    case Write(t, data) => TryWriteInv(s, t, data);
    case ResumeRead(t) => TryReadInv(s, t, s.readers[t].n);
    case ResumeWrite(t) => TryWriteInv(s, t, s.writers[t].data);
  }

  lemma DropKeeps(s: Chan)
    ensures DropReader(s).contents == s.contents && DropReader(s).cap == s.cap
    ensures DropWriter(s).contents == s.contents && DropWriter(s).cap == s.cap
  {
  }

  lemma ReadQueue(s: Chan, t: Tid, n: nat)
    requires |s.contents| <= s.cap && !MustWaitToRead(s)
    ensures s.contents == s.contents[..Min(n, |s.contents|)] + TryRead(s, t, n).contents
    ensures TryRead(s, t, n).cap == s.cap
  {
    DropKeeps(Take(s.(readers := s.readers - {t}), n));
  }

  lemma WriteQueue(s: Chan, t: Tid, data: seq<Byte>)
    requires |s.contents| <= s.cap && !MustWaitToWrite(s) && s.reader
    ensures TryWrite(s, t, data).contents == s.contents + data[..Min(|data|, s.cap - |s.contents|)]
    ensures TryWrite(s, t, data).cap == s.cap
  {
    DropKeeps(Give(s.(writers := s.writers - {t}), data));
  }

  // The pipe is a queue: a step takes bytes from the front and puts bytes at the
  // end.
  lemma StepQueue(s: Chan, step: Step)
    requires Inv(s) && Enabled(s, step)
    ensures s.contents + Given(s, step) == Taken(s, step) + Apply(s, step).contents
    ensures Taken(s, step) <= s.contents
    ensures Apply(s, step).cap == s.cap
  {
    match step
    case DupReader =>
    case DupWriter =>
    case CloseReader => DropKeeps(s.(rslots := s.rslots - 1));
    case CloseWriter => DropKeeps(s.(wslots := s.wslots - 1));
    case Read(t, n) => if !MustWaitToRead(s) { ReadQueue(s, t, n); }
    case Write(t, data) => WriteStep(s, t, data);
    case ResumeRead(t) => if !MustWaitToRead(s) { ReadQueue(s, t, s.readers[t].n); }
    case ResumeWrite(t) => WriteStep(s, t, s.writers[t].data);
  }

  lemma WriteStep(s: Chan, t: Tid, data: seq<Byte>)
    requires |s.contents| <= s.cap
    ensures var given := if s.reader && |s.contents| < s.cap then data[..Min(|data|, s.cap - |s.contents|)] else [];
      TryWrite(s, t, data).contents == s.contents + given && TryWrite(s, t, data).cap == s.cap
  {
    if s.reader && |s.contents| < s.cap {
      WriteQueue(s, t, data);
    } else {
      assert s.contents + [] == s.contents;
      DropKeeps(s.(writers := s.writers - {t}));
    }
  }

  // ------------------------------------------------------------------
  // Runs
  // ------------------------------------------------------------------

  ghost predicate IsRun(cap: nat, ss: seq<Chan>, steps: seq<Step>) {
    && |ss| == |steps| + 1 && cap > 0 && ss[0] == Opened(cap)
    && (forall i {:trigger Follows(ss, steps, i)} :: 0 <= i < |steps| ==> Follows(ss, steps, i))
  }

  ghost predicate Follows(ss: seq<Chan>, steps: seq<Step>, i: nat)
    requires i < |steps| && |ss| == |steps| + 1
  {
    |ss[i].contents| <= ss[i].cap ==> Enabled(ss[i], steps[i]) && ss[i + 1] == Apply(ss[i], steps[i])
  }

  lemma {:induction false} RunInv(cap: nat, ss: seq<Chan>, steps: seq<Step>, i: nat)
    requires IsRun(cap, ss, steps) && i < |ss|
    ensures Inv(ss[i]) && ss[i].cap == cap
  {
    if i == 0 {
    } else {
      RunInv(cap, ss, steps, i - 1);
      assert Follows(ss, steps, i - 1);
      StepInv(ss[i - 1], steps[i - 1]);
      StepQueue(ss[i - 1], steps[i - 1]);
    }
  }

  // All that the first i steps wrote, and all that they read.
  function AllGiven(ss: seq<Chan>, steps: seq<Step>, i: nat): seq<Byte>
    requires i <= |steps| <= |ss|
  {
    if i == 0 then [] else AllGiven(ss, steps, i - 1) + Given(ss[i - 1], steps[i - 1])
  }

  function AllTaken(ss: seq<Chan>, steps: seq<Step>, i: nat): seq<Byte>
    requires i <= |steps| <= |ss|
  {
    if i == 0 then [] else AllTaken(ss, steps, i - 1) + Taken(ss[i - 1], steps[i - 1])
  }

  lemma Regroup(all: seq<Byte>, before: seq<Byte>, c: seq<Byte>, given: seq<Byte>, taken: seq<Byte>, c': seq<Byte>)
    requires all == before + c && c + given == taken + c'
    ensures all + given == before + taken + c'
  {
    assert (before + c) + given == before + (c + given);
    assert before + (taken + c') == (before + taken) + c';
  }

  // In any run, what was written is what was read followed by what is buffered:
  // no byte is lost, duplicated or reordered.
  lemma {:induction false} FirstInFirstOut(cap: nat, ss: seq<Chan>, steps: seq<Step>, i: nat)
    requires IsRun(cap, ss, steps) && i < |ss|
    ensures AllGiven(ss, steps, i) == AllTaken(ss, steps, i) + ss[i].contents
  {
    if i == 0 {
    } else {
      FirstInFirstOut(cap, ss, steps, i - 1);
      QueueStepOf(cap, ss, steps, i - 1);
      var s, step := ss[i - 1], steps[i - 1];
      Regroup(AllGiven(ss, steps, i - 1), AllTaken(ss, steps, i - 1), s.contents,
              Given(s, step), Taken(s, step), ss[i].contents);
    }
  }

  lemma QueueStepOf(cap: nat, ss: seq<Chan>, steps: seq<Step>, i: nat)
    requires IsRun(cap, ss, steps) && i < |steps|
    ensures ss[i].contents + Given(ss[i], steps[i]) == Taken(ss[i], steps[i]) + ss[i + 1].contents
  {
    RunInv(cap, ss, steps, i);
    assert Follows(ss, steps, i);
    StepQueue(ss[i], steps[i]);
  }

  // A read of n > 0 that ends without a byte has found the writer closed and
  // every byte that was ever written already read.
  lemma EndOfFile(cap: nat, ss: seq<Chan>, steps: seq<Step>, i: nat)
    requires IsRun(cap, ss, steps) && i < |steps|
    requires match steps[i]
             case Read(_, n) => n > 0
             case ResumeRead(t) => t in ss[i].readers && ss[i].readers[t].n > 0
             case _ => false
    requires !MustWaitToRead(ss[i]) && Taken(ss[i], steps[i]) == []
    ensures !ss[i].writer && AllGiven(ss, steps, i) == AllTaken(ss, steps, i)
  {
    RunInv(cap, ss, steps, i);
    FirstInFirstOut(cap, ss, steps, i);
    var n := if steps[i].Read? then steps[i].n else ss[i].readers[steps[i].t].n;
    assert |Taken(ss[i], steps[i])| == Min(n, |ss[i].contents|);
  }

  // Once the writer is closed nothing more is written, and no read waits.
  lemma ClosedWriterStaysClosed(s: Chan, step: Step)
    requires Inv(s) && Enabled(s, step) && !s.writer
    ensures !Apply(s, step).writer && Given(s, step) == [] && !MustWaitToRead(s)
  {
  }

  ghost predicate Reached(s: Chan) {
    exists cap, ss, steps, i: nat :: IsRun(cap, ss, steps) && i < |ss| && ss[i] == s
  }

  lemma ReachedInv(s: Chan)
    requires Reached(s)
    ensures Inv(s)
  {
    var cap, ss, steps, i: nat :| IsRun(cap, ss, steps) && i < |ss| && ss[i] == s;
    RunInv(cap, ss, steps, i);
  }

  // A thread that waits for data and was not signalled finds the pipe empty and
  // the writer open; one that waits for space finds it full and the reader open.
  // So a reader and a writer never both wait.
  lemma WaitersHaveCause(s: Chan, t: Tid)
    requires Reached(s)
    ensures t in s.readers && !s.readers[t].signalled ==> s.contents == [] && s.writer && s.reader
    ensures t in s.writers && !s.writers[t].signalled ==> |s.contents| == s.cap && s.reader && s.writer
    ensures forall u :: t in s.readers && u in s.writers ==> s.readers[t].signalled || s.writers[u].signalled
  {
    ReachedInv(s);
  }

  // The control block is freed exactly when both ends are closed, and no step
  // of any thread is possible then: nobody is inside a call, or can start one.
  lemma NoUseAfterFree(s: Chan, step: Step)
    requires Reached(s) && Enabled(s, step) && |s.contents| <= s.cap
    ensures !s.freed
    ensures Apply(s, step).freed <==> !Apply(s, step).reader && !Apply(s, step).writer
    ensures Apply(s, step).freed ==> Apply(s, step).readers == map[] && Apply(s, step).writers == map[]
  {
    ReachedInv(s);
    StepInv(s, step);
  }

  // An end is open exactly while there are references to its FCB: file ids, and
  // threads inside a call, asleep or not.
  lemma OpenWhileReferenced(s: Chan)
    requires Reached(s)
    ensures s.reader <==> s.rslots + |s.readers| > 0
    ensures s.writer <==> s.wslots + |s.writers| > 0
  {
    ReachedInv(s);
    NoEntries(s.readers);
    NoEntries(s.writers);
  }
}
