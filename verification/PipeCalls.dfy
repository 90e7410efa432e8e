// The calls on a pipe, in terms of what is buffered and which ends are open: when
// they wait, what they move, and how they end, for one step and over runs.
module PipeCalls {
  import opened Pipe

  // The step begins or goes on with a write of data by t, or a read of n.
  ghost predicate Writes(s: Chan, step: Step, t: Tid, data: seq<Byte>) {
    step == Write(t, data) || (step == ResumeWrite(t) && t in s.writers && s.writers[t].data == data)
  }

  ghost predicate Reads(s: Chan, step: Step, t: Tid, n: nat) {
    step == Read(t, n) || (step == ResumeRead(t) && t in s.readers && s.readers[t].n == n)
  }

  // What a write puts into the pipe.
  function Room(s: Chan, data: seq<Byte>): seq<Byte>
    requires |s.contents| <= s.cap
  {
    if s.reader then data[..Min(|data|, s.cap - |s.contents|)] else []
  }

  // A write waits exactly if the pipe is full and the reader open. Otherwise it
  // puts as many of its bytes at the end as fit, none with the reader closed.
  ghost predicate Written(s: Chan, s': Chan, t: Tid, data: seq<Byte>) {
    && |s.contents| <= s.cap == s'.cap && s'.rslots == s.rslots && s'.wslots == s.wslots && s'.reader == s.reader
    && if |s.contents| == s.cap && s.reader
       then s' == s.(writers := s.writers[t := Writing(data, false)])
       else
         && s'.writers == s.writers - {t} && s'.contents == s.contents + Room(s, data)
         && s'.readers.Keys == s.readers.Keys
         && forall u :: u in s.readers && s.reader ==> s'.readers[u] == Reading(s.readers[u].n, true)
  }

  lemma TryWriteDoes(s: Chan, t: Tid, data: seq<Byte>)
    requires Inv(s)
    ensures Written(s, TryWrite(s, t, data), t, data)
  {
    WriteStep(s, t, data);
  }

  lemma WriteDoes(s: Chan, step: Step, t: Tid, data: seq<Byte>)
    requires Inv(s) && Enabled(s, step) && Writes(s, step, t, data)
    ensures Written(s, Apply(s, step), t, data) && Given(s, step) == Room(s, data)
  {
    TryWriteDoes(s, t, data);
  }

  // A read waits exactly if the pipe is empty and the writer open. Otherwise it
  // takes as many bytes from the front as it asks for and there are.
  lemma ReadDoes(s: Chan, step: Step, t: Tid, n: nat)
    requires Inv(s) && Enabled(s, step) && Reads(s, step, t, n)
    ensures var s' := Apply(s, step);
      && s'.cap == s.cap && s'.rslots == s.rslots && s'.wslots == s.wslots && s'.writer == s.writer
      && if s.contents == [] && s.writer
         then s' == s.(readers := s.readers[t := Reading(n, false)]) && Taken(s, step) == []
         else
           && s'.readers == s.readers - {t}
           && Taken(s, step) + s'.contents == s.contents && |Taken(s, step)| == Min(n, |s.contents|)
           && s'.writers.Keys == s.writers.Keys
           && forall u :: u in s.writers ==> s'.writers[u] == Writing(s.writers[u].data, true)
  {
    NoEntries(s.writers);
    if !MustWaitToRead(s) { ReadQueue(s, t, n); }
  }

  // A close of a file id: with the last reference its end is closed, and whoever
  // waits at the other end is told.
  lemma CloseDoes(s: Chan, step: Step)
    requires Inv(s) && Enabled(s, step) && (step.CloseReader? || step.CloseWriter?)
    ensures var s', last := Apply(s, step), if step.CloseReader? then s.rslots == 1 && s.readers == map[]
                                            else s.wslots == 1 && s.writers == map[];
      && s'.contents == s.contents && s'.readers.Keys == s.readers.Keys && s'.writers.Keys == s.writers.Keys
      && s'.rslots == s.rslots - (if step.CloseReader? then 1 else 0)
      && s'.wslots == s.wslots - (if step.CloseWriter? then 1 else 0)
      && s'.reader == (s.reader && !(step.CloseReader? && last))
      && s'.writer == (s.writer && !(step.CloseWriter? && last))
      && (forall u :: u in s.readers ==>
            s'.readers[u] == Reading(s.readers[u].n, s.readers[u].signalled || (step.CloseWriter? && last)))
      && (forall u :: u in s.writers ==>
            s'.writers[u] == Writing(s.writers[u].data, s.writers[u].signalled || (step.CloseReader? && last)))
  {
    NoEntries(s.readers);
    NoEntries(s.writers);
  }

  // ------------------------------------------------------------------
  // Runs
  // ------------------------------------------------------------------

  // The counterpart of EndOfFile: a write of at least one byte that ends has given
  // some of it to the pipe, or the reader is closed.
  lemma WritesSomething(cap: nat, ss: seq<Chan>, steps: seq<Step>, i: nat, t: Tid, data: seq<Byte>)
    requires IsRun(cap, ss, steps) && i < |steps| && Writes(ss[i], steps[i], t, data) && data != []
    ensures t in ss[i + 1].writers <==> |ss[i].contents| == cap && ss[i].reader
    ensures t !in ss[i + 1].writers ==> (Given(ss[i], steps[i]) != [] <==> ss[i].reader)
    ensures t !in ss[i + 1].writers && ss[i].reader ==> Given(ss[i], steps[i]) <= data
  {
    RunInv(cap, ss, steps, i);
    assert Follows(ss, steps, i);
    WriteDoes(ss[i], steps[i], t, data);
  }

  // No step but its own takes a thread out of the pipe or changes what it asks for.
  ghost predicate Stays(s: Chan, s': Chan, step: Step, t: Tid) {
    && (t in s.readers && step != ResumeRead(t) ==> t in s'.readers && s'.readers[t].n == s.readers[t].n)
    && (t in s.writers && step != ResumeWrite(t) ==> t in s'.writers && s'.writers[t].data == s.writers[t].data)
  }

  lemma WriteStays(s: Chan, step: Step, u: Tid, data: seq<Byte>, t: Tid)
    requires Inv(s) && Enabled(s, step) && Writes(s, step, u, data)
    ensures Stays(s, Apply(s, step), step, t)
  {
    WriteKeepsReaders(s, u, data);
    WriteDoes(s, step, u, data);
  }

  lemma WriteKeepsReaders(s: Chan, u: Tid, data: seq<Byte>)
    requires Inv(s)
    ensures var s' := TryWrite(s, u, data);
      s'.readers.Keys == s.readers.Keys && forall t :: t in s.readers ==> s'.readers[t].n == s.readers[t].n
  {
  }

  lemma ReadStays(s: Chan, step: Step, u: Tid, n: nat, t: Tid)
    requires Inv(s) && Enabled(s, step) && Reads(s, step, u, n)
    ensures Stays(s, Apply(s, step), step, t)
  {
    ReadDoes(s, step, u, n);
  }

  lemma StaysInside(s: Chan, step: Step, t: Tid)
    requires Inv(s) && Enabled(s, step)
    ensures Stays(s, Apply(s, step), step, t)
  {
    match step
    case DupReader =>
    case DupWriter =>
    case CloseReader => CloseDoes(s, step);
    case CloseWriter => CloseDoes(s, step);
    case Read(u, n) => ReadStays(s, step, u, n, t);
    case Write(u, data) => WriteStays(s, step, u, data, t);
    case ResumeRead(u) => ReadStays(s, step, u, s.readers[u].n, t);
    case ResumeWrite(u) => WriteStays(s, step, u, s.writers[u].data, t);
  }

  // In any run: a write that waits at its call, step i, and has not ended before
  // step j - 1, has then ended exactly if j - 1 is a step of its own that finds room
  // or the reader closed; and then, it has put in as much of its data as fits.
  lemma {:induction false} WriteWaitsForRoom(cap: nat, ss: seq<Chan>, steps: seq<Step>, i: nat, j: nat,
                                             t: Tid, data: seq<Byte>)
    requires IsRun(cap, ss, steps) && i < j < |ss| && steps[i] == Write(t, data)
    requires forall k :: i < k < j ==> t in ss[k].writers
    ensures t in ss[j].writers ==> ss[j].writers[t].data == data
    ensures var s, step := ss[j - 1], steps[j - 1];
      t !in ss[j].writers <==> (j == i + 1 || step == ResumeWrite(t)) && !(|s.contents| == cap && s.reader)
    ensures t !in ss[j].writers ==> |ss[j - 1].contents| <= cap == ss[j - 1].cap
                                    && Given(ss[j - 1], steps[j - 1]) == Room(ss[j - 1], data)
    decreases j
  {
    RunInv(cap, ss, steps, j - 1);
    assert Follows(ss, steps, j - 1);
    if j == i + 1 {
      WriteDoes(ss[i], steps[i], t, data);
    } else {
      WriteWaitsForRoom(cap, ss, steps, i, j - 1, t, data);
      StaysInside(ss[j - 1], steps[j - 1], t);
      if steps[j - 1] == ResumeWrite(t) { WriteDoes(ss[j - 1], steps[j - 1], t, data); }
    }
  }

  // The same of a read.
  lemma {:induction false} ReadWaitsForData(cap: nat, ss: seq<Chan>, steps: seq<Step>, i: nat, j: nat,
                                            t: Tid, n: nat)
    requires IsRun(cap, ss, steps) && i < j < |ss| && steps[i] == Read(t, n)
    requires forall k :: i < k < j ==> t in ss[k].readers
    ensures t in ss[j].readers ==> ss[j].readers[t].n == n
    ensures var s, step := ss[j - 1], steps[j - 1];
      t !in ss[j].readers <==> (j == i + 1 || step == ResumeRead(t)) && !(s.contents == [] && s.writer)
    ensures t !in ss[j].readers ==> |Taken(ss[j - 1], steps[j - 1])| == Min(n, |ss[j - 1].contents|)
    decreases j
  {
    RunInv(cap, ss, steps, j - 1);
    assert Follows(ss, steps, j - 1);
    if j == i + 1 {
      ReadDoes(ss[i], steps[i], t, n);
    } else {
      ReadWaitsForData(cap, ss, steps, i, j - 1, t, n);
      StaysInside(ss[j - 1], steps[j - 1], t);
      if steps[j - 1] == ResumeRead(t) { ReadDoes(ss[j - 1], steps[j - 1], t, n); }
    }
  }

  // How often a step occurs among the first i.
  function Times(steps: seq<Step>, a: Step, i: nat): int
    requires i <= |steps|
  {
    if i == 0 then 0 else Times(steps, a, i - 1) + if steps[i - 1] == a then 1 else 0
  }

  // The file ids of an end are those it was opened with and duplicated to, less
  // those closed.
  lemma {:induction false} FileIdsCounted(cap: nat, ss: seq<Chan>, steps: seq<Step>, i: nat)
    requires IsRun(cap, ss, steps) && i < |ss|
    ensures ss[i].rslots == 1 + Times(steps, DupReader, i) - Times(steps, CloseReader, i)
    ensures ss[i].wslots == 1 + Times(steps, DupWriter, i) - Times(steps, CloseWriter, i)
  {
    if i == 0 {
    } else {
      FileIdsCounted(cap, ss, steps, i - 1);
      RunInv(cap, ss, steps, i - 1);
      assert Follows(ss, steps, i - 1);
      FileIdsStep(ss[i - 1], steps[i - 1]);
    }
  }

  lemma FileIdsStep(s: Chan, step: Step)
    requires Inv(s) && Enabled(s, step)
    ensures var s' := Apply(s, step);
      && s'.rslots == s.rslots + (if step == DupReader then 1 else if step == CloseReader then -1 else 0)
      && s'.wslots == s.wslots + (if step == DupWriter then 1 else if step == CloseWriter then -1 else 0)
  {
    match step
    case DupReader =>
    case DupWriter =>
    case CloseReader => CloseDoes(s, step);
    case CloseWriter => CloseDoes(s, step);
    case Read(u, n) => ReadDoes(s, step, u, n);
    case Write(u, data) => WriteDoes(s, step, u, data);
    case ResumeRead(u) => ReadDoes(s, step, u, s.readers[u].n);
    case ResumeWrite(u) => WriteDoes(s, step, u, s.writers[u].data);
  }
}
