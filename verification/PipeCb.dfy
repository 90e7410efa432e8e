// kernel_pipe.c as code: a cyclic buffer that refines the queue of the protocol.
module PipeCb {
  import opened Pipe

  // (r + k) % n for positions of a buffer of n bytes.
  function Around(r: nat, k: nat, n: nat): (x: nat)
    requires r < n && k <= n
    ensures x < n
  {
    if r + k < n then r + k else r + k - n
  }

  lemma Wrap(r: nat, k: nat, n: nat)
    requires r < n && k <= n
    ensures (r + k) % n == Around(r, k, n)
  {
    if r + k >= n {
      assert r + k == n * 1 + (r + k - n);
    }
  }

  // The bytes in a cyclic buffer, from position r on.
  function Cyclic(buf: seq<Byte>, r: nat, count: nat): seq<Byte>
    requires r < |buf| && count <= |buf|
  {
    seq(count, k requires 0 <= k < count => buf[Around(r, k, |buf|)])
  }

  // Storing at the write position appends.
  lemma PutByte(buf: seq<Byte>, r: nat, count: nat, b: Byte)
    requires r < |buf| && count < |buf|
    ensures var w := Around(r, count, |buf|);
      && Cyclic(buf[w := b], r, count + 1) == Cyclic(buf, r, count) + [b]
      && Around(w, 1, |buf|) == Around(r, count + 1, |buf|)
  {
  }

  // Loading from the read position removes the front.
  lemma TakeByte(buf: seq<Byte>, r: nat, count: nat)
    requires r < |buf| && 0 < count <= |buf|
    ensures var r' := Around(r, 1, |buf|);
      && Cyclic(buf, r, count)[0] == buf[r]
      && Cyclic(buf, r, count)[1..] == Cyclic(buf, r', count - 1)
      && Around(r, count, |buf|) == Around(r', count - 1, |buf|)
  {
    var n, r' := |buf|, Around(r, 1, |buf|);
    forall k | 0 <= k < count - 1 ensures Around(r, k + 1, n) == Around(r', k, n) { }
  }

  class PipeCb {
    const buffer: array<Byte>  // BUFFER
    var w_position: nat
    var r_position: nat
    var empty_space: nat
    var reader: bool           // false for NULL
    var writer: bool
    var readers: map<Tid, Reading>  // has_data
    var writers: map<Tid, Writing>  // has_space
    var rslots: nat                 // file ids of the two FCBs
    var wslots: nat
    ghost var freed: bool

    ghost predicate Valid()
      reads this, buffer
    {
      && buffer.Length > 0 && r_position < buffer.Length && empty_space <= buffer.Length
      && w_position == Around(r_position, buffer.Length - empty_space, buffer.Length)
    }

    // The write position as the source's comments have it.
    lemma WritePosition()
      requires Valid()
      ensures w_position == (r_position + buffer.Length - empty_space) % buffer.Length
    {
      Wrap(r_position, buffer.Length - empty_space, buffer.Length);
    }

    ghost function Abs(): Chan
      requires Valid()
      reads this, buffer
    {
      Chan(buffer.Length, Cyclic(buffer[..], r_position, buffer.Length - empty_space),
           rslots, wslots, readers, writers, reader, writer, freed)
    }

    // sys_Pipe, with both ends reserved.
    constructor (size: nat)
      requires size > 0
      ensures Valid() && fresh(buffer) && Abs() == Opened(size) && Inv(Abs())
    {
      buffer := new Byte[size];
      w_position, r_position, empty_space := 0, 0, size;
      reader, writer, readers, writers, rslots, wslots, freed := true, true, map[], map[], 1, 1, false;
      new;
      assert Cyclic(buffer[..], 0, 0) == [];
    }

    // kernel_broadcast of has_data and of has_space
    method BroadcastData()
      requires Valid()
      modifies this`readers
      ensures Valid() && Abs() == WakeReaders(old(Abs()))
    {
      readers := map t | t in readers :: readers[t].(signalled := true);
    }

    method BroadcastSpace()
      requires Valid()
      modifies this`writers
      ensures Valid() && Abs() == WakeWriters(old(Abs()))
    {
      writers := map t | t in writers :: writers[t].(signalled := true);
    }

    // The body of the loop of pipe_write.
    method Store(b: Byte)
      requires Valid() && empty_space > 0
      modifies this`w_position, this`empty_space, buffer
      ensures Valid() && empty_space == old(empty_space) - 1
      ensures Abs() == old(Abs()).(contents := old(Abs()).contents + [b])
    {
      PutByte(buffer[..], r_position, buffer.Length - empty_space, b);
      Wrap(w_position, 1, buffer.Length);
      ghost var was := buffer[..];
      buffer[w_position] := b;
      assert buffer[..] == was[w_position := b];
      w_position := (w_position + 1) % buffer.Length;
      empty_space := empty_space - 1;
    }

    // The loop of pipe_write.
    method Fill(buf: seq<Byte>) returns (i: nat)
      requires Valid()
      modifies this`w_position, this`empty_space, buffer
      ensures Valid() && i == Min(|buf|, old(empty_space))
      ensures Abs() == old(Abs()).(contents := old(Abs()).contents + buf[..i])
    {
      i := 0;
      ghost var s := Abs();
      assert s.contents + buf[..0] == s.contents;
      while i != |buf| && empty_space != 0
        invariant Valid() && i <= |buf| && i + empty_space == old(empty_space)
        invariant Abs() == s.(contents := s.contents + buf[..i])
        decreases |buf| - i
      {
        assert s.contents + buf[..i] + [buf[i]] == s.contents + buf[..i + 1];
        Store(buf[i]);
        i := i + 1;
      }
    }

    // The body of the loop of pipe_read.
    method Load() returns (b: Byte)
      requires Valid() && empty_space < buffer.Length
      modifies this`r_position, this`empty_space
      ensures Valid() && empty_space == old(empty_space) + 1
      ensures old(Abs()).contents != [] && b == old(Abs()).contents[0]
      ensures Abs() == old(Abs()).(contents := old(Abs()).contents[1..])
    {
      Wrap(r_position, 1, buffer.Length);
      TakeByte(buffer[..], r_position, buffer.Length - empty_space);
      b := buffer[r_position];
      r_position := (r_position + 1) % buffer.Length;
      empty_space := empty_space + 1;
    }

    // The loop of pipe_read.
    method Drain(buf: array<Byte>, n: nat) returns (i: nat)
      requires Valid() && n <= buf.Length && buf != buffer
      modifies this`r_position, this`empty_space, buf
      ensures Valid() && i == Min(n, buffer.Length - old(empty_space))
      ensures buf[..i] == old(Abs()).contents[..i] && forall k :: i <= k < buf.Length ==> buf[k] == old(buf[k])
      ensures Abs() == old(Abs()).(contents := old(Abs()).contents[i..])
    {
      i := 0;
      ghost var s := Abs();
      assert s.contents[0..] == s.contents;
      while i != n && empty_space != buffer.Length
        invariant Valid() && i <= n && empty_space == old(empty_space) + i && i <= |s.contents|
        invariant Abs() == s.(contents := s.contents[i..])
        invariant forall k :: 0 <= k < i ==> buf[k] == s.contents[k]
        invariant forall k :: i <= k < buf.Length ==> buf[k] == old(buf[k])
        decreases n - i
      {
        ghost var before := Abs().contents;
        var b := Load();
        assert before[1..] == s.contents[i + 1..];
        buf[i] := b;
        i := i + 1;
      }
    }

    // pipe_write, from the guard of its wait to the wait or the end.
    method PipeWrite(t: Tid, buf: seq<Byte>) returns (blocked: bool, ret: int)
      requires Valid() && Inv(Abs()) && writer && t !in readers
      modifies this, buffer
      ensures Valid()
      ensures blocked <==> MustWaitToWrite(old(Abs()))
      ensures blocked ==> Abs() == old(Abs()).(writers := old(writers)[t := Writing(buf, false)])
      ensures !blocked && !old(reader) ==> ret == -1 && Abs() == old(Abs()).(writers := old(writers) - {t})
      ensures !blocked && old(reader) ==> ret == Min(|buf|, old(empty_space))
      ensures !blocked && old(reader) ==> Abs() == Give(old(Abs()).(writers := old(writers) - {t}), buf)
    {
      blocked, ret := empty_space == 0 && reader, -1;
      if blocked {
        writers := writers[t := Writing(buf, false)];
        return;
      }
      writers := writers - {t};
      if !reader { return; }
      ret := Fill(buf);
      BroadcastData();
    }

    // pipe_read, from the guard of its wait to the wait or the end.
    method PipeRead(t: Tid, buf: array<Byte>, n: nat) returns (blocked: bool, ret: int)
      requires Valid() && Inv(Abs()) && reader && t !in writers && n <= buf.Length && buf != buffer
      modifies this, buf
      ensures Valid()
      ensures blocked <==> MustWaitToRead(old(Abs()))
      ensures blocked ==> Abs() == old(Abs()).(readers := old(readers)[t := Reading(n, false)])
      ensures !blocked ==> ret == Min(n, |old(Abs()).contents|) && buf[..ret] == old(Abs()).contents[..ret]
      ensures !blocked ==> Abs() == Take(old(Abs()).(readers := old(readers) - {t}), n)
    {
      blocked, ret := empty_space == buffer.Length && writer, -1;
      if blocked {
        readers := readers[t := Reading(n, false)];
        return;
      }
      readers := readers - {t};
      ret := Drain(buf, n);
      BroadcastSpace();
    }

    // pipe_writer_close
    method PipeWriterClose()
      requires Valid() && writer && !freed
      modifies this
      ensures Valid() && Abs() == WriterClose(old(Abs()))
    {
      writer := false;
      if reader { BroadcastData(); } else { freed := true; }
    }

    // pipe_reader_close
    method PipeReaderClose()
      requires Valid() && reader && !freed
      modifies this
      ensures Valid() && Abs() == ReaderClose(old(Abs()))
    {
      reader := false;
      if writer { BroadcastSpace(); } else { freed := true; }
    }

    // FCB_decref of the two ends: Close at the last reference.
    method DecrefReader()
      requires Valid() && reader && !freed
      modifies this
      ensures Valid() && Abs() == DropReader(old(Abs()))
    {
      if rslots + |readers| == 0 { PipeReaderClose(); }
    }

    method DecrefWriter()
      requires Valid() && writer && !freed
      modifies this
      ensures Valid() && Abs() == DropWriter(old(Abs()))
    {
      if wslots + |writers| == 0 { PipeWriterClose(); }
    }

    // Read from a file id of the reading end (resumed: after has_data woke it).
    method Read(t: Tid, buf: array<Byte>, n: nat, ghost step: Step) returns (blocked: bool, ret: int)
      requires Valid() && Inv(Abs()) && Enabled(Abs(), step) && n <= buf.Length && buf != buffer
      requires step == Pipe.Step.Read(t, n) || (step == ResumeRead(t) && t in readers && readers[t].n == n)
      modifies this, buf
      ensures Valid() && Inv(Abs()) && Abs() == Apply(old(Abs()), step)
      ensures blocked <==> t in readers
      ensures !blocked ==> ret == |Taken(old(Abs()), step)| && buf[..ret] == Taken(old(Abs()), step)
    {
      ghost var s := Abs();
      StepInv(s, step);
      NoEntries(s.readers);
      blocked, ret := PipeRead(t, buf, n);
      if !blocked { DecrefReader(); }
    }

    // Write to a file id of the writing end (resumed: after has_space woke it).
    method Write(t: Tid, buf: seq<Byte>, ghost step: Step) returns (blocked: bool, ret: int)
      requires Valid() && Inv(Abs()) && Enabled(Abs(), step)
      requires step == Pipe.Step.Write(t, buf) || (step == ResumeWrite(t) && t in writers && writers[t].data == buf)
      modifies this, buffer
      ensures Valid() && Inv(Abs()) && Abs() == Apply(old(Abs()), step)
      ensures blocked <==> t in writers
      ensures !blocked ==> ret == if old(reader) then |Given(old(Abs()), step)| else -1
    {
      ghost var s := Abs();
      StepInv(s, step);
      NoEntries(s.writers);
      blocked, ret := PipeWrite(t, buf);
      if !blocked { DecrefWriter(); }
    }

    // Close of a file id of one of the ends.
    method CloseEnd(readEnd: bool)
      requires Valid() && Inv(Abs()) && Enabled(Abs(), if readEnd then CloseReader else CloseWriter)
      modifies this
      ensures Valid() && Inv(Abs()) && Abs() == Apply(old(Abs()), if readEnd then CloseReader else CloseWriter)
    {
      StepInv(Abs(), if readEnd then CloseReader else CloseWriter);
      if readEnd {
        rslots := rslots - 1;
        DecrefReader();
      } else {
        wslots := wslots - 1;
        DecrefWriter();
      }
    }
  }
}
