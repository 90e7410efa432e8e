// Packing a vector of C strings into one buffer and back (util.h), and the use
// tinyoslib.c makes of it to pass a program and its arguments to a new process.
module Argv {
  newtype byte = b: int | 0 <= b < 256

  // The contents of a C string, without the terminating zero.
  ghost predicate ZeroFree(s: seq<byte>) {
    forall i :: 0 <= i < |s| ==> s[i] != 0
  }

  ghost predicate CStrings(v: seq<seq<byte>>) {
    forall i :: 0 <= i < |v| ==> ZeroFree(v[i])
  }

  // The packed form: every string followed by its terminator.
  ghost function Pack(v: seq<seq<byte>>): seq<byte> {
    if v == [] then [] else Pack(v[..|v| - 1]) + v[|v| - 1] + [0]
  }

  ghost function Zeros(b: seq<byte>): nat {
    if b == [] then 0 else Zeros(b[..|b| - 1]) + if b[|b| - 1] == 0 then 1 else 0
  }

  // The string that starts at position `at`: everything up to the next zero.
  ghost function StringAt(b: seq<byte>, at: nat): (s: seq<byte>)
    requires at <= |b|
    ensures ZeroFree(s) && at + |s| <= |b| && s == b[at..at + |s|]
    ensures at + |s| < |b| ==> b[at + |s|] == 0
    decreases |b| - at
  {
    if at == |b| || b[at] == 0 then [] else [b[at]] + StringAt(b, at + 1)
  }

  // ------------------------------------------------------------------
  // Lemmas
  // ------------------------------------------------------------------

  lemma {:induction false} ZerosConcat(a: seq<byte>, b: seq<byte>)
    ensures Zeros(a + b) == Zeros(a) + Zeros(b)
  {
    if b == [] {
      assert a + b == a;
    } else {
      ZerosConcat(a, b[..|b| - 1]);
      assert (a + b)[..|a + b| - 1] == a + b[..|b| - 1];
    }
  }

  lemma {:induction false} ZerosOfString(s: seq<byte>)
    requires ZeroFree(s)
    ensures Zeros(s) == 0
  {
    if s == [] {
    } else {
      ZerosOfString(s[..|s| - 1]);
    }
  }

  // argscount of a packed vector is the number of its strings.
  lemma {:induction false} PackCount(v: seq<seq<byte>>)
    requires CStrings(v)
    ensures Zeros(Pack(v)) == |v|
  {
    if v == [] {
    } else {
      var n := |v| - 1;
      PackCount(v[..n]);
      ZerosOfString(v[n]);
      ZerosConcat(Pack(v[..n]), v[n]);
      ZerosConcat(Pack(v[..n]) + v[n], [0]);
    }
  }

  lemma ZerosOfTail(p: seq<byte>, m: nat)
    requires m <= |p| && (p == [] || p[|p| - 1] == 0)
    ensures m < |p| ==> Zeros(p[m..]) > 0
  {
    assert m < |p| ==> p[m..][|p| - m - 1] == 0;
  }

  lemma ZerosSnoc(b: seq<byte>, off: nat, a: nat)
    requires off <= a < |b|
    ensures Zeros(b[off..a + 1]) == Zeros(b[off..a]) + if b[a] == 0 then 1 else 0
  {
    assert b[off..a + 1][..a - off] == b[off..a];
  }

  lemma Assoc(a: seq<byte>, b: seq<byte>, s: seq<byte>)
    ensures (a + b) + s + [0] == a + (b + s + [0])
  {
  }

  lemma {:induction false} PackConcat(v: seq<seq<byte>>, w: seq<seq<byte>>)
    ensures Pack(v + w) == Pack(v) + Pack(w)
  {
    if w == [] {
      assert v + w == v;
    } else {
      var n := |w| - 1;
      PackConcat(v, w[..n]);
      assert (v + w)[..|v + w| - 1] == v + w[..n] && (v + w)[|v + w| - 1] == w[n];
      Assoc(Pack(v), Pack(w[..n]), w[n]);
    }
  }

  lemma {:induction false} StringAtUnique(b: seq<byte>, at: nat, s: seq<byte>)
    requires ZeroFree(s) && at + |s| < |b| && s == b[at..at + |s|] && b[at + |s|] == 0
    ensures StringAt(b, at) == s
    decreases |s|
  {
    if s == [] {
    } else {
      assert s[0] == b[at] && s[1..] == b[at + 1..at + 1 + |s[1..]|];
      StringAtUnique(b, at + 1, s[1..]);
    }
  }

  lemma PackHead(v: seq<seq<byte>>)
    requires CStrings(v) && v != []
    ensures Pack(v) == v[0] + [0] + Pack(v[1..]) && StringAt(Pack(v), 0) == v[0]
  {
    assert v == [v[0]] + v[1..] && [v[0]][..0] == [];
    PackConcat([v[0]], v[1..]);
    assert Pack([v[0]]) == v[0] + [0];
    StringAtUnique(Pack(v), 0, v[0]);
  }

  // Different vectors have different packed forms.
  lemma {:induction false} PackInjective(v: seq<seq<byte>>, w: seq<seq<byte>>)
    requires CStrings(v) && CStrings(w) && Pack(v) == Pack(w)
    ensures v == w
    decreases |v|
  {
    PackCount(v);
    PackCount(w);
    if v == [] {
    } else {
      PackHead(v);
      PackHead(w);
      assert Pack(v[1..]) == Pack(v)[|v[0]| + 1..] == Pack(w[1..]);
      PackInjective(v[1..], w[1..]);
      assert v == [v[0]] + v[1..] && w == [w[0]] + w[1..];
    }
  }

  // ------------------------------------------------------------------
  // The loops of util.h. argv[i] is read as a zero-terminated string.
  // ------------------------------------------------------------------

  function CharAt(s: seq<byte>, j: nat): byte {
    if j < |s| then s[j] else 0
  }

  method Argvlen(argv: seq<seq<byte>>) returns (l: nat)
    ensures l == |Pack(argv)|
  {
    l := 0;
    for i := 0 to |argv|
      invariant l == |Pack(argv[..i])|
    {
      assert argv[..i + 1][..i] == argv[..i];
      l := l + |argv[i]| + 1;
    }
    assert argv[..|argv|] == argv;
  }

  // Writes at args[off..]; nothing outside the packed vector changes.
  method Argvpack(args: array<byte>, off: nat, argv: seq<seq<byte>>) returns (n: nat)
    requires CStrings(argv) && off + |Pack(argv)| <= args.Length
    modifies args
    ensures n == |Pack(argv)| && args[off..off + n] == Pack(argv)
    ensures args[..off] == old(args[..off]) && args[off + n..] == old(args[off + n..])
  {
    var argl, pos := 0, off;
    for i := 0 to |argv|
      invariant pos == off + |Pack(argv[..i])| && argl + i == pos - off
      invariant pos <= args.Length && args[off..pos] == Pack(argv[..i])
      invariant forall k :: 0 <= k < args.Length && !(off <= k < pos) ==> args[k] == old(args[k])
    {
      PackPrefix(argv, i);
      assert argv[..i + 1][..i] == argv[..i];
      ghost var p, packed := pos, args[off..pos];
      var j := PackString(args, pos, argv[i]);
      argl, pos := argl + j, pos + j + 1;
      assert args[off..p] == packed;
      assert args[off..pos] == args[off..p] + args[p..pos];
    }
    assert argv[..|argv|] == argv;
    n := argl + |argv|;
  }

  // One string with its final zero. The loop ends behind the first zero it copies.
  method PackString(args: array<byte>, pos: nat, s: seq<byte>) returns (j: nat)
    requires ZeroFree(s) && pos + |s| < args.Length
    modifies args
    ensures j == |s| && args[pos..pos + j + 1] == s + [0]
    ensures forall k :: 0 <= k < args.Length && !(pos <= k <= pos + j) ==> args[k] == old(args[k])
  {
    var c := CharAt(s, 0);
    j := 0;
    args[pos] := c;
    while c != 0
      invariant 0 <= j <= |s| && c == CharAt(s, j)
      invariant forall k :: pos <= k <= pos + j ==> args[k] == CharAt(s, k - pos)
      invariant forall k :: 0 <= k < args.Length && !(pos <= k <= pos + j) ==> args[k] == old(args[k])
      decreases |s| - j
    {
      j := j + 1;
      c := CharAt(s, j);
      args[pos + j] := c;
    }
  }

  lemma PackPrefix(v: seq<seq<byte>>, i: nat)
    requires i < |v|
    ensures |Pack(v[..i])| + |v[i]| + 1 <= |Pack(v)|
  {
    assert v == v[..i + 1] + v[i + 1..] && v[..i + 1][..i] == v[..i];
    PackConcat(v[..i + 1], v[i + 1..]);
  }

  method Argscount(args: array<byte>, off: nat, argl: nat) returns (n: nat)
    requires off + argl <= args.Length
    ensures n == Zeros(args[off..off + argl])
  {
    n := 0;
    for i := 0 to argl
      invariant n == Zeros(args[off..off + i])
    {
      assert args[off..off + i + 1][..i] == args[off..off + i];
      if args[off + i] == 0 { n := n + 1; }
    }
  }

  // The vector found in a buffer by an array of start positions.
  ghost function Strings(b: seq<byte>, at: seq<nat>): seq<seq<byte>>
    requires forall i :: 0 <= i < |at| ==> at[i] <= |b|
  {
    seq(|at|, i requires 0 <= i < |at| => StringAt(b, at[i]))
  }

  // argv holds the starts of the strings packed in b[off..a].
  ghost predicate Unpacked(b: seq<byte>, off: nat, a: nat, argv: seq<nat>) {
    && off <= a <= |b|
    && (forall k :: 0 <= k < |argv| ==> off <= argv[k] < a)
    && Pack(Strings(b, argv)) == b[off..a]
  }

  // Never leaves args[off..off + argl] when the buffer has argc zeros, and
  // reads exactly the packed form of the strings it returns.
  method Argvunpack(argc: nat, args: array<byte>, off: nat, argl: nat) returns (argv: seq<nat>, end: nat)
    requires off + argl <= args.Length && argc <= Zeros(args[off..off + argl])
    ensures |argv| == argc && end <= off + argl && Unpacked(args[..], off, end, argv)
  {
    argv, end := [], off;
    assert args[..][off..off + argl] == args[off..off + argl];
    for i := 0 to argc
      invariant |argv| == i && off <= end <= off + argl && Zeros(args[..][off..end]) == i
      invariant Unpacked(args[..], off, end, argv)
    {
      argv, end := UnpackOne(argc, args, off, argl, argv, end);
    }
  }

  // One round of the loop.
  method UnpackOne(ghost argc: nat, args: array<byte>, ghost off: nat, ghost argl: nat, at: seq<nat>, a: nat)
      returns (argv: seq<nat>, end: nat)
    requires off <= a <= off + argl <= args.Length && Zeros(args[..][off..a]) == |at|
    requires |at| < argc <= Zeros(args[..][off..off + argl]) && Unpacked(args[..], off, a, at)
    ensures |argv| == |at| + 1 && off <= end <= off + argl && Zeros(args[..][off..end]) == |argv|
    ensures Unpacked(args[..], off, end, argv)
  {
    end := SkipString(args, off, argl, a, argc);
    UnpackStep(args[..], at, a, end - 1, off);
    argv := at + [a];
  }

  // while (*a++) ;
  method SkipString(args: array<byte>, ghost off: nat, ghost argl: nat, start: nat, ghost argc: nat) returns (a: nat)
    requires off <= start <= off + argl <= args.Length
    requires Zeros(args[..][off..start]) < argc <= Zeros(args[..][off..off + argl])
    ensures start < a <= off + argl && args[a - 1] == 0 && ZeroFree(args[..][start..a - 1])
    ensures Zeros(args[..][off..a]) == Zeros(args[..][off..start]) + 1
  {
    a := start;
    ghost var b := args[..];
    RoomLeft(b, off, a, off + argl);
    while args[a] != 0
      invariant start <= a < off + argl && ZeroFree(b[start..a])
      invariant Zeros(b[off..a]) == Zeros(b[off..start])
      decreases off + argl - a
    {
      ZerosSnoc(b, off, a);
      a := a + 1;
      RoomLeft(b, off, a, off + argl);
    }
    ZerosSnoc(b, off, a);
    a := a + 1;
  }

  // A prefix with fewer zeros is not the whole buffer.
  lemma RoomLeft(b: seq<byte>, off: nat, a: nat, end: nat)
    requires off <= a <= end <= |b| && Zeros(b[off..a]) < Zeros(b[off..end])
    ensures a < end
  {
  }

  lemma UnpackStep(b: seq<byte>, at: seq<nat>, start: nat, stop: nat, off: nat)
    requires start <= stop < |b| && b[stop] == 0 && ZeroFree(b[start..stop])
    requires Unpacked(b, off, start, at)
    ensures Unpacked(b, off, stop + 1, at + [start])
  {
    StringAtUnique(b, start, b[start..stop]);
    var v := Strings(b, at + [start]);
    assert v[..|at|] == Strings(b, at) && v[|at|] == b[start..stop];
    ThreeSlices(b, off, start, stop);
  }

  lemma ThreeSlices(b: seq<byte>, off: nat, start: nat, stop: nat)
    requires off <= start <= stop < |b|
    ensures b[off..stop + 1] == b[off..start] + b[start..stop] + [b[stop]]
  {
  }

  // argvunpack after argvpack gives back the strings.
  lemma UnpackOfPack(v: seq<seq<byte>>, b: seq<byte>, off: nat, argl: nat, at: seq<nat>, end: nat)
    requires CStrings(v) && off + argl <= |b| && b[off..off + argl] == Pack(v)
    requires |at| == |v| && end <= off + argl && Unpacked(b, off, end, at)
    ensures Strings(b, at) == v && end == off + argl
  {
    var w := Strings(b, at);
    PackPrefixIsWhole(v, w, end - off);
    PackInjective(v, w);
  }

  // A packed vector ends in a zero, so no proper prefix of it has as many zeros.
  lemma PackPrefixIsWhole(v: seq<seq<byte>>, w: seq<seq<byte>>, m: nat)
    requires CStrings(v) && CStrings(w) && |v| == |w| && m <= |Pack(v)| && Pack(w) == Pack(v)[..m]
    ensures m == |Pack(v)| && Pack(w) == Pack(v)
  {
    var p := Pack(v);
    PackCount(w);
    PackCount(v);
    assert p == p[..m] + p[m..];
    ZerosConcat(p[..m], p[m..]);
    ZerosOfTail(p, m);
  }

  // ------------------------------------------------------------------
  // Execute and exec_wrapper
  // ------------------------------------------------------------------

  // The object representation of a program pointer.
  const POINTER_SIZE: nat := 8

  // The buffer Execute passes to Exec: the pointer, then the packed vector.
  method ExecuteBuffer(prog: seq<byte>, argv: seq<seq<byte>>) returns (args: array<byte>)
    requires |prog| == POINTER_SIZE && CStrings(argv)
    ensures args[..] == prog + Pack(argv)
  {
    var argl := Argvlen(argv);
    args := new byte[argl + POINTER_SIZE];
    for k := 0 to POINTER_SIZE
      invariant args[..k] == prog[..k]
    {
      args[k] := prog[k];
    }
    var n := Argvpack(args, POINTER_SIZE, argv);
    assert args[..] == args[..POINTER_SIZE] + args[POINTER_SIZE..POINTER_SIZE + n];
  }

  // sys_Exec copies the buffer into storage owned by the new process.
  method CopyArgs(args: array<byte>) returns (copy: array<byte>)
    ensures copy[..] == args[..]
  {
    copy := new byte[args.Length](i requires 0 <= i < args.Length reads args => args[i]);
  }

  // exec_wrapper takes the buffer apart again.
  method ExecWrapper(args: array<byte>) returns (prog: seq<byte>, argc: nat, argv: seq<nat>)
    requires args.Length >= POINTER_SIZE
    ensures prog == args[..POINTER_SIZE] && argc == Zeros(args[POINTER_SIZE..]) && |argv| == argc
    ensures forall i :: 0 <= i < argc ==> POINTER_SIZE <= argv[i] < args.Length
    ensures forall v :: CStrings(v) && args[POINTER_SIZE..] == Pack(v) ==> Strings(args[..], argv) == v
  {
    prog := args[..POINTER_SIZE];
    var argl := args.Length - POINTER_SIZE;
    assert args[POINTER_SIZE..POINTER_SIZE + argl] == args[POINTER_SIZE..];
    argc := Argscount(args, POINTER_SIZE, argl);
    var end;
    argv, end := Argvunpack(argc, args, POINTER_SIZE, argl);
    forall v | CStrings(v) && args[POINTER_SIZE..] == Pack(v) ensures Strings(args[..], argv) == v {
      PackCount(v);
      assert args[..][POINTER_SIZE..POINTER_SIZE + argl] == Pack(v);
      UnpackOfPack(v, args[..], POINTER_SIZE, argl, argv, end);
    }
  }

  // Execute followed by exec_wrapper delivers the original program and arguments.
  method ExecuteDelivers(prog: seq<byte>, argv: seq<seq<byte>>)
      returns (prog': seq<byte>, argc': nat, ghost argv': seq<seq<byte>>)
    requires |prog| == POINTER_SIZE && CStrings(argv)
    ensures prog' == prog && argc' == |argv| && argv' == argv
  {
    var sent := ExecuteBuffer(prog, argv);
    var args := CopyArgs(sent);
    assert args[..POINTER_SIZE] == prog && args[POINTER_SIZE..] == Pack(argv);
    PackCount(argv);
    var at;
    prog', argc', at := ExecWrapper(args);
    argv' := Strings(args[..], at);
  }
}
