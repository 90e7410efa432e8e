// The threads of one process (kernel_threads.c): create, join, detach and exit.
// Every stretch under the kernel lock between two waits is one step.
module Threads {
  import opened Lists

  type Tid = nat  // the address of a PTCB

  datatype PTCB = PTCB(exited: bool, detached: bool, refcount: int, exitval: int)

  // A thread asleep in sys_ThreadJoin. `signalled` becomes true when the exit_cv
  // of the target is broadcast; a thread may also run without that, and then
  // looks again.
  datatype Join = Join(target: Tid, signalled: bool)

  // `ptcb` holds the PTCBs that are allocated, `list` is the process's ptcb_list
  // and `count` its thread_count. A running thread is named by its PTCB.
  datatype Team = Team(ptcb: map<Tid, PTCB>, list: seq<Tid>, count: int, live: set<Tid>, joining: map<Tid, Join>)

  function Set(s: Team, x: Tid, b: PTCB): Team { s.(ptcb := s.ptcb[x := b]) }

  // kernel_broadcast(& x->exit_cv)
  function Broadcast(s: Team, x: Tid): Team {
    s.(joining := map t | t in s.joining ::
         if s.joining[t].target == x then s.joining[t].(signalled := true) else s.joining[t])
  }

  // sys_CreateThread; x is what malloc returns.
  function Create(s: Team, hasTask: bool, x: Tid): Team {
    var s1 := Set(s, x, PTCB(false, false, 0, 0));
    if hasTask then s1.(list := s.list + [x], count := s.count + 1, live := s.live + {x}) else s1
  }

  // The end of sys_ThreadJoin, after its loop.
  function JoinEnd(s: Team, t: Tid, x: Tid): Team
    requires x in s.ptcb
  {
    var b := s.ptcb[x].(refcount := s.ptcb[x].refcount - 1);
    var s1 := Set(s, x, b).(joining := s.joining - {t});
    if !b.detached && b.refcount == 0 then s1.(list := Without(s1.list, x), ptcb := s1.ptcb - {x}) else s1
  }

  // The loop of sys_ThreadJoin, from its guard to a wait or the end.
  function JoinLoop(s: Team, t: Tid, x: Tid): Team
    requires x in s.ptcb
  {
    if !s.ptcb[x].exited && !s.ptcb[x].detached then s.(joining := s.joining[t := Join(x, false)])
    else JoinEnd(s, t, x)
  }

  // The checks at the start of sys_ThreadJoin.
  predicate Joinable(s: Team, t: Tid, x: Tid) {
    x in s.list && x in s.ptcb && !s.ptcb[x].detached && x != t
  }

  function JoinCall(s: Team, t: Tid, x: Tid): Team {
    if !Joinable(s, t, x) then s
    else JoinLoop(Set(s, x, s.ptcb[x].(refcount := s.ptcb[x].refcount + 1)), t, x)
  }

  // sys_ThreadDetach
  predicate Detachable(s: Team, x: Tid) { x in s.list && x in s.ptcb && !s.ptcb[x].exited }

  function Detach(s: Team, x: Tid): Team {
    if !Detachable(s, x) then s else Broadcast(Set(s, x, s.ptcb[x].(detached := true)), x)
  }

  // sys_ThreadExit; the last thread frees all PTCBs on the list.
  function Exit(s: Team, t: Tid, v: int): Team
    requires t in s.ptcb
  {
    var told := Broadcast(Set(s, t, s.ptcb[t].(exited := true, exitval := v)), t);
    var s1 := told.(count := s.count - 1, live := s.live - {t});
    if s1.count == 0 then s1.(list := [], ptcb := s1.ptcb - Elems(s1.list)) else s1
  }

  datatype Step =
    | DoCreate(t: Tid, hasTask: bool, x: Tid)
    | DoJoin(t: Tid, x: Tid)
    | DoDetach(t: Tid, x: Tid)
    | DoExit(t: Tid, v: int)
    | DoResume(t: Tid)

  predicate Enabled(s: Team, step: Step) {
    && step.t in s.live
    && (step.DoResume? <==> step.t in s.joining)
    && (step.DoCreate? ==> step.x !in s.ptcb)
  }

  function Apply(s: Team, step: Step): Team
    requires Shape(s)
    requires Enabled(s, step)
  {
    match step
    case DoCreate(t, hasTask, x) => Create(s, hasTask, x)
    case DoJoin(t, x) => JoinCall(s, t, x)
    case DoDetach(t, x) => Detach(s, x)
    case DoExit(t, v) => Exit(s, t, v)
    case DoResume(t) => JoinLoop(s, t, s.joining[t].target)
  }

  // What a join returns when it ends: Failed for -1, Joined(v) for 0 with exit
  // value v.
  datatype JoinResult = Asleep | Failed | Joined(v: int)

  function Result(s: Team, step: Step): JoinResult
    requires Shape(s) && Enabled(s, step) && (step.DoJoin? || step.DoResume?)
  {
    if step.DoJoin? && !Joinable(s, step.t, step.x) then Failed else
    var b := s.ptcb[if step.DoJoin? then step.x else s.joining[step.t].target];
    if !b.exited && !b.detached then Asleep else if b.detached then Failed else Joined(b.exitval)
  }

  // ------------------------------------------------------------------
  // The invariant
  // ------------------------------------------------------------------

  predicate Shape(s: Team) {
    && (forall t :: t in s.live ==> t in s.ptcb)
    && (forall t :: t in s.joining ==> s.joining[t].target in s.ptcb)
  }

  // The threads asleep in a join of x.
  function Joiners(s: Team, x: Tid): set<Tid> {
    set t | t in s.joining && s.joining[t].target == x
  }

  ghost predicate PtcbOk(s: Team, x: Tid)
    requires x in s.ptcb
  {
    && s.ptcb[x].refcount == |Joiners(s, x)|
    && (x in s.live <==> x in s.list && !s.ptcb[x].exited)
  }

  ghost predicate JoinOk(s: Team, t: Tid)
    requires t in s.joining
  {
    var j := s.joining[t];
    && t in s.live && j.target in s.list && j.target in s.ptcb && j.target != t
    && (!j.signalled ==> !s.ptcb[j.target].exited && !s.ptcb[j.target].detached)
  }

  ghost predicate Inv(s: Team) {
    && Shape(s)
    && (forall x {:trigger PtcbOk(s, x)} :: x in s.ptcb ==> PtcbOk(s, x))
    && (forall t {:trigger JoinOk(s, t)} :: t in s.joining ==> JoinOk(s, t))
    && (forall x :: x in s.list ==> x in s.ptcb)
    && Distinct(s.list)
    && s.count == |s.live|
  }

  lemma CreateInv(s: Team, hasTask: bool, x: Tid)
    requires Inv(s) && x !in s.ptcb
    ensures Inv(Create(s, hasTask, x))
  {
    var s' := Create(s, hasTask, x);
    assert x !in s.list && x !in s.live;
    forall y | y in s'.ptcb ensures PtcbOk(s', y) {
      assert Joiners(s', y) == Joiners(s, y);
      if y == x {
        assert Joiners(s, x) == {};
      } else {
        assert PtcbOk(s, y);
      }
    }
    forall t | t in s'.joining ensures JoinOk(s', t) { assert JoinOk(s, t); }
  }

  // The end of a join. The caller t is counted in the refcount of x, whether it
  // slept or not.
  lemma JoinEndInv(s: Team, t: Tid, x: Tid)
    requires Inv(s) && t in s.live && x in s.list && x in s.ptcb && t != x
    requires s.ptcb[x].exited || s.ptcb[x].detached
    requires t in s.joining && s.joining[t].target == x
    ensures Inv(JoinEnd(s, t, x))
  {
    var s' := JoinEnd(s, t, x);
    WithoutSpec(s.list, x);
    assert PtcbOk(s, x);
    JoinEndJoiners(s, t, x);
    forall y | y in s'.ptcb ensures PtcbOk(s', y) { JoinEndPtcb(s, t, x, y); }
    forall u | u in s'.joining ensures JoinOk(s', u) { JoinEndJoin(s, t, x, u); }
    forall u | u in s.live ensures u in s'.ptcb { assert PtcbOk(s, u); }
  }

  lemma JoinEndJoin(s: Team, t: Tid, x: Tid, u: Tid)
    requires Inv(s) && t in s.live && x in s.list && x in s.ptcb && t != x && u in JoinEnd(s, t, x).joining
    requires s.ptcb[x].exited || s.ptcb[x].detached
    requires t in s.joining && s.joining[t].target == x
    ensures JoinOk(JoinEnd(s, t, x), u)
  {
    WithoutSpec(s.list, x);
    JoinEndJoiners(s, t, x);
    assert PtcbOk(s, x) && JoinOk(s, u);
    assert s.joining[u].target == x ==> u in Joiners(JoinEnd(s, t, x), x);
  }

  lemma JoinEndPtcb(s: Team, t: Tid, x: Tid, y: Tid)
    requires Inv(s) && t in s.live && x in s.list && x in s.ptcb && t != x && y in JoinEnd(s, t, x).ptcb
    requires s.ptcb[x].exited || s.ptcb[x].detached
    requires t in s.joining && s.joining[t].target == x
    ensures PtcbOk(JoinEnd(s, t, x), y)
  {
    WithoutSpec(s.list, x);
    JoinEndJoiners(s, t, x);
    assert PtcbOk(s, x) && PtcbOk(s, y);
  }

  lemma JoinEndJoiners(s: Team, t: Tid, x: Tid)
    requires x in s.ptcb && t in s.joining && s.joining[t].target == x
    ensures |Joiners(JoinEnd(s, t, x), x)| == |Joiners(s, x)| - 1
    ensures forall y :: y != x ==> Joiners(JoinEnd(s, t, x), y) == Joiners(s, y)
  {
    var s' := JoinEnd(s, t, x);
    assert Joiners(s, x) == Joiners(s', x) + {t};
    forall y | y != x ensures Joiners(s', y) == Joiners(s, y) { }
  }

  // A joiner is put to sleep, or is counted before it looks at its target.
  lemma SleepInv(s: Team, t: Tid, x: Tid, signalled: bool)
    requires Inv(s) && t in s.live && t !in s.joining && Joinable(s, t, x)
    requires signalled || !s.ptcb[x].exited
    ensures var s1 := Set(s, x, s.ptcb[x].(refcount := s.ptcb[x].refcount + 1));
      Inv(s1.(joining := s.joining[t := Join(x, signalled)]))
  {
    var s' := Set(s, x, s.ptcb[x].(refcount := s.ptcb[x].refcount + 1)).(joining := s.joining[t := Join(x, signalled)]);
    forall y | y in s'.ptcb ensures PtcbOk(s', y) {
      assert PtcbOk(s, y);
      assert Joiners(s', y) == Joiners(s, y) + if y == x then {t} else {};
      assert t !in Joiners(s, y);
    }
    forall u | u in s'.joining ensures JoinOk(s', u) {
      if u != t { assert JoinOk(s, u); }
    }
  }

  lemma JoinInv(s: Team, t: Tid, x: Tid)
    requires Inv(s) && t in s.live && t !in s.joining
    ensures Inv(JoinCall(s, t, x))
  {
    if Joinable(s, t, x) {
      var s1 := Set(s, x, s.ptcb[x].(refcount := s.ptcb[x].refcount + 1));
      if s.ptcb[x].exited {
        var s2 := s1.(joining := s.joining[t := Join(x, true)]);
        SleepInv(s, t, x, true);
        JoinEndInv(s2, t, x);
        assert s2.joining - {t} == s1.joining - {t};
        assert JoinEnd(s2, t, x) == JoinEnd(s1, t, x);
      } else {
        SleepInv(s, t, x, false);
      }
    }
  }

  lemma ResumeInv(s: Team, t: Tid)
    requires Inv(s) && t in s.joining
    ensures Inv(JoinLoop(s, t, s.joining[t].target))
  {
    assert JoinOk(s, t);
    var x := s.joining[t].target;
    if s.ptcb[x].exited || s.ptcb[x].detached {
      JoinEndInv(s, t, x);
    } else {
      var s' := JoinLoop(s, t, x);
      forall y | y in s'.ptcb ensures PtcbOk(s', y) {
        assert PtcbOk(s, y) && Joiners(s', y) == Joiners(s, y);
      }
      forall u | u in s'.joining ensures JoinOk(s', u) { assert JoinOk(s, u); }
    }
  }

  lemma DetachInv(s: Team, x: Tid)
    requires Inv(s)
    ensures Inv(Detach(s, x))
  {
    var s' := Detach(s, x);
    forall y | y in s'.ptcb ensures PtcbOk(s', y) {
      assert PtcbOk(s, y);
      assert Joiners(s', y) == Joiners(s, y);
    }
    forall u | u in s'.joining ensures JoinOk(s', u) { assert JoinOk(s, u); }
  }

  // Nobody sleeps in a join when the last thread leaves.
  lemma ExitInv(s: Team, t: Tid, v: int)
    requires Inv(s) && t in s.live && t !in s.joining && t in s.ptcb
    ensures Inv(Exit(s, t, v))
    ensures Exit(s, t, v).count == 0 ==> Exit(s, t, v).joining == map[] && Exit(s, t, v).live == {}
  {
    var s' := Exit(s, t, v);
    assert PtcbOk(s, t);
    assert s'.live == s.live - {t} && |s'.live| == |s.live| - 1;
    forall u | u in s'.joining ensures u in s'.live { assert JoinOk(s, u); }
    forall y | y in s'.ptcb ensures PtcbOk(s', y) {
      assert PtcbOk(s, y);
      assert Joiners(s', y) == Joiners(s, y);
    }
    if s'.count != 0 {
      forall u | u in s'.joining ensures JoinOk(s', u) { assert JoinOk(s, u); }
    }
  }

  // Every step keeps the invariant.
  lemma StepInv(s: Team, step: Step)
    requires Inv(s) && Enabled(s, step)
    ensures Inv(Apply(s, step))
  {
    match step
    case DoCreate(t, hasTask, x) => CreateInv(s, hasTask, x);
    case DoJoin(t, x) => JoinInv(s, t, x);
    case DoDetach(t, x) => DetachInv(s, x);
    case DoExit(t, v) => ExitInv(s, t, v);
    case DoResume(t) => ResumeInv(s, t);
  }

  // ------------------------------------------------------------------
  // Runs
  // ------------------------------------------------------------------

  // A process starts with its main thread.
  function Started(x: Tid): Team {
    Team(map[x := PTCB(false, false, 0, 0)], [x], 1, {x}, map[])
  }

  ghost predicate IsRun(x: Tid, ss: seq<Team>, steps: seq<Step>) {
    && |ss| == |steps| + 1 && ss[0] == Started(x)
    && (forall i {:trigger Taken(ss, steps, i)} :: 0 <= i < |steps| ==> Taken(ss, steps, i))
  }

  ghost predicate Taken(ss: seq<Team>, steps: seq<Step>, i: nat)
    requires i < |steps| && |ss| == |steps| + 1
  {
    Shape(ss[i]) ==> Enabled(ss[i], steps[i]) && ss[i + 1] == Apply(ss[i], steps[i])
  }

  lemma {:induction false} RunInv(x: Tid, ss: seq<Team>, steps: seq<Step>, i: nat)
    requires IsRun(x, ss, steps) && i < |ss|
    ensures Inv(ss[i])
  {
    if i == 0 {
      assert Joiners(ss[0], x) == {};
      assert PtcbOk(ss[0], x);
    } else {
      RunInv(x, ss, steps, i - 1);
      assert Taken(ss, steps, i - 1);
      StepInv(ss[i - 1], steps[i - 1]);
    }
  }

  ghost predicate Reached(s: Team) {
    exists x, ss, steps {:trigger IsRun(x, ss, steps)} :: IsRun(x, ss, steps) && ss[|steps|] == s
  }

  lemma ReachedInv(s: Team)
    requires Reached(s)
    ensures Inv(s)
  {
    var x, ss, steps :| IsRun(x, ss, steps) && ss[|steps|] == s;
    RunInv(x, ss, steps, |steps|);
  }

  // thread_count is the number of PTCBs on the list that have not exited, which
  // are those of the running threads.
  lemma ThreadCountExact(s: Team)
    requires Reached(s)
    ensures s.count == |s.live|
    ensures s.live == set x | x in s.list && x in s.ptcb && !s.ptcb[x].exited
  {
    ReachedInv(s);
    forall x | x in s.live || x in s.list ensures x in s.live <==> x in s.list && x in s.ptcb && !s.ptcb[x].exited {
      assert PtcbOk(s, x);
    }
  }

  // A PTCB is not freed while a joiner holds it: the joiner's next access is to
  // an allocated PTCB whose refcount counts it.
  lemma HeldWhileJoined(s: Team, t: Tid)
    requires Reached(s) && t in s.joining
    ensures var x := s.joining[t].target;
      x in s.ptcb && x in s.list && s.ptcb[x].refcount == |Joiners(s, x)| >= 1
  {
    ReachedInv(s);
    var x := s.joining[t].target;
    assert JoinOk(s, t) && PtcbOk(s, x);
    assert t in Joiners(s, x);
  }

  // A thread asleep on exit_cv and not signalled waits for a thread that is
  // running and not detached.
  lemma SleeperHasTarget(s: Team, t: Tid)
    requires Reached(s) && t in s.joining && !s.joining[t].signalled
    ensures var x := s.joining[t].target; x in s.live && x in s.ptcb && !s.ptcb[x].exited && !s.ptcb[x].detached
  {
    ReachedInv(s);
    assert JoinOk(s, t);
    assert PtcbOk(s, s.joining[t].target);
  }

  // Joiner t of x is to return 0 with value v.
  ghost predicate Owed(s: Team, t: Tid, x: Tid, v: int) {
    && t in s.joining && s.joining[t] == Join(x, true)
    && x in s.ptcb && s.ptcb[x].exited && !s.ptcb[x].detached && s.ptcb[x].exitval == v
  }

  // The exit of an undetached thread makes every sleeping joiner owed its value,
  lemma ExitOwes(s: Team, x: Tid, v: int, t: Tid)
    requires Inv(s) && Enabled(s, DoExit(x, v)) && t in s.joining && s.joining[t].target == x && !s.ptcb[x].detached
    ensures Owed(Apply(s, DoExit(x, v)), t, x, v)
  {
    assert JoinOk(s, t) && t in s.live && t != x;
    assert |{t, x}| == 2 && {t, x} <= s.live;
    SubsetSize({t, x}, s.live);
  }

  // ... and no step of any thread, not even a detach, takes this away, until the
  // joiner runs and gets it.
  lemma OwedUntilPaid(s: Team, t: Tid, x: Tid, v: int, step: Step)
    requires Inv(s) && Owed(s, t, x, v) && Enabled(s, step)
    ensures if step == DoResume(t) then Result(s, step) == Joined(v) && t !in Apply(s, step).joining
            else Owed(Apply(s, step), t, x, v)
  {
    assert JoinOk(s, t) && PtcbOk(s, x);
    assert t in Joiners(s, x);
    match step
    case DoExit(u, w) =>
      assert x !in s.live && t in s.live;
      assert |{t, u}| == 2 && {t, u} <= s.live;
      SubsetSize({t, u}, s.live);
    case DoResume(u) =>
      if u != t && s.joining[u].target == x {
        assert {t, u} <= Joiners(s, x) && |{t, u}| == 2;
        SubsetSize({t, u}, Joiners(s, x));
      }
    case DoJoin(u, y) =>
      assert |Joiners(s, x)| >= 1 by { SubsetSize({t}, Joiners(s, x)); }
    case DoCreate(_, _, _) =>
    case DoDetach(_, _) =>
  }

  // A run of steps of threads other than the joiner.
  lemma {:induction false} JoinersAreServed(r: Tid, ss: seq<Team>, steps: seq<Step>, i: nat, j: nat,
                                            t: Tid, x: Tid, v: int)
    requires IsRun(r, ss, steps) && i < j < |ss|
    requires Shape(ss[i]) && steps[i] == DoExit(x, v) && t in ss[i].joining && ss[i].joining[t].target == x
    requires !ss[i].ptcb[x].detached
    requires forall k :: i < k < j ==> steps[k] != DoResume(t)
    ensures Owed(ss[j], t, x, v)
    ensures j < |steps| && steps[j] == DoResume(t) ==>
              Shape(ss[j]) && Enabled(ss[j], steps[j]) && Result(ss[j], steps[j]) == Joined(v)
    decreases j
  {
    RunInv(r, ss, steps, j - 1);
    RunInv(r, ss, steps, j);
    assert Taken(ss, steps, j - 1);
    if j == i + 1 {
      ExitOwes(ss[i], x, v, t);
    } else {
      JoinersAreServed(r, ss, steps, i, j - 1, t, x, v);
      OwedUntilPaid(ss[j - 1], t, x, v, steps[j - 1]);
    }
    if j < |steps| {
      assert Taken(ss, steps, j);
      if steps[j] == DoResume(t) { OwedUntilPaid(ss[j], t, x, v, steps[j]); }
    }
  }

  // A join of a thread that a successful join has been made of still succeeds
  // exactly while other joiners of it have not run yet.
  lemma JoinAgainIff(s: Team, t: Tid, u: Tid, x: Tid, v: int)
    requires Inv(s) && Owed(s, t, x, v) && t in s.live && u in s.live && u !in s.joining
    ensures var s' := Apply(s, DoResume(t));
      Shape(s') && Enabled(s', DoJoin(u, x)) && (Result(s', DoJoin(u, x)) == Joined(v) <==> Joiners(s, x) != {t})
  {
    ResumeInv(s, t);
    assert JoinOk(s, t) && PtcbOk(s, x);
    WithoutSpec(s.list, x);
    assert t in Joiners(s, x);
    assert s.ptcb[x].refcount == 1 <==> Joiners(s, x) == {t} by {
      if |Joiners(s, x)| == 1 { Singleton(Joiners(s, x), t); }
    }
  }

  lemma Singleton(a: set<Tid>, t: Tid)
    requires |a| == 1 && t in a
    ensures a == {t}
  {
    assert |a - {t}| == 0;
  }

  // ------------------------------------------------------------------
  // Memory
  // ------------------------------------------------------------------

  // The threads created without a task in the first i steps.
  function WithoutTask(steps: seq<Step>, i: nat): set<Tid>
    requires i <= |steps|
  {
    if i == 0 then {}
    else WithoutTask(steps, i - 1) + NewLeak(steps[i - 1])
  }

  // The PTCBs that are allocated and not on the list, and so cannot be joined,
  // detached or freed any more.
  function Leaked(s: Team): set<Tid> { s.ptcb.Keys - Elems(s.list) }

  // They are exactly those created without a task.
  lemma {:induction false} LeaksAreExact(r: Tid, ss: seq<Team>, steps: seq<Step>, i: nat)
    requires IsRun(r, ss, steps) && i < |ss|
    ensures Leaked(ss[i]) == WithoutTask(steps, i)
  {
    if i == 0 {
      assert Leaked(Started(r)) == {};
    } else {
      LeaksAreExact(r, ss, steps, i - 1);
      LeakInRun(r, ss, steps, i - 1);
    }
  }

  function NewLeak(step: Step): set<Tid> { if step.DoCreate? && !step.hasTask then {step.x} else {} }

  lemma LeakInRun(r: Tid, ss: seq<Team>, steps: seq<Step>, i: nat)
    requires IsRun(r, ss, steps) && i < |steps|
    ensures Leaked(ss[i + 1]) == Leaked(ss[i]) + NewLeak(steps[i])
  {
    RunInv(r, ss, steps, i);
    assert Taken(ss, steps, i);
    LeakStep(ss[i], steps[i]);
  }

  lemma LeakStep(s: Team, step: Step)
    requires Inv(s) && Enabled(s, step)
    ensures Leaked(Apply(s, step)) == Leaked(s) + NewLeak(step)
  {
    match step
    case DoCreate(_, hasTask, x) => CreateLeaks(s, hasTask, x);
    case DoJoin(t, x) => JoinCallLeaks(s, t, x);
    case DoResume(t) => assert JoinOk(s, t); JoinLoopLeaks(s, t, s.joining[t].target);
    case DoExit(t, v) => ExitLeaks(s, t, v);
    case DoDetach(_, x) => assert Leaked(Detach(s, x)) == Leaked(s);
  }

  lemma CreateLeaks(s: Team, hasTask: bool, x: Tid)
    requires Inv(s) && x !in s.ptcb
    ensures Leaked(Create(s, hasTask, x)) == Leaked(s) + if hasTask then {} else {x}
  {
    assert x !in s.list;
  }

  lemma ExitLeaks(s: Team, t: Tid, v: int)
    requires Inv(s) && t in s.live && t in s.ptcb
    ensures Leaked(Exit(s, t, v)) == Leaked(s)
  {
    assert PtcbOk(s, t);
  }

  lemma JoinCallLeaks(s: Team, t: Tid, x: Tid)
    requires Inv(s)
    ensures Leaked(JoinCall(s, t, x)) == Leaked(s)
  {
    if Joinable(s, t, x) {
      var s1 := Set(s, x, s.ptcb[x].(refcount := s.ptcb[x].refcount + 1));
      assert Leaked(s1) == Leaked(s);
      JoinLoopLeaks(s1, t, x);
    }
  }

  // A PTCB that a join frees was on the list.
  lemma JoinLoopLeaks(s: Team, t: Tid, x: Tid)
    requires x in s.ptcb && x in s.list && Distinct(s.list)
    ensures Leaked(JoinLoop(s, t, x)) == Leaked(s)
  {
    WithoutSpec(s.list, x);
    assert forall y :: y in s.list <==> y in Elems(s.list);
  }

  // The last exit frees everything else.
  lemma LastExitFreesAll(r: Tid, ss: seq<Team>, steps: seq<Step>, i: nat)
    requires IsRun(r, ss, steps) && i < |steps| && steps[i].DoExit? && ss[i].count == 1
    ensures ss[i + 1].list == [] && ss[i + 1].live == {} && ss[i + 1].joining == map[]
    ensures ss[i + 1].ptcb.Keys == WithoutTask(steps, i)
  {
    RunInv(r, ss, steps, i);
    assert Taken(ss, steps, i);
    LeaksAreExact(r, ss, steps, i);
    LeaksAreExact(r, ss, steps, i + 1);
    ExitInv(ss[i], steps[i].t, steps[i].v);
  }
}
