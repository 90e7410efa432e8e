// What joins and detaches return, in terms of the PTCBs and the list alone: for one
// call, and over runs for a thread that has exited or been detached.
module ThreadJoins {
  import opened Lists
  import opened Threads

  // x is off the list and freed, and nothing else has changed.
  ghost predicate Freed(s: Team, s': Team, x: Tid) {
    && s'.ptcb == s.ptcb - {x} && s'.count == s.count && s'.live == s.live
    && x !in s'.list
    && (exists n: nat :: n < |s.list| && s.list[n] == x && s'.list == s.list[..n] + s.list[n + 1..])
  }

  // A new thread goes to the end of the list. Every join of it by another thread
  // waits; without a task it is on no list, and every join fails.
  lemma NewThread(s: Team, t: Tid, hasTask: bool, x: Tid, u: Tid)
    requires Inv(s) && Enabled(s, DoCreate(t, hasTask, x)) && u in s.live && u !in s.joining
    ensures var s' := Apply(s, DoCreate(t, hasTask, x));
      && s'.list == (if hasTask then s.list + [x] else s.list) && s'.count == s.count + |s'.list| - |s.list|
      && s'.live == s.live + Elems(s'.list[|s.list|..])
      && Inv(s') && Enabled(s', DoJoin(u, x)) && Result(s', DoJoin(u, x)) == (if hasTask then Asleep else Failed)
      && forall y :: y in s.ptcb ==> y in s'.ptcb && s'.ptcb[y] == s.ptcb[y]
  {
    CreateInv(s, hasTask, x);
    assert u != x && x !in s.list;
  }

  // A join fails exactly for a thread that is not on the list, is detached, or is
  // the caller. Of any other it waits for the exit, if that is still to come.
  // Otherwise it returns the exit value, and frees the PTCB exactly if nobody sleeps
  // in a join of it.
  lemma JoinDoes(s: Team, t: Tid, x: Tid)
    requires Inv(s) && Enabled(s, DoJoin(t, x))
    ensures var s', r := Apply(s, DoJoin(t, x)), Result(s, DoJoin(t, x));
      if x !in s.list || s.ptcb[x].detached || x == t then r == Failed && s' == s
      else if !s.ptcb[x].exited then
        && r == Asleep
        && s' == s.(ptcb := s.ptcb[x := s.ptcb[x].(refcount := |Joiners(s, x)| + 1)],
                    joining := s.joining[t := Join(x, false)])
      else
        && r == Joined(s.ptcb[x].exitval) && s'.joining == s.joining
        && if Joiners(s, x) == {} then Freed(s, s', x) else s' == s
  {
    if Joinable(s, t, x) {
      assert PtcbOk(s, x);
      if s.ptcb[x].exited {
        assert s.joining - {t} == s.joining;
        assert Joiners(s, x) != {} ==> |Joiners(s, x)| > 0;
        FreedOnce(s, x);
      }
    }
  }

  // A joiner that runs again does the same, except that it is counted already.
  lemma ResumeDoes(s: Team, t: Tid)
    requires Inv(s) && Enabled(s, DoResume(t))
    ensures var s', r, x := Apply(s, DoResume(t)), Result(s, DoResume(t)), s.joining[t].target;
      if s.ptcb[x].detached then r == Failed && s' == LessOne(s, t, x)
      else if !s.ptcb[x].exited then r == Asleep && s' == s.(joining := s.joining[t := Join(x, false)])
      else
        && r == Joined(s.ptcb[x].exitval) && s'.joining == s.joining - {t}
        && if Joiners(s, x) == {t} then Freed(s, s', x) else s' == LessOne(s, t, x)
  {
    var x := s.joining[t].target;
    assert PtcbOk(s, x) && JoinOk(s, t);
    assert t in Joiners(s, x);
    assert s.ptcb[x].refcount == 1 <==> Joiners(s, x) == {t} by {
      if |Joiners(s, x)| == 1 { Singleton(Joiners(s, x), t); }
    }
    FreedOnce(s, x);
  }

  function LessOne(s: Team, t: Tid, x: Tid): Team
    requires x in s.ptcb
  {
    Set(s, x, s.ptcb[x].(refcount := s.ptcb[x].refcount - 1)).(joining := s.joining - {t})
  }

  lemma FreedOnce(s: Team, x: Tid)
    requires Distinct(s.list) && x in s.list
    ensures x !in Without(s.list, x)
    ensures exists n: nat :: n < |s.list| && s.list[n] == x && Without(s.list, x) == s.list[..n] + s.list[n + 1..]
  {
    var n: nat :| n < |s.list| && s.list[n] == x;
    WithoutSpec(s.list, x);
    WithoutAt(s.list, x, n);
  }

  // A detach fails exactly for a thread that is not on the list or has exited. Of
  // any other the PTCB is then marked, and everybody asleep in a join of it is told.
  lemma DetachDoes(s: Team, t: Tid, x: Tid)
    requires Inv(s) && Enabled(s, DoDetach(t, x))
    ensures Detachable(s, x) <==> x in s.list && !s.ptcb[x].exited
    ensures var s' := Apply(s, DoDetach(t, x));
      if x !in s.list || s.ptcb[x].exited then s' == s
      else
        && s'.ptcb == s.ptcb[x := s.ptcb[x].(detached := true)] && Told(s, s', x)
        && s'.list == s.list && s'.count == s.count && s'.live == s.live
  {
  }

  ghost predicate Told(s: Team, s': Team, x: Tid) {
    && s'.joining.Keys == s.joining.Keys
    && forall u :: u in s.joining ==>
         s'.joining[u] == if s.joining[u].target == x then Join(x, true) else s.joining[u]
  }

  // An exit stores the value and tells everybody asleep in a join of the thread.
  lemma ExitDoes(s: Team, t: Tid, v: int)
    requires Inv(s) && Enabled(s, DoExit(t, v)) && s.live != {t}
    ensures var s' := Apply(s, DoExit(t, v));
      && s'.ptcb == s.ptcb[t := s.ptcb[t].(exited := true, exitval := v)] && Told(s, s', t)
      && s'.list == s.list && s'.count == s.count - 1 && s'.live == s.live - {t}
  {
    if |s.live| == 1 { Singleton(s.live, t); }
  }

  // ------------------------------------------------------------------
  // Runs
  // ------------------------------------------------------------------

  // x has exited with value v and can be joined.
  ghost predicate Kept(s: Team, x: Tid, v: int) {
    x in s.list && x in s.ptcb && s.ptcb[x].exited && !s.ptcb[x].detached && s.ptcb[x].exitval == v
  }

  // The step is a join of x, or the end of one that has slept, ...
  ghost predicate Joins(s: Team, step: Step, x: Tid) {
    (step.DoJoin? && step.x == x) || (step.DoResume? && step.t in s.joining && s.joining[step.t].target == x)
  }

  // ... and nobody else sleeps in a join of x.
  ghost predicate JoinsLast(s: Team, step: Step, x: Tid) {
    Joins(s, step, x) && Joiners(s, x) <= {step.t}
  }

  // Every join of such a thread returns its value, and the first one with nobody
  // else asleep in a join frees it. Nothing else does while threads are left.
  lemma KeptStep(s: Team, step: Step, x: Tid, v: int)
    requires Inv(s) && Enabled(s, step) && Kept(s, x, v)
    ensures Joins(s, step, x) ==> Result(s, step) == Joined(v)
    ensures Apply(s, step).live != {} ==>
              if JoinsLast(s, step, x) then x !in Apply(s, step).list else Kept(Apply(s, step), x, v)
  {
    assert PtcbOk(s, x);
    match step
    case DoCreate(_, _, _) =>
    case DoJoin(t, y) =>
      assert t !in Joiners(s, x);
      JoinDoes(s, t, y);
    case DoDetach(t, y) => DetachDoes(s, t, y);
    case DoExit(t, w) => if s.live != {t} { ExitDoes(s, t, w); }
    case DoResume(t) =>
      assert t in Joiners(s, s.joining[t].target);
      assert JoinOk(s, t);
      ResumeDoes(s, t);
  }

  // A thread that is not on the list stays off it until its address is used again.
  lemma GoneStep(s: Team, step: Step, x: Tid)
    requires Inv(s) && Enabled(s, step) && x !in s.list
    ensures Joins(s, step, x) ==> Result(s, step) == Failed
    ensures !(step.DoCreate? && step.x == x) ==> x !in Apply(s, step).list
  {
    match step
    case DoCreate(_, _, _) =>
    case DoJoin(t, y) => JoinDoes(s, t, y);
    case DoDetach(t, y) => DetachDoes(s, t, y);
    case DoExit(t, w) => if s.live != {t} { ExitDoes(s, t, w); }
    case DoResume(t) =>
      assert JoinOk(s, t);
      ResumeDoes(s, t);
  }

  // In any run: after the exit of an undetached x with value v, and as long as
  // threads are left, every join of x gives v, up to and with the first one at which
  // nobody else sleeps in a join of x, ...
  lemma {:induction false} ExitedIsJoined(r: Tid, ss: seq<Team>, steps: seq<Step>, i: nat, j: nat, x: Tid, v: int)
    requires IsRun(r, ss, steps) && i < j < |ss| && steps[i] == DoExit(x, v)
    requires x in ss[i].ptcb && !ss[i].ptcb[x].detached
    requires forall k :: i < k <= j ==> ss[k].live != {}
    requires forall k :: i < k < j ==> !JoinsLast(ss[k], steps[k], x)
    ensures Kept(ss[j], x, v)
    ensures j < |steps| && Joins(ss[j], steps[j], x) ==>
              Shape(ss[j]) && Enabled(ss[j], steps[j]) && Result(ss[j], steps[j]) == Joined(v)
    decreases j
  {
    RunInv(r, ss, steps, j - 1);
    assert Taken(ss, steps, j - 1);
    if j == i + 1 {
      assert PtcbOk(ss[i], x) && ss[j].live == ss[i].live - {x};
      ExitDoes(ss[i], x, v);
    } else {
      ExitedIsJoined(r, ss, steps, i, j - 1, x, v);
      KeptStep(ss[j - 1], steps[j - 1], x, v);
    }
    if j < |steps| {
      RunInv(r, ss, steps, j);
      assert Taken(ss, steps, j);
      KeptStep(ss[j], steps[j], x, v);
    }
  }

  // ... and after that one every join of it fails, as long as its address is not
  // used again.
  lemma {:induction false} JoinedIsGone(r: Tid, ss: seq<Team>, steps: seq<Step>, i: nat, j: nat, x: Tid, v: int)
    requires IsRun(r, ss, steps) && i < j < |ss|
    requires Kept(ss[i], x, v) && JoinsLast(ss[i], steps[i], x)
    requires forall k :: i < k < j ==> !(steps[k].DoCreate? && steps[k].x == x)
    ensures x !in ss[j].list
    ensures j < |steps| && Joins(ss[j], steps[j], x) ==>
              Shape(ss[j]) && Enabled(ss[j], steps[j]) && Result(ss[j], steps[j]) == Failed
    decreases j
  {
    RunInv(r, ss, steps, j - 1);
    assert Taken(ss, steps, j - 1);
    if j == i + 1 {
      KeptStep(ss[i], steps[i], x, v);
    } else {
      JoinedIsGone(r, ss, steps, i, j - 1, x, v);
      GoneStep(ss[j - 1], steps[j - 1], x);
    }
    if j < |steps| {
      RunInv(r, ss, steps, j);
      assert Taken(ss, steps, j);
      GoneStep(ss[j], steps[j], x);
    }
  }

  // ------------------------------------------------------------------
  // Detached threads
  // ------------------------------------------------------------------

  ghost predicate Marked(s: Team, x: Tid) { x in s.list && x in s.ptcb && s.ptcb[x].detached }

  // t sleeps in a join of x and has been told.
  ghost predicate ToldOf(s: Team, t: Tid, x: Tid) { t in s.joining && s.joining[t] == Join(x, true) }

  // A detached thread stays detached while threads are left, exited or not, every
  // join of it fails, and who has been told of it stays so until it runs.
  lemma MarkedStep(s: Team, step: Step, x: Tid, t: Tid)
    requires Inv(s) && Enabled(s, step) && Marked(s, x)
    ensures Joins(s, step, x) ==> Result(s, step) == Failed && step.t !in Apply(s, step).joining
    ensures Apply(s, step).live != {} ==> Marked(Apply(s, step), x)
    ensures ToldOf(s, t, x) && step != DoResume(t) ==> ToldOf(Apply(s, step), t, x)
  {
    if t in s.joining { assert JoinOk(s, t); }
    match step
    case DoCreate(_, _, _) =>
    case DoJoin(u, y) => JoinDoes(s, u, y);
    case DoDetach(u, y) => DetachDoes(s, u, y);
    case DoExit(u, w) => if s.live != {u} { ExitDoes(s, u, w); }
    case DoResume(u) =>
      assert JoinOk(s, u);
      ResumeDoes(s, u);
  }

  // In any run: from a detach on that returns 0, and as long as threads are left,
  // every join of x fails, and so does the join of a thread that slept in one at the
  // detach, when it runs for the first time.
  lemma {:induction false} DetachedIsNotJoined(r: Tid, ss: seq<Team>, steps: seq<Step>, i: nat, j: nat, x: Tid, t: Tid)
    requires IsRun(r, ss, steps) && i < j < |ss| && steps[i].DoDetach? && steps[i].x == x
    requires x in ss[i].list && x in ss[i].ptcb && !ss[i].ptcb[x].exited
    requires forall k :: i < k <= j ==> ss[k].live != {}
    ensures Marked(ss[j], x)
    ensures t in ss[i].joining && ss[i].joining[t].target == x ==>
              (forall k :: i < k < j ==> steps[k] != DoResume(t)) ==> ToldOf(ss[j], t, x)
    ensures j < |steps| && Joins(ss[j], steps[j], x) ==>
              Shape(ss[j]) && Enabled(ss[j], steps[j]) && Result(ss[j], steps[j]) == Failed
    decreases j
  {
    RunInv(r, ss, steps, j - 1);
    assert Taken(ss, steps, j - 1);
    if j == i + 1 {
      DetachDoes(ss[i], steps[i].t, x);
    } else {
      DetachedIsNotJoined(r, ss, steps, i, j - 1, x, t);
      MarkedStep(ss[j - 1], steps[j - 1], x, t);
    }
    if j < |steps| {
      RunInv(r, ss, steps, j);
      assert Taken(ss, steps, j);
      MarkedStep(ss[j], steps[j], x, t);
    }
  }
}
