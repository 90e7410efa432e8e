// A reachable process in which a thread is joined successfully a second time.
module ThreadExamples {
  import opened Threads

  lemma ExtendRun(x: Tid, ss: seq<Team>, steps: seq<Step>, a: Step, s': Team)
    requires IsRun(x, ss, steps) && Shape(ss[|steps|]) && Enabled(ss[|steps|], a) && s' == Apply(ss[|steps|], a)
    ensures IsRun(x, ss + [s'], steps + [a])
  {
    var ss', steps' := ss + [s'], steps + [a];
    forall i | 0 <= i < |steps'| ensures Taken(ss', steps', i) {
      if i < |steps| { assert Taken(ss, steps, i); }
    }
  }

  lemma ReachedStep(s: Team, a: Step)
    requires Reached(s) && Inv(s) && Enabled(s, a)
    ensures Reached(Apply(s, a)) && Inv(Apply(s, a))
  {
    var x, ss, steps :| IsRun(x, ss, steps) && ss[|steps|] == s;
    ExtendRun(x, ss, steps, a, Apply(s, a));
    assert (ss + [Apply(s, a)])[|steps| + 1] == Apply(s, a);
    StepInv(s, a);
  }

  lemma StartedIsReached(x: Tid)
    ensures Reached(Started(x)) && Inv(Started(x))
  {
    var none: seq<Step> := [];
    assert IsRun(x, [Started(x)], none) && [Started(x)][|none|] == Started(x);
    RunInv(x, [Started(x)], none, 0);
  }

  // A process with the threads 0, 1 and 2.
  lemma ThreeThreads() returns (s: Team)
    ensures Reached(s) && Inv(s) && s.live == {0, 1, 2} && s.list == [0, 1, 2] && s.count == 3
    ensures s.joining == map[] && 2 in s.ptcb && s.ptcb[2] == PTCB(false, false, 0, 0)
  {
    StartedIsReached(0);
    ReachedStep(Started(0), DoCreate(0, true, 1));
    var s1 := Apply(Started(0), DoCreate(0, true, 1));
    ReachedStep(s1, DoCreate(0, true, 2));
    s := Apply(s1, DoCreate(0, true, 2));
  }

  // Threads 0 and 1 sleep in a join of thread 2.
  lemma TwoJoiners() returns (s: Team)
    ensures Reached(s) && Inv(s) && s.live == {0, 1, 2} && s.list == [0, 1, 2] && s.count == 3
    ensures s.joining == map[0 := Join(2, false), 1 := Join(2, false)]
    ensures 2 in s.ptcb && s.ptcb[2] == PTCB(false, false, 2, 0)
  {
    var s2 := ThreeThreads();
    ReachedStep(s2, DoJoin(0, 2));
    var s3 := Apply(s2, DoJoin(0, 2));
    ReachedStep(s3, DoJoin(1, 2));
    s := Apply(s3, DoJoin(1, 2));
  }

  // Thread 2 exits and thread 0 returns from its join with success. It then joins
  // the same thread again, and succeeds again: thread 1 has not run yet.
  lemma JoinedTwice() returns (s: Team, s': Team)
    ensures Reached(s) && Inv(s) && Enabled(s, DoResume(0)) && Result(s, DoResume(0)) == Joined(7)
    ensures s' == Apply(s, DoResume(0)) && Shape(s')
    ensures Enabled(s', DoJoin(0, 2)) && Result(s', DoJoin(0, 2)) == Joined(7)
  {
    var s0 := TwoJoiners();
    ReachedStep(s0, DoExit(2, 7));
    s := Apply(s0, DoExit(2, 7));
    ReachedStep(s, DoResume(0));
    s' := Apply(s, DoResume(0));
  }

  // A thread created without a task: its PTCB is on no list, and is still
  // allocated when the last thread of the process has left.
  lemma LeaksAPtcb() returns (s: Team)
    ensures Reached(s) && Inv(s) && 1 in s.ptcb && 1 !in s.list
    ensures Enabled(s, DoExit(0, 7)) && Apply(s, DoExit(0, 7)).live == {} && 1 in Apply(s, DoExit(0, 7)).ptcb
  {
    StartedIsReached(0);
    ReachedStep(Started(0), DoCreate(0, false, 1));
    s := Apply(Started(0), DoCreate(0, false, 1));
  }
}
