// The barrier of tinyoslib.c: n threads that use it for any number of rounds.
// What BarrierSync does between taking the mutex and giving it back, at its end
// or in Cond_Wait, is one step.
module Barrier {
  // The fields count and epoch are 32-bit unsigned numbers.
  const UINT_LIMIT: nat := 0x1_0000_0000

  // A thread in Cond_Wait has saved the epoch of its call.
  datatype Place = Out | Waits(saved: nat, signalled: bool)

  // `round` (the rounds completed) and `calls` (the calls every thread has made)
  // are auxiliary: no step reads them.
  datatype Sync = Sync(count: nat, epoch: nat, place: seq<Place>, round: nat, calls: seq<nat>)

  function Fresh(n: nat): Sync { Sync(0, 0, seq(n, _ => Out), 0, seq(n, _ => 0)) }

  // Cond_Broadcast
  function Broadcast(place: seq<Place>): seq<Place> {
    seq(|place|, i requires 0 <= i < |place| => if place[i].Waits? then place[i].(signalled := true) else place[i])
  }

  // Any thread may run, also one in Cond_Wait that has not been signalled.
  predicate Enabled(s: Sync, i: nat) { |s.place| == |s.calls| && i < |s.place| }

  predicate Useful(s: Sync, i: nat) {
    Enabled(s, i) && (s.place[i].Waits? ==> s.place[i].signalled)
  }

  // The guard of the waiting loop, for a thread that saved the epoch e.
  function Guard(s: Sync, i: nat, e: nat): Sync
    requires i < |s.place|
  {
    s.(place := s.place[i := if e == s.epoch then Waits(e, false) else Out])
  }

  // A call counts its thread in; the last one opens the barrier.
  function Arrived(s: Sync, i: nat): Sync
    requires |s.place| == |s.calls| && i < |s.place|
  {
    var s1 := s.(count := (s.count + 1) % UINT_LIMIT, calls := s.calls[i := s.calls[i] + 1]);
    if s1.count == |s.place|
    then s1.(epoch := (s.epoch + 1) % UINT_LIMIT, count := 0, round := s.round + 1, place := Broadcast(s1.place))
    else s1
  }

  // Thread i calls BarrierSync, or goes on after Cond_Wait.
  function Apply(s: Sync, i: nat): Sync
    requires Enabled(s, i)
  {
    match s.place[i]
    case Waits(e, _) => Guard(s, i, e)
    case Out => Guard(Arrived(s, i), i, s.epoch)
  }

  // ------------------------------------------------------------------
  // The invariant
  // ------------------------------------------------------------------

  // A thread has made as many calls as there were rounds; or one more, and then
  // it sleeps with the present epoch saved.
  predicate ThreadOk(s: Sync, i: nat)
    requires |s.place| == |s.calls| && i < |s.place|
  {
    if s.calls[i] == s.round + 1 then s.place[i] == Waits(s.epoch, false)
    else s.calls[i] == s.round && (s.place[i].Waits? ==>
           s.round >= 1 && s.place[i] == Waits((s.round - 1) % UINT_LIMIT, true))
  }

  ghost predicate Inv(s: Sync) {
    && 1 <= |s.place| < UINT_LIMIT && |s.calls| == |s.place|
    && s.epoch == s.round % UINT_LIMIT
    && s.count == multiset(s.calls)[s.round + 1] < |s.place|
    && (forall i {:trigger ThreadOk(s, i)} :: 0 <= i < |s.place| ==> ThreadOk(s, i))
  }

  lemma {:induction false} AllSame(q: seq<nat>, x: nat)
    ensures multiset(q)[x] <= |q|
    ensures multiset(q)[x] == |q| <==> forall i :: 0 <= i < |q| ==> q[i] == x
    ensures multiset(q)[x] == 0 <==> forall i :: 0 <= i < |q| ==> q[i] != x
  {
    if q == [] {
    } else {
      assert q == [q[0]] + q[1..];
      AllSame(q[1..], x);
      assert forall i :: 1 <= i < |q| ==> q[i] == q[1..][i - 1];
      assert forall i :: 0 <= i < |q| - 1 ==> q[1..][i] == q[i + 1];
    }
  }

  // Consecutive epochs differ, also when the number wraps around.
  lemma EpochsDiffer(r: nat)
    ensures r % UINT_LIMIT != (r + 1) % UINT_LIMIT
    ensures (r + 1) % UINT_LIMIT == (r % UINT_LIMIT + 1) % UINT_LIMIT
  {
  }

  lemma CallCounts(s: Sync, i: nat)
    requires Inv(s) && i < |s.place| && s.calls[i] == s.round
    ensures var calls := s.calls[i := s.calls[i] + 1];
      && multiset(calls)[s.round + 1] == s.count + 1 <= |s.place|
      && (s.count + 1 == |s.place| ==>
            (forall k :: 0 <= k < |calls| ==> calls[k] == s.round + 1) && multiset(calls)[s.round + 2] == 0)
  {
    var calls := s.calls[i := s.calls[i] + 1];
    var r: nat, r1: nat := s.round, s.round + 1;
    assert multiset(calls) == multiset(s.calls) - multiset{r} + multiset{r1};
    AllSame(calls, s.round + 1);
    AllSame(calls, s.round + 2);
  }

  // The call that completes a round, and one that does not.
  lemma LastCallInv(s: Sync, i: nat)
    requires Inv(s) && Enabled(s, i) && s.place[i] == Out && s.count + 1 == |s.place|
    ensures Inv(Apply(s, i)) && Apply(s, i).round == s.round + 1
  {
    var s' := Apply(s, i);
    assert ThreadOk(s, i);
    CallCounts(s, i);
    EpochsDiffer(s.round);
    forall k | 0 <= k < |s.place| ensures ThreadOk(s', k) { assert ThreadOk(s, k); }
  }

  lemma EarlyCallInv(s: Sync, i: nat)
    requires Inv(s) && Enabled(s, i) && s.place[i] == Out && s.count + 1 != |s.place|
    ensures Inv(Apply(s, i)) && Apply(s, i).round == s.round
  {
    var s' := Apply(s, i);
    assert ThreadOk(s, i);
    CallCounts(s, i);
    forall k | 0 <= k < |s.place| ensures ThreadOk(s', k) { assert ThreadOk(s, k); }
  }

  // Every step keeps the invariant, and the assertion count < n holds at every
  // call.
  lemma StepInv(s: Sync, i: nat)
    requires Inv(s) && Enabled(s, i)
    ensures Inv(Apply(s, i)) && |Apply(s, i).place| == |s.place|
  {
    var s' := Apply(s, i);
    assert ThreadOk(s, i);
    if s.place[i] == Out {
      if s.count + 1 == |s.place| { LastCallInv(s, i); } else { EarlyCallInv(s, i); }
    } else {
      if s.round >= 1 { EpochsDiffer(s.round - 1); }
      forall k | 0 <= k < |s.place| ensures ThreadOk(s', k) { assert ThreadOk(s, k); }
    }
  }

  // A waiter that has not been signalled goes back to wait.
  lemma UselessStep(s: Sync, i: nat)
    requires Inv(s) && Enabled(s, i) && !Useful(s, i)
    ensures Apply(s, i) == s
  {
    assert ThreadOk(s, i);
    assert s.place[i := s.place[i]] == s.place;
  }

  // ------------------------------------------------------------------
  // Runs
  // ------------------------------------------------------------------

  ghost predicate IsRun(n: nat, ss: seq<Sync>, who: seq<nat>) {
    && |ss| == |who| + 1 && 1 <= n < UINT_LIMIT && ss[0] == Fresh(n)
    && (forall t {:trigger Follows(ss, who, t)} :: 0 <= t < |who| ==> Follows(ss, who, t))
  }

  ghost predicate Follows(ss: seq<Sync>, who: seq<nat>, t: nat)
    requires t < |who| && |ss| == |who| + 1
  {
    Enabled(ss[t], who[t]) && ss[t + 1] == Apply(ss[t], who[t])
  }

  lemma {:induction false} RunInv(n: nat, ss: seq<Sync>, who: seq<nat>, t: nat)
    requires IsRun(n, ss, who) && t < |ss|
    ensures Inv(ss[t]) && |ss[t].place| == n
  {
    if t == 0 {
      AllSame(ss[0].calls, 1);
      forall i | 0 <= i < n ensures ThreadOk(ss[0], i) { }
    } else {
      RunInv(n, ss, who, t - 1);
      assert Follows(ss, who, t - 1);
      StepInv(ss[t - 1], who[t - 1]);
    }
  }

  // The calls and the returns of thread i in the first t steps.
  function Calls(ss: seq<Sync>, who: seq<nat>, i: nat, t: nat): nat
    requires t <= |who| && |ss| == |who| + 1
  {
    if t == 0 then 0
    else Calls(ss, who, i, t - 1)
         + if who[t - 1] == i && i < |ss[t - 1].place| && ss[t - 1].place[i] == Out then 1 else 0
  }

  function Returns(ss: seq<Sync>, who: seq<nat>, i: nat, t: nat): nat
    requires t <= |who| && |ss| == |who| + 1
  {
    if t == 0 then 0
    else Returns(ss, who, i, t - 1) + if who[t - 1] == i && i < |ss[t].place| && ss[t].place[i] == Out then 1 else 0
  }

  lemma {:induction false} CallsCounted(n: nat, ss: seq<Sync>, who: seq<nat>, i: nat, t: nat)
    requires IsRun(n, ss, who) && t < |ss| && i < n
    ensures |ss[t].calls| == |ss[t].place| == n && ss[t].calls[i] == Calls(ss, who, i, t)
    ensures Returns(ss, who, i, t) == Calls(ss, who, i, t) - if ss[t].place[i] == Out then 0 else 1
  {
    RunInv(n, ss, who, t);
    if t == 0 {
    } else {
      CallsCounted(n, ss, who, i, t - 1);
      RunInv(n, ss, who, t - 1);
      assert Follows(ss, who, t - 1);
    }
  }

  // The barrier: whenever a thread has returned k times, every thread has made at
  // least k calls.
  lemma NobodyPassesEarly(n: nat, ss: seq<Sync>, who: seq<nat>, i: nat, j: nat, t: nat)
    requires IsRun(n, ss, who) && t < |ss| && i < n && j < n
    ensures Returns(ss, who, i, t) <= Calls(ss, who, j, t)
  {
    RunInv(n, ss, who, t);
    CallsCounted(n, ss, who, i, t);
    CallsCounted(n, ss, who, j, t);
    assert ThreadOk(ss[t], i) && ThreadOk(ss[t], j);
  }

  // ... and no thread is ever more than one call ahead of another.
  lemma NobodyFallsBehind(n: nat, ss: seq<Sync>, who: seq<nat>, i: nat, j: nat, t: nat)
    requires IsRun(n, ss, who) && t < |ss| && i < n && j < n
    ensures Calls(ss, who, i, t) <= Calls(ss, who, j, t) + 1
    ensures Calls(ss, who, i, t) <= Returns(ss, who, j, t) + 2
  {
    RunInv(n, ss, who, t);
    CallsCounted(n, ss, who, i, t);
    CallsCounted(n, ss, who, j, t);
    assert ThreadOk(ss[t], i) && ThreadOk(ss[t], j);
  }

  // A waiter's saved epoch is the present one, and then the round is not over; or
  // the one before, and then it has been signalled and returns when it runs. So
  // no wakeup is lost, and a wait never outlives the wrap-around of the epoch.
  lemma SavedEpochIsRecent(n: nat, ss: seq<Sync>, who: seq<nat>, i: nat, t: nat)
    requires IsRun(n, ss, who) && t < |ss| && i < n
    ensures i < |ss[t].place| && |ss[t].place| == |ss[t].calls|
    ensures var s := ss[t];
      s.place[i].Waits? ==>
        if s.place[i].signalled then s.epoch == (s.place[i].saved + 1) % UINT_LIMIT && Apply(s, i).place[i] == Out
        else s.epoch == s.place[i].saved && s.calls[i] == s.round + 1
  {
    RunInv(n, ss, who, t);
    assert ThreadOk(ss[t], i);
    if ss[t].round >= 1 { EpochsDiffer(ss[t].round - 1); }
  }

  // ------------------------------------------------------------------
  // Progress
  // ------------------------------------------------------------------

  // The steps that the threads have still to make in this round.
  function Lag(s: Sync, m: nat): nat
    requires |s.place| == |s.calls| && m <= |s.place|
  {
    if m == 0 then 0
    else Lag(s, m - 1) + if s.calls[m - 1] != s.round then 0 else if s.place[m - 1] == Out then 1 else 2
  }

  lemma {:induction false} LagBound(s: Sync, m: nat)
    requires |s.place| == |s.calls| && m <= |s.place|
    ensures Lag(s, m) <= 2 * m
    ensures Lag(s, m) == 0 ==> forall i :: 0 <= i < m ==> s.calls[i] != s.round
  {
    if m == 0 {
    } else {
      LagBound(s, m - 1);
    }
  }

  // Thread i alone has changed.
  lemma {:induction false} LagUpdate(s: Sync, s': Sync, i: nat, m: nat)
    requires |s.place| == |s.calls| && |s'.place| == |s'.calls| == |s.place| && m <= |s.place| && i < |s.place|
    requires s'.round == s.round
    requires forall k :: 0 <= k < |s.place| && k != i ==> s'.place[k] == s.place[k] && s'.calls[k] == s.calls[k]
    requires s.calls[i] == s.round
    requires if s.place[i] == Out then s'.calls[i] != s.round else s'.calls[i] == s.round && s'.place[i] == Out
    ensures Lag(s', m) == Lag(s, m) - if i < m then 1 else 0
  {
    if m == 0 {
    } else {
      LagUpdate(s, s', i, m - 1);
    }
  }

  // A useful step completes a round, or leaves one less to make in this one.
  lemma StepLag(s: Sync, i: nat)
    requires Inv(s) && Useful(s, i)
    ensures var s' := Apply(s, i);
      && |s'.place| == |s'.calls| == |s.place|
      && (s'.round == s.round + 1 || (s'.round == s.round && Lag(s', |s.place|) == Lag(s, |s.place|) - 1))
  {
    assert ThreadOk(s, i);
    EpochsDiffer(s.round);
    if s.round >= 1 { EpochsDiffer(s.round - 1); }
    if Apply(s, i).round == s.round { LagUpdate(s, Apply(s, i), i, |s.place|); }
  }

  // There is always a thread that can go on,
  lemma SomeoneCanGoOn(s: Sync)
    requires Inv(s)
    ensures exists i :: Useful(s, i)
  {
    AllSame(s.calls, s.round + 1);
    var i :| 0 <= i < |s.calls| && s.calls[i] != s.round + 1;
    assert ThreadOk(s, i);
    assert Useful(s, i);
  }

  lemma LagPositive(s: Sync)
    requires Inv(s)
    ensures 1 <= Lag(s, |s.place|) <= 2 * |s.place|
  {
    LagBound(s, |s.place|);
    AllSame(s.calls, s.round + 1);
    var i :| 0 <= i < |s.calls| && s.calls[i] != s.round + 1;
    assert ThreadOk(s, i);
  }

  // The useful ones of the first t steps.
  function Work(ss: seq<Sync>, who: seq<nat>, t: nat): nat
    requires t <= |who| && |ss| == |who| + 1
  {
    if t == 0 then 0 else Work(ss, who, t - 1) + if Useful(ss[t - 1], who[t - 1]) then 1 else 0
  }

  // ... and under every schedule each 2n useful steps complete a round.
  lemma RoundsComplete(n: nat, ss: seq<Sync>, who: seq<nat>, t: nat, d: nat)
    requires IsRun(n, ss, who) && t + d < |ss| && Work(ss, who, t + d) - Work(ss, who, t) >= 2 * n
    ensures ss[t + d].round > ss[t].round
  {
    RunInv(n, ss, who, t);
    RunInv(n, ss, who, t + d);
    LagPositive(ss[t]);
    LagPositive(ss[t + d]);
    LagRun(n, ss, who, t, d);
  }

  lemma {:induction false} LagRun(n: nat, ss: seq<Sync>, who: seq<nat>, t: nat, d: nat)
    requires IsRun(n, ss, who) && t + d < |ss|
    ensures ss[t + d].round >= ss[t].round
    ensures |ss[t].place| == |ss[t].calls| == n && |ss[t + d].place| == |ss[t + d].calls| == n
    ensures ss[t + d].round == ss[t].round ==>
              Lag(ss[t + d], n) == Lag(ss[t], n) - (Work(ss, who, t + d) - Work(ss, who, t))
    decreases d
  {
    RunInv(n, ss, who, t + d);
    RunInv(n, ss, who, t);
    if d == 0 {
    } else {
      LagRun(n, ss, who, t, d - 1);
      RunInv(n, ss, who, t + d - 1);
      assert Follows(ss, who, t + d - 1);
      var s, i := ss[t + d - 1], who[t + d - 1];
      if Useful(s, i) { StepLag(s, i); } else { UselessStep(s, i); }
    }
  }

  // ------------------------------------------------------------------
  // BarrierSync as code
  // ------------------------------------------------------------------

  class BarrierBlock {
    const n: nat
    var count: nat
    var epoch: nat
    var place: seq<Place>       // the condition variable and the saved epochs
    ghost var round: nat
    ghost var calls: seq<nat>

    ghost function Abs(): Sync
      reads this
    {
      Sync(count, epoch, place, round, calls)
    }

    ghost predicate Valid()
      reads this
    {
      Inv(Abs()) && |place| == n
    }

    // BARRIER_INIT, for n threads.
    constructor (n: nat)
      requires 1 <= n < UINT_LIMIT
      ensures Valid() && Abs() == Fresh(n)
    {
      this.n := n;
      count, epoch, round := 0, 0, 0;
      place, calls := seq(n, _ => Out), seq(n, _ => 0);
      new;
      assert IsRun(n, [Fresh(n)], []);
      RunInv(n, [Fresh(n)], [], 0);
    }

    // BarrierSync by thread i, up to its first wait.
    method BarrierSync(i: nat) returns (waits: bool)
      requires Valid() && i < n && place[i] == Out
      modifies this
      ensures Valid() && Abs() == Apply(old(Abs()), i)
      ensures waits <==> place[i].Waits?
    {
      ghost var s := Abs();
      StepInv(s, i);
      var saved := epoch;
      assert count < n;
      count := (count + 1) % UINT_LIMIT;
      calls := calls[i := calls[i] + 1];
      if count == n {
        epoch := (epoch + 1) % UINT_LIMIT;
        count := 0;
        round := round + 1;
        place := Broadcast(place);
      }
      assert Abs() == Arrived(s, i);
      waits := Loop(i, saved);
    }

    // The guard of the loop.
    method Loop(i: nat, saved: nat) returns (waits: bool)
      requires i < |place|
      modifies this`place
      ensures Abs() == Guard(old(Abs()), i, saved)
      ensures waits <==> place[i].Waits?
    {
      waits := saved == epoch;
      place := place[i := if waits then Waits(saved, false) else Out];
    }

    // A waiting thread runs. It returns exactly if it was signalled.
    method Awake(i: nat) returns (waits: bool)
      requires Valid() && i < n && place[i].Waits?
      modifies this
      ensures Valid() && Abs() == Apply(old(Abs()), i)
      ensures waits <==> !old(place[i].signalled)
      ensures if waits then Abs() == old(Abs()) else place[i] == Out
    {
      StepInv(Abs(), i);
      assert ThreadOk(Abs(), i);
      if round >= 1 { EpochsDiffer(round - 1); }
      if !Useful(Abs(), i) { UselessStep(Abs(), i); }
      waits := Loop(i, place[i].saved);
    }
  }
}
