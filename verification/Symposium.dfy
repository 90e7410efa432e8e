// The dining philosophers of symposium.c as a monitor over N philosophers. What
// a philosopher does between taking the mutex and giving it back (at the end of
// a section or in Cond_Wait) is one step.
module Symposium {
  datatype Phil = NOTHERE | THINKING | HUNGRY | EATING

  // Where a philosopher is outside the monitor. `j` is its number of bites so
  // far. A waiter is `signalled` when its condition variable has been signalled.
  datatype Place =
    | Away
    | Thinks(j: nat)
    | Waits(j: nat, signalled: bool)
    | Eats(j: nat)
    | Gone

  datatype Table = Table(state: seq<Phil>, place: seq<Place>)

  // LEFT and RIGHT, with the remainder worked out.
  function Left(i: nat, n: nat): (k: nat)
    requires i < n
    ensures k < n
  {
    if i + 1 < n then i + 1 else 0
  }

  function Right(i: nat, n: nat): (k: nat)
    requires i < n
    ensures k < n
  {
    if i > 0 then i - 1 else n - 1
  }

  lemma Remainders(i: nat, n: nat)
    requires i < n
    ensures Left(i, n) == (i + 1) % n && Right(i, n) == (i + n - 1) % n
  {
    assert i + 1 == n ==> (i + 1) % n == 0;
    assert i > 0 ==> i + n - 1 == n * 1 + (i - 1);
  }

  // The two neighbourhoods are each other's inverse, whatever the size of the
  // table, also where they overlap.
  lemma Opposite(i: nat, n: nat)
    requires i < n
    ensures Left(Right(i, n), n) == i && Right(Left(i, n), n) == i
    ensures Left(i, n) == i <==> n == 1
    ensures Left(i, n) == Right(i, n) <==> n <= 2
  {
  }

  predicate Shape(s: Table) { |s.state| == |s.place| >= 1 }

  // Cond_Signal(& hungry[i]): only philosopher i ever waits there.
  function Signal(s: Table, i: nat): Table
    requires Shape(s) && i < |s.place|
  {
    s.(place := s.place[i := if s.place[i].Waits? then Waits(s.place[i].j, true) else s.place[i]])
  }

  predicate CanEat(s: Table, i: nat)
    requires i < |s.state|
  {
    && s.state[i] == HUNGRY
    && s.state[Left(i, |s.state|)] != EATING && s.state[Right(i, |s.state|)] != EATING
  }

  // trytoeat
  function TryToEat(s: Table, i: nat): Table
    requires Shape(s) && i < |s.state|
  {
    if CanEat(s, i) then Signal(s.(state := s.state[i := EATING]), i) else s
  }

  function SetState(s: Table, i: nat, p: Phil): Table
    requires i < |s.state|
  {
    s.(state := s.state[i := p])
  }

  function Move(s: Table, i: nat, p: Place): Table
    requires i < |s.place|
  {
    s.(place := s.place[i := p])
  }

  // The guard of the waiting loop.
  function WaitLoop(s: Table, i: nat, j: nat): Table
    requires Shape(s) && i < |s.state|
  {
    Move(s, i, if s.state[i] == HUNGRY then Waits(j, false) else Eats(j))
  }

  // The next section of philosopher i. One that waits may also run without having
  // been signalled.
  predicate Enabled(s: Table, i: nat) {
    Shape(s) && i < |s.place| && s.place[i] != Gone
  }

  // A section that is not just a look at the guard by a waiter not signalled.
  predicate Useful(s: Table, i: nat) {
    Enabled(s, i) && (s.place[i].Waits? ==> s.place[i].signalled)
  }

  function Apply(s: Table, bites: nat, i: nat): Table
    requires Enabled(s, i)
  {
    match s.place[i]
    case Away => Move(SetState(s, i, THINKING), i, Thinks(0))
    case Thinks(j) =>
      if j < bites then WaitLoop(TryToEat(SetState(s, i, HUNGRY), i), i, j)
      else Move(SetState(s, i, NOTHERE), i, Gone)
    case Waits(j, _) => WaitLoop(s, i, j)
    case Eats(j) =>
      var s1 := TryToEat(SetState(s, i, THINKING), Left(i, |s.state|));
      Move(TryToEat(s1, Right(i, |s.state|)), i, Thinks(j + 1))
    case Gone => s
  }

  // ------------------------------------------------------------------
  // The invariant
  // ------------------------------------------------------------------

  // The state of a philosopher as the others see it, and where it is.
  predicate PlaceOk(p: Phil, where: Place, bites: nat) {
    match where
    case Away => p == NOTHERE
    case Thinks(j) => p == THINKING && j <= bites
    case Waits(j, signalled) => p == (if signalled then EATING else HUNGRY) && j < bites
    case Eats(j) => p == EATING && j < bites
    case Gone => p == NOTHERE
  }

  // No forks are shared.
  predicate Apart(state: seq<Phil>, i: nat)
    requires i < |state|
  {
    |state| >= 2 && state[i] == EATING ==> state[Left(i, |state|)] != EATING
  }

  // A philosopher is hungry only while a neighbour eats.
  predicate Excused(state: seq<Phil>, i: nat)
    requires i < |state|
  {
    state[i] == HUNGRY ==> state[Left(i, |state|)] == EATING || state[Right(i, |state|)] == EATING
  }

  ghost predicate AllApart(state: seq<Phil>) {
    forall i {:trigger Apart(state, i)} :: 0 <= i < |state| ==> Apart(state, i)
  }

  // All but the given philosophers are excused.
  ghost predicate AllExcused(state: seq<Phil>, but: set<nat>) {
    forall i {:trigger Excused(state, i)} :: 0 <= i < |state| && i !in but ==> Excused(state, i)
  }

  ghost predicate Placed(s: Table, bites: nat, but: set<nat>) {
    && |s.state| == |s.place|
    && forall i {:trigger s.place[i]} :: 0 <= i < |s.place| && i !in but ==> PlaceOk(s.state[i], s.place[i], bites)
  }

  ghost predicate Inv(s: Table, bites: nat) {
    Shape(s) && Placed(s, bites, {}) && AllApart(s.state) && AllExcused(s.state, {})
  }

  // trytoeat keeps everybody apart, and excuses the philosopher it is for.
  lemma TryState(s: Table, i: nat, but: set<nat>)
    requires Shape(s) && i < |s.state| && AllApart(s.state) && AllExcused(s.state, but)
    ensures var s' := TryToEat(s, i);
      Shape(s') && |s'.state| == |s.state| && AllApart(s'.state) && AllExcused(s'.state, but - {i})
  {
    var s', n := TryToEat(s, i), |s.state|;
    Opposite(i, n);
    forall k | 0 <= k < n ensures Apart(s'.state, k) {
      Opposite(k, n);
      assert Apart(s.state, k);
    }
    forall k | 0 <= k < n && k !in but - {i} ensures Excused(s'.state, k) {
      assert k !in but ==> Excused(s.state, k);
    }
  }

  lemma TryPlaces(s: Table, bites: nat, i: nat, who: nat)
    requires Shape(s) && i < |s.state| && Placed(s, bites, {who})
    ensures Placed(TryToEat(s, i), bites, {who})
    ensures TryToEat(s, i).state[i] == (if CanEat(s, i) then EATING else s.state[i])
    ensures forall k :: 0 <= k < |s.state| && k != i ==>
              TryToEat(s, i).state[k] == s.state[k] && TryToEat(s, i).place[k] == s.place[k]
  {
  }

  // A philosopher who neither was nor is eating changes nothing for the others.
  lemma Quiet(state: seq<Phil>, i: nat, p: Phil)
    requires i < |state| && state[i] != EATING && p != EATING && AllApart(state) && AllExcused(state, {})
    ensures AllApart(state[i := p]) && AllExcused(state[i := p], {i})
  {
    var state' := state[i := p];
    forall k | 0 <= k < |state| ensures Apart(state', k) && (k != i ==> Excused(state', k)) {
      assert Apart(state, k) && Excused(state, k);
    }
  }

  // A philosopher who stops eating leaves only its neighbours without excuse.
  lemma Done(state: seq<Phil>, i: nat)
    requires i < |state| && AllApart(state) && AllExcused(state, {})
    ensures AllApart(state[i := THINKING])
    ensures AllExcused(state[i := THINKING], {Left(i, |state|), Right(i, |state|)})
  {
    var n, state' := |state|, state[i := THINKING];
    forall k | 0 <= k < n ensures Apart(state', k) { assert Apart(state, k); }
    forall k | 0 <= k < n && k !in {Left(i, n), Right(i, n)} ensures Excused(state', k) {
      Opposite(k, n);
      assert Excused(state, k);
    }
  }

  // Every step keeps the invariant.
  lemma StepInv(s: Table, bites: nat, i: nat)
    requires Inv(s, bites) && Enabled(s, i)
    ensures Inv(Apply(s, bites, i), bites)
  {
    var s' := Apply(s, bites, i);
    assert PlaceOk(s.state[i], s.place[i], bites);
    match s.place[i]
    case Away =>
      Quiet(s.state, i, THINKING);
      assert Excused(s'.state, i);
    case Thinks(j) =>
      if j < bites {
        var s1 := SetState(s, i, HUNGRY);
        Quiet(s.state, i, HUNGRY);
        TryState(s1, i, {i});
        assert {i} - {i} == {};
        TryPlaces(s1, bites, i, i);
      } else {
        Quiet(s.state, i, NOTHERE);
        assert Excused(s'.state, i);
      }
    case Waits(j, _) =>
    case Eats(j) =>
      var n := |s.state|;
      var s1 := SetState(s, i, THINKING);
      var s2 := TryToEat(s1, Left(i, n));
      Done(s.state, i);
      TryState(s1, Left(i, n), {Left(i, n), Right(i, n)});
      TryPlaces(s1, bites, Left(i, n), i);
      TryState(s2, Right(i, n), {Left(i, n), Right(i, n)} - {Left(i, n)});
      TryPlaces(s2, bites, Right(i, n), i);
      assert {Left(i, n), Right(i, n)} - {Left(i, n)} - {Right(i, n)} == {};
  }

  // ------------------------------------------------------------------
  // Who eats when
  // ------------------------------------------------------------------

  // A philosopher who gets hungry eats exactly if no neighbour does.
  lemma HungryDoes(s: Table, bites: nat, i: nat)
    requires Inv(s, bites) && Enabled(s, i) && s.place[i].Thinks? && s.place[i].j < bites
    ensures var s', n, j := Apply(s, bites, i), |s.state|, s.place[i].j;
      var eats := s.state[Left(i, n)] != EATING && s.state[Right(i, n)] != EATING;
      && s'.state == s.state[i := if eats then EATING else HUNGRY]
      && s'.place == s.place[i := if eats then Eats(j) else Waits(j, false)]
  {
    assert PlaceOk(s.state[i], s.place[i], bites);
    Opposite(i, |s.state|);
  }

  // When i stops eating, its left neighbour starts if it is hungry and its other
  // neighbour does not eat. Then the right one does so too, if it is another; at a
  // table of three the left one comes first.
  predicate LeftEats(s: Table, i: nat)
    requires i < |s.state|
  {
    var n := |s.state|;
    var l := Left(i, n);
    s.state[l] == HUNGRY && (Left(l, n) == i || s.state[Left(l, n)] != EATING)
  }

  predicate RightEats(s: Table, i: nat)
    requires i < |s.state|
  {
    var n := |s.state|;
    var l, r := Left(i, n), Right(i, n);
    && s.state[r] == HUNGRY && r != l && s.state[Right(r, n)] != EATING
    && !(Right(r, n) == l && LeftEats(s, i))
  }

  // Philosopher k starts to eat, and is told.
  predicate Fed(s: Table, s': Table, k: nat)
    requires Shape(s) && Shape(s') && k < |s.state| == |s'.state|
  {
    s'.state[k] == EATING && s.place[k].Waits? && s'.place[k] == Waits(s.place[k].j, true)
  }

  lemma FinishDoes(s: Table, bites: nat, i: nat, k: nat)
    requires Inv(s, bites) && Enabled(s, i) && s.place[i].Eats? && k < |s.state|
    ensures var s', n := Apply(s, bites, i), |s.state|;
      && Shape(s') && |s'.state| == n
      && if k == i then s'.state[i] == THINKING && s'.place[i] == Thinks(s.place[i].j + 1)
         else if (k == Left(i, n) && LeftEats(s, i)) || (k == Right(i, n) && RightEats(s, i)) then Fed(s, s', k)
         else s'.state[k] == s.state[k] && s'.place[k] == s.place[k]
  {
    assert PlaceOk(s.state[i], s.place[i], bites) && PlaceOk(s.state[k], s.place[k], bites);
    BothTry(s, bites, i);
  }

  // The two calls of trytoeat.
  lemma BothTry(s: Table, bites: nat, i: nat)
    requires Inv(s, bites) && i < |s.state| && s.state[i] == EATING
    ensures var n, s1 := |s.state|, SetState(s, i, THINKING);
      && (CanEat(s1, Left(i, n)) <==> LeftEats(s, i))
      && (CanEat(TryToEat(s1, Left(i, n)), Right(i, n)) <==> RightEats(s, i))
  {
    var n := |s.state|;
    Opposite(i, n);
    Opposite(Left(i, n), n);
    Opposite(Right(i, n), n);
  }

  // ------------------------------------------------------------------
  // Progress
  // ------------------------------------------------------------------

  // The steps a philosopher has still to make, counting a wait as half of one
  // course: hungry, eating, thinking.
  function Weight(p: Place, bites: nat): int {
    match p
    case Away => 2 + 3 * bites
    case Thinks(j) => 1 + 3 * (bites - j)
    case Waits(j, _) => 3 * (bites - j)
    case Eats(j) => 3 * (bites - j) - 1
    case Gone => 0
  }

  function Remaining(place: seq<Place>, bites: nat): int {
    if place == [] then 0 else Remaining(place[..|place| - 1], bites) + Weight(place[|place| - 1], bites)
  }

  lemma {:induction false} RemainingUpdate(place: seq<Place>, bites: nat, i: nat, p: Place)
    requires i < |place|
    ensures Remaining(place[i := p], bites) == Remaining(place, bites) - Weight(place[i], bites) + Weight(p, bites)
  {
    var m := |place| - 1;
    if i < m {
      RemainingUpdate(place[..m], bites, i, p);
      assert place[i := p][..m] == place[..m][i := p];
    } else {
      assert place[i := p][..m] == place[..m];
    }
  }

  lemma {:induction false} RemainingNonNegative(s: Table, bites: nat, m: nat)
    requires Inv(s, bites) && m <= |s.place|
    ensures Remaining(s.place[..m], bites) >= 0
    decreases m
  {
    if m == 0 {
    } else {
      RemainingNonNegative(s, bites, m - 1);
      assert PlaceOk(s.state[m - 1], s.place[m - 1], bites);
      assert s.place[..m][..m - 1] == s.place[..m - 1];
    }
  }

  // Signalling does not change how much is left.
  lemma TryRemaining(s: Table, bites: nat, i: nat)
    requires Shape(s) && i < |s.state|
    ensures Remaining(TryToEat(s, i).place, bites) == Remaining(s.place, bites)
    ensures forall k :: 0 <= k < |s.place| ==> Weight(TryToEat(s, i).place[k], bites) == Weight(s.place[k], bites)
  {
    var p := s.place[i];
    RemainingUpdate(s.place, bites, i, if p.Waits? then Waits(p.j, true) else p);
  }

  // A waiter not signalled goes back to wait, and nothing has changed.
  lemma UselessStep(s: Table, bites: nat, i: nat)
    requires Inv(s, bites) && Enabled(s, i) && !Useful(s, i)
    ensures Apply(s, bites, i) == s
  {
    assert PlaceOk(s.state[i], s.place[i], bites);
    assert s.place[i := s.place[i]] == s.place;
  }

  // Every other step brings the end nearer: a philosopher who is signalled eats.
  lemma StepDecreases(s: Table, bites: nat, i: nat)
    requires Inv(s, bites) && Useful(s, i)
    ensures Remaining(Apply(s, bites, i).place, bites) < Remaining(s.place, bites)
  {
    assert PlaceOk(s.state[i], s.place[i], bites);
    match s.place[i]
    case Away => RemainingUpdate(s.place, bites, i, Thinks(0));
    case Thinks(j) =>
      if j < bites {
        var s1 := TryToEat(SetState(s, i, HUNGRY), i);
        TryRemaining(SetState(s, i, HUNGRY), bites, i);
        RemainingUpdate(s1.place, bites, i, if s1.state[i] == HUNGRY then Waits(j, false) else Eats(j));
      } else {
        RemainingUpdate(s.place, bites, i, Gone);
      }
    case Waits(j, _) => RemainingUpdate(s.place, bites, i, Eats(j));
    case Eats(j) =>
      var n := |s.state|;
      var s1 := TryToEat(SetState(s, i, THINKING), Left(i, n));
      var s2 := TryToEat(s1, Right(i, n));
      TryRemaining(SetState(s, i, THINKING), bites, Left(i, n));
      TryRemaining(s1, bites, Right(i, n));
      RemainingUpdate(s2.place, bites, i, Thinks(j + 1));
  }

  // No deadlock: until all have left some philosopher can go on.
  lemma SomeoneCanGoOn(s: Table, bites: nat, i: nat)
    requires Inv(s, bites) && i < |s.place| && s.place[i] != Gone
    ensures exists k :: Useful(s, k)
  {
    assert PlaceOk(s.state[i], s.place[i], bites);
    if !Useful(s, i) {
      assert Excused(s.state, i);
      var n := |s.state|;
      var k := if s.state[Left(i, n)] == EATING then Left(i, n) else Right(i, n);
      assert PlaceOk(s.state[k], s.place[k], bites);
      assert Useful(s, k);
    }
  }

  // ------------------------------------------------------------------
  // Runs
  // ------------------------------------------------------------------

  // SymposiumTable_init, with nobody at the table yet.
  function Laid(n: nat): Table { Table(seq(n, _ => NOTHERE), seq(n, _ => Away)) }

  ghost predicate IsRun(n: nat, bites: nat, ss: seq<Table>, who: seq<nat>) {
    && |ss| == |who| + 1 && n >= 1 && ss[0] == Laid(n)
    && (forall t {:trigger Follows(bites, ss, who, t)} :: 0 <= t < |who| ==> Follows(bites, ss, who, t))
  }

  ghost predicate Follows(bites: nat, ss: seq<Table>, who: seq<nat>, t: nat)
    requires t < |who| && |ss| == |who| + 1
  {
    Enabled(ss[t], who[t]) && ss[t + 1] == Apply(ss[t], bites, who[t])
  }

  lemma {:induction false} RunInv(n: nat, bites: nat, ss: seq<Table>, who: seq<nat>, t: nat)
    requires IsRun(n, bites, ss, who) && t < |ss|
    ensures Inv(ss[t], bites) && |ss[t].state| == |ss[t].place| == n
  {
    if t == 0 {
      forall i | 0 <= i < n ensures Apart(ss[0].state, i) && Excused(ss[0].state, i) { }
    } else {
      RunInv(n, bites, ss, who, t - 1);
      assert Follows(bites, ss, who, t - 1);
      StepInv(ss[t - 1], bites, who[t - 1]);
    }
  }

  // Safety, for tables of any size: between any two steps of any run no two
  // neighbours eat, a hungry philosopher has an eating neighbour, and one who is
  // blocked is hungry, or has been signalled and eats when it runs.
  lemma Safety(n: nat, bites: nat, ss: seq<Table>, who: seq<nat>, t: nat, i: nat)
    requires IsRun(n, bites, ss, who) && t < |ss| && i < n
    ensures |ss[t].state| == |ss[t].place| == n
    ensures var state := ss[t].state;
      && (n >= 2 && state[i] == EATING ==> state[Left(i, n)] != EATING && state[Right(i, n)] != EATING)
      && (state[i] == HUNGRY ==> state[Left(i, n)] == EATING || state[Right(i, n)] == EATING)
    ensures var where := ss[t].place[i];
      where.Waits? ==> if where.signalled then ss[t].state[i] == EATING else ss[t].state[i] == HUNGRY
  {
    RunInv(n, bites, ss, who, t);
    Opposite(i, n);
    assert Apart(ss[t].state, i) && Apart(ss[t].state, Right(i, n)) && Excused(ss[t].state, i);
    assert PlaceOk(ss[t].state[i], ss[t].place[i], bites);
  }

  // The useful ones of the first t steps.
  function Work(ss: seq<Table>, who: seq<nat>, t: nat): nat
    requires t <= |who| && |ss| == |who| + 1
  {
    if t == 0 then 0 else Work(ss, who, t - 1) + if Useful(ss[t - 1], who[t - 1]) then 1 else 0
  }

  // No run has more than N * (3 * bites + 2) useful steps.
  lemma RunsAreBounded(n: nat, bites: nat, ss: seq<Table>, who: seq<nat>, t: nat)
    requires IsRun(n, bites, ss, who) && t < |ss|
    ensures Work(ss, who, t) <= n * (3 * bites + 2)
  {
    RunMeasure(n, bites, ss, who, t);
    RunInv(n, bites, ss, who, t);
    RemainingNonNegative(ss[t], bites, n);
    assert ss[t].place[..n] == ss[t].place;
  }

  lemma {:induction false} RunMeasure(n: nat, bites: nat, ss: seq<Table>, who: seq<nat>, t: nat)
    requires IsRun(n, bites, ss, who) && t < |ss|
    ensures Remaining(ss[t].place, bites) <= n * (3 * bites + 2) - Work(ss, who, t)
  {
    if t == 0 {
      AllAway(n, bites);
    } else {
      RunMeasure(n, bites, ss, who, t - 1);
      RunInv(n, bites, ss, who, t - 1);
      assert Follows(bites, ss, who, t - 1);
      var s, i := ss[t - 1], who[t - 1];
      if Useful(s, i) { StepDecreases(s, bites, i); } else { UselessStep(s, bites, i); }
    }
  }

  lemma {:induction false} AllAway(n: nat, bites: nat)
    ensures Remaining(seq(n, _ => Away), bites) == n * (3 * bites + 2)
  {
    if n == 0 {
    } else {
      AllAway(n - 1, bites);
      assert seq(n, _ => Away)[..n - 1] == seq(n - 1, _ => Away);
      assert n * (3 * bites + 2) == (n - 1) * (3 * bites + 2) + (3 * bites + 2);
    }
  }

  // How often philosopher i has begun to eat in the first t steps.
  function Meals(ss: seq<Table>, who: seq<nat>, i: nat, t: nat): nat
    requires t <= |who| && |ss| == |who| + 1
  {
    if t == 0 then 0
    else Meals(ss, who, i, t - 1) + if StartsToEat(ss[t - 1], ss[t], i) then 1 else 0
  }

  // From the state array alone: philosopher i was not eating, and is.
  predicate StartsToEat(s: Table, s': Table, i: nat) {
    i < |s.state| && i < |s'.state| && s.state[i] != EATING && s'.state[i] == EATING
  }

  function Eaten(p: Place, state: Phil, bites: nat): int {
    match p
    case Away => 0
    case Thinks(j) => j
    case Waits(j, _) => if state == EATING then j + 1 else j
    case Eats(j) => j + 1
    case Gone => bites
  }

  // trytoeat is the only place where a philosopher starts to eat.
  lemma TryMeals(s: Table, bites: nat, k: nat, i: nat)
    requires Shape(s) && k < |s.place| && i < |s.place|
    requires s.state[i] == HUNGRY ==> s.place[i].Waits?
    ensures var s' := TryToEat(s, k);
      && Eaten(s'.place[i], s'.state[i], bites)
         == Eaten(s.place[i], s.state[i], bites) + (if StartsToEat(s, s', i) then 1 else 0)
      && (s.state[i] == EATING ==> s'.state[i] == EATING)
      && (s'.state[i] == HUNGRY ==> s'.place[i].Waits?)
      && (s.state[i] != HUNGRY ==> s'.state[i] == s.state[i] && s'.place[i] == s.place[i])
  {
  }

  lemma FinishMeals(s: Table, bites: nat, w: nat, i: nat)
    requires Inv(s, bites) && Enabled(s, w) && s.place[w].Eats? && i < |s.place|
    ensures var s' := Apply(s, bites, w);
      && |s'.place| == |s'.state| == |s.place|
      && Eaten(s'.place[i], s'.state[i], bites)
         == Eaten(s.place[i], s.state[i], bites) + if StartsToEat(s, s', i) then 1 else 0
  {
    var n := |s.state|;
    var s1 := SetState(s, w, THINKING);
    var s2 := TryToEat(s1, Left(w, n));
    assert PlaceOk(s.state[i], s.place[i], bites) && PlaceOk(s.state[w], s.place[w], bites);
    TryMeals(s1, bites, Left(w, n), i);
    TryMeals(s2, bites, Right(w, n), i);
  }

  lemma StepMeals(s: Table, bites: nat, w: nat, i: nat)
    requires Inv(s, bites) && Enabled(s, w) && i < |s.place|
    ensures var s' := Apply(s, bites, w);
      && |s'.place| == |s'.state| == |s.place|
      && Eaten(s'.place[i], s'.state[i], bites)
         == Eaten(s.place[i], s.state[i], bites) + if StartsToEat(s, s', i) then 1 else 0
  {
    assert PlaceOk(s.state[i], s.place[i], bites) && PlaceOk(s.state[w], s.place[w], bites);
    if s.place[w].Eats? {
      FinishMeals(s, bites, w, i);
    } else if s.place[w].Thinks? {
      TryPlaces(SetState(s, w, HUNGRY), bites, w, w);
    }
  }

  lemma {:induction false} MealsCounted(n: nat, bites: nat, ss: seq<Table>, who: seq<nat>, i: nat, t: nat)
    requires IsRun(n, bites, ss, who) && t < |ss| && i < n
    ensures |ss[t].place| == |ss[t].state| == n && Meals(ss, who, i, t) == Eaten(ss[t].place[i], ss[t].state[i], bites)
  {
    RunInv(n, bites, ss, who, t);
    if t == 0 {
    } else {
      MealsCounted(n, bites, ss, who, i, t - 1);
      RunInv(n, bites, ss, who, t - 1);
      assert Follows(bites, ss, who, t - 1);
      StepMeals(ss[t - 1], bites, who[t - 1], i);
    }
  }

  // A run in which nobody can do anything useful has ended well: everybody has
  // left, after eating exactly `bites` times. By RunsAreBounded, every schedule
  // that does something useful again and again gets there.
  lemma EverybodyEats(n: nat, bites: nat, ss: seq<Table>, who: seq<nat>, i: nat)
    requires IsRun(n, bites, ss, who) && i < n
    requires forall k :: !Useful(ss[|who|], k)
    ensures |ss[|who|].place| == |ss[|who|].state| == n
    ensures ss[|who|].place[i] == Gone && ss[|who|].state[i] == NOTHERE
    ensures Meals(ss, who, i, |who|) == bites
  {
    var s := ss[|who|];
    RunInv(n, bites, ss, who, |who|);
    MealsCounted(n, bites, ss, who, i, |who|);
    assert PlaceOk(s.state[i], s.place[i], bites);
    if s.place[i] != Gone { SomeoneCanGoOn(s, bites, i); }
  }
}
