// SymposiumTable of symposium.c as code over the shared state array. Every
// method is what a philosopher does with the mutex held.
module SymposiumTable {
  import opened Symposium

  lemma StillEating(s: Table, i: nat, j: nat)
    requires Shape(s) && i < |s.place| && s.place[i] == Eats(j)
    ensures var n := |s.state|;
      Symposium.TryToEat(Symposium.TryToEat(s, Left(i, n)), Right(i, n)).place[i] == Eats(j)
  {
  }

  class SymposiumTable {
    const n: nat
    const bites: nat
    const state: array<Phil>
    var asleep: set<nat>      // the philosophers waiting on hungry[i]
    ghost var place: seq<Place>

    ghost function Abs(): Table
      reads this, state
    {
      Table(state[..], place)
    }

    // The condition variables hold exactly the waiters not signalled.
    ghost predicate Rings()
      reads this
    {
      forall k {:trigger k in asleep} {:trigger place[k]} :: 0 <= k < |place| ==>
        (k in asleep <==> place[k].Waits? && !place[k].signalled)
    }

    ghost predicate Valid()
      reads this, state
    {
      n == state.Length && Inv(Abs(), bites) && Rings()
    }

    // SymposiumTable_init
    constructor (n: nat, bites: nat)
      requires n >= 1
      ensures Valid() && fresh(state) && this.n == n && this.bites == bites && Abs() == Laid(n)
    {
      this.n, this.bites := n, bites;
      state := new Phil[n](_ => EATING);
      asleep := {};
      place := seq(n, _ => Away);
      new;
      for i := 0 to n
        invariant forall k :: 0 <= k < i ==> state[k] == NOTHERE
        invariant asleep == {} && place == seq(n, _ => Away)
        modifies state
      {
        state[i] := NOTHERE;
      }
      assert Abs() == Laid(n);
      forall i | 0 <= i < n ensures Apart(state[..], i) && Excused(state[..], i) { }
    }

    // trytoeat
    method TryToEat(i: nat)
      requires Shape(Abs()) && i < n == state.Length && Rings()
      modifies state, this`asleep, this`place
      ensures Abs() == Symposium.TryToEat(old(Abs()), i) && Rings()
      ensures i !in old(asleep) ==> asleep == old(asleep)
    {
      Remainders(i, n);
      if state[i] == HUNGRY && state[(i + 1) % n] != EATING && state[(i + n - 1) % n] != EATING {
        state[i] := EATING;
        assert state[..] == old(state[..])[i := EATING];
        place := Signal(Abs(), i).place;
        asleep := asleep - {i};  // Cond_Signal
      }
    }

    // Lines 98-101.
    method Arrive(i: nat)
      requires Valid() && i < n && place[i] == Away
      modifies state, this`place
      ensures Valid() && Abs() == Apply(old(Abs()), bites, i)
    {
      StepInv(Abs(), bites, i);
      state[i] := THINKING;
      assert state[..] == old(state[..])[i := THINKING];
      place := place[i := Thinks(0)];
    }

    // Lines 106-112, up to the first wait.
    method GetHungry(i: nat, ghost j: nat) returns (waits: bool)
      requires Valid() && i < n && place[i] == Thinks(j) && j < bites
      modifies state, this`asleep, this`place
      ensures Valid() && Abs() == Apply(old(Abs()), bites, i)
      ensures waits <==> state[i] == HUNGRY
    {
      StepInv(Abs(), bites, i);
      state[i] := HUNGRY;
      assert state[..] == old(state[..])[i := HUNGRY];
      TryToEat(i);
      waits := LoopGuard(i, j);
    }

    // The guard of line 109, from where the philosopher waits or goes to eat.
    method LoopGuard(i: nat, ghost j: nat) returns (waits: bool)
      requires Shape(Abs()) && i < n == state.Length && Rings() && (i in asleep ==> state[i] == HUNGRY)
      modifies this`asleep, this`place
      ensures Abs() == WaitLoop(old(Abs()), i, j) && Rings()
      ensures waits <==> state[i] == HUNGRY
    {
      waits := state[i] == HUNGRY;
      place := place[i := if waits then Waits(j, false) else Eats(j)];
      if waits { asleep := asleep + {i}; }
    }

    // A waiting philosopher runs. It has to wait again exactly if it was not
    // signalled; its place in the ring is then taken up anew.
    method Awake(i: nat, ghost j: nat) returns (waits: bool)
      requires Valid() && i < n && place[i].Waits? && place[i].j == j
      modifies state, this`asleep, this`place
      ensures Valid() && Abs() == Apply(old(Abs()), bites, i)
      ensures waits <==> !old(place[i].signalled)
      ensures if waits then Abs() == old(Abs()) else state[i] == EATING
    {
      StepInv(Abs(), bites, i);
      assert PlaceOk(state[..][i], place[i], bites);
      if !Useful(Abs(), i) { UselessStep(Abs(), bites, i); }
      waits := LoopGuard(i, j);
    }

    // Lines 121-122.
    method TryNeighbours(i: nat)
      requires Shape(Abs()) && i < n == state.Length && Rings()
      modifies state, this`asleep, this`place
      ensures Abs() == Symposium.TryToEat(Symposium.TryToEat(old(Abs()), Left(i, n)), Right(i, n)) && Rings()
    {
      TryToEat(Left(i, n));
      TryToEat(Right(i, n));
    }

    // Lines 118-123.
    method Finish(i: nat, ghost j: nat)
      requires Valid() && i < n && place[i] == Eats(j)
      modifies state, this`asleep, this`place
      ensures Valid() && Abs() == Apply(old(Abs()), bites, i)
    {
      ghost var s := Abs();
      state[i] := THINKING;
      ghost var s1 := SetState(s, i, THINKING);
      assert Abs() == s1 && Rings();
      TryNeighbours(i);
      ghost var s3 := Abs();
      assert s3 == Symposium.TryToEat(Symposium.TryToEat(s1, Left(i, n)), Right(i, n));
      StillEating(s1, i, j);
      place := place[i := Thinks(j + 1)];
      assert Abs() == Move(s3, i, Thinks(j + 1)) == Apply(s, bites, i);
      StepInv(s, bites, i);
    }

    // Lines 126-129.
    method Leave(i: nat)
      requires Valid() && i < n && place[i] == Thinks(bites)
      modifies state, this`place
      ensures Valid() && Abs() == Apply(old(Abs()), bites, i)
    {
      StepInv(Abs(), bites, i);
      state[i] := NOTHERE;
      assert state[..] == old(state[..])[i := NOTHERE];
      place := place[i := Gone];
    }
  }
}
