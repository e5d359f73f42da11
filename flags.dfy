/**
 * The game's connection state: an `unsigned` used as a set of bits, one
 * per condition, with the `check`, `state_on` and `state_off` operations
 * on it. The bitwise operators are defined on the binary digits of the
 * value, so that each lemma below can state what happens to every bit.
 */
module Flags {
  import opened GameTypes

  /** `Game::State`, an `unsigned`. */
  type State = uint32

  const Running: State := 1
  const ServerConnected: State := 2
  const ClientConnected: State := 4

  /** `Running | ServerConnected | ClientConnected`, the condition `run` waits for. */
  const Ready: State := 7

  function Pow2(n: nat): (p: nat)
    ensures p > 0
  {
    if n == 0 then 1 else 2 * Pow2(n - 1)
  }

  lemma {:induction false} Pow2Add(m: nat, n: nat)
    ensures Pow2(m + n) == Pow2(m) * Pow2(n)
  {
    if m > 0 {
      Pow2Add(m - 1, n);
    }
  }

  /** An `unsigned` has 32 bits. */
  lemma Pow2Width()
    ensures Pow2(32) == 0x1_0000_0000
  {
    assert Pow2(2) == 4;
    Pow2Add(2, 2);
    Pow2Add(4, 4);
    Pow2Add(8, 8);
    Pow2Add(16, 16);
  }

  /** Bit `i` of `x`, counting from the least significant. */
  predicate Bit(x: nat, i: nat)
    decreases i
  {
    if i == 0 then x % 2 == 1 else Bit(x / 2, i - 1)
  }

  /** `a | b` */
  function Or(a: nat, b: nat): (r: nat)
    decreases a + b
  {
    if a == 0 && b == 0 then 0
    else 2 * Or(a / 2, b / 2) + (if a % 2 == 1 || b % 2 == 1 then 1 else 0)
  }

  /** `a & b` */
  function And(a: nat, b: nat): (r: nat)
    decreases a
  {
    if a == 0 then 0
    else 2 * And(a / 2, b / 2) + (if a % 2 == 1 && b % 2 == 1 then 1 else 0)
  }

  /** `a & ~b` */
  function AndNot(a: nat, b: nat): (r: nat)
    decreases a
  {
    if a == 0 then 0
    else 2 * AndNot(a / 2, b / 2) + (if a % 2 == 1 && b % 2 == 0 then 1 else 0)
  }

  lemma {:induction false} ZeroHasNoBits(i: nat)
    ensures !Bit(0, i)
  {
    if i > 0 {
      ZeroHasNoBits(i - 1);
    }
  }

  /** Two values with the same bits are equal. */
  lemma {:induction false} SameBitsSameValue(a: nat, b: nat)
    requires forall i :: Bit(a, i) == Bit(b, i)
    ensures a == b
    decreases a + b
  {
    if a != 0 || b != 0 {
      assert Bit(a, 0) == Bit(b, 0);
      forall i: nat | true
        ensures Bit(a / 2, i) == Bit(b / 2, i)
      {
        assert Bit(a, i + 1) == Bit(b, i + 1);
      }
      SameBitsSameValue(a / 2, b / 2);
    }
  }

  lemma {:induction false} OrBit(a: nat, b: nat, i: nat)
    ensures Bit(Or(a, b), i) <==> Bit(a, i) || Bit(b, i)
    decreases i
  {
    if a == 0 && b == 0 {
      ZeroHasNoBits(i);
    } else if i > 0 {
      OrBit(a / 2, b / 2, i - 1);
    }
  }

  lemma {:induction false} AndBit(a: nat, b: nat, i: nat)
    ensures Bit(And(a, b), i) <==> Bit(a, i) && Bit(b, i)
    decreases i
  {
    if a == 0 {
      ZeroHasNoBits(i);
    } else if i > 0 {
      AndBit(a / 2, b / 2, i - 1);
    }
  }

  lemma {:induction false} AndNotBit(a: nat, b: nat, i: nat)
    ensures Bit(AndNot(a, b), i) <==> Bit(a, i) && !Bit(b, i)
    decreases i
  {
    if a == 0 {
      ZeroHasNoBits(i);
    } else if i > 0 {
      AndNotBit(a / 2, b / 2, i - 1);
    }
  }

  /** `|` of two `n`-bit values is an `n`-bit value. */
  lemma {:induction false} OrBelow(a: nat, b: nat, n: nat)
    requires a < Pow2(n) && b < Pow2(n)
    ensures Or(a, b) < Pow2(n)
  {
    if n > 0 && (a != 0 || b != 0) {
      OrBelow(a / 2, b / 2, n - 1);
    }
  }

  /** `a & ~b` keeps no bit that `a` does not have, so it is at most `a`. */
  lemma {:induction false} AndNotAtMost(a: nat, b: nat)
    ensures AndNot(a, b) <= a
  {
    if a != 0 {
      AndNotAtMost(a / 2, b / 2);
    }
  }

  /** Every bit of `condition` is set in `s`. */
  ghost predicate Covers(s: nat, condition: nat) {
    forall i: nat :: Bit(condition, i) ==> Bit(s, i)
  }

  /** `s & condition` equals `condition` iff every bit of `condition` is set in `s`. */
  lemma AndIsConditionIffCovers(s: nat, condition: nat)
    ensures And(s, condition) == condition <==> Covers(s, condition)
  {
    forall i: nat
      ensures Bit(And(s, condition), i) <==> Bit(s, i) && Bit(condition, i)
    {
      AndBit(s, condition, i);
    }
    if Covers(s, condition) {
      SameBitsSameValue(And(s, condition), condition);
    } else {
      var i: nat :| Bit(condition, i) && !Bit(s, i);
      assert !Bit(And(s, condition), i);
    }
  }

  /** `check`: all bits of `condition` are on in `s`. */
  function Check(s: State, condition: State): (b: bool)
    ensures b <==> Covers(s, condition)
  {
    AndIsConditionIffCovers(s, condition);
    And(s, condition) == condition
  }

  /** `state_on`: the state with the bits of `conditions` turned on. */
  function On(s: State, conditions: State): (r: State)
    ensures forall i :: Bit(r, i) <==> Bit(s, i) || Bit(conditions, i)
  {
    Pow2Width();
    OrBelow(s, conditions, 32);
    OrBits(s, conditions);
    Or(s, conditions)
  }

  lemma OrBits(a: nat, b: nat)
    ensures forall i :: Bit(Or(a, b), i) <==> Bit(a, i) || Bit(b, i)
  {
    forall i: nat | true
      ensures Bit(Or(a, b), i) <==> Bit(a, i) || Bit(b, i)
    {
      OrBit(a, b, i);
    }
  }

  /** `state_off`: the state with the bits of `conditions` turned off. */
  function Off(s: State, conditions: State): (r: State)
    ensures forall i :: Bit(r, i) <==> Bit(s, i) && !Bit(conditions, i)
  {
    AndNotAtMost(s, conditions);
    forall i: nat | true
      ensures Bit(AndNot(s, conditions), i) <==> Bit(s, i) && !Bit(conditions, i)
    {
      AndNotBit(s, conditions, i);
    }
    AndNot(s, conditions)
  }

  /** The three conditions are distinct single bits and `Ready` is exactly their union. */
  lemma ConditionsAreDistinctBits()
    ensures Bit(Running, 0) && Bit(ServerConnected, 1) && Bit(ClientConnected, 2)
    ensures forall i :: Bit(Running, i) ==> i == 0
    ensures forall i :: Bit(ServerConnected, i) ==> i == 1
    ensures forall i :: Bit(ClientConnected, i) ==> i == 2
    ensures Ready == On(On(Running, ServerConnected), ClientConnected)
  {
    forall i: nat | Bit(Running, i) ensures i == 0 {
      if i > 0 { ZeroHasNoBits(i - 1); }
    }
    forall i: nat | Bit(ServerConnected, i) ensures i == 1 {
      assert Bit(ServerConnected, i) == Bit(1, i - 1);
    }
    forall i: nat | Bit(ClientConnected, i) ensures i == 2 {
      assert Bit(ClientConnected, i) == Bit(2, i - 1) == Bit(1, i - 2);
    }
    var r := On(On(Running, ServerConnected), ClientConnected);
    forall i: nat | true ensures Bit(r, i) == Bit(Ready, i) {
      if i > 2 { ZeroHasNoBits(i - 3); }
    }
    SameBitsSameValue(r, Ready);
  }
}

/**
 * The wake-up rule of `wait_for`: the waiter evaluates its predicate on
 * the state it sees, and other threads change the state in between with
 * `state_on` and `state_off`.
 */
module Waiting {
  import opened Flags

  /** A call of `state_on` or `state_off` made by another thread. */
  datatype Update = TurnOn(conditions: State) | TurnOff(conditions: State)

  function Apply(s: State, u: Update): (r: State) {
    match u
    case TurnOn(c) => On(s, c)
    case TurnOff(c) => Off(s, c)
  }

  /** The state after the updates `us`, applied in order. */
  function ApplyAll(s: State, us: seq<Update>): (r: State)
    decreases |us|
  {
    if us == [] then s else ApplyAll(Apply(s, us[0]), us[1..])
  }

  /**
   * The state a waiter sees after the batches `bs`. One batch is the
   * updates other threads complete between two evaluations of the
   * waiter's predicate; the waiter does not see the states inside a batch.
   */
  function Observe(s: State, bs: seq<seq<Update>>): (r: State)
    decreases |bs|
  {
    if bs == [] then s else ApplyAll(Observe(s, bs[..|bs| - 1]), bs[|bs| - 1])
  }

  /** The predicate `wait_for` waits on. */
  predicate Wake(s: State, previous: State, next: State) {
    !Check(s, previous) || Check(s, next)
  }

  /** Some observed state, the initial one included, satisfies the wake predicate. */
  predicate WakesWithin(s: State, bs: seq<seq<Update>>, previous: State, next: State) {
    exists k :: 0 <= k <= |bs| && Wake(Observe(s, bs[..k]), previous, next)
  }

  /**
   * The number of batches a waiter lets pass before it returns: the first
   * observation, counting from `from`, at which the wake predicate holds.
   */
  function WakeIndex(s: State, bs: seq<seq<Update>>, previous: State, next: State, from: nat := 0): (k: nat)
    requires from <= |bs|
    requires exists j :: from <= j <= |bs| && Wake(Observe(s, bs[..j]), previous, next)
    ensures from <= k <= |bs|
    ensures Wake(Observe(s, bs[..k]), previous, next)
    ensures forall j :: from <= j < k ==> !Wake(Observe(s, bs[..j]), previous, next)
    decreases |bs| - from
  {
    if Wake(Observe(s, bs[..from]), previous, next) then from
    else WakeIndex(s, bs, previous, next, from + 1)
  }

  /** One more batch: the next observed state is the last one with that batch applied. */
  lemma ObserveNext(s: State, bs: seq<seq<Update>>, i: nat)
    requires i < |bs|
    ensures Observe(s, bs[..i + 1]) == ApplyAll(Observe(s, bs[..i]), bs[i])
  {
    assert bs[..i + 1][..i] == bs[..i];
  }

  /** A waiter returns at the one observation that wakes it after none of the earlier ones did. */
  lemma WakeIndexUnique(s: State, bs: seq<seq<Update>>, previous: State, next: State, i: nat)
    requires i <= |bs| && Wake(Observe(s, bs[..i]), previous, next)
    requires forall j :: 0 <= j < i ==> !Wake(Observe(s, bs[..j]), previous, next)
    ensures WakesWithin(s, bs, previous, next) && WakeIndex(s, bs, previous, next) == i
  {
  }
}
