/**
 * The bounded score counter (src/game/entities/score.cpp): a `uint8_t` value
 * that starts at 0 and refuses to be incremented once it equals its maximum.
 */
module ScoreCounter {
  import opened CppInt
  import opened Wrappers

  /** The exception `Score::increment` throws at its maximum. */
  datatype ScoreError = OutOfRange

  /**
   * What `increment` does to a value: refuse at the maximum, otherwise `++value`
   * on a `uint8_t` (which wraps at 256; the counter never gets there from 0).
   */
  function Incremented(value: Uint8, max: Uint8): Option<Uint8>
  {
    if value == max then None else Some((value + 1) % UINT8_LIMIT)
  }

  /** A value in [0, max] stays in [0, max] through a successful increment, and rises by one. */
  lemma IncrementStaysInRange(value: Uint8, max: Uint8)
    requires value <= max
    ensures Incremented(value, max).Some? <==> value < max
    ensures Incremented(value, max).Some? ==>
              Incremented(value, max).value == value + 1 <= max
  {
  }

  /** The value after `n` increments, or None if one of them was refused. */
  function IncrementedTimes(value: Uint8, max: Uint8, n: nat): Option<Uint8>
    decreases n
  {
    if n == 0 then Some(value)
    else match Incremented(value, max)
      case None => None
      case Some(v) => IncrementedTimes(v, max, n - 1)
  }

  /** From a value v <= max, k more increments succeed exactly while v + k <= max. */
  lemma {:induction false} IncrementsFrom(value: Uint8, max: Uint8, k: nat)
    requires value <= max
    ensures value + k <= max ==> IncrementedTimes(value, max, k) == Some(value + k)
    ensures value + k > max ==> IncrementedTimes(value, max, k) == None
    decreases k
  {
    if k > 0 {
      if value < max {
        IncrementsFrom(value + 1, max, k - 1);
      }
    }
  }

  /**
   * Starting from 0, exactly `max` increments reach the maximum, and the next
   * one is refused.
   */
  lemma IncrementsFromZeroReachMax(max: Uint8)
    ensures IncrementedTimes(0, max, max) == Some(max)
    ensures IncrementedTimes(0, max, max + 1) == None
    ensures forall k: nat :: k < max ==> IncrementedTimes(0, max, k) != Some(max)
  {
    IncrementsFrom(0, max, max);
    IncrementsFrom(0, max, max + 1);
    forall k: nat | k < max
      ensures IncrementedTimes(0, max, k) != Some(max)
    {
      IncrementsFrom(0, max, k);
    }
  }

  class Score {
    const max: Uint8
    var value: Uint8

    /** Every reachable score lies in [0, max]. */
    ghost predicate Valid()
      reads this
    {
      value <= max
    }

    constructor (max: Uint8)
      ensures Valid() && this.max == max && value == 0
    {
      this.max := max;
      value := 0;
    }

    predicate IsAtMax()
      reads this
    {
      value == max
    }

    method Increment() returns (r: Result<(), ScoreError>)
      requires Valid()
      modifies this
      ensures Valid()
      ensures r.Failure? <==> old(IsAtMax())
      ensures Incremented(old(value), max) == (if r.Success? then Some(value) else None)
      ensures r.Success? ==> value == old(value) + 1
      ensures r.Failure? ==> value == old(value)
    {
      if IsAtMax() {
        return Failure(OutOfRange);
      }
      value := (value + 1) % UINT8_LIMIT;
      r := Success(());
    }

    method Reset()
      modifies this
      ensures value == 0 && Valid()
    {
      value := 0;
    }
  }
}
