/**
 * The tick-based countdown (src/game/entities/countdown.cpp). Elapsed time is
 * an integer number of milliseconds. The count shown is `ticks / interval`;
 * when the ticks drop below zero the countdown re-arms itself and fires its
 * timeout callback, reported here as the result of `Update`.
 */
module CountdownTimer {
  import opened CppInt

  /** `getResetTicks`: the ticks of a freshly armed countdown. */
  function ResetTicks(startingCount: Uint16, interval: int): int
  {
    (startingCount + 1) * interval
  }

  /**
   * `getCountFromTicks`: `ticks / interval` converted to `unsigned short`, or 0
   * for negative ticks.
   */
  function CountFromTicks(ticks: int, interval: int): Uint16
    requires interval != 0
  {
    if ticks >= 0 then TruncDiv(ticks, interval) % UINT16_LIMIT else 0
  }

  lemma MulMonotone(d: int, a: int, b: int)
    requires d >= 0 && a <= b
    ensures d * a <= d * b
  {
    assert d * b - d * a == d * (b - a);
  }

  lemma DivMonotone(a: int, b: int, d: int)
    requires 0 <= a <= b && d > 0
    ensures a / d <= b / d
  {
    var qa, qb := a / d, b / d;
    assert a == d * qa + a % d && 0 <= a % d;
    assert b == d * qb + b % d && b % d < d;
    if qa > qb {
      MulMonotone(d, qb + 1, qa);
      assert false;
    }
  }

  lemma DivBelowBound(t: int, s: int, d: int)
    requires 0 <= t < (s + 1) * d && d > 0 && s >= 0
    ensures t / d <= s
  {
    var q := t / d;
    assert t == d * q + t % d && 0 <= t % d;
    if q > s {
      MulMonotone(d, s + 1, q);
      assert false;
    }
  }

  lemma MulDivCancel(k: int, d: int)
    requires k >= 0 && d > 0
    ensures (k * d) / d == k
  {
    var q, r := (k * d) / d, (k * d) % d;
    assert k * d == d * q + r && 0 <= r < d;
    if q < k {
      MulMonotone(d, q + 1, k);
      assert false;
    } else if q > k {
      MulMonotone(d, k + 1, q);
      assert false;
    }
  }

  /** Below 2^16 intervals the count is the plain quotient; negative ticks show 0. */
  lemma CountIsQuotient(ticks: int, interval: int)
    requires interval > 0
    ensures ticks < 0 ==> CountFromTicks(ticks, interval) == 0
    ensures 0 <= ticks < UINT16_LIMIT * interval ==> CountFromTicks(ticks, interval) == ticks / interval
  {
    if 0 <= ticks < UINT16_LIMIT * interval {
      TruncDivOfNonNegative(ticks, interval);
      DivBelowBound(ticks, UINT16_LIMIT - 1, interval);
    }
  }

  /** With non-negative elapsed time and no timeout, the displayed count cannot go up. */
  lemma CountNonIncreasing(ticks: int, elapsedMs: int, interval: int)
    requires interval > 0 && elapsedMs >= 0 && 0 <= ticks - elapsedMs
    requires ticks < UINT16_LIMIT * interval
    ensures CountFromTicks(ticks - elapsedMs, interval) <= CountFromTicks(ticks, interval)
  {
    DivMonotone(ticks - elapsedMs, ticks, interval);
    CountIsQuotient(ticks - elapsedMs, interval);
    CountIsQuotient(ticks, interval);
  }

  /** Any ticks strictly below the reset value give a count of at most the starting count. */
  lemma CountAtMostStart(ticks: int, startingCount: Uint16, interval: int)
    requires interval > 0 && 0 <= ticks < ResetTicks(startingCount, interval)
    ensures CountFromTicks(ticks, interval) <= startingCount
  {
    DivBelowBound(ticks, startingCount, interval);
    MulMonotone(interval, startingCount + 1, UINT16_LIMIT);
    CountIsQuotient(ticks, interval);
  }

  /** Exactly at the reset value the count is one past the starting count (modulo 2^16). */
  lemma CountAtReset(startingCount: Uint16, interval: int)
    requires interval > 0
    ensures CountFromTicks(ResetTicks(startingCount, interval), interval)
            == (startingCount + 1) % UINT16_LIMIT
  {
    MulDivCancel(startingCount + 1, interval);
    TruncDivOfNonNegative(ResetTicks(startingCount, interval), interval);
  }

  /** A non-positive interval arms the countdown at or below zero ticks. */
  lemma ResetTicksSign(startingCount: Uint16, interval: int)
    ensures interval < 0 ==> ResetTicks(startingCount, interval) < 0
    ensures interval > 0 ==> ResetTicks(startingCount, interval) >= interval
    ensures interval == 0 ==> ResetTicks(startingCount, interval) == 0
  {
  }

  /** The length check as written: it throws only when there are fewer textures than the starting count. */
  predicate LengthCheckPassesAsWritten(textureCount: nat, startingCount: Uint16)
  {
    !(textureCount < startingCount)
  }

  /** The corrected check: one texture per count 0 .. startingCount. */
  predicate HasTextureForEveryCount(textureCount: nat, startingCount: Uint16)
  {
    textureCount > startingCount
  }

  /**
   * With the check as written, three textures pass for a starting count of 3,
   * and one millisecond after arming the count to draw is 3, past the last texture.
   */
  lemma AsWrittenCheckAdmitsOutOfRangeTexture()
    ensures LengthCheckPassesAsWritten(3, 3)
    ensures CountFromTicks(ResetTicks(3, 600) - 1, 600) == 3
    ensures !HasTextureForEveryCount(3, 3)
  {
    assert ResetTicks(3, 600) - 1 == 2399;
    assert TruncDiv(2399, 600) == 3;
  }

  /**
   * With the corrected check, the count left by an update with positive elapsed
   * time that does not time out always indexes an existing texture.
   */
  lemma CorrectedCheckKeepsTextureIndexInRange(
    textureCount: nat, startingCount: Uint16, interval: int, ticks: int, elapsedMs: int)
    requires HasTextureForEveryCount(textureCount, startingCount)
    requires interval > 0 && ticks <= ResetTicks(startingCount, interval)
    requires elapsedMs > 0 && ticks - elapsedMs >= 0
    ensures CountFromTicks(ticks - elapsedMs, interval) <= startingCount < textureCount
  {
    CountAtMostStart(ticks - elapsedMs, startingCount, interval);
  }

  class Countdown {
    const startingCount: Uint16
    const interval: int
    const textureCount: nat
    var currentCount: Uint16
    var currentTicks: int

    /**
     * Ticks stay between 0 and the reset value (for a negative interval they
     * sit at the reset value); the textures passed the constructor's check.
     */
    ghost predicate Valid()
      reads this
    {
      && LengthCheckPassesAsWritten(textureCount, startingCount)
      && (currentTicks == ResetTicks(startingCount, interval)
          || 0 <= currentTicks <= ResetTicks(startingCount, interval))
    }

    /** The count indexes a texture, as `draw` requires. */
    predicate DrawIndexInRange()
      reads this
    {
      currentCount < textureCount
    }

    /**
     * The constructor, which throws `length_error` (null here) when there are
     * fewer textures than the starting count. `currentCount` is left
     * uninitialised, as in the source.
     */
    static method Create(startingCount: Uint16, interval: int, textureCount: nat)
      returns (c: Countdown?)
      ensures c == null <==> !LengthCheckPassesAsWritten(textureCount, startingCount)
      ensures c != null ==> fresh(c) && c.Valid()
      ensures c != null ==> c.startingCount == startingCount && c.interval == interval
      ensures c != null ==> c.textureCount == textureCount
      ensures c != null ==> c.currentTicks == ResetTicks(startingCount, interval)
    {
      if textureCount < startingCount {
        return null;
      }
      c := new Countdown.Init(startingCount, interval, textureCount);
    }

    /** The member initialisers of the constructor, once the length check has passed. */
    constructor Init(startingCount: Uint16, interval: int, textureCount: nat)
      requires LengthCheckPassesAsWritten(textureCount, startingCount)
      ensures Valid()
      ensures this.startingCount == startingCount && this.interval == interval
      ensures this.textureCount == textureCount
      ensures currentTicks == ResetTicks(startingCount, interval)
    {
      this.startingCount := startingCount;
      this.interval := interval;
      this.textureCount := textureCount;
      currentTicks := ResetTicks(startingCount, interval);
      currentCount := *;
    }

    /**
     * `Countdown::update`. Returns whether the timeout callback fired.
     * Dividing by a zero interval is undefined, hence the second requires.
     */
    method Update(elapsedMs: int) returns (timedOut: bool)
      requires Valid() && elapsedMs >= 0
      requires interval != 0 || currentTicks - elapsedMs < 0
      modifies this
      ensures Valid()
      ensures timedOut <==> old(currentTicks) - elapsedMs < 0
      ensures timedOut ==> currentTicks == ResetTicks(startingCount, interval)
      ensures timedOut ==> currentCount == old(currentCount)
      ensures !timedOut ==> currentTicks == old(currentTicks) - elapsedMs
      ensures !timedOut ==> currentCount == CountFromTicks(currentTicks, interval)
      ensures !timedOut && elapsedMs > 0 ==> currentCount <= startingCount
      ensures !timedOut && elapsedMs > 0 && HasTextureForEveryCount(textureCount, startingCount)
              ==> DrawIndexInRange()
      ensures !timedOut && old(currentCount) == CountFromTicks(old(currentTicks), interval)
              && old(currentTicks) < ResetTicks(startingCount, interval)
              ==> currentCount <= old(currentCount)
    {
      ResetTicksSign(startingCount, interval);
      currentTicks := currentTicks - elapsedMs;
      if currentTicks < 0 {
        currentTicks := ResetTicks(startingCount, interval);
        timedOut := true;
      } else {
        currentCount := CountFromTicks(currentTicks, interval);
        timedOut := false;
        if interval > 0 {
          if elapsedMs > 0 {
            CountAtMostStart(currentTicks, startingCount, interval);
          }
          if old(currentTicks) < ResetTicks(startingCount, interval) {
            MulMonotone(interval, startingCount + 1, UINT16_LIMIT);
            CountNonIncreasing(old(currentTicks), elapsedMs, interval);
          }
        }
      }
    }
  }
}
