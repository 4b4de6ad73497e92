/**
 * The per-tick speed of the reel (roulette.js, `roll`): a ramp up from 1 while
 * the distance is within the run-up distance, and a ramp down toward 1 as the
 * distance approaches the stopping distance. Both ramps add 1 to a truncated
 * fraction of the configured speed, so the reel never stands still.
 */
module SpeedProfile {
  import opened JsMath

  /** `~~((distance / runUpDistance) * speed) + 1`. */
  function RunUpSpeed(distance: int, runUpDistance: int, speed: int): (step: int)
    ensures 0 <= distance && 0 < runUpDistance && 0 <= speed ==> 1 <= step
    ensures runUpDistance == 0 ==> step == 1
  {
    TruncDiv(distance * speed, runUpDistance) + 1
  }

  /** `~~(((maxDistance - distance) / (maxDistance - slowDownStartDistance)) * speed) + 1`. */
  function SlowDownSpeed(distance: int, maxDistance: int, slowDownStartDistance: int, speed: int): (step: int)
    ensures distance <= maxDistance && slowDownStartDistance < maxDistance && 0 <= speed ==> 1 <= step
    ensures maxDistance == slowDownStartDistance ==> step == 1
  {
    TruncDiv((maxDistance - distance) * speed, maxDistance - slowDownStartDistance) + 1
  }

  /** `(k * c) / c == k` for a positive divisor. */
  lemma DivOfProduct(k: int, c: int)
    requires c > 0
    ensures (c * k) / c == k
  {
    DivModUnique(c * k, k, 0, c);
  }

  /** On the run-up stretch the speed climbs from 1 at the start to `speed + 1` at its end. */
  lemma RunUpSpeedBounds(distance: int, runUpDistance: int, speed: int)
    requires 0 <= distance <= runUpDistance && 0 < runUpDistance && 0 <= speed
    ensures 1 <= RunUpSpeed(distance, runUpDistance, speed) <= speed + 1
    ensures distance == 0 ==> RunUpSpeed(distance, runUpDistance, speed) == 1
    ensures distance == runUpDistance ==> RunUpSpeed(distance, runUpDistance, speed) == speed + 1
  {
    MulNonNegative(distance, speed);
    MulMonotone(distance, runUpDistance, speed);
    DivMonotone(distance * speed, runUpDistance * speed, runUpDistance);
    DivOfProduct(speed, runUpDistance);
    ModSmall(0, runUpDistance);
    assert 0 <= (distance * speed) / runUpDistance by {
      DivMonotone(0, distance * speed, runUpDistance);
    }
  }

  /** The run-up speed never drops as the distance grows. */
  lemma RunUpSpeedMonotone(d1: int, d2: int, runUpDistance: int, speed: int)
    requires 0 <= d1 <= d2 <= runUpDistance && 0 < runUpDistance && 0 <= speed
    ensures RunUpSpeed(d1, runUpDistance, speed) <= RunUpSpeed(d2, runUpDistance, speed)
  {
    MulNonNegative(d1, speed);
    MulMonotone(d1, d2, speed);
    DivMonotone(d1 * speed, d2 * speed, runUpDistance);
  }

  /**
   * Between the start of the slow-down and the stopping distance the speed
   * falls from `speed + 1` to 1.
   */
  lemma SlowDownSpeedBounds(distance: int, maxDistance: int, slowDownStartDistance: int, speed: int)
    requires slowDownStartDistance <= distance <= maxDistance && slowDownStartDistance < maxDistance
    requires 0 <= speed
    ensures 1 <= SlowDownSpeed(distance, maxDistance, slowDownStartDistance, speed) <= speed + 1
    ensures distance == slowDownStartDistance ==>
              SlowDownSpeed(distance, maxDistance, slowDownStartDistance, speed) == speed + 1
    ensures distance == maxDistance ==> SlowDownSpeed(distance, maxDistance, slowDownStartDistance, speed) == 1
  {
    var left, span := maxDistance - distance, maxDistance - slowDownStartDistance;
    MulNonNegative(left, speed);
    MulMonotone(left, span, speed);
    DivMonotone(left * speed, span * speed, span);
    DivMonotone(0, left * speed, span);
    DivOfProduct(speed, span);
    ModSmall(0, span);
  }

  /** The slow-down speed never rises as the distance grows. */
  lemma SlowDownSpeedMonotone(d1: int, d2: int, maxDistance: int, slowDownStartDistance: int, speed: int)
    requires slowDownStartDistance <= d1 <= d2 <= maxDistance && slowDownStartDistance < maxDistance
    requires 0 <= speed
    ensures SlowDownSpeed(d2, maxDistance, slowDownStartDistance, speed)
         <= SlowDownSpeed(d1, maxDistance, slowDownStartDistance, speed)
  {
    var span := maxDistance - slowDownStartDistance;
    MulNonNegative(maxDistance - d2, speed);
    MulMonotone(maxDistance - d2, maxDistance - d1, speed);
    DivMonotone((maxDistance - d2) * speed, (maxDistance - d1) * speed, span);
  }

  /**
   * When the configured speed is below the length of the slow-down stretch,
   * a slow-down step taken short of the stopping distance moves forward and
   * never past it, so the reel reaches the stopping distance exactly.
   */
  lemma SlowDownStepStaysWithin(distance: int, maxDistance: int, slowDownStartDistance: int, speed: int)
    requires slowDownStartDistance <= distance < maxDistance
    requires 0 <= speed < maxDistance - slowDownStartDistance
    ensures distance < distance + SlowDownSpeed(distance, maxDistance, slowDownStartDistance, speed) <= maxDistance
  {
    var left, span := maxDistance - distance, maxDistance - slowDownStartDistance;
    SlowDownSpeedBounds(distance, maxDistance, slowDownStartDistance, speed);
    assert left * speed < left * span by {
      MulMonotone(speed, span - 1, left);
      assert (span - 1) * left == left * span - left;
      assert speed * left == left * speed;
    }
    DivBelow(left * speed, left, span);
    assert TruncDiv(left * speed, span) == (left * speed) / span;
  }
}
