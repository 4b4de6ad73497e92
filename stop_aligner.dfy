/**
 * The stopping distance computed when the slow-down begins (roulette.js,
 * `slowDownSetup`): at least two more full loops of the track, then on to the
 * next slot boundary, then on to the boundary of the target slot.
 *
 * The source aligns the target with `maxDistance % totalSize`, that is with the
 * distance, while the image the reel shows is given by its position. The two
 * agree only while `position ≡ distance (mod totalSize)`, which a spin that
 * starts at a non-zero position (the previous spin's resting place, kept when
 * `resetOnStop` is off) does not satisfy. `MaxDistanceAsWritten` is the
 * source's formula; `MaxDistance` aligns on the position the reel will have
 * and is the one the engine uses.
 */
module StopAligner {
  import opened Wrappers
  import opened JsMath

  /**
   * `distance + 2 * totalSize + (imageSize - position % imageSize)`: two full
   * loops, then up to the next slot boundary.
   */
  function Base(distance: int, position: int, imageSize: int, totalSize: int): (base: int)
    requires imageSize > 0
    ensures position >= 0 ==> distance + 2 * totalSize < base <= distance + 2 * totalSize + imageSize
  {
    distance + 2 * totalSize + (imageSize - Rem(position, imageSize))
  }

  /** The stopping distance as roulette.js computes it. */
  function MaxDistanceAsWritten(distance: int, position: int, imageSize: int, totalSize: int,
                                stopImageNumber: Option<int>): (maxDistance: int)
    requires imageSize > 0 && totalSize > 0
    ensures var base := Base(distance, position, imageSize, totalSize);
            && (stopImageNumber.None? ==> maxDistance == base)
            && base - totalSize < maxDistance < base + totalSize
  {
    var base := Base(distance, position, imageSize, totalSize);
    if stopImageNumber.Some? then
      base + Rem(totalSize - Rem(base, totalSize) + stopImageNumber.value * imageSize, totalSize)
    else
      base
  }

  /**
   * The stopping distance aligned on the reel's position: the offset added to
   * `base` brings the position the reel has at `base` to the target slot.
   */
  function MaxDistance(distance: int, position: int, imageSize: int, totalSize: int,
                       stopImageNumber: Option<int>): (maxDistance: int)
    requires imageSize > 0 && totalSize > 0
    ensures var base := Base(distance, position, imageSize, totalSize);
            && (stopImageNumber.None? ==> maxDistance == base)
            && base - totalSize < maxDistance < base + totalSize
  {
    var base := Base(distance, position, imageSize, totalSize);
    if stopImageNumber.Some? then
      var landing := position + (base - distance);
      base + Rem(totalSize - Rem(landing, totalSize) + stopImageNumber.value * imageSize, totalSize)
    else
      base
  }

  /** `x + Rem(m - Rem(y, m) + t, m) ≡ t (mod m)` whenever `x ≡ y (mod m)`. */
  lemma OffsetReachesTarget(x: int, y: int, t: int, m: int)
    requires m > 0 && (x - y) % m == 0
    ensures (x + Rem(m - Rem(y, m) + t, m)) % m == t % m
  {
    var ry := Rem(y, m);
    var a := m - ry + t;
    var off := Rem(a, m);
    // x + off - t == (x - y) + (y - ry) + m - (a - off)
    assert (y - ry) % m == 0;
    assert (a - off) % m == 0;
    ModZeroNeg(a - off, m);
    ModOfMultiple(1, m);
    ModZeroSum(x - y, y - ry, m);
    ModZeroSum((x - y) + (y - ry), m, m);
    ModZeroSum((x - y) + (y - ry) + m, -(a - off), m);
    assert (x + off) - t == (x - y) + (y - ry) + m + -(a - off);
    ModCongruent(x + off, t, m);
  }

  /** The base distance brings a reel at a non-negative position onto a slot boundary. */
  lemma {:induction false} BaseOnSlotBoundary(distance: int, position: int, imageSize: int, imageCount: int)
    requires imageSize > 0 && imageCount > 0 && position >= 0
    ensures (position + Base(distance, position, imageSize, imageCount * imageSize) - distance) % imageSize == 0
  {
    var totalSize := imageCount * imageSize;
    var r := Rem(position, imageSize);
    assert (position - r) % imageSize == 0;
    assert position + Base(distance, position, imageSize, totalSize) - distance
        == (position - r) + (2 * imageCount + 1) * imageSize;
    ModAddMultiple(position - r, 2 * imageCount + 1, imageSize);
  }

  /**
   * With a target, the reel's position once it has travelled to `MaxDistance`
   * is the target slot's offset on the track.
   */
  lemma MaxDistanceLandsOnTarget(distance: int, position: int, imageSize: int, totalSize: int, target: int)
    requires imageSize > 0 && totalSize > 0
    ensures (position + MaxDistance(distance, position, imageSize, totalSize, Some(target)) - distance) % totalSize
         == (target * imageSize) % totalSize
  {
    var base := Base(distance, position, imageSize, totalSize);
    var landing := position + (base - distance);
    ModOfMultiple(0, totalSize);
    OffsetReachesTarget(landing, landing, target * imageSize, totalSize);
  }

  /**
   * From a non-negative position, the slow-down stretch `MaxDistance - distance`
   * is at least two loops plus one and less than three loops plus one slot, so
   * the stretch always outruns the configured speed when that is below the
   * track length.
   */
  lemma MaxDistanceBounds(distance: int, position: int, imageSize: int, totalSize: int,
                          stopImageNumber: Option<int>)
    requires imageSize > 0 && totalSize > 0 && position >= 0
    requires stopImageNumber.Some? ==> stopImageNumber.value >= 0
    ensures 2 * totalSize + 1
         <= MaxDistance(distance, position, imageSize, totalSize, stopImageNumber) - distance
         < 3 * totalSize + imageSize
  {
    if stopImageNumber.Some? {
      MulNonNegative(stopImageNumber.value, imageSize);
    }
  }

  /**
   * The same stretch for the source's formula: from a non-negative position
   * and distance, at least two loops plus one and less than three loops plus
   * one slot.
   */
  lemma MaxDistanceAsWrittenBounds(distance: int, position: int, imageSize: int, totalSize: int,
                                   stopImageNumber: Option<int>)
    requires imageSize > 0 && totalSize > 0 && position >= 0 && distance >= 0
    requires stopImageNumber.Some? ==> stopImageNumber.value >= 0
    ensures 2 * totalSize + 1
         <= MaxDistanceAsWritten(distance, position, imageSize, totalSize, stopImageNumber) - distance
         < 3 * totalSize + imageSize
  {
    if stopImageNumber.Some? {
      MulNonNegative(stopImageNumber.value, imageSize);
    }
  }

  /**
   * While the position agrees with the distance on the track, the source's
   * formula gives the same stopping distance as the position-aligned one.
   */
  lemma AsWrittenAgreesWhenAligned(distance: int, position: int, imageSize: int, totalSize: int,
                                   stopImageNumber: Option<int>)
    requires imageSize > 0 && totalSize > 0 && distance >= 0 && position >= 0
    requires position % totalSize == distance % totalSize
    ensures MaxDistanceAsWritten(distance, position, imageSize, totalSize, stopImageNumber)
         == MaxDistance(distance, position, imageSize, totalSize, stopImageNumber)
  {
    var base := Base(distance, position, imageSize, totalSize);
    var landing := position + (base - distance);
    SameModDiff(position, distance, totalSize);
    assert landing - base == position - distance;
    ModCongruent(landing, base, totalSize);
  }

  /**
   * What the source's formula actually achieves: the reel lands on the target
   * shifted by how far its position is ahead of its distance.
   */
  lemma AsWrittenLandsShifted(distance: int, position: int, imageSize: int, totalSize: int, target: int)
    requires imageSize > 0 && totalSize > 0
    ensures (position + MaxDistanceAsWritten(distance, position, imageSize, totalSize, Some(target)) - distance) % totalSize
         == (target * imageSize + position - distance) % totalSize
  {
    var base := Base(distance, position, imageSize, totalSize);
    ModOfMultiple(0, totalSize);
    OffsetReachesTarget(base, base, target * imageSize, totalSize);
    var m := MaxDistanceAsWritten(distance, position, imageSize, totalSize, Some(target));
    ModSum(m, position - distance, totalSize);
    ModSum(target * imageSize, position - distance, totalSize);
  }

  /**
   * Five slots of 100 pixels; the previous spin rested on slot 2 (position
   * 200) and the distance was reset to 0. The first tick of the next spin
   * moves both by 1 (position 201, distance 1). Aiming at slot 1, the
   * source's stopping distance leaves the reel at position 300, which shows
   * slot 3; the position-aligned one leaves it at 100, slot 1.
   */
  lemma AsWrittenMissesTarget()
    ensures MaxDistanceAsWritten(1, 201, 100, 500, Some(1)) == 1100
    ensures (201 + MaxDistanceAsWritten(1, 201, 100, 500, Some(1)) - 1) % 500 == 300
    ensures MaxDistance(1, 201, 100, 500, Some(1)) == 1400
    ensures (201 + MaxDistance(1, 201, 100, 500, Some(1)) - 1) % 500 == 100
  {
  }
}
