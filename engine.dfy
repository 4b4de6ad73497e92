/**
 * The spin engine of roulette.js as values: the travel state of the reel,
 * the settings a tick reads, and `reset`, `slowDownSetup` and `roll` (one
 * tick) as functions from state to state. The class in roulette.dfy updates
 * its fields in place and is proved to follow these functions; the lemmas
 * here state what a spin does over many ticks.
 */
module Engine {
  import opened Wrappers
  import opened JsMath
  import SpeedProfile
  import StopAligner

  /**
   * What a tick reads and never writes: the track geometry, fixed when the
   * first image loads (`totalSize = imageCount * imageSize`,
   * `runUpDistance = 2 * imageSize`), the configured speed and `resetOnStop`.
   */
  datatype Settings = Settings(imageSize: int, imageCount: int, totalSize: int, runUpDistance: int,
                               speed: int, resetOnStop: bool)
  {
    predicate Valid() {
      && imageSize > 0 && imageCount > 0
      && totalSize == imageCount * imageSize
      && runUpDistance == 2 * imageSize
    }
  }

  /** The fields a spin changes: where the reel is, how far it has gone, and its phase flags. */
  datatype Travel = Travel(position: int, distance: int,
                           maxDistance: Option<int>, slowDownStartDistance: Option<int>,
                           isRunUp: bool, isSlowdown: bool, isStop: bool)

  /** The initial values of the travel fields. */
  const Initial := Travel(0, 0, None, None, true, false, false)

  /**
   * `reset`: every travel field goes back to its initial value, except the
   * position, which does so only when `resetOnStop` is set.
   */
  function Reset(st: Settings, t: Travel): (r: Travel)
    ensures r.(position := 0) == Initial
    ensures st.resetOnStop ==> r == Initial
    ensures !st.resetOnStop ==> r.position == t.position
  {
    Initial.(position := if st.resetOnStop then 0 else t.position)
  }

  /**
   * `slowDownSetup`: a no-op once slowing down; otherwise it enters the
   * slow-down, records where it started and fixes the stopping distance.
   */
  function SlowDownSetup(st: Settings, t: Travel, stopImageNumber: Option<int>): (r: Travel)
    requires st.Valid()
    ensures t.isSlowdown ==> r == t
    ensures !t.isSlowdown ==>
      && r.isSlowdown && r.slowDownStartDistance == Some(t.distance) && r.maxDistance.Some?
      && r.position == t.position && r.distance == t.distance
      && r.isRunUp == t.isRunUp && r.isStop == t.isStop
  {
    if t.isSlowdown then t
    else
      var maxDistance := StopAligner.MaxDistance(t.distance, t.position, st.imageSize, st.totalSize, stopImageNumber);
      t.(isSlowdown := true, slowDownStartDistance := Some(t.distance), maxDistance := Some(maxDistance))
  }

  /**
   * The speed of this tick. The run-up takes precedence over the slow-down;
   * the tick that ends the run-up, and every tick in neither phase, moves by
   * the configured speed.
   */
  function TickSpeed(st: Settings, t: Travel): (step: int)
    ensures !t.isRunUp && !t.isSlowdown ==> step == st.speed
    ensures t.isRunUp && t.distance > st.runUpDistance ==> step == st.speed
    ensures t.isRunUp && t.distance <= st.runUpDistance ==>
              step == SpeedProfile.RunUpSpeed(t.distance, st.runUpDistance, st.speed)
    ensures !t.isRunUp && t.isSlowdown && t.maxDistance.Some? && t.slowDownStartDistance.Some? ==>
              step == SpeedProfile.SlowDownSpeed(t.distance, t.maxDistance.value, t.slowDownStartDistance.value, st.speed)
  {
    if t.isRunUp then
      if t.distance <= st.runUpDistance then SpeedProfile.RunUpSpeed(t.distance, st.runUpDistance, st.speed)
      else st.speed
    else if t.isSlowdown then
      SpeedProfile.SlowDownSpeed(t.distance, ToNumber(t.maxDistance), ToNumber(t.slowDownStartDistance), st.speed)
    else st.speed
  }

  /** This tick is the one that leaves the run-up. */
  predicate EndsRunUp(st: Settings, t: Travel): (b: bool) {
    t.isRunUp && t.distance > st.runUpDistance
  }

  /** The stop test, made before moving: a stopping distance is set (and non-zero) and has been reached. */
  predicate Stops(t: Travel): (b: bool) {
    Truthy(t.maxDistance) && t.distance >= t.maxDistance.value
  }

  /** Moves distance and position by `step`, wrapping the position with one subtraction. */
  function Advance(st: Settings, t: Travel, step: int): (r: Travel) {
    var position := t.position + step;
    t.(distance := t.distance + step,
       position := if position >= st.totalSize then position - st.totalSize else position)
  }

  /**
   * `roll`: one tick of the reel. It either stops (the stop test comes
   * before moving) and is exactly `reset`, or moves distance and position
   * forward by the same step, wrapping the position by one track length,
   * leaving the slow-down fields alone and ending the run-up once past it.
   */
  function Roll(st: Settings, t: Travel): (r: Travel)
    ensures Stops(t) ==> r == Reset(st, t)
    ensures !Stops(t) ==>
      var step := TickSpeed(st, t);
      && r.distance == t.distance + step
      && (r.position == t.position + step || r.position == t.position + step - st.totalSize)
      && r.maxDistance == t.maxDistance && r.slowDownStartDistance == t.slowDownStartDistance
      && r.isSlowdown == t.isSlowdown && r.isStop == t.isStop
      && r.isRunUp == (t.isRunUp && !EndsRunUp(st, t))
  {
    var step := TickSpeed(st, t);
    var t' := if EndsRunUp(st, t) then t.(isRunUp := false) else t;
    if Stops(t) then Reset(st, t'.(isStop := true))
    else Advance(st, t', step)
  }

  /** `ticks` consecutive ticks. */
  function Run(st: Settings, t: Travel, ticks: nat): (r: Travel)
    decreases ticks
  {
    if ticks == 0 then t else Run(st, Roll(st, t), ticks - 1)
  }

  // ---------------------------------------------------------------------------
  // Invariants

  /** The position lies on the track. */
  ghost predicate InTrack(st: Settings, t: Travel) {
    0 <= t.position < st.totalSize
  }

  /** The position is the distance projected onto the track. */
  ghost predicate Aligned(st: Settings, t: Travel)
    requires st.Valid()
  {
    0 <= t.distance && t.position == t.distance % st.totalSize
  }

  /** Both slow-down fields are set and the distance lies between them. */
  ghost predicate InSlowDownSpan(t: Travel) {
    && t.maxDistance.Some? && t.slowDownStartDistance.Some?
    && t.slowDownStartDistance.value <= t.distance <= t.maxDistance.value
    && t.slowDownStartDistance.value < t.maxDistance.value
  }

  /**
   * A spin before its slow-down: no stopping distance yet, and while in the
   * run-up the distance is at most one ramp step beyond the run-up distance.
   */
  ghost predicate Spinning(st: Settings, t: Travel) {
    && st.Valid() && 1 <= st.speed < st.totalSize
    && !t.isSlowdown && t.maxDistance.None? && t.slowDownStartDistance.None?
    && 0 <= t.distance && InTrack(st, t)
    && (t.isRunUp ==> t.distance <= st.runUpDistance + st.speed + 1)
  }

  /**
   * A spin slowing down toward `target`: the distance has not passed the
   * stopping distance, the speed is below the slow-down stretch, and the
   * position the reel will have at the stopping distance is the target
   * slot's offset. A run-up still in progress must end before the stopping
   * distance.
   */
  ghost predicate Landing(st: Settings, t: Travel, target: int) {
    && st.Valid() && 1 <= st.speed < st.totalSize
    && t.isSlowdown && InSlowDownSpan(t) && 0 <= t.slowDownStartDistance.value
    && st.speed < t.maxDistance.value - t.slowDownStartDistance.value
    && InTrack(st, t)
    && (t.position + (t.maxDistance.value - t.distance)) % st.totalSize == (target * st.imageSize) % st.totalSize
    && (t.isRunUp ==>
          && t.distance <= st.runUpDistance + st.speed + 1
          && st.runUpDistance + 2 * st.speed + 1 <= t.maxDistance.value)
  }

  // ---------------------------------------------------------------------------
  // One tick

  /**
   * The speed of a tick is between 1 and `speed + 1` in every phase, as long
   * as a slow-down past its run-up is within its span.
   */
  lemma TickSpeedBounds(st: Settings, t: Travel)
    requires st.Valid() && 1 <= st.speed && 0 <= t.distance
    requires t.isSlowdown && !t.isRunUp ==> InSlowDownSpan(t)
    ensures 1 <= TickSpeed(st, t) <= st.speed + 1
  {
    if t.isRunUp {
      if t.distance <= st.runUpDistance {
        SpeedProfile.RunUpSpeedBounds(t.distance, st.runUpDistance, st.speed);
      }
    } else if t.isSlowdown {
      SpeedProfile.SlowDownSpeedBounds(t.distance, t.maxDistance.value, t.slowDownStartDistance.value, st.speed);
    }
  }

  /**
   * A tick keeps the position on the track, given a speed below the track
   * length (so that one subtraction is enough to wrap).
   */
  lemma RollKeepsInTrack(st: Settings, t: Travel)
    requires st.Valid() && 1 <= st.speed < st.totalSize && 0 <= t.distance && InTrack(st, t)
    requires t.isSlowdown && !t.isRunUp ==> InSlowDownSpan(t)
    ensures InTrack(st, Roll(st, t))
  {
    TickSpeedBounds(st, t);
  }

  /** Wrapping by one subtraction agrees with the remainder for a step of at most the track length. */
  lemma WrapIsRemainder(distance: int, step: int, totalSize: int)
    requires totalSize > 0 && 0 <= step <= totalSize
    ensures var p := distance % totalSize + step;
            (distance + step) % totalSize == if p >= totalSize then p - totalSize else p
  {
    var p := distance % totalSize + step;
    ModSum(distance, step, totalSize);
    if p >= totalSize {
      ModAddMultiple(p - totalSize, 1, totalSize);
      ModSmall(p - totalSize, totalSize);
    } else {
      ModSmall(p, totalSize);
    }
  }

  /**
   * A tick from a position that matches the distance keeps them matched,
   * except when it stops: the distance goes back to 0, and the match
   * survives exactly when the position goes to 0 too.
   */
  lemma RollKeepsAligned(st: Settings, t: Travel)
    requires st.Valid() && Aligned(st, t) && 0 <= TickSpeed(st, t) <= st.totalSize
    ensures Aligned(st, Roll(st, t)) <==> !Stops(t) || st.resetOnStop || t.position == 0
  {
    if !Stops(t) {
      WrapIsRemainder(t.distance, TickSpeed(st, t), st.totalSize);
    } else {
      ModSmall(0, st.totalSize);
    }
  }

  /** `slowDownSetup` changes nothing once the slow-down has begun. */
  lemma SlowDownSetupIdempotent(st: Settings, t: Travel, first: Option<int>, second: Option<int>)
    requires st.Valid()
    ensures t.isSlowdown ==> SlowDownSetup(st, t, second) == t
    ensures SlowDownSetup(st, SlowDownSetup(st, t, first), second) == SlowDownSetup(st, t, first)
  {
  }

  /**
   * Entering the slow-down records the current distance as its start, sets a
   * stopping distance two to three loops ahead, leaves position, distance and
   * run-up flag alone, and lines the stopping point up with the target slot.
   */
  lemma SlowDownSetupEffect(st: Settings, t: Travel, target: int)
    requires st.Valid() && !t.isSlowdown && InTrack(st, t) && 0 <= target
    ensures var r := SlowDownSetup(st, t, Some(target));
      && r.isSlowdown && r.slowDownStartDistance == Some(t.distance) && r.maxDistance.Some?
      && r == t.(isSlowdown := true, slowDownStartDistance := r.slowDownStartDistance, maxDistance := r.maxDistance)
      && 2 * st.totalSize + 1 <= r.maxDistance.value - t.distance < 3 * st.totalSize + st.imageSize
      && (t.position + (r.maxDistance.value - t.distance)) % st.totalSize == (target * st.imageSize) % st.totalSize
  {
    StopAligner.MaxDistanceBounds(t.distance, t.position, st.imageSize, st.totalSize, Some(target));
    StopAligner.MaxDistanceLandsOnTarget(t.distance, t.position, st.imageSize, st.totalSize, target);
  }

  // ---------------------------------------------------------------------------
  // A whole spin

  /** A reset reel (and the initial one) is ready to spin. */
  lemma ResetStartsSpinning(st: Settings, t: Travel)
    requires st.Valid() && 1 <= st.speed < st.totalSize && InTrack(st, t)
    ensures Spinning(st, Reset(st, t)) && Spinning(st, Initial)
  {
  }

  /** Before the slow-down a tick never stops the reel and keeps it spinning. */
  lemma RollKeepsSpinning(st: Settings, t: Travel)
    requires Spinning(st, t)
    ensures !Stops(t) && Spinning(st, Roll(st, t))
  {
    RollKeepsInTrack(st, t);
    if t.isRunUp && t.distance <= st.runUpDistance {
      SpeedProfile.RunUpSpeedBounds(t.distance, st.runUpDistance, st.speed);
    }
  }

  /** Any number of ticks keeps a spin that has not begun to slow down spinning. */
  lemma {:induction false} RunKeepsSpinning(st: Settings, t: Travel, ticks: nat)
    requires Spinning(st, t)
    ensures Spinning(st, Run(st, t, ticks))
    decreases ticks
  {
    if ticks > 0 {
      RollKeepsSpinning(st, t);
      RunKeepsSpinning(st, Roll(st, t), ticks - 1);
    }
  }

  /**
   * Slowing down a spinning reel toward a target starts a landing on it,
   * provided a run-up still in progress can finish within two loops.
   */
  lemma SetupBeginsLanding(st: Settings, t: Travel, target: int)
    requires Spinning(st, t) && 0 <= target
    requires t.isRunUp ==> st.imageSize + st.speed <= st.totalSize
    ensures Landing(st, SlowDownSetup(st, t, Some(target)), target)
  {
    SlowDownSetupEffect(st, t, target);
  }

  /** A tick that does not stop keeps the landing on course and strictly advances the distance. */
  lemma RollKeepsLanding(st: Settings, t: Travel, target: int)
    requires Landing(st, t, target) && !Stops(t)
    ensures Landing(st, Roll(st, t), target) && Roll(st, t).distance > t.distance
  {
    var r, step := Roll(st, t), TickSpeed(st, t);
    var M, S := t.maxDistance.value, t.slowDownStartDistance.value;
    RollKeepsInTrack(st, t);
    TickSpeedBounds(st, t);
    if t.isRunUp {
      if t.distance <= st.runUpDistance {
        SpeedProfile.RunUpSpeedBounds(t.distance, st.runUpDistance, st.speed);
      }
    } else {
      SpeedProfile.SlowDownStepStaysWithin(t.distance, M, S, st.speed);
    }
    assert r.distance <= M;
    if r.position != t.position + step {
      ModAddMultiple(t.position + (M - t.distance), -1, st.totalSize);
    }
  }

  /**
   * Any number of ticks before the slow-down keep the position matched with
   * the distance, so the source's stopping distance and the position-aligned
   * one agree when the slow-down begins.
   */
  lemma {:induction false} RunKeepsAligned(st: Settings, t: Travel, ticks: nat)
    requires Spinning(st, t) && Aligned(st, t)
    ensures Aligned(st, Run(st, t, ticks))
    decreases ticks
  {
    if ticks > 0 {
      RollKeepsSpinning(st, t);
      TickSpeedBounds(st, t);
      RollKeepsAligned(st, t);
      RunKeepsAligned(st, Roll(st, t), ticks - 1);
    }
  }

  /**
   * The ticks of a landing before it stops keep the position matched with
   * the distance; the stopping tick itself is covered by `RollKeepsAligned`.
   */
  lemma {:induction false} LandingKeepsAligned(st: Settings, t: Travel, target: int, ticks: nat)
    requires Landing(st, t, target) && Aligned(st, t)
    requires forall j :: 0 <= j < ticks ==> !Stops(Run(st, t, j))
    ensures Aligned(st, Run(st, t, ticks))
    decreases ticks
  {
    if ticks > 0 {
      assert !Stops(Run(st, t, 0));
      RollKeepsLanding(st, t, target);
      TickSpeedBounds(st, t);
      RollKeepsAligned(st, t);
      forall j | 0 <= j < ticks - 1
        ensures !Stops(Run(st, Roll(st, t), j))
      {
        assert Run(st, t, j + 1) == Run(st, Roll(st, t), j);
      }
      LandingKeepsAligned(st, Roll(st, t), target, ticks - 1);
    }
  }

  /**
   * From a spin whose position matches its distance (the first spin, or any
   * spin after a reset with `resetOnStop`), the slow-down entered after any
   * number of ticks gets the same stopping distance from the source's
   * formula as from the position-aligned one.
   */
  lemma AsWrittenAgreesAfterTicks(st: Settings, t: Travel, ticks: nat, stopImageNumber: Option<int>)
    requires Spinning(st, t) && Aligned(st, t)
    ensures var u := Run(st, t, ticks);
      StopAligner.MaxDistanceAsWritten(u.distance, u.position, st.imageSize, st.totalSize, stopImageNumber)
      == StopAligner.MaxDistance(u.distance, u.position, st.imageSize, st.totalSize, stopImageNumber)
  {
    var u := Run(st, t, ticks);
    RunKeepsSpinning(st, t, ticks);
    RunKeepsAligned(st, t, ticks);
    ModSmall(u.position, st.totalSize);
    StopAligner.AsWrittenAgreesWhenAligned(u.distance, u.position, st.imageSize, st.totalSize, stopImageNumber);
  }

  /** The tick at which a landing spin stops finds the reel showing the target slot. */
  lemma StopShowsTarget(st: Settings, t: Travel, target: int)
    requires Landing(st, t, target) && 0 <= target < st.imageCount && Stops(t)
    ensures t.position == target * st.imageSize
  {
    var T := st.totalSize;
    assert t.distance == t.maxDistance.value;
    ModSmall(t.position, T);
    assert target * st.imageSize < T by {
      MulMonotone(target + 1, st.imageCount, st.imageSize);
    }
    MulNonNegative(target, st.imageSize);
    ModSmall(target * st.imageSize, T);
  }

  /**
   * A landing spin stops after finitely many ticks, on the first tick at
   * which the distance has reached the stopping distance, and at that tick
   * the reel shows the target slot: its position is the target's offset.
   * The stopping tick leaves it there, or at 0 when `resetOnStop` is set.
   */
  lemma {:induction false} LandsOnTarget(st: Settings, t: Travel, target: int) returns (ticks: nat)
    requires Landing(st, t, target) && 0 <= target < st.imageCount
    ensures Stops(Run(st, t, ticks)) && (Stops(t) ==> ticks == 0)
    ensures forall j :: 0 <= j < ticks ==> !Stops(Run(st, t, j))
    ensures Run(st, t, ticks).position == target * st.imageSize
    ensures Roll(st, Run(st, t, ticks)).position == if st.resetOnStop then 0 else target * st.imageSize
    decreases t.maxDistance.value - t.distance
  {
    if Stops(t) {
      ticks := 0;
      StopShowsTarget(st, t, target);
    } else {
      RollKeepsLanding(st, t, target);
      var rest := LandsOnTarget(st, Roll(st, t), target);
      ticks := rest + 1;
      forall j | 0 <= j < ticks
        ensures !Stops(Run(st, t, j))
      {
        if j > 0 {
          assert Run(st, t, j) == Run(st, Roll(st, t), j - 1);
        }
      }
    }
  }
}
