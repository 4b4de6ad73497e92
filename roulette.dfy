/**
 * The `Roulette` closure of roulette.js: one mutable record holding the
 * settings, the track geometry and the travel state of the reel, with the
 * internal `reset`, `slowDownSetup` and `roll` and the public `start`, `stop`
 * and `option`. Each method is proved to move the record as the matching
 * function of the Engine module says; the lifecycle callbacks are recorded in
 * a ghost event log.
 */
module Roulette {
  import opened Wrappers
  import opened JsMath
  import SpeedProfile
  import Engine

  /** The three lifecycle callbacks, in the order they fire. */
  datatype Event = Started | SlowedDown | Stopped(stopImageNumber: Option<int>)

  /** The settings a caller may pass; `None` is a setting left out. */
  datatype Options = Options(speed: Option<int>, duration: Option<int>, maxPlayCount: Option<int>,
                             stopImageNumber: Option<int>, resetOnStop: Option<bool>)

  /** The options object left out altogether, as in `option()`. */
  const NoOptions := Options(None, None, None, None, None)

  /**
   * What `stop(option)` asks for: nothing (no argument, or a
   * `stopImageNumber` that is absent or not a number), an explicit `null`
   * (which `Number` turns into 0 and so passes the range check), or a slot.
   */
  datatype StopRequest = NoRequest | NullTarget | Target(slot: int)

  const DefaultSpeed := 10
  const DefaultDuration := 3

  /**
   * `start`'s guard on the already incremented play count: a `null` or zero
   * `maxPlayCount` means no limit, otherwise only the first `maxPlayCount`
   * calls run.
   */
  function MayStart(maxPlayCount: Option<int>, playCount: int): (ok: bool)
    ensures ok <==> maxPlayCount.None? || maxPlayCount.value == 0 || playCount <= maxPlayCount.value
  {
    !(Truthy(maxPlayCount) && playCount > maxPlayCount.value)
  }

  /**
   * The slot `start` aims at: the configured one when it is a number of at
   * least 0, otherwise the random index drawn by the caller.
   */
  function StartTarget(configured: Option<int>, randomIndex: int): (target: int)
    requires 0 <= randomIndex
    ensures 0 <= target
    ensures target == randomIndex || (configured == Some(target) && target >= 0)
    ensures configured.Some? && configured.value >= 0 ==> target == configured.value
    ensures configured.None? || configured.value < 0 ==> target == randomIndex
  {
    if configured.Some? && configured.value >= 0 then configured.value else randomIndex
  }

  /**
   * The target `stop` aims at: a requested slot when it lies in the track, no
   * target at all for an explicit `null` (as `Number(null)` is 0), otherwise
   * the current target.
   */
  function StopTarget(current: Option<int>, requested: StopRequest, imageCount: int): (target: Option<int>)
    ensures requested.Target? && 0 <= requested.slot < imageCount ==> target == Some(requested.slot)
    ensures requested.NullTarget? && 0 < imageCount ==> target == None
    ensures !(requested.Target? && 0 <= requested.slot < imageCount) && !(requested.NullTarget? && 0 < imageCount) ==>
              target == current
    ensures target.Some? && target != current ==> 0 <= target.value < imageCount
  {
    match requested
    case Target(slot) => if 0 <= slot <= imageCount - 1 then Some(slot) else current
    case NullTarget => if 0 <= imageCount - 1 then None else current
    case NoRequest => current
  }

  /** `option`'s duration adjustment: one second less, but never below 1. */
  function AdjustDuration(duration: int): (r: int)
    ensures r >= 1
    ensures r <= duration || duration < 1
    ensures duration > 1 ==> r == duration - 1
    ensures duration <= 1 ==> r == 1
  {
    if duration > 1 then duration - 1 else 1
  }

  class Roulette {
    // Track geometry, fixed once the first image has loaded.
    const imageSize: int
    const imageCount: int
    const totalSize: int
    const runUpDistance: int

    // Settings.
    var speed: int
    var duration: int
    var maxPlayCount: Option<int>
    var resetOnStop: bool
    var stopImageNumber: Option<int>
    /** The configured target that `start` goes back to on every spin. */
    var originalStopImageNumber: Option<int>

    // Travel state.
    var position: int
    var distance: int
    var maxDistance: Option<int>
    var slowDownStartDistance: Option<int>

    // Phase flags and counters.
    var playCount: int
    var isRunUp: bool
    var isSlowdown: bool
    var isStop: bool

    /** The callbacks fired so far. */
    ghost var events: seq<Event>

    /** The fields a tick reads and never writes. */
    function Config(): Engine.Settings
      reads this
    {
      Engine.Settings(imageSize, imageCount, totalSize, runUpDistance, speed, resetOnStop)
    }

    /** The fields a spin changes. */
    function State(): Engine.Travel
      reads this
    {
      Engine.Travel(position, distance, maxDistance, slowDownStartDistance, isRunUp, isSlowdown, isStop)
    }

    /** The geometry of the track, as derived from the first image. */
    ghost predicate Valid() {
      Engine.Settings(imageSize, imageCount, totalSize, runUpDistance, 0, false).Valid()
    }

    /** Neither the settings nor the play count changed. */
    twostate predicate KeepsSettings()
      reads this
    {
      && old(Config()) == Config() && old(duration) == duration && old(maxPlayCount) == maxPlayCount
      && old(originalStopImageNumber) == originalStopImageNumber && old(playCount) == playCount
    }

    /**
     * Creating the roulette merges the options over the defaults; loading
     * the first image fixes the geometry. The configured target is kept as
     * the one `start` aims at.
     */
    constructor (imageSize: int, imageCount: int, options: Options)
      requires imageSize > 0 && imageCount > 0
      ensures Valid() && State() == Engine.Initial
      ensures this.imageSize == imageSize && this.imageCount == imageCount
      ensures speed == options.speed.GetOr(DefaultSpeed) && duration == options.duration.GetOr(DefaultDuration)
      ensures maxPlayCount == options.maxPlayCount && resetOnStop == options.resetOnStop.GetOr(false)
      ensures stopImageNumber == options.stopImageNumber && originalStopImageNumber == options.stopImageNumber
      ensures playCount == 0 && events == []
    {
      this.imageSize := imageSize;
      this.imageCount := imageCount;
      totalSize := imageCount * imageSize;
      runUpDistance := 2 * imageSize;
      speed := options.speed.GetOr(DefaultSpeed);
      duration := options.duration.GetOr(DefaultDuration);
      maxPlayCount := options.maxPlayCount;
      resetOnStop := options.resetOnStop.GetOr(false);
      stopImageNumber := options.stopImageNumber;
      originalStopImageNumber := options.stopImageNumber;
      position, distance := 0, 0;
      maxDistance, slowDownStartDistance := None, None;
      playCount := 0;
      isRunUp, isSlowdown, isStop := true, false, false;
      events := [];
    }

    /** `reset`: the travel fields go back to their initial values; the position only with `resetOnStop`. */
    method Reset()
      requires Valid()
      modifies this
      ensures KeepsSettings() && stopImageNumber == old(stopImageNumber) && events == old(events)
      ensures State() == Engine.Reset(Config(), old(State()))
    {
      maxDistance := None;
      slowDownStartDistance := None;
      distance := 0;
      isRunUp := true;
      isSlowdown := false;
      isStop := false;
      if resetOnStop {
        position := 0;
      }
    }

    /** `slowDownSetup`: enters the slow-down once and fixes the stopping distance. */
    method SlowDownSetup()
      requires Valid()
      modifies this
      ensures KeepsSettings() && stopImageNumber == old(stopImageNumber)
      ensures State() == Engine.SlowDownSetup(Config(), old(State()), stopImageNumber)
      ensures events == old(events) + if old(isSlowdown) then [] else [SlowedDown]
    {
      if isSlowdown {
        return;
      }
      events := events + [SlowedDown];
      isSlowdown := true;
      slowDownStartDistance := Some(distance);
      var m := distance + 2 * totalSize;
      m := m + (imageSize - Rem(position, imageSize));
      if stopImageNumber.Some? {
        // Aligned on the position the reel will have at `m`.
        m := m + Rem(totalSize - Rem(position + (m - distance), totalSize) + stopImageNumber.value * imageSize, totalSize);
      }
      maxDistance := Some(m);
    }

    /**
     * The speed computation at the head of `roll`: this tick's speed, and
     * the end of the run-up once the distance has passed it.
     */
    method TickSpeed() returns (step: int)
      modifies this
      ensures KeepsSettings() && stopImageNumber == old(stopImageNumber) && events == old(events)
      ensures step == Engine.TickSpeed(Config(), old(State()))
      ensures State() == if Engine.EndsRunUp(Config(), old(State())) then old(State()).(isRunUp := false) else old(State())
    {
      step := speed;
      if isRunUp {
        if distance <= runUpDistance {
          step := SpeedProfile.RunUpSpeed(distance, runUpDistance, speed);
        } else {
          isRunUp := false;
        }
      } else if isSlowdown {
        step := SpeedProfile.SlowDownSpeed(distance, ToNumber(maxDistance), ToNumber(slowDownStartDistance), speed);
      }
    }

    /** `roll`: one tick. */
    method Roll()
      requires Valid()
      modifies this
      ensures KeepsSettings() && stopImageNumber == old(stopImageNumber)
      ensures State() == Engine.Roll(Config(), old(State()))
      ensures events == old(events) + if Engine.Stops(old(State())) then [Stopped(stopImageNumber)] else []
    {
      var step := TickSpeed();

      if Truthy(maxDistance) && distance >= maxDistance.value {
        isStop := true;
        Reset();
        events := events + [Stopped(stopImageNumber)];
        return;
      }

      distance := distance + step;
      position := position + step;
      if position >= totalSize {
        position := position - totalSize;
      }
    }

    /**
     * The ticks that `roll` schedules for itself, from a slow-down on course
     * for `target` to the tick that stops: the reel comes to rest showing
     * the target slot (or at 0 with `resetOnStop`), and only the stop
     * callback fires.
     */
    method RollToStop(ghost target: int)
      requires Valid() && Engine.Landing(Config(), State(), target) && 0 <= target < imageCount
      modifies this
      ensures position == if resetOnStop then 0 else target * imageSize
      ensures State() == Engine.Reset(Config(), State())
      ensures events == old(events) + [Stopped(stopImageNumber)]
      ensures KeepsSettings() && stopImageNumber == old(stopImageNumber)
    {
      while !Engine.Stops(State())
        invariant Valid() && Engine.Landing(Config(), State(), target)
        invariant events == old(events)
        invariant KeepsSettings() && stopImageNumber == old(stopImageNumber)
        decreases maxDistance.value - distance
      {
        Engine.RollKeepsLanding(Config(), State(), target);
        Roll();
      }
      var ticks := Engine.LandsOnTarget(Config(), State(), target);
      Roll();
    }

    /**
     * `start`: counts the call; past the play limit nothing else happens.
     * Otherwise it picks the target, fires the start callback and runs the
     * first tick.
     */
    method Start(randomIndex: int)
      requires Valid() && 0 <= randomIndex < imageCount
      modifies this
      ensures playCount == old(playCount) + 1
      ensures old(Config()) == Config() && duration == old(duration) && maxPlayCount == old(maxPlayCount)
      ensures originalStopImageNumber == old(originalStopImageNumber)
      ensures !MayStart(maxPlayCount, playCount) ==>
                State() == old(State()) && stopImageNumber == old(stopImageNumber) && events == old(events)
      ensures MayStart(maxPlayCount, playCount) ==>
                && stopImageNumber == Some(StartTarget(originalStopImageNumber, randomIndex))
                && State() == Engine.Roll(Config(), old(State()))
                && events == old(events) + [Started]
                             + if Engine.Stops(old(State())) then [Stopped(stopImageNumber)] else []
    {
      playCount := playCount + 1;
      if Truthy(maxPlayCount) && playCount > maxPlayCount.value {
        return;
      }
      stopImageNumber := Some(if originalStopImageNumber.Some? && originalStopImageNumber.value >= 0
                              then originalStopImageNumber.value else randomIndex);
      events := events + [Started];
      Roll();
    }

    /**
     * `stop`: before the slow-down, takes the requested target when it
     * names a slot and begins slowing down; afterwards, does nothing.
     */
    method Stop(requested: StopRequest)
      requires Valid()
      modifies this
      ensures KeepsSettings()
      ensures old(isSlowdown) ==>
                State() == old(State()) && stopImageNumber == old(stopImageNumber) && events == old(events)
      ensures !old(isSlowdown) ==>
                && stopImageNumber == StopTarget(old(stopImageNumber), requested, imageCount)
                && State() == Engine.SlowDownSetup(Config(), old(State()), stopImageNumber)
                && events == old(events) + [SlowedDown]
    {
      if !isSlowdown {
        stopImageNumber := StopTarget(stopImageNumber, requested, imageCount);
        SlowDownSetup();
      }
    }

    /**
     * `option`: merges the given settings, takes one second off the
     * duration (never below 1) and makes the given target, or none, the one
     * `start` aims at. Called without an argument it still adjusts the
     * duration, then throws on reading the target, which `threw` reports.
     */
    method SetOption(given: Option<Options>) returns (threw: bool)
      requires Valid()
      modifies this
      ensures threw <==> given.None?
      ensures State() == old(State()) && playCount == old(playCount) && events == old(events)
      ensures var options := given.GetOr(NoOptions);
        && speed == options.speed.GetOr(old(speed))
        && duration == AdjustDuration(options.duration.GetOr(old(duration)))
        && maxPlayCount == (if options.maxPlayCount.Some? then options.maxPlayCount else old(maxPlayCount))
        && resetOnStop == options.resetOnStop.GetOr(old(resetOnStop))
        && stopImageNumber == (if options.stopImageNumber.Some? then options.stopImageNumber else old(stopImageNumber))
      ensures originalStopImageNumber == if given.Some? then given.value.stopImageNumber else old(originalStopImageNumber)
    {
      var options := given.GetOr(NoOptions);
      speed := options.speed.GetOr(speed);
      duration := options.duration.GetOr(duration);
      if options.maxPlayCount.Some? {
        maxPlayCount := options.maxPlayCount;
      }
      resetOnStop := options.resetOnStop.GetOr(resetOnStop);
      if options.stopImageNumber.Some? {
        stopImageNumber := options.stopImageNumber;
      }
      duration := if duration > 1 then duration - 1 else 1;
      if given.None? {
        return true;
      }
      threw := false;
      originalStopImageNumber := options.stopImageNumber;
    }
  }
}
