# Roulette spin engine

A Dafny model of the spin engine of roulette.js, a jQuery plugin that animates
a looping strip of images ("slots") like a slot-machine reel and brings it to
rest on a chosen slot. The engine is one mutable record `p` inside the
`Roulette` closure, driven by:

- `roll`: one tick. It computes the tick's speed and tests for the stop
  before it moves. If the reel does not stop, it advances `distance` and
  `position` by that speed and wraps `position` onto the track with one
  subtraction. The speed is a ramp up from 1 during the run-up, then the
  configured `speed`, then a ramp down toward 1 during the slow-down.
- `slowDownSetup`: runs once per spin. It records where the slow-down began
  and computes `maxDistance`, the distance at which the reel stops: two more
  loops, then the next slot boundary, then the target slot.
- `reset`: the travel fields go back to their initial values. `position`
  does so only when `resetOnStop` is set.
- `start`, `stop` and `option`: the public calls. `start` counts plays,
  enforces `maxPlayCount` and picks the target slot. `stop` takes an optional
  target override. `option` merges settings and adjusts `duration`.

Layout:

- `wrappers.dfy`: `Option`, for the fields that may be `null`.
- `js_math.dfy`: the JavaScript arithmetic the engine relies on, on unbounded
  integers. It covers `~~(n / d)`, `%` (the sign follows the dividend),
  truthiness of a nullable number and `null` as 0. It also holds the facts
  about Euclidean division used elsewhere.
- `speed_profile.dfy`: the two speed ramps and their bounds and monotonicity.
- `stop_aligner.dfy`: the stopping distance, the source's formula and the
  corrected one (see Findings).
- `engine.dfy`: the travel state as a value. `Reset`, `SlowDownSetup` and
  `Roll` are functions from state to state. It also holds the invariants of a
  spin and the theorem that a slow-down lands on its target slot.
- `roulette.dfy`: the record `p` as a class. It has the geometry as constants
  and the settings and travel state as fields, plus a ghost log of the
  start, slow-down and stop callbacks. Each method is proved to change the
  fields exactly as the matching Engine function says.

Two facts about roulette.js shape the model. `start` does not reset
`distance` to 0; only `reset` (run by the stopping tick) does. The geometry
is fixed by the first image's load handler (lines 165-168), not by `start`.

## Model

| member | source | states |
|---|---|---|
| JsMath.TruncDiv | roulette.js:104 | `~~` of a quotient: the floor quotient when the numerator is non-negative and the divisor positive; 0 for a zero divisor (JavaScript's Infinity and NaN truncate to 0) |
| JsMath.Rem | roulette.js:89 | JavaScript `%`: the result lies in `[0, |b|)` for a non-negative dividend and in `(-|b|, 0]` for a negative one, and differs from the dividend by a multiple of the divisor |
| JsMath.Truthy | roulette.js:114 | a nullable number is truthy exactly when the number it coerces to (`null` as 0) is non-zero |
| JsMath.ToNumber | roulette.js:110 | a `null` field used in arithmetic counts as 0; a number counts as itself |
| SpeedProfile.RunUpSpeed | roulette.js:103-105 | the run-up speed is at least 1 for a non-negative distance, positive run-up distance and non-negative speed, and is 1 when the run-up distance is 0 (the quotient is not finite) |
| SpeedProfile.SlowDownSpeed | roulette.js:109-111 | the slow-down speed is at least 1 short of or at `maxDistance` with a non-negative speed, and is 1 when the slow-down stretch is empty |
| SpeedProfile.RunUpSpeedBounds | roulette.js:102-105 | on the run-up stretch the speed is between 1 and `speed + 1`; it is exactly 1 at distance 0 and `speed + 1` at the run-up distance |
| SpeedProfile.RunUpSpeedMonotone | roulette.js:103-105 | the run-up speed never decreases as the distance grows |
| SpeedProfile.SlowDownSpeedBounds | roulette.js:109-111 | between the slow-down start and `maxDistance` the speed is between 1 and `speed + 1`; it is `speed + 1` at the start and 1 at `maxDistance` |
| SpeedProfile.SlowDownSpeedMonotone | roulette.js:109-111 | the slow-down speed never increases as the distance grows |
| SpeedProfile.SlowDownStepStaysWithin | roulette.js:110-122 | when `speed < maxDistance - slowDownStartDistance`, a slow-down step taken short of `maxDistance` moves forward and never past `maxDistance` |
| StopAligner.Base | roulette.js:88-89 | from a non-negative position, the base distance lies past two full loops and at most one slot further |
| StopAligner.MaxDistanceAsWritten | roulette.js:87-92 | the source's stopping distance is the base without a target, and within one loop of the base with one |
| StopAligner.MaxDistance | roulette.js:87-92 | the corrected stopping distance is the base without a target, and within one loop of the base with one |
| StopAligner.BaseOnSlotBoundary | roulette.js:88-89 | two loops plus `imageSize - position % imageSize` bring a reel at a non-negative position onto a slot boundary |
| StopAligner.MaxDistanceLandsOnTarget | roulette.js:88-92 | with the corrected alignment, the reel's position on reaching `maxDistance` is `stopImageNumber * imageSize` modulo the track length |
| StopAligner.MaxDistanceBounds | roulette.js:87-92 | `maxDistance - distance` is at least `2 * totalSize + 1` and below `3 * totalSize + imageSize` (non-negative position and target) |
| StopAligner.MaxDistanceAsWrittenBounds | roulette.js:87-92 | with the source's formula too, `maxDistance - distance` is at least `2 * totalSize + 1` and below `3 * totalSize + imageSize` (non-negative position, distance and target) |
| StopAligner.AsWrittenAgreesWhenAligned | roulette.js:88-92 | the source's formula and the corrected one give the same `maxDistance` while `position ≡ distance (mod totalSize)` |
| StopAligner.AsWrittenLandsShifted | roulette.js:88-92 | with the source's formula, the reel lands on the target offset shifted by `position - distance`, modulo the track length |
| StopAligner.AsWrittenMissesTarget | roulette.js:91 | concrete case: five 100-pixel slots, one tick into a spin that began on slot 2 (position 201, distance 1), aiming at slot 1: the source gives `maxDistance` 1100 and a landing at position 300 (slot 3); the corrected formula gives 1400 and lands at 100 (slot 1) |
| Engine.Reset | roulette.js:64-75 | every travel field returns to its initial value; the position becomes 0 only with `resetOnStop`, otherwise it is kept |
| Engine.SlowDownSetup | roulette.js:81-93 | a no-op once slowing down; otherwise it enters the slow-down, records the current distance as its start, sets a stopping distance and leaves position, distance, run-up and stop flags alone |
| Engine.TickSpeed | roulette.js:99-112 | which speed a tick uses: the run-up ramp while in the run-up and within its distance, taking precedence over the slow-down ramp; the configured speed on the tick that leaves the run-up and outside both phases |
| Engine.TickSpeedBounds | roulette.js:99-112 | in every phase a tick's speed is between 1 and `speed + 1` |
| Engine.Roll | roulette.js:114-126 | a tick either stops (the stop test comes before moving) and is exactly `reset`, or adds the same speed to distance and position (less one track length when it wraps), keeping the slow-down fields and leaving the run-up once past it |
| Engine.RollKeepsInTrack | roulette.js:121-126 | a tick keeps `0 <= position < totalSize` when `speed < totalSize` |
| Engine.WrapIsRemainder | roulette.js:124-126 | wrapping by one subtraction equals the remainder when the step is at most the track length |
| Engine.RollKeepsAligned | roulette.js:64-126 | a tick keeps `position == distance % totalSize`; a stopping tick keeps it exactly when `resetOnStop` is set or the position is already 0 |
| Engine.SlowDownSetupIdempotent | roulette.js:81-84 | once slowing down, `slowDownSetup` changes nothing, so a second call (from `stop` or the duration timer) is a no-op |
| Engine.SlowDownSetupEffect | roulette.js:81-93 | entering the slow-down records the entry distance as its start, sets `maxDistance` two to three loops ahead and aligned on the target slot, and changes no other travel field |
| Engine.ResetStartsSpinning | roulette.js:64-73 | the initial state and a reset state satisfy the spin invariant |
| Engine.RollKeepsSpinning | roulette.js:99-126 | before the slow-down a tick never stops the reel, keeps it on the track and keeps the run-up within one ramp step of the run-up distance |
| Engine.RunKeepsSpinning | roulette.js:99-143 | any number of ticks before the slow-down keep the spin invariant |
| Engine.RunKeepsAligned | roulette.js:99-126 | any number of ticks before the slow-down keep `position == distance % totalSize` |
| Engine.AsWrittenAgreesAfterTicks | roulette.js:87-126 | from a spin whose position matches its distance, after any number of ticks the source's stopping distance equals the corrected one |
| Engine.SetupBeginsLanding | roulette.js:81-93 | entering the slow-down from a spinning state starts a landing on the target |
| Engine.RollKeepsLanding | roulette.js:99-126 | during a landing, a tick that does not stop strictly increases the distance, never passes `maxDistance` and keeps the landing on course |
| Engine.LandingKeepsAligned | roulette.js:99-126 | the ticks of a landing before it stops keep `position == distance % totalSize` |
| Engine.StopShowsTarget | roulette.js:114-119 | the tick at which a landing stops finds the distance at `maxDistance` exactly and the position at `target * imageSize` |
| Engine.LandsOnTarget | roulette.js:99-143 | a landing stops after finitely many ticks, on the first tick that reaches `maxDistance`, showing the target slot; the reel then rests there, or at 0 with `resetOnStop` |
| Roulette.MayStart | roulette.js:215-218 | a play is refused exactly when `maxPlayCount` is set, non-zero and below the incremented play count |
| Roulette.StartTarget | roulette.js:219-224 | the target is the configured slot when it is a number of at least 0, otherwise the random index |
| Roulette.StopTarget | roulette.js:239-244 | a requested slot in `[0, imageCount - 1]` becomes the target; an explicit `null` passes the range check as 0 and clears the target; otherwise the previous target is kept |
| Roulette.AdjustDuration | roulette.js:258 | the adjusted duration is one less than a duration above 1, and exactly 1 otherwise |
| Roulette.Roulette.constructor | roulette.js:5-56 | the options are merged over the defaults (speed 10, duration 3, no limit, no target, no reset on stop), the travel fields start at their initial values and the geometry comes from the first image |
| Roulette.Roulette.Reset | roulette.js:64-75 | the fields change as `Engine.Reset` says; settings, target and callbacks are untouched |
| Roulette.Roulette.SlowDownSetup | roulette.js:81-93 | the fields change as `Engine.SlowDownSetup` says, and the slow-down callback fires exactly when the slow-down was not already under way |
| Roulette.Roulette.TickSpeed | roulette.js:100-112 | returns `Engine.TickSpeed` of the state at entry and clears `isRunUp` exactly on the tick that leaves the run-up |
| Roulette.Roulette.Roll | roulette.js:99-143 | the fields change as `Engine.Roll` says, and the stop callback fires with the target exactly when the tick stops |
| Roulette.Roulette.RollToStop | roulette.js:99-143 | ticking from a landing state ends with the reel showing the target slot (or at 0 with `resetOnStop`), in the reset state, after exactly one stop callback |
| Roulette.Roulette.Start | roulette.js:214-230 | always counts the call; past the play limit nothing else changes; otherwise it sets the target per `StartTarget`, fires the start callback and runs one tick |
| Roulette.Roulette.Stop | roulette.js:237-247 | does nothing while slowing down; otherwise it takes the override per `StopTarget` and enters the slow-down |
| Roulette.Roulette.SetOption | roulette.js:254-260 | merges the given settings, adjusts the duration per `AdjustDuration`, and makes the given target (or none) the one `start` uses; called without options it adjusts the duration and then throws, keeping the saved target; the travel state is untouched |

## Findings

| source | as written | input that shows it | evidently intended | confidence | as-written member | corrected member |
|---|---|---|---|---|---|---|
| roulette.js:91 | the target offset is computed from `maxDistance % totalSize`, that is from the distance, while the slot shown is given by `position`; after a spin with `resetOnStop` off, `reset` zeroes the distance but keeps the position | five 100-pixel slots; the previous spin rested on slot 2 (position 200, distance 0); `start` runs one tick of speed 1 (position 201, distance 1) and `stop({stopImageNumber: 1})` then gives `maxDistance` 1100, so the reel stops at position 300, showing slot 3 | align on the position the reel will have, `(position + maxDistance - distance) % totalSize`, so the reel stops on the target slot | not executed; high for the arithmetic | StopAligner.MaxDistanceAsWritten, StopAligner.AsWrittenMissesTarget | StopAligner.MaxDistance, StopAligner.MaxDistanceLandsOnTarget |

The engine (`Engine.SlowDownSetup`) and the class (`Roulette.Roulette.SlowDownSetup`)
use the corrected alignment. `StopAligner.AsWrittenAgreesWhenAligned` shows the
two formulas agree while `position ≡ distance (mod totalSize)`.
`Engine.RunKeepsAligned` carries that match across the ticks before the
slow-down, and `Engine.AsWrittenAgreesAfterTicks` combines the two. So on a
first spin (`Engine.Initial` is aligned) and on a spin after a reset with
`resetOnStop`, the source's formula gives the corrected stopping distance.
`Engine.LandingKeepsAligned` keeps the match up to the stopping tick, and
`Engine.RollKeepsAligned` shows the stopping tick keeps it exactly when
`resetOnStop` is set or the reel stopped at position 0.

## Left out

- DOM setup in `init` (roulette.js:154-208) is not modelled: image removal and cloning, load events and CSS sizing. Only its effect on the engine is: the geometry derived from the first image (lines 164-168), given to the constructor, and the saved configured target (line 157).
- Writing `position` to the element as `top`, `left` or `transform`, and the IE test (lines 50, 128-140), are view side effects. `position` is a field, readable after every tick.
- Timers are left out: `setTimeout(roll, 1)`, the duration timer started by `start` and `clearTimeout` in `reset` (lines 74, 142, 227-229). Roulette.Roulette.RollToStop stands for the self-rescheduling tick loop during a slow-down. The duration timer is a caller invoking Roulette.Roulette.SlowDownSetup. Two tick loops running at once, after `start` is called during a spin, are not modelled.
- The callbacks (lines 85, 117, 225) are foreign calls and appear only as the ghost event log. The stop callback's jQuery image lookup is reduced to the target number.
- `Math.random` (line 223) is the `randomIndex` parameter of Roulette.Roulette.Start, constrained to `[0, imageCount)`.
- JavaScript dynamic typing is not modelled (lines 219-222, 240, 256-257): `$.isNumeric`, `Number`, NaN, numeric strings and non-integer values. Numbers are integers, and an absent or `null` value is `None`. The exception is `stop`: its request (Roulette.StopRequest) distinguishes an explicit `null`, which passes the range check as `Number(null)` is 0 and clears the target. An override such as 1.5, which the source accepts, cannot be expressed.
- Roulette.Roulette.SetOption merges only `speed`, `duration`, `maxPlayCount`, `stopImageNumber` and `resetOnStop`. `$.extend` would copy any key, including engine fields. An explicit `null` in the options is treated like an absent key. `slots`, `isVertical`, `rollCount` and the callbacks concern presentation or are unused.
- The configured target is kept in the module-wide `defaultProperty` object, which all roulettes on a page share. Here it is a field of each roulette.
- Floating-point division before `~~` (lines 104, 110) is modelled as exact integer division. The 32-bit truncation performed by `~~` is not modelled.
- The jQuery plugin dispatcher and its `console.error` (lines 267-283) are glue.
- Engine.LandsOnTarget: proved for `speed < totalSize`, and, when the slow-down begins during the run-up, for `imageSize + speed <= totalSize`. Outside these bounds the tick that ends the run-up may pass `maxDistance`; the model makes no claim either way there.
- Engine.SetupBeginsLanding: has the same hypotheses as Engine.LandsOnTarget.
