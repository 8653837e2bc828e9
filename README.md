# RGB LED driver: a verified model

This project models the core of `RGB_Driver`, a small driver for an analog RGB LED strip behind a
16-channel, 12-bit PWM chip. The driver turns colour parameters into 12-bit duty values and writes
one value per channel to three output channels. It has two motion primitives:

- a linear **fade** from one colour to another in `steps` steps;
- a bounded **random walk** that seeds a colour inside per-channel bounds and then perturbs it by
  at most `max_walk` per channel on each tick.

The PWM chip is modelled as a log of writes, each a `(channel, on, off)` triple. The class
`Driver.RgbDriver` holds the three channel numbers and that log. `set_rgb`, `fade_rgb` and
`random_walk` are methods that append to the log. Their postconditions give the whole new log
as the old log followed by the writes for a sequence of colours:

- For a fade, that sequence is the specification function `Fade.FadeSamples`.
- For a walk, it is a ghost trace that satisfies `Walk.IsWalk`.

The bounds, sample-count, endpoint, monotonicity, drift and fixed-channel properties are proved
as lemmas about those functions and predicates.

Modules:

- `Wrappers`: a `Result` type.
- `RgbValues`: the static helpers `sanitize_int`, `convert_eight_to_twelve_bit`, the `randrange`
  wrapper and `get_next_random_value`, with its window.
- `Fade`: the fade samples and their lemmas.
- `Walk`: what a walk may emit, and its lemmas.
- `Driver`: the write log, its decoding, and the driver class.

Randomness is a nondeterministic choice (`:|`) constrained by Python's `randrange(start, stop)`
contract. The value lies in `[start, stop)`, so `stop` is excluded. `start == stop` returns
`start`, and `start > stop` is an error (`ValueError`), modelled as `Err(EmptyRange)`.

Each draw calls `randrange(min, max)`, which excludes `max`. So a channel with `min < max` never
takes the value `max`, and a walk step never lands on the top of its window unless the window has
width zero. `Walk.InBounds` and `RgbValues.GetNextRandomValue` state this half-open invariant.

The docstrings speak of 10-bit values and of milliseconds. The values are 12-bit (the shift is by
4 bits and the clamp is to 4095), and the delay is passed to `time.sleep`, so it is in seconds.
The doctests call a function named `convert_eight_to_ten_bit`, but their values (0→0, 255→4080,
128→2048) are those of the `<<4` shift, and the model proves them.

## Model

| member | source | states |
|---|---|---|
| `RgbValues.SanitizeInt` | RGB_Driver.py:72-79 | the result is always in [0, 4095]; 0 below the range, 4095 above it, and inside it the integer part (r ≤ x < r + 1) |
| `RgbValues.SanitizeKeepsValid` | RGB_Driver.py:78-79 | a value already in [0, 4095] passes through the clamp unchanged |
| `RgbValues.SanitizeIdempotent` | RGB_Driver.py:72-79 | clamping a clamped value changes nothing |
| `RgbValues.SanitizeMonotone` | RGB_Driver.py:72-79 | the clamp preserves order (x ≤ y gives clamp(x) ≤ clamp(y)) |
| `RgbValues.EightToTwelve` | RGB_Driver.py:51-62 | the shift by four is lossless: the low four bits are zero and dividing by 16 gives the input back; 8-bit inputs land in [0, 4080] |
| `RgbValues.EightToTwelveDocumented` | RGB_Driver.py:55-60 | the documented conversions 0→0, 255→4080 and 128→2048 |
| `RgbValues.EightToTwelveStrictlyMonotone` | RGB_Driver.py:62 | distinct inputs map at least 16 apart, in the same order |
| `RgbValues.RandRange` | RGB_Driver.py:82-88 | succeeds exactly when start ≤ stop; returns start when start == stop, otherwise a value in [start, stop), never stop; start > stop is the empty-range error |
| `RgbValues.InRandRangeBounds` | RGB_Driver.py:85-88 | a value the wrapper returns lies in [start, stop] and equals stop only for a zero-width range |
| `RgbValues.Window` | RGB_Driver.py:108-118 | the window never goes below the allowed minimum or current − max_walk, nor above the allowed maximum or current + max_walk; under 0 ≤ min ≤ current ≤ max ≤ 4095 and max_walk ≥ 0 the fallbacks to 0 and 4095 are dead, the window is [max(current − max_walk, min), min(current + max_walk, max)], and it contains current |
| `RgbValues.GetNextRandomValue` | RGB_Driver.py:104-120 | the next value is a randrange draw from the window: it lies in [min, max] and within max_walk of current; it is either current or strictly below the window's top; it keeps the half-open channel invariant; max_walk == 0 returns current |
| `Fade.FadeChannel` | RGB_Driver.py:93-100 | every clamped sample of a channel is a valid duty value in [0, 4095] |
| `Fade.FadeSamples` | RGB_Driver.py:97-101 | a fade has exactly steps + 1 samples; the first is the clamped start colour, in exact arithmetic the last is the clamped end colour, and every one is a valid colour |
| `Fade.FadeFirst` | RGB_Driver.py:98-100 | sample 0 of a channel is the clamped start value |
| `Fade.FadeLast` | RGB_Driver.py:93-100 | in exact arithmetic, sample `steps` of a channel is the clamped end value |
| `Fade.FadeFirstColor` | RGB_Driver.py:97-101 | sample 0 of a fade is the clamped start colour |
| `Fade.FadeLastColor` | RGB_Driver.py:97-101 | sample `steps` of a fade is the clamped end colour |
| `Fade.FadeNonDecreasing` | RGB_Driver.py:93-100 | when to ≥ from on a channel, its samples never decrease with the step index |
| `Fade.FadeNonIncreasing` | RGB_Driver.py:93-100 | when to ≤ from on a channel, its samples never increase with the step index |
| `Fade.FadeBetween` | RGB_Driver.py:93-100 | in exact arithmetic, with both endpoints in [0, 4095], every sample lies between them (no overshoot) |
| `Fade.FadeThereAndBack` | RGB_Driver.py:167-169 | in exact arithmetic, fading A→B and then B→A with the same steps: the way back starts where the way out ended and ends on the clamped A, which is A itself when A is valid |
| `Walk.WalkExtend` | RGB_Driver.py:130-134 | appending a colour that is in bounds and one step from the last colour keeps a trace a valid walk |
| `Walk.WalkInHardwareRange` | RGB_Driver.py:123-135 | with ordered bounds inside [0, 4095], every colour of a walk lies within [min, max] per channel and is a valid duty triple |
| `Walk.WalkFixedChannel` | RGB_Driver.py:125-133 | a channel with min == max holds that value in every colour of the walk |
| `Walk.WalkDrift` | RGB_Driver.py:130-134 | over j − i walk steps a channel moves by at most (j − i) · max_walk |
| `Walk.WalkZeroStepIsConstant` | RGB_Driver.py:130-134 | with max_walk == 0 every colour of the walk equals the seed |
| `Driver.Emission` | RGB_Driver.py:65-70 | showing one colour takes exactly three writes |
| `Driver.Emissions` | RGB_Driver.py:97-101 | showing n colours takes exactly 3n writes |
| `Driver.EmissionsAt` | RGB_Driver.py:65-70 | in the write log of a colour sequence, writes 3k, 3k+1 and 3k+2 put colour k on the red, green and blue channels, in that order, with the on tick at 0 |
| `Driver.FadeWritesValid` | RGB_Driver.py:97-101 | every write a fade makes has its off tick in [0, 4095], its on tick at 0, and one of the three pins as its channel |
| `Driver.StepValue` | RGB_Driver.py:93-100 | the value the loop computes from the precomputed per-channel increment is the fade sample of that step |
| `Driver.RgbDriver.constructor` | RGB_Driver.py:36-43 | stores the three pins; the injected chip has received no writes yet |
| `Driver.RgbDriver.SetRgb` | RGB_Driver.py:65-70 | appends exactly the three writes (red_pin, 0, r), (green_pin, 0, g), (blue_pin, 0, b), in that order, unclamped, and nothing else |
| `Driver.RgbDriver.FadeRgb` | RGB_Driver.py:90-102 | for steps ≥ 1, the log grows by exactly the writes of `FadeSamples(from, to, steps)`, sample after sample, with the per-step arithmetic done in exact reals |
| `Driver.RgbDriver.RandomWalk` | RGB_Driver.py:123-135 | emits the seed and then one colour per iteration; the emitted colours (iterations + 1 of them, seed included) form a walk: each channel stays in its bounds and moves at most max_walk per tick; the log grows by exactly their writes |

## Left out

- The PWM chip library (`Adafruit_PWM_Servo_Driver`), `setup_pwm` and `setPWMFreq` (RGB_Driver.py:30, 46-49) are hardware, and that library is not part of this model. The chip is a recorded write log. The constructor always takes the injected-sink path and starts with an empty log.
- The default pin numbers 0, 1 and 2 of the constructor are not modelled: the constructor takes all three pins explicitly.
- `time.sleep` after every emission and the `delay` parameter of `fade_rgb` and `random_walk` are wall-clock concerns. They are not modelled, and no duration property is stated.
- `time.time` and `random_time` in `random_walk` are not modelled either. The walk loop runs for a given number of `iterations`. Any run of the source emits the seed and then some number of walk colours, so it is one of these runs.
- `random.randrange` is a nondeterministic choice in `[start, stop)`. Only bounds can be proved, not distributions or exact values. The `step` argument of the wrapper is always 1 in the driver and is not modelled.
- Floating point in `fade_rgb` is modelled with exact reals. In IEEE doubles `1.0/49*49 < 1`, so `fade_rgb(0,0,0,1,1,1,49,…)` ends on 0 rather than 1. Every fade property holds only for the exact model; in doubles the following fail for some inputs:
  - `Fade.FadeLast` and `Fade.FadeLastColor`: the last sample of 0→1 in 49 steps is 0, not 1.
  - `Fade.FadeSamples`: its last-sample clause fails on that same input.
  - `Fade.FadeBetween`: 8→1 in 25 steps ends on int(0.9999999999999991) = 0, below both endpoints.
  - `Fade.FadeThereAndBack`: with A = (1,1,1), B = (0,0,0) and 49 steps, the way back ends on (0,0,0), not A.
  - `Driver.RgbDriver.FadeRgb`: its writes equal those of `FadeSamples` only when the arithmetic is exact.
- Fade.FadeSamples: `steps == 0` raises `ZeroDivisionError` in the source, and a negative `steps` gives an empty loop. Both are excluded by the precondition `steps ≥ 1`.
- Driver.RgbDriver.FadeRgb: it has the same precondition `steps ≥ 1`. A negative `steps` makes no writes in the source, and the model does not cover that case.
- RgbValues.GetNextRandomValue: it requires 0 ≤ minimum_allowed ≤ current ≤ maximum_allowed ≤ 4095 and max_walk ≥ 0. Outside that range, the source's fallback branches can invert the window and make `randrange` raise. `RgbValues.Window` itself is modelled for all inputs.
- Driver.RgbDriver.RandomWalk: it requires ordered bounds inside [0, 4095] and max_walk ≥ 0. With min > max the seed `randrange` raises. In the source, the command-line front end establishes min ≤ max by sorting each pair (RGB_Driver.py:171-174).
- The command-line block (RGB_Driver.py:139-178) is glue and is not modelled: argument parsing, repetition, reverse and turn-off on exit. The reverse fade's property is `Fade.FadeThereAndBack`.
- Hardware write failures propagate in the source. The model's sink never fails.
