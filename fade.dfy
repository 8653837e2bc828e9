/**
 * The linear fade between two colours, as the sequence of clamped samples it
 * emits. Arithmetic is exact (real numbers) where the driver uses floats.
 */
module Fade {
  import opened RgbValues

  /**
   * The unclamped value of one channel at step i: the start plus i times the
   * per-step increment (to - from) / steps.
   */
  function ChannelValue(from: int, to: int, steps: int, i: int): real
    requires steps >= 1
  {
    from as real + ((to - from) as real / steps as real) * i as real
  }

  /** The clamped duty value of one channel at step i. */
  function FadeChannel(from: int, to: int, steps: int, i: int): (r: int)
    requires steps >= 1
    ensures 0 <= r <= MaxDuty
  {
    SanitizeInt(ChannelValue(from, to, steps, i))
  }

  /** The colour emitted at step i of a fade. */
  function FadeSample(from: Color, to: Color, steps: int, i: int): Color
    requires steps >= 1
  {
    Color(FadeChannel(from.red, to.red, steps, i),
          FadeChannel(from.green, to.green, steps, i),
          FadeChannel(from.blue, to.blue, steps, i))
  }

  /** Clamps each channel of a colour. */
  function SanitizeColor(c: Color): Color
  {
    Color(SanitizeInt(c.red as real), SanitizeInt(c.green as real), SanitizeInt(c.blue as real))
  }

  /** A colour whose every channel is a valid duty value. */
  predicate ValidColor(c: Color)
  {
    0 <= c.red <= MaxDuty && 0 <= c.green <= MaxDuty && 0 <= c.blue <= MaxDuty
  }

  /**
   * Every sample of a fade, steps + 1 of them, from the clamped start colour
   * to the clamped end colour, all valid duty values.
   */
  function FadeSamples(from: Color, to: Color, steps: int): (s: seq<Color>)
    requires steps >= 1
    ensures |s| == steps + 1
    ensures s[0] == SanitizeColor(from)
    ensures s[steps] == SanitizeColor(to)
    ensures forall i :: 0 <= i < |s| ==> ValidColor(s[i])
  {
    FadeFirstColor(from, to, steps);
    FadeLastColor(from, to, steps);
    seq(steps + 1, i requires 0 <= i <= steps => FadeSample(from, to, steps, i))
  }

  /** Step 0 is the clamped start. */
  lemma FadeFirst(from: int, to: int, steps: int)
    requires steps >= 1
    ensures FadeChannel(from, to, steps, 0) == SanitizeInt(from as real)
  {
  }

  /** In exact arithmetic the last step lands on the clamped end. */
  lemma FadeLast(from: int, to: int, steps: int)
    requires steps >= 1
    ensures FadeChannel(from, to, steps, steps) == SanitizeInt(to as real)
  {
    var d := (to - from) as real;
    var n := steps as real;
    assert (d / n) * n == d;
    assert ChannelValue(from, to, steps, steps) == to as real;
  }

  lemma FadeFirstColor(from: Color, to: Color, steps: int)
    requires steps >= 1
    ensures FadeSample(from, to, steps, 0) == SanitizeColor(from)
  {
    FadeFirst(from.red, to.red, steps);
    FadeFirst(from.green, to.green, steps);
    FadeFirst(from.blue, to.blue, steps);
  }

  lemma FadeLastColor(from: Color, to: Color, steps: int)
    requires steps >= 1
    ensures FadeSample(from, to, steps, steps) == SanitizeColor(to)
  {
    FadeLast(from.red, to.red, steps);
    FadeLast(from.green, to.green, steps);
    FadeLast(from.blue, to.blue, steps);
  }

  /** When a channel rises, its samples never go down. */
  lemma FadeNonDecreasing(from: int, to: int, steps: int, i: int, j: int)
    requires steps >= 1 && from <= to
    requires i <= j
    ensures FadeChannel(from, to, steps, i) <= FadeChannel(from, to, steps, j)
  {
    var inc := (to - from) as real / steps as real;
    assert 0.0 <= inc;
    MulMonotone(inc, i as real, j as real);
    SanitizeMonotone(ChannelValue(from, to, steps, i), ChannelValue(from, to, steps, j));
  }

  /** When a channel falls, its samples never go up. */
  lemma FadeNonIncreasing(from: int, to: int, steps: int, i: int, j: int)
    requires steps >= 1 && to <= from
    requires i <= j
    ensures FadeChannel(from, to, steps, j) <= FadeChannel(from, to, steps, i)
  {
    var inc := (from - to) as real / steps as real;
    assert 0.0 <= inc;
    MulMonotone(inc, i as real, j as real);
    assert (to - from) as real / steps as real == -inc;
    SanitizeMonotone(ChannelValue(from, to, steps, j), ChannelValue(from, to, steps, i));
  }

  /** Arithmetic helper for FadeNonDecreasing and FadeNonIncreasing: scaling by a non-negative factor keeps order. */
  lemma MulMonotone(k: real, x: real, y: real)
    requires 0.0 <= k && x <= y
    ensures k * x <= k * y
  {
    assert k * y - k * x == k * (y - x);
  }

  /**
   * Between two valid endpoints every sample of the fade lies between them:
   * the fade never overshoots.
   */
  lemma FadeBetween(from: int, to: int, steps: int, i: int)
    requires steps >= 1 && 0 <= i <= steps
    requires 0 <= from <= MaxDuty && 0 <= to <= MaxDuty
    ensures Min(from, to) <= FadeChannel(from, to, steps, i) <= Max(from, to)
  {
    FadeFirst(from, to, steps);
    FadeLast(from, to, steps);
    SanitizeKeepsValid(from);
    SanitizeKeepsValid(to);
    if from <= to {
      FadeNonDecreasing(from, to, steps, 0, i);
      FadeNonDecreasing(from, to, steps, i, steps);
    } else {
      FadeNonIncreasing(from, to, steps, 0, i);
      FadeNonIncreasing(from, to, steps, i, steps);
    }
  }

  /**
   * Fading A to B and then B to A with the same step count: the way back
   * starts where the way out ended and ends on the clamped A.
   */
  lemma FadeThereAndBack(a: Color, b: Color, steps: int)
    requires steps >= 1
    ensures FadeSamples(b, a, steps)[0] == FadeSamples(a, b, steps)[steps]
    ensures FadeSamples(b, a, steps)[steps] == FadeSamples(a, b, steps)[0]
    ensures ValidColor(a) ==> FadeSamples(b, a, steps)[steps] == a
  {
    if ValidColor(a) {
      SanitizeKeepsValid(a.red);
      SanitizeKeepsValid(a.green);
      SanitizeKeepsValid(a.blue);
    }
  }
}
