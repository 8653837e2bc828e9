/**
 * The driver object: three fixed output channels and the PWM chip, which is
 * modelled as the log of every (channel, on, off) write made to it.
 */
module Driver {
  import opened RgbValues
  import opened Fade
  import opened Walk

  /** One write to the PWM chip: the channel switches on at tick on and off at tick off. */
  datatype PwmWrite = PwmWrite(channel: int, on: int, off: int)

  /** The channels the red, green and blue outputs are wired to. */
  datatype Pins = Pins(red: int, green: int, blue: int)

  /** The three writes that show one colour: red, then green, then blue. */
  function Emission(pins: Pins, c: Color): (ws: seq<PwmWrite>)
    ensures |ws| == 3
  {
    [PwmWrite(pins.red, 0, c.red), PwmWrite(pins.green, 0, c.green), PwmWrite(pins.blue, 0, c.blue)]
  }

  /** The writes that show a sequence of colours, one after another. */
  function Emissions(pins: Pins, cs: seq<Color>): (ws: seq<PwmWrite>)
    ensures |ws| == 3 * |cs|
  {
    if cs == [] then [] else Emissions(pins, cs[..|cs| - 1]) + Emission(pins, cs[|cs| - 1])
  }

  /**
   * Decoding the write log: write 3k + 0, 1, 2 puts colour k on the red,
   * green and blue channel with the switch-on tick at 0.
   */
  lemma {:induction false} EmissionsAt(pins: Pins, cs: seq<Color>, k: int)
    requires 0 <= k < |cs|
    ensures Emissions(pins, cs)[3 * k] == PwmWrite(pins.red, 0, cs[k].red)
    ensures Emissions(pins, cs)[3 * k + 1] == PwmWrite(pins.green, 0, cs[k].green)
    ensures Emissions(pins, cs)[3 * k + 2] == PwmWrite(pins.blue, 0, cs[k].blue)
  {
    var init := cs[..|cs| - 1];
    if k < |cs| - 1 {
      EmissionsAt(pins, init, k);
    }
  }

  /** A fade writes only valid duty values, each to one of the three channels. */
  lemma FadeWritesValid(pins: Pins, from: Color, to: Color, steps: int, n: int)
    requires steps >= 1
    requires 0 <= n < 3 * (steps + 1)
    ensures 0 <= Emissions(pins, FadeSamples(from, to, steps))[n].off <= MaxDuty
    ensures Emissions(pins, FadeSamples(from, to, steps))[n].on == 0
    ensures Emissions(pins, FadeSamples(from, to, steps))[n].channel in {pins.red, pins.green, pins.blue}
  {
    var s := FadeSamples(from, to, steps);
    var k := n / 3;
    EmissionsAt(pins, s, k);
    assert ValidColor(s[k]);
  }

  /** The value the fade loop computes from a precomputed increment is the fade's sample. */
  lemma StepValue(from: int, to: int, steps: int, increment: real, i: int)
    requires steps >= 1 && increment == (to - from) as real / steps as real
    ensures SanitizeInt(from as real + increment * i as real) == FadeChannel(from, to, steps, i)
  {
    assert from as real + increment * i as real == ChannelValue(from, to, steps, i);
  }

  class RgbDriver {
    const redPin: int
    const greenPin: int
    const bluePin: int
    /** Every write made to the PWM chip so far, oldest first. */
    var log: seq<PwmWrite>

    function Channels(): Pins
    {
      Pins(redPin, greenPin, bluePin)
    }

    /** A driver on the given channels whose chip has not been written yet. */
    constructor (redPin: int, greenPin: int, bluePin: int)
      ensures this.redPin == redPin && this.greenPin == greenPin && this.bluePin == bluePin
      ensures log == []
    {
      this.redPin := redPin;
      this.greenPin := greenPin;
      this.bluePin := bluePin;
      log := [];
    }

    /** Writes red, green and blue to their channels in that order, unclamped. */
    method SetRgb(redValue: int, greenValue: int, blueValue: int)
      modifies this
      ensures log == old(log) + [PwmWrite(redPin, 0, redValue), PwmWrite(greenPin, 0, greenValue),
                                 PwmWrite(bluePin, 0, blueValue)]
    {
      log := log + [PwmWrite(redPin, 0, redValue)];
      log := log + [PwmWrite(greenPin, 0, greenValue)];
      log := log + [PwmWrite(bluePin, 0, blueValue)];
    }

    /** Emits the steps + 1 samples of the linear fade from one colour to another. */
    method FadeRgb(fromRed: int, fromGreen: int, fromBlue: int, toRed: int, toGreen: int, toBlue: int,
                   steps: int)
      requires steps >= 1
      modifies this
      ensures log == old(log) + Emissions(Channels(),
                                          FadeSamples(Color(fromRed, fromGreen, fromBlue),
                                                      Color(toRed, toGreen, toBlue), steps))
    {
      ghost var samples := FadeSamples(Color(fromRed, fromGreen, fromBlue), Color(toRed, toGreen, toBlue), steps);
      var redStep := (toRed - fromRed) as real / steps as real;
      var greenStep := (toGreen - fromGreen) as real / steps as real;
      var blueStep := (toBlue - fromBlue) as real / steps as real;
      for step := 0 to steps + 1
        invariant log == old(log) + Emissions(Channels(), samples[..step])
      {
        var redValue := SanitizeInt(fromRed as real + redStep * step as real);
        var greenValue := SanitizeInt(fromGreen as real + greenStep * step as real);
        var blueValue := SanitizeInt(fromBlue as real + blueStep * step as real);
        StepValue(fromRed, toRed, steps, redStep, step);
        StepValue(fromGreen, toGreen, steps, greenStep, step);
        StepValue(fromBlue, toBlue, steps, blueStep, step);
        assert samples[step] == FadeSample(Color(fromRed, fromGreen, fromBlue), Color(toRed, toGreen, toBlue), steps, step);
        SetRgb(redValue, greenValue, blueValue);
        assert samples[..step + 1][..step] == samples[..step];
        assert Emissions(Channels(), samples[..step + 1])
            == Emissions(Channels(), samples[..step]) + Emission(Channels(), samples[step]);
      }
      assert samples[..steps + 1] == samples;
    }

    /**
     * Seeds a colour inside the bounds, emits it, then takes iterations walk
     * steps, emitting each new colour. The ghost trace is the colours emitted.
     */
    method RandomWalk(minRed: int, minGreen: int, minBlue: int, maxRed: int, maxGreen: int, maxBlue: int,
                      iterations: nat, maxWalk: int)
        returns (ghost trace: seq<Color>)
      requires ValidBounds(Color(minRed, minGreen, minBlue), Color(maxRed, maxGreen, maxBlue))
      requires 0 <= maxWalk
      modifies this
      ensures |trace| == iterations + 1
      ensures IsWalk(trace, Color(minRed, minGreen, minBlue), Color(maxRed, maxGreen, maxBlue), maxWalk)
      ensures log == old(log) + Emissions(Channels(), trace)
    {
      ghost var lo, hi := Color(minRed, minGreen, minBlue), Color(maxRed, maxGreen, maxBlue);
      var seed := RandRange(minRed, maxRed);
      var red := seed.value;
      seed := RandRange(minGreen, maxGreen);
      var green := seed.value;
      seed := RandRange(minBlue, maxBlue);
      var blue := seed.value;
      SetRgb(red, green, blue);
      trace := [Color(red, green, blue)];
      assert trace[..0] == [];
      var n := 0;
      while n < iterations
        invariant 0 <= n <= iterations
        invariant |trace| == n + 1 && trace[n] == Color(red, green, blue)
        invariant IsWalk(trace, lo, hi, maxWalk)
        invariant log == old(log) + Emissions(Channels(), trace)
      {
        red := GetNextRandomValue(red, minRed, maxRed, maxWalk);
        green := GetNextRandomValue(green, minGreen, maxGreen, maxWalk);
        blue := GetNextRandomValue(blue, minBlue, maxBlue, maxWalk);
        SetRgb(red, green, blue);
        WalkExtend(trace, lo, hi, maxWalk, Color(red, green, blue));
        trace := trace + [Color(red, green, blue)];
        assert trace[..|trace| - 1] == trace[..n + 1];
        n := n + 1;
      }
    }
  }
}
