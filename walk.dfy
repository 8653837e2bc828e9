/**
 * What a bounded random walk may emit: a non-empty trace of colours, each
 * channel inside its bounds, consecutive colours at most maxWalk apart.
 */
module Walk {
  import opened RgbValues

  /** Per-channel bounds that are ordered and inside the 12-bit range. */
  predicate ValidBounds(lo: Color, hi: Color)
  {
    0 <= lo.red <= hi.red <= MaxDuty &&
    0 <= lo.green <= hi.green <= MaxDuty &&
    0 <= lo.blue <= hi.blue <= MaxDuty
  }

  /**
   * A colour the walk can hold: each channel is a value randrange can give for
   * that channel's bounds, so the upper bound is reached only by a fixed channel.
   */
  predicate InBounds(c: Color, lo: Color, hi: Color)
  {
    InRandRange(lo.red, hi.red, c.red) &&
    InRandRange(lo.green, hi.green, c.green) &&
    InRandRange(lo.blue, hi.blue, c.blue)
  }

  predicate Near(a: int, b: int, maxWalk: int)
  {
    -maxWalk <= b - a <= maxWalk
  }

  /** Each channel moves by at most maxWalk from c to d. */
  predicate Step(c: Color, d: Color, maxWalk: int)
  {
    Near(c.red, d.red, maxWalk) && Near(c.green, d.green, maxWalk) && Near(c.blue, d.blue, maxWalk)
  }

  /** A trace a walk with these bounds and step size can emit. */
  predicate IsWalk(trace: seq<Color>, lo: Color, hi: Color, maxWalk: int)
  {
    |trace| >= 1 &&
    (forall k :: 0 <= k < |trace| ==> InBounds(trace[k], lo, hi)) &&
    (forall k :: 0 < k < |trace| ==> Step(trace[k - 1], trace[k], maxWalk))
  }

  /** Appending a colour in bounds one step from the last keeps a walk a walk. */
  lemma WalkExtend(trace: seq<Color>, lo: Color, hi: Color, maxWalk: int, c: Color)
    requires IsWalk(trace, lo, hi, maxWalk)
    requires InBounds(c, lo, hi) && Step(trace[|trace| - 1], c, maxWalk)
    ensures IsWalk(trace + [c], lo, hi, maxWalk)
  {
    var t := trace + [c];
    forall k | 0 < k < |t| ensures Step(t[k - 1], t[k], maxWalk) {
      if k < |trace| {
        assert t[k - 1] == trace[k - 1] && t[k] == trace[k];
      }
    }
  }

  /** Every colour of a walk inside valid bounds is a valid duty triple. */
  lemma WalkInHardwareRange(trace: seq<Color>, lo: Color, hi: Color, maxWalk: int, k: int)
    requires ValidBounds(lo, hi) && IsWalk(trace, lo, hi, maxWalk)
    requires 0 <= k < |trace|
    ensures lo.red <= trace[k].red <= hi.red && 0 <= trace[k].red <= MaxDuty
    ensures lo.green <= trace[k].green <= hi.green && 0 <= trace[k].green <= MaxDuty
    ensures lo.blue <= trace[k].blue <= hi.blue && 0 <= trace[k].blue <= MaxDuty
  {
    assert InBounds(trace[k], lo, hi);
  }

  /** A channel whose bounds coincide never moves. */
  lemma WalkFixedChannel(trace: seq<Color>, lo: Color, hi: Color, maxWalk: int, k: int)
    requires IsWalk(trace, lo, hi, maxWalk)
    requires 0 <= k < |trace|
    ensures lo.red == hi.red ==> trace[k].red == lo.red
    ensures lo.green == hi.green ==> trace[k].green == lo.green
    ensures lo.blue == hi.blue ==> trace[k].blue == lo.blue
  {
    assert InBounds(trace[k], lo, hi);
  }

  /** Over j - i steps a channel drifts by at most (j - i) * maxWalk. */
  lemma {:induction false} WalkDrift(trace: seq<Color>, lo: Color, hi: Color, maxWalk: int, i: int, j: int)
    requires IsWalk(trace, lo, hi, maxWalk)
    requires 0 <= i <= j < |trace|
    ensures Near(trace[i].red, trace[j].red, (j - i) * maxWalk)
    ensures Near(trace[i].green, trace[j].green, (j - i) * maxWalk)
    ensures Near(trace[i].blue, trace[j].blue, (j - i) * maxWalk)
    decreases j - i
  {
    if i < j {
      WalkDrift(trace, lo, hi, maxWalk, i, j - 1);
      assert Step(trace[j - 1], trace[j], maxWalk);
      assert (j - i) * maxWalk == (j - 1 - i) * maxWalk + maxWalk;
    }
  }

  /** With a step size of zero the walk repeats its seed colour. */
  lemma WalkZeroStepIsConstant(trace: seq<Color>, lo: Color, hi: Color, k: int)
    requires IsWalk(trace, lo, hi, 0)
    requires 0 <= k < |trace|
    ensures trace[k] == trace[0]
  {
    WalkDrift(trace, lo, hi, 0, 0, k);
  }
}
