/**
 * The static helpers of the RGB LED driver: the 12-bit clamp, the 8-bit to
 * 12-bit scale, the zero-width-tolerant randrange wrapper and the local window
 * of one random-walk step. All values are 12-bit PWM duty cycles in [0, 4095].
 */
module RgbValues {
  import opened Wrappers

  /** Largest duty value of the 12-bit PWM chip. */
  const MaxDuty: int := 4095

  /** One colour state: a duty value per channel. */
  datatype Color = Color(red: int, green: int, blue: int)

  function Min(a: int, b: int): int { if a <= b then a else b }
  function Max(a: int, b: int): int { if a >= b then a else b }

  // ---------------------------------------------------------------------------
  // sanitize_int
  // ---------------------------------------------------------------------------

  /**
   * Clamps any number to [0, MaxDuty]. Inside the range Python's int()
   * truncates toward zero, which for a non-negative number is the floor.
   */
  function SanitizeInt(x: real): (r: int)
    ensures 0 <= r <= MaxDuty
    ensures x < 0.0 ==> r == 0
    ensures x > MaxDuty as real ==> r == MaxDuty
    ensures 0.0 <= x <= MaxDuty as real ==> r as real <= x < r as real + 1.0
  {
    if x < 0.0 then 0
    else if x > MaxDuty as real then MaxDuty
    else x.Floor
  }

  /** A duty value that is already valid passes through unchanged. */
  lemma SanitizeKeepsValid(n: int)
    requires 0 <= n <= MaxDuty
    ensures SanitizeInt(n as real) == n
  {
  }

  /** Clamping twice is clamping once. */
  lemma SanitizeIdempotent(x: real)
    ensures SanitizeInt(SanitizeInt(x) as real) == SanitizeInt(x)
  {
    SanitizeKeepsValid(SanitizeInt(x));
  }

  /** The clamp never reverses the order of two numbers. */
  lemma SanitizeMonotone(x: real, y: real)
    requires x <= y
    ensures SanitizeInt(x) <= SanitizeInt(y)
  {
  }

  // ---------------------------------------------------------------------------
  // convert_eight_to_twelve_bit
  // ---------------------------------------------------------------------------

  /**
   * Shifts a value left by four bits. On Python's unbounded integers a left
   * shift by four is multiplication by 16, negative values included.
   */
  function EightToTwelve(eightBit: int): (r: int)
    ensures r % 16 == 0 && r / 16 == eightBit
    ensures 0 <= eightBit <= 255 ==> 0 <= r <= 4080
  {
    eightBit * 16
  }

  /** The three documented conversions. */
  lemma EightToTwelveDocumented()
    ensures EightToTwelve(0) == 0
    ensures EightToTwelve(255) == 4080
    ensures EightToTwelve(128) == 2048
  {
  }

  /** Distinct 8-bit codes stay distinct and keep their order. */
  lemma EightToTwelveStrictlyMonotone(a: int, b: int)
    requires a < b
    ensures EightToTwelve(a) + 16 <= EightToTwelve(b)
  {
  }

  // ---------------------------------------------------------------------------
  // randrange wrapper
  // ---------------------------------------------------------------------------

  /** Python's randrange raises ValueError on an empty range. */
  datatype RangeError = EmptyRange(start: int, stop: int)

  /**
   * The values the wrapper may return for a non-empty request: start itself
   * when start == stop, otherwise a value of the half-open range [start, stop).
   */
  predicate InRandRange(start: int, stop: int, r: int)
  {
    if start == stop then r == start else start <= r < stop
  }

  /**
   * randrange with a zero-width range allowed. The random draw is a
   * nondeterministic choice, so only its bounds are known.
   */
  method RandRange(start: int, stop: int) returns (res: Result<int, RangeError>)
    ensures res.Ok? <==> start <= stop
    ensures res.Ok? ==> InRandRange(start, stop, res.value)
    ensures res.Err? ==> res.error == EmptyRange(start, stop)
  {
    if start == stop {
      res := Ok(start);
    } else if start < stop {
      var r :| start <= r < stop;
      res := Ok(r);
    } else {
      res := Err(EmptyRange(start, stop));
    }
  }

  /** A value drawn by the wrapper never reaches stop unless the range has width zero. */
  lemma InRandRangeBounds(start: int, stop: int, r: int)
    requires start <= stop && InRandRange(start, stop, r)
    ensures start <= r <= stop
    ensures r == stop ==> start == stop
  {
  }

  // ---------------------------------------------------------------------------
  // get_next_random_value
  // ---------------------------------------------------------------------------

  /**
   * The range (lo, hi) one walk step draws from, computed branch for branch
   * as the source does, including the fallbacks to 0 and MaxDuty.
   */
  function Window(current: int, minimumAllowed: int, maximumAllowed: int, maxWalk: int): (w: (int, int))
    ensures minimumAllowed <= w.0 && current - maxWalk <= w.0
    ensures w.1 <= maximumAllowed && w.1 <= current + maxWalk
    ensures 0 <= minimumAllowed <= current <= maximumAllowed <= MaxDuty && 0 <= maxWalk ==>
              w.0 == Max(current - maxWalk, minimumAllowed) &&
              w.1 == Min(current + maxWalk, maximumAllowed) &&
              w.0 <= current <= w.1
  {
    var lo :=
      if current - maxWalk < minimumAllowed then minimumAllowed
      else if current - maxWalk < 0 then 0
      else current - maxWalk;
    var hi :=
      if current + maxWalk > maximumAllowed then maximumAllowed
      else if current + maxWalk > MaxDuty then MaxDuty
      else current + maxWalk;
    (lo, hi)
  }

  /**
   * The next value of one channel in a random walk: a draw from the window
   * around current. It stays inside the channel's bounds, moves at most
   * maxWalk, and never lands on the top of the window unless it stays put.
   */
  method GetNextRandomValue(current: int, minimumAllowed: int, maximumAllowed: int, maxWalk: int)
      returns (next: int)
    requires 0 <= minimumAllowed <= current <= maximumAllowed <= MaxDuty
    requires 0 <= maxWalk
    ensures InRandRange(Window(current, minimumAllowed, maximumAllowed, maxWalk).0,
                        Window(current, minimumAllowed, maximumAllowed, maxWalk).1, next)
    ensures minimumAllowed <= next <= maximumAllowed
    ensures current - maxWalk <= next <= current + maxWalk
    ensures next == current || next < Min(current + maxWalk, maximumAllowed)
    ensures InRandRange(minimumAllowed, maximumAllowed, current) ==>
              InRandRange(minimumAllowed, maximumAllowed, next)
    ensures maxWalk == 0 ==> next == current
  {
    var (lo, hi) := Window(current, minimumAllowed, maximumAllowed, maxWalk);
    var res := RandRange(lo, hi);
    next := res.value;
  }
}
