/** Conversion of a colour in SRM to an RGB triple (Philip Lee's fit, as used by
    Brewtarget), each component clamped to the displayable range. */
module Srm {

  /** Python's `max(a, b)`: `a` unless `b` is larger. */
  function Max(a: real, b: real): real { if b > a then b else a }

  /** Python's `min(a, b)`: `a` unless `b` is smaller. */
  function Min(a: real, b: real): real { if b < a then b else a }

  /** Clamps `value` into [lowerBound, upperBound]; the upper bound is tested first. */
  function ForceRgbRange(value: real, lowerBound: real := 0.0, upperBound: real := 255.0): (r: real)
    ensures lowerBound <= upperBound ==> lowerBound <= r <= upperBound
    ensures lowerBound <= value <= upperBound ==> r == value
    ensures r == value || r == lowerBound || r == upperBound
  {
    if value > upperBound then upperBound else Max(value, lowerBound)
  }

  /** Clamping twice is clamping once, and clamping keeps the order of values. */
  lemma ForceRgbRangeIdempotentAndMonotone(v: real, w: real, lowerBound: real, upperBound: real)
    requires lowerBound <= upperBound
    ensures ForceRgbRange(ForceRgbRange(v, lowerBound, upperBound), lowerBound, upperBound)
         == ForceRgbRange(v, lowerBound, upperBound)
    ensures v <= w ==> ForceRgbRange(v, lowerBound, upperBound) <= ForceRgbRange(w, lowerBound, upperBound)
  {
  }

  /** The red component before clamping: Lee's line, capped at 253. */
  function UnclampedRed(srm: real): (red: real)
    ensures red <= 253.0
  {
    var red := 0.5 + (272.098 - 5.80255 * srm);
    Min(red, 253.0)
  }

  /** The green component before clamping: Lee's parabola, 0 beyond 35 SRM. */
  function UnclampedGreen(srm: real): (green: real)
    ensures srm > 35.0 ==> green == 0.0
  {
    if srm > 35.0 then 0.0 else 0.5 + (241.975 - 13.314 * srm + 0.1881895 * srm * srm)
  }

  /** The blue component before clamping: Lee's line. */
  function UnclampedBlue(srm: real): real
  {
    0.5 + (179.3 - 28.7 * srm)
  }

  /** RGB for a colour in SRM, as (red, green, blue). */
  function PhilipLeeSrmToRgb(srm: real): (rgb: (real, real, real))
    ensures 0.0 <= rgb.0 <= 253.0 && 0.0 <= rgb.1 <= 255.0 && 0.0 <= rgb.2 <= 255.0
    ensures srm > 35.0 ==> rgb.1 == 0.0
  {
    (ForceRgbRange(UnclampedRed(srm)), ForceRgbRange(UnclampedGreen(srm)), ForceRgbRange(UnclampedBlue(srm)))
  }

  /** Darker beer (more SRM) never gets more red or more blue. */
  lemma DarkerIsNeverRedderOrBluer(s1: real, s2: real)
    requires s1 <= s2
    ensures PhilipLeeSrmToRgb(s2).0 <= PhilipLeeSrmToRgb(s1).0
    ensures PhilipLeeSrmToRgb(s2).2 <= PhilipLeeSrmToRgb(s1).2
  {
    assert 5.80255 * s1 <= 5.80255 * s2;
    assert UnclampedRed(s2) <= UnclampedRed(s1);
    ForceRgbRangeIdempotentAndMonotone(UnclampedRed(s2), UnclampedRed(s1), 0.0, 255.0);
    ForceRgbRangeIdempotentAndMonotone(UnclampedBlue(s2), UnclampedBlue(s1), 0.0, 255.0);
  }
}
