/**
  Alcohol by volume: the linear "WWW" estimate, the Ritchie rational estimate,
  and the tiered-factor method of HM Revenue & Customs Excise Notice 226
  ("calculation of strength"), which falls back to Ritchie off its table.
 */
module Abv {
  import opened Wrappers
  import opened Rounding

  /** Linear ABV estimate from full-form gravities (1.045, 1.031); a zero final
      gravity is the caller's error. */
  function WwwAlcoholByVolume(originalGravity: real, finalGravity: real): real
    requires finalGravity != 0.0
  {
    ((1.05 * (originalGravity - finalGravity)) / finalGravity / 0.79) * 100.0
  }

  /** The same estimate from gravities in degrees (45, 31), each turned into full
      form as (1000 + d) / 1000. */
  function WwwAlcoholByVolumeDegrees(ogDegrees: real, fgDegrees: real): real
    requires fgDegrees != -1000.0
  {
    var originalGravity := (1000.0 + ogDegrees) / 1000.0;
    var finalGravity := (1000.0 + fgDegrees) / 1000.0;
    WwwAlcoholByVolume(originalGravity, finalGravity)
  }

  /** Ritchie's estimate from full-form gravities; an original gravity of exactly
      1.775 is the caller's error. */
  function RitchieAbv(originalGravity: real, finalGravity: real): real
    requires originalGravity != 1.775
  {
    (76.08 * (originalGravity - finalGravity) / (1.775 - originalGravity)) * (finalGravity / 0.794)
  }

  /** For a positive final gravity the linear estimate is zero exactly when nothing
      fermented and positive exactly when the gravity dropped. */
  lemma WwwSign(originalGravity: real, finalGravity: real)
    requires 0.0 < finalGravity
    ensures WwwAlcoholByVolume(originalGravity, finalGravity) == 0.0 <==> originalGravity == finalGravity
    ensures 0.0 < WwwAlcoholByVolume(originalGravity, finalGravity) <==> finalGravity < originalGravity
  {
    var x := 1.05 * (originalGravity - finalGravity);
    if finalGravity < originalGravity {
      assert 0.0 < x / finalGravity;
    } else {
      assert x / finalGravity <= 0.0;
    }
  }

  /** For a fixed positive final gravity the linear estimate strictly increases
      with the gravity drop. */
  lemma WwwStrictlyIncreasing(og1: real, og2: real, finalGravity: real)
    requires 0.0 < finalGravity && og1 < og2
    ensures WwwAlcoholByVolume(og1, finalGravity) < WwwAlcoholByVolume(og2, finalGravity)
  {
    var x1 := 1.05 * (og1 - finalGravity);
    var x2 := 1.05 * (og2 - finalGravity);
    assert x1 / finalGravity < x2 / finalGravity;
  }

  /** In degrees the thousands cancel: the estimate is 105 times the degree drop
      over (0.79 * (1000 + final degrees)), scaled to a percentage. */
  lemma WwwDegreesClosedForm(ogDegrees: real, fgDegrees: real)
    requires fgDegrees != -1000.0
    ensures WwwAlcoholByVolumeDegrees(ogDegrees, fgDegrees)
         == 1.05 * (ogDegrees - fgDegrees) / (1000.0 + fgDegrees) / 0.79 * 100.0
  {
    var og := (1000.0 + ogDegrees) / 1000.0;
    var fg := (1000.0 + fgDegrees) / 1000.0;
    var a := 1.05 * (ogDegrees - fgDegrees);
    var b := 1000.0 + fgDegrees;
    assert 1.05 * (og - fg) == a / 1000.0;
    assert fg == b / 1000.0;
    assert (a / b) * (b / 1000.0) == a / 1000.0;
    assert (1.05 * (og - fg)) / fg == a / b;
  }

  /** Ritchie's estimate is zero when nothing fermented and positive when a
      positive gravity dropped below an original gravity under 1.775. */
  lemma RitchieSign(originalGravity: real, finalGravity: real)
    requires originalGravity != 1.775
    ensures originalGravity == finalGravity ==> RitchieAbv(originalGravity, finalGravity) == 0.0
    ensures 0.0 < finalGravity < originalGravity < 1.775 ==> 0.0 < RitchieAbv(originalGravity, finalGravity)
  {
    if 0.0 < finalGravity < originalGravity < 1.775 {
      var n := 76.08 * (originalGravity - finalGravity);
      var m := 1.775 - originalGravity;
      assert 0.0 < n && 0.0 < m;
      assert (n / m) * m == n;
      assert 0.0 < n / m;
      assert 0.0 < finalGravity / 0.794;
    }
  }

  /** One bracket of the excise table: a range of gravity drops, the ABV range it
      is expected to produce (used only for the sanity check), and its factor. */
  datatype AbvFactor = AbvFactor(
    excessGravityDiffMin: real,
    excessGravityDiffMax: real,
    abvMin: real,
    abvMax: real,
    factor: real)

  predicate InBracket(row: AbvFactor, excessGravityDiff: real)
  {
    row.excessGravityDiffMin <= excessGravityDiff <= row.excessGravityDiffMax
  }

  /** The excise table, in order. */
  const GovUkAbvFactors: seq<AbvFactor> := [
    AbvFactor(0.0, 6.9, 0.0, 0.8, 0.125),
    AbvFactor(7.0, 10.4, 0.8, 1.3, 0.126),
    AbvFactor(10.5, 17.2, 1.3, 2.1, 0.127),
    AbvFactor(17.3, 26.1, 2.2, 3.3, 0.128),
    AbvFactor(26.2, 36.0, 3.3, 4.6, 0.129),
    AbvFactor(36.1, 46.5, 4.6, 6.0, 0.130),
    AbvFactor(46.6, 57.1, 6.0, 7.5, 0.131),
    AbvFactor(57.2, 67.9, 7.5, 9.0, 0.132),
    AbvFactor(68.0, 78.8, 9.0, 10.5, 0.133),
    AbvFactor(78.9, 89.7, 10.5, 12.0, 0.134),
    AbvFactor(89.8, 100.7, 12.0, 13.6, 0.135)
  ]

  /** The position of the first row whose bracket holds `d`, or |rows| when none does. */
  function FirstBracketIndex(rows: seq<AbvFactor>, d: real): (i: nat)
    ensures i <= |rows|
    ensures forall j :: 0 <= j < i ==> !InBracket(rows[j], d)
    ensures i < |rows| ==> InBracket(rows[i], d)
  {
    if rows == [] then 0
    else if InBracket(rows[0], d) then 0
    else 1 + FirstBracketIndex(rows[1..], d)
  }

  /** The first table row whose bracket holds `excessGravityDiff`, or None. */
  function FindGovUkFactor(excessGravityDiff: real): (r: Option<AbvFactor>)
    ensures r.None? <==> forall i :: 0 <= i < |GovUkAbvFactors| ==> !InBracket(GovUkAbvFactors[i], excessGravityDiff)
    ensures r.Some? ==> r.value in GovUkAbvFactors && InBracket(r.value, excessGravityDiff)
  {
    var i := FirstBracketIndex(GovUkAbvFactors, excessGravityDiff);
    if i < |GovUkAbvFactors| then Some(GovUkAbvFactors[i]) else None
  }

  /** The table has eleven brackets, each well formed, in strictly ascending order
      and pairwise disjoint, from 0 to 100.7; the factors rise strictly from 0.125
      to 0.135. */
  lemma GovUkAbvFactorsShape()
    ensures |GovUkAbvFactors| == 11
    ensures GovUkAbvFactors[0].excessGravityDiffMin == 0.0 && GovUkAbvFactors[10].excessGravityDiffMax == 100.7
    ensures GovUkAbvFactors[0].factor == 0.125 && GovUkAbvFactors[10].factor == 0.135
    ensures forall i :: 0 <= i < 11 ==>
      GovUkAbvFactors[i].excessGravityDiffMin <= GovUkAbvFactors[i].excessGravityDiffMax
    ensures forall i :: 0 <= i < 10 ==>
      GovUkAbvFactors[i].excessGravityDiffMax < GovUkAbvFactors[i + 1].excessGravityDiffMin
      && GovUkAbvFactors[i].factor < GovUkAbvFactors[i + 1].factor
    ensures forall i, j :: 0 <= i < j < 11 ==>
      GovUkAbvFactors[i].excessGravityDiffMax < GovUkAbvFactors[j].excessGravityDiffMin
      && GovUkAbvFactors[i].factor < GovUkAbvFactors[j].factor
  {
  }

  /** No value lies in two brackets, so the first match is the only match. */
  lemma FindGovUkFactorUnique(excessGravityDiff: real, i: int)
    requires 0 <= i < |GovUkAbvFactors| && InBracket(GovUkAbvFactors[i], excessGravityDiff)
    ensures FindGovUkFactor(excessGravityDiff) == Some(GovUkAbvFactors[i])
  {
    GovUkAbvFactorsShape();
  }

  /** On the 0.1 grid a row is found exactly for the values from 0 to 100.7. */
  lemma FindGovUkFactorOnGrid(k: int)
    ensures FindGovUkFactor(k as real / 10.0).Some? <==> 0 <= k <= 1007
  {
    var d := k as real / 10.0;
    var t := GovUkAbvFactors;
    if 0 <= k <= 1007 {
      var i :=
        if k <= 69 then 0 else if k <= 104 then 1 else if k <= 172 then 2
        else if k <= 261 then 3 else if k <= 360 then 4 else if k <= 465 then 5
        else if k <= 571 then 6 else if k <= 679 then 7 else if k <= 788 then 8
        else if k <= 897 then 9 else 10;
      assert InBracket(t[i], d);
    } else {
      forall i | 0 <= i < |t| ensures !InBracket(t[i], d) {
      }
    }
  }

  /** Between two brackets there are values off the 0.1 grid that no row holds. */
  lemma FindGovUkFactorGap()
    ensures FindGovUkFactor(6.95) == None
  {
  }

  /** The only failure: the sanity check's complaint about the computed ABV. */
  datatype AbvError = AbvOutOfRange(abv: real, abvMin: real, abvMax: real)

  /** The tiered method for an already rounded gravity drop: the drop times the
      factor of its bracket, Ritchie's estimate when no bracket holds it, and, with
      `sanityCheck`, an error when the ABV is outside the bracket's expected range. */
  function TieredAbv(excessGravityDiff: real, originalGravity: real, finalGravity: real, sanityCheck: bool): (r: Result<real, AbvError>)
    requires FindGovUkFactor(excessGravityDiff).None? ==> originalGravity != 1.775
    ensures !sanityCheck ==> r.Ok?
  {
    var factor := FindGovUkFactor(excessGravityDiff);
    if factor.None? then
      Ok(RitchieAbv(originalGravity, finalGravity))
    else
      var abv := excessGravityDiff * factor.value.factor;
      if sanityCheck && !(factor.value.abvMin <= abv <= factor.value.abvMax) then
        Err(AbvOutOfRange(abv, factor.value.abvMin, factor.value.abvMax))
      else
        Ok(abv)
  }

  /**
    Excise-notice ABV. The gravity drop is rounded to one decimal and looked up
    in the table. As in the source, the drop is NOT scaled by 1000, even though
    the inputs are described as full-form gravities (see GovUkAbvCorrected).
   */
  function GovUkAbv(originalGravity: real, finalGravity: real, sanityCheck: bool := false): (r: Result<real, AbvError>)
    requires FindGovUkFactor(Round1(originalGravity - finalGravity)).None? ==> originalGravity != 1.775
    ensures !sanityCheck ==> r.Ok?
  {
    var excessGravityDiff := Round1(originalGravity - finalGravity);
    TieredAbv(excessGravityDiff, originalGravity, finalGravity, sanityCheck)
  }

  /** Which branch applies depends only on the rounded drop: outside [0, 100.7]
      Ritchie's estimate is returned, inside it the drop times its bracket's factor
      (or, with the sanity check, an error naming that value). */
  lemma GovUkAbvBranches(originalGravity: real, finalGravity: real, sanityCheck: bool)
    requires FindGovUkFactor(Round1(originalGravity - finalGravity)).None? ==> originalGravity != 1.775
    ensures var d := Round1(originalGravity - finalGravity);
      (d < 0.0 || 100.7 < d) <==> FindGovUkFactor(d).None?
    ensures var d := Round1(originalGravity - finalGravity);
      (d < 0.0 || 100.7 < d) ==> GovUkAbv(originalGravity, finalGravity, sanityCheck) == Ok(RitchieAbv(originalGravity, finalGravity))
    ensures var d := Round1(originalGravity - finalGravity);
      0.0 <= d <= 100.7 ==>
        var f := FindGovUkFactor(d).value;
        GovUkAbv(originalGravity, finalGravity, sanityCheck) in {Ok(d * f.factor), Err(AbvOutOfRange(d * f.factor, f.abvMin, f.abvMax))}
  {
    var k := NearestTenths(originalGravity - finalGravity);
    var d := Round1(originalGravity - finalGravity);
    assert d == k as real / 10.0;
    FindGovUkFactorOnGrid(k);
  }

  /** Without the sanity check nothing is raised; with it, an error is raised
      exactly when the ABV falls outside the matched row's expected range. */
  lemma GovUkAbvSanityCheck(originalGravity: real, finalGravity: real, sanityCheck: bool)
    requires FindGovUkFactor(Round1(originalGravity - finalGravity)).None? ==> originalGravity != 1.775
    ensures var d := Round1(originalGravity - finalGravity);
      var row := FindGovUkFactor(d);
      (GovUkAbv(originalGravity, finalGravity, sanityCheck).Err?
       <==> sanityCheck && row.Some? && !(row.value.abvMin <= d * row.value.factor <= row.value.abvMax))
  {
  }

  /** The sanity check can reject a drop the table itself accepts: 6.9 lies in the
      first bracket, yet 6.9 * 0.125 = 0.8625 exceeds that bracket's 0.8. */
  lemma SanityCheckFiresOnFirstBracketTop()
    ensures GovUkAbv(6.9, 0.0, false) == Ok(0.8625)
    ensures GovUkAbv(6.9, 0.0, true) == Err(AbvOutOfRange(0.8625, 0.0, 0.8))
  {
    Round1OnGrid(69, 0.0);
    FindGovUkFactorUnique(6.9, 0);
  }

  /** As written, every realistic pair of full-form gravities (a drop under 0.05)
      rounds to a drop of 0 and so yields 0% ABV, the documented example included. */
  lemma GovUkAbvZeroForFullFormGravities(originalGravity: real, finalGravity: real, sanityCheck: bool)
    requires 0.0 <= originalGravity - finalGravity < 0.05
    ensures GovUkAbv(originalGravity, finalGravity, sanityCheck) == Ok(0.0)
    ensures GovUkAbv(1.045, 1.031, sanityCheck) == Ok(0.0)
  {
    Round1Unique(originalGravity - finalGravity, 0);
    Round1Unique(1.045 - 1.031, 0);
    FindGovUkFactorUnique(0.0, 0);
  }

  /** The tiered method with the drop taken in degrees, (original - final) * 1000,
      as the table's brackets and the documented full-form inputs require. */
  function GovUkAbvCorrected(originalGravity: real, finalGravity: real, sanityCheck: bool := false): (r: Result<real, AbvError>)
    requires FindGovUkFactor(Round1((originalGravity - finalGravity) * 1000.0)).None? ==> originalGravity != 1.775
    ensures !sanityCheck ==> r.Ok?
  {
    var excessGravityDiff := Round1((originalGravity - finalGravity) * 1000.0);
    TieredAbv(excessGravityDiff, originalGravity, finalGravity, sanityCheck)
  }

  /** Every factor of the table lies between 0.125 and 0.135. */
  lemma FoundFactorBounds(excessGravityDiff: real)
    ensures FindGovUkFactor(excessGravityDiff).Some? ==>
      0.125 <= FindGovUkFactor(excessGravityDiff).value.factor <= 0.135
  {
    var i := FirstBracketIndex(GovUkAbvFactors, excessGravityDiff);
    if i < |GovUkAbvFactors| {
      assert FindGovUkFactor(excessGravityDiff).value == GovUkAbvFactors[i];
    }
  }

  /** A drop found in the table gets between 0.125 and 0.135 times itself. */
  lemma TieredAbvBounds(excessGravityDiff: real, originalGravity: real, finalGravity: real, sanityCheck: bool)
    requires 0.0 <= excessGravityDiff && FindGovUkFactor(excessGravityDiff).Some?
    ensures var r := TieredAbv(excessGravityDiff, originalGravity, finalGravity, sanityCheck);
      r.Ok? ==> 0.125 * excessGravityDiff <= r.value <= 0.135 * excessGravityDiff
  {
    FoundFactorBounds(excessGravityDiff);
    var f := FindGovUkFactor(excessGravityDiff).value.factor;
    assert 0.125 * excessGravityDiff <= excessGravityDiff * f <= 0.135 * excessGravityDiff;
  }

  /** With the drop in degrees, a full-form pair whose rounded drop lies in the table
      gets between 0.125 and 0.135 times that drop, a positive ABV once the drop
      reaches 0.1 degrees. */
  lemma GovUkAbvCorrectedUsesDegrees(originalGravity: real, finalGravity: real, sanityCheck: bool)
    requires FindGovUkFactor(Round1((originalGravity - finalGravity) * 1000.0)).None? ==> originalGravity != 1.775
    ensures var d := Round1((originalGravity - finalGravity) * 1000.0);
      var r := GovUkAbvCorrected(originalGravity, finalGravity, sanityCheck);
      0.0 <= d <= 100.7 && r.Ok? ==> 0.125 * d <= r.value <= 0.135 * d && (0.1 <= d ==> 0.0 < r.value)
  {
    var k := NearestTenths((originalGravity - finalGravity) * 1000.0);
    var d := Round1((originalGravity - finalGravity) * 1000.0);
    FindGovUkFactorOnGrid(k);
    if 0.0 <= d <= 100.7 {
      assert d == k as real / 10.0;
      TieredAbvBounds(d, originalGravity, finalGravity, sanityCheck);
    }
  }

  /** The documented example, 1.045 down to 1.031, is a drop of 14 degrees: bracket
      10.5 to 17.2, factor 0.127, 1.778% ABV, inside the bracket's expected range. */
  lemma GovUkAbvCorrectedDocumentedExample(sanityCheck: bool)
    ensures GovUkAbvCorrected(1.045, 1.031, sanityCheck) == Ok(1.778)
  {
    Round1Unique((1.045 - 1.031) * 1000.0, 140);
    FindGovUkFactorUnique(14.0, 2);
  }
}
