/** The older copy of the linear ABV estimate; proved equal to the current one. */
module LegacyAbv {
  import Abv

  function AlcoholByVolume(originalGravity: real, finalGravity: real): real
    requires finalGravity != 0.0
  {
    ((1.05 * (originalGravity - finalGravity)) / finalGravity / 0.79) * 100.0
  }

  function AlcoholByVolumeDegrees(ogDegrees: real, fgDegrees: real): real
    requires fgDegrees != -1000.0
  {
    var originalGravity := (1000.0 + ogDegrees) / 1000.0;
    var finalGravity := (1000.0 + fgDegrees) / 1000.0;
    AlcoholByVolume(originalGravity, finalGravity)
  }

  /** Both revisions compute the same estimate, so for a positive final gravity the
      old one is 0 without fermentation, positive after it, and strictly increasing
      in the gravity drop. */
  lemma AgreesWithWww(og: real, og2: real, fg: real)
    requires 0.0 < fg
    ensures AlcoholByVolume(og, fg) == Abv.WwwAlcoholByVolume(og, fg)
    ensures AlcoholByVolume(og, fg) == 0.0 <==> og == fg
    ensures 0.0 < AlcoholByVolume(og, fg) <==> fg < og
    ensures og < og2 ==> AlcoholByVolume(og, fg) < AlcoholByVolume(og2, fg)
  {
    Abv.WwwSign(og, fg);
    if og < og2 {
      Abv.WwwStrictlyIncreasing(og, og2, fg);
    }
  }

  lemma DegreesAgreeWithWww(ogDegrees: real, fgDegrees: real)
    requires fgDegrees != -1000.0
    ensures AlcoholByVolumeDegrees(ogDegrees, fgDegrees) == Abv.WwwAlcoholByVolumeDegrees(ogDegrees, fgDegrees)
  {
  }
}
