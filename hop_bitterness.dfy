/**
  Bitterness (IBU) of one hop addition. The utilization curve (Tinseth's, built
  from an exponential and a real power) is supplied by the caller as
  `utilization`, a function of the hop and the boil gravity.
 */
module HopBitterness {
  import opened Hop

  /** The gravity correction: 1 up to a boil gravity of 1.050, then growing by half
      the excess gravity. */
  function GravityCorrection(boilGravity: real): (c: real)
    ensures 1.0 <= c
    ensures c == 1.0 <==> boilGravity <= 1.050
  {
    if boilGravity > 1.050 then 1.0 + (boilGravity - 1.05) / 2.0 else 1.0
  }

  /** IBU of one hop addition brewed to `volume` litres; a zero volume is the caller's error. */
  function HopIbu(hop: HopRecipe, volume: real, boilGravity: real, utilization: (HopRecipe, real) -> real): real
    requires volume != 0.0
  {
    var correction := GravityCorrection(boilGravity);
    (hop.mass * hop.alpha * utilization(hop, boilGravity) * 1000.0) / (volume * correction)
  }

  /** The correction never decreases with gravity, strictly increases above 1.050,
      and changes by at most half the change in gravity, so it has no jump at 1.050. */
  lemma GravityCorrectionShape(g1: real, g2: real)
    ensures g1 <= g2 ==> GravityCorrection(g1) <= GravityCorrection(g2)
    ensures 1.050 < g1 < g2 ==> GravityCorrection(g1) < GravityCorrection(g2)
    ensures g1 <= g2 ==> GravityCorrection(g2) - GravityCorrection(g1) <= (g2 - g1) / 2.0
    ensures GravityCorrection(1.050) == 1.0
  {
  }

  /** Up to 1.050 the IBU is uncorrected; above it the IBU is the uncorrected value
      divided by the correction. */
  lemma HopIbuCorrection(hop: HopRecipe, volume: real, boilGravity: real, utilization: (HopRecipe, real) -> real)
    requires volume != 0.0
    ensures boilGravity <= 1.050 ==>
      HopIbu(hop, volume, boilGravity, utilization) == hop.mass * hop.alpha * utilization(hop, boilGravity) * 1000.0 / volume
    ensures HopIbu(hop, volume, boilGravity, utilization) * GravityCorrection(boilGravity)
         == hop.mass * hop.alpha * utilization(hop, boilGravity) * 1000.0 / volume
  {
    var n := hop.mass * hop.alpha * utilization(hop, boilGravity) * 1000.0;
    var c := GravityCorrection(boilGravity);
    assert n / (volume * c) * c == n / volume;
  }

  /** For a utilization that does not depend on it, the IBU is proportional to the
      hop mass and to the alpha acid. */
  lemma HopIbuLinear(hop: HopRecipe, volume: real, boilGravity: real, utilization: (HopRecipe, real) -> real, k: real)
    requires volume != 0.0
    requires utilization(hop.(mass := k * hop.mass), boilGravity) == utilization(hop, boilGravity)
    requires utilization(hop.(alpha := k * hop.alpha), boilGravity) == utilization(hop, boilGravity)
    ensures HopIbu(hop.(mass := k * hop.mass), volume, boilGravity, utilization) == k * HopIbu(hop, volume, boilGravity, utilization)
    ensures HopIbu(hop.(alpha := k * hop.alpha), volume, boilGravity, utilization) == k * HopIbu(hop, volume, boilGravity, utilization)
  {
    var u := utilization(hop, boilGravity);
    var d := volume * GravityCorrection(boilGravity);
    assert (k * hop.mass) * hop.alpha * u * 1000.0 == k * (hop.mass * hop.alpha * u * 1000.0);
    assert hop.mass * (k * hop.alpha) * u * 1000.0 == k * (hop.mass * hop.alpha * u * 1000.0);
  }

  /** Non-negative mass, alpha and utilization in a positive volume give a
      non-negative IBU, and a heavier boil never raises it. */
  lemma HopIbuNonNegative(hop: HopRecipe, volume: real, boilGravity: real, utilization: (HopRecipe, real) -> real)
    requires 0.0 < volume && 0.0 <= hop.mass && 0.0 <= hop.alpha && 0.0 <= utilization(hop, boilGravity)
    ensures 0.0 <= HopIbu(hop, volume, boilGravity, utilization)
    ensures HopIbu(hop, volume, boilGravity, utilization) <= hop.mass * hop.alpha * utilization(hop, boilGravity) * 1000.0 / volume
  {
    var n := hop.mass * hop.alpha * utilization(hop, boilGravity) * 1000.0;
    var c := GravityCorrection(boilGravity);
    assert 0.0 <= hop.mass * hop.alpha;
    assert 0.0 <= n;
    assert volume <= volume * c;
    assert n / (volume * c) <= n / volume;
  }
}
