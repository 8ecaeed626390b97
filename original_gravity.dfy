/**
  Original gravity in brewer's degrees (0-based: 45 stands for a specific
  gravity of 1.045), from the grists' extract, their mass and the mash
  efficiency.
 */
module OriginalGravity {
  import opened Sums
  import opened Grist

  /** The brewer's degrees one grist gives a litre: extract times kilograms,
      scaled by the efficiency when the grist is mashed. */
  function OriginalGravityPoints(g: GristRecipe, efficiency: real := 0.75): real
  {
    var massKg := g.mass / 1000.0;
    (g.extract * massKg) * AppliedEfficiency(g, efficiency)
  }

  /** Original gravity of the recipe in `volume` litres; a zero volume is the caller's error. */
  function OriginalGravity(gs: seq<GristRecipe>, volume: real, efficiency: real := 0.75): real
    requires volume != 0.0
  {
    var points := Sum(gs, (g: GristRecipe) => OriginalGravityPoints(g, efficiency));
    points / volume
  }

  /** The gravity one grist contributes on its own, in 0-based form (2.7 rather than 1002.7). */
  function IndividualGravity(g: GristRecipe, volume: real, efficiency: real := 0.75): real
    requires volume != 0.0
  {
    OriginalGravityPoints(g, efficiency) / volume
  }

  /** Sugars and extracts contribute their full extract whatever the efficiency. */
  lemma NonMashablePointsIgnoreEfficiency(g: GristRecipe, e1: real, e2: real)
    requires !g.mashable
    ensures OriginalGravityPoints(g, e1) == OriginalGravityPoints(g, e2) == g.extract * g.mass / 1000.0
  {
  }

  lemma OriginalGravityEmpty(volume: real, efficiency: real)
    requires volume != 0.0
    ensures OriginalGravity([], volume, efficiency) == 0.0
  {
  }

  /** The gravity of a concatenation is the sum of the gravities of the parts. */
  lemma OriginalGravityAppend(xs: seq<GristRecipe>, ys: seq<GristRecipe>, volume: real, efficiency: real)
    requires volume != 0.0
    ensures OriginalGravity(xs + ys, volume, efficiency)
         == OriginalGravity(xs, volume, efficiency) + OriginalGravity(ys, volume, efficiency)
  {
    SumAppend(xs, ys, (g: GristRecipe) => OriginalGravityPoints(g, efficiency));
  }

  /** A grist's individual gravity is the gravity of a recipe made of it alone, and
      the individual gravities of a recipe's grists add up to its original gravity. */
  lemma IndividualGravitiesSumToOriginalGravity(gs: seq<GristRecipe>, volume: real, efficiency: real)
    requires volume != 0.0
    ensures forall g :: IndividualGravity(g, volume, efficiency) == OriginalGravity([g], volume, efficiency)
    ensures Sum(gs, (g: GristRecipe) => IndividualGravity(g, volume, efficiency)) == OriginalGravity(gs, volume, efficiency)
  {
    forall g: GristRecipe
      ensures IndividualGravity(g, volume, efficiency) == OriginalGravity([g], volume, efficiency)
    {
      SumSingleton(g, (g: GristRecipe) => OriginalGravityPoints(g, efficiency));
    }
    SumScale(gs, (g: GristRecipe) => OriginalGravityPoints(g, efficiency),
             (g: GristRecipe) => IndividualGravity(g, volume, efficiency), 1.0 / volume);
  }

  /** When every grist is mashed, the gravity is proportional to the efficiency. */
  lemma OriginalGravityLinearInEfficiency(gs: seq<GristRecipe>, volume: real, efficiency: real)
    requires volume != 0.0
    requires forall i :: 0 <= i < |gs| ==> gs[i].mashable
    ensures OriginalGravity(gs, volume, efficiency) == efficiency * OriginalGravity(gs, volume, 1.0)
  {
    SumScale(gs, (g: GristRecipe) => OriginalGravityPoints(g, 1.0),
             (g: GristRecipe) => OriginalGravityPoints(g, efficiency), efficiency);
  }

  /** When no grist is mashed, the efficiency has no effect at all. */
  lemma OriginalGravityIgnoresEfficiencyWithoutMashables(gs: seq<GristRecipe>, volume: real, e1: real, e2: real)
    requires volume != 0.0
    requires forall i :: 0 <= i < |gs| ==> !gs[i].mashable
    ensures OriginalGravity(gs, volume, e1) == OriginalGravity(gs, volume, e2)
  {
    SumPointwise(gs, (g: GristRecipe) => OriginalGravityPoints(g, e1),
                 gs, (g: GristRecipe) => OriginalGravityPoints(g, e2));
  }

  /** Brewing the same grists into k times the volume divides the gravity by k. */
  lemma OriginalGravityScalesInverselyWithVolume(gs: seq<GristRecipe>, volume: real, k: real, efficiency: real)
    requires volume != 0.0 && k != 0.0
    ensures OriginalGravity(gs, k * volume, efficiency) == OriginalGravity(gs, volume, efficiency) / k
  {
  }

  /** With non-negative extract, mass and efficiency in a positive volume the gravity is non-negative. */
  lemma OriginalGravityNonNegative(gs: seq<GristRecipe>, volume: real, efficiency: real)
    requires 0.0 < volume && 0.0 <= efficiency
    requires forall i :: 0 <= i < |gs| ==> 0.0 <= gs[i].extract && 0.0 <= gs[i].mass
    ensures 0.0 <= Sum(gs, (g: GristRecipe) => OriginalGravityPoints(g, efficiency))
    ensures 0.0 <= OriginalGravity(gs, volume, efficiency)
  {
    forall i | 0 <= i < |gs|
      ensures 0.0 <= OriginalGravityPoints(gs[i], efficiency)
    {
      var g := gs[i];
      assert 0.0 <= g.extract * (g.mass / 1000.0);
    }
    SumNonNegative(gs, (g: GristRecipe) => OriginalGravityPoints(g, efficiency));
  }
}
