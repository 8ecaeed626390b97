/**
  The oldest revision of the mass and gravity formulas, which reports original
  gravity in 1000 form (1046.1 rather than 46.1). Each is proved equal to its
  counterpart in the current modules.
 */
module LegacyCalcs {
  import opened Sums
  import opened Grist
  import Util
  import Degrees = OriginalGravity

  function TotalMass(grists: seq<GristRecipe>): real
  {
    Sum(grists, (g: GristRecipe) => g.mass)
  }

  function PercentageByMass(grist: GristRecipe, grists: seq<GristRecipe>): real
    requires TotalMass(grists) != 0.0
  {
    grist.mass / TotalMass(grists)
  }

  /** The gravity points of the whole list, in brewer's degrees per litre. */
  function OriginalGravityPoints(grists: seq<GristRecipe>, efficiency: real := 0.75): real
  {
    Sum(grists, (g: GristRecipe) => (g.extract * (g.mass / 1000.0)) * (if g.mashable then efficiency else 1.0))
  }

  /** Original gravity in 1000 form; a zero volume is the caller's error. */
  function OriginalGravity(grists: seq<GristRecipe>, volume: real, efficiency: real := 0.75): real
    requires volume != 0.0
  {
    var points := OriginalGravityPoints(grists, efficiency);
    (points / volume) + 1000.0
  }

  /** The old mass helpers compute what the current ones do. */
  lemma MassAgreesWithUtil(g: GristRecipe, grists: seq<GristRecipe>)
    ensures TotalMass(grists) == Util.TotalMass(grists)
    ensures TotalMass(grists) != 0.0 ==> PercentageByMass(g, grists) == Util.PercentageByMass(g, grists)
    ensures TotalMass([]) == 0.0
  {
    SumPointwise(grists, (g: GristRecipe) => g.mass, grists, Util.Mass);
  }

  /** The 1000-form gravity is the 0-based gravity plus 1000. */
  lemma OriginalGravityIsDegreesPlus1000(grists: seq<GristRecipe>, volume: real, efficiency: real)
    requires volume != 0.0
    ensures OriginalGravity(grists, volume, efficiency) == Degrees.OriginalGravity(grists, volume, efficiency) + 1000.0
  {
    SumPointwise(grists, (g: GristRecipe) => (g.extract * (g.mass / 1000.0)) * (if g.mashable then efficiency else 1.0),
                 grists, (g: GristRecipe) => Degrees.OriginalGravityPoints(g, efficiency));
  }

  /** With non-negative points in a positive volume the 1000-form gravity is at least 1000. */
  lemma OriginalGravityAtLeast1000(grists: seq<GristRecipe>, volume: real, efficiency: real)
    requires 0.0 < volume && 0.0 <= OriginalGravityPoints(grists, efficiency)
    ensures 1000.0 <= OriginalGravity(grists, volume, efficiency)
  {
    assert 0.0 <= OriginalGravityPoints(grists, efficiency) / volume;
  }
}
