/**
  Final gravity in brewer's degrees: the extract that ferments out counts
  negatively (by 0.225 of its gravity), the extract that remains counts in full.
 */
module FinalGravity {
  import opened Wrappers
  import opened Sums
  import opened Grist
  import OriginalGravity

  /** The fraction of a grist that ferments: its own fermentability when it has
      one, otherwise the default attenuation. */
  function ApplyAttenuation(fermentability: Option<real>, attenuation: real): real
  {
    if fermentability.Some? then fermentability.value else attenuation
  }

  /** The part of `g`'s extract that ferments out. */
  function FermentedPart(g: GristRecipe, efficiency: real, attenuation: real): real
  {
    ApplyAttenuation(g.fermentability, attenuation) * (g.mass / 1000.0) * g.extract * AppliedEfficiency(g, efficiency)
  }

  /** The part of `g`'s extract that stays unfermented. */
  function UnfermentedPart(g: GristRecipe, efficiency: real, attenuation: real): real
  {
    (1.0 - ApplyAttenuation(g.fermentability, attenuation)) * (g.mass / 1000.0) * g.extract * AppliedEfficiency(g, efficiency)
  }

  /** The sum `a` of the source: fermented extract over all grists. */
  function FermentedPoints(gs: seq<GristRecipe>, efficiency: real, attenuation: real): real
  {
    Sum(gs, (g: GristRecipe) => FermentedPart(g, efficiency, attenuation))
  }

  /** The sum `b` of the source: unfermented extract over all grists. */
  function UnfermentedPoints(gs: seq<GristRecipe>, efficiency: real, attenuation: real): real
  {
    Sum(gs, (g: GristRecipe) => UnfermentedPart(g, efficiency, attenuation))
  }

  /** Final gravity in brewer's degrees; it is not clamped and may be negative. */
  function FinalGravity(gs: seq<GristRecipe>, volume: real, efficiency: real := 0.75, attenuation: real := 0.62): real
    requires volume != 0.0
  {
    var a := FermentedPoints(gs, efficiency, attenuation);
    var b := UnfermentedPoints(gs, efficiency, attenuation);
    (b - (a * 0.225)) / volume
  }

  /** A grist's own fermentability, when present, wins over the default attenuation. */
  lemma ApplyAttenuationPrefersFermentability(fermentability: Option<real>, attenuation: real, other: real)
    ensures fermentability.Some? ==> ApplyAttenuation(fermentability, attenuation) == fermentability.value
    ensures fermentability.Some? ==> ApplyAttenuation(fermentability, attenuation) == ApplyAttenuation(fermentability, other)
    ensures fermentability.None? ==> ApplyAttenuation(fermentability, attenuation) == attenuation
  {
  }

  /** Each grist splits its extract exactly into a fermented and an unfermented part. */
  lemma PartsMakeWhole(g: GristRecipe, efficiency: real, attenuation: real)
    ensures FermentedPart(g, efficiency, attenuation) + UnfermentedPart(g, efficiency, attenuation)
         == OriginalGravity.OriginalGravityPoints(g, efficiency)
  {
    var f := ApplyAttenuation(g.fermentability, attenuation);
    var p := (g.mass / 1000.0) * g.extract * AppliedEfficiency(g, efficiency);
    assert FermentedPart(g, efficiency, attenuation) == f * p;
    assert UnfermentedPart(g, efficiency, attenuation) == (1.0 - f) * p;
  }

  /** Fermented plus unfermented extract is the whole extract, so over a volume they
      give the original gravity, and the final gravity is the original gravity less
      1.225 times the fermented share. */
  lemma FermentedPlusUnfermentedIsOriginal(gs: seq<GristRecipe>, volume: real, efficiency: real, attenuation: real)
    requires volume != 0.0
    ensures (FermentedPoints(gs, efficiency, attenuation) + UnfermentedPoints(gs, efficiency, attenuation)) / volume
         == OriginalGravity.OriginalGravity(gs, volume, efficiency)
    ensures FinalGravity(gs, volume, efficiency, attenuation)
         == OriginalGravity.OriginalGravity(gs, volume, efficiency) - 1.225 * FermentedPoints(gs, efficiency, attenuation) / volume
  {
    forall i | 0 <= i < |gs|
      ensures OriginalGravity.OriginalGravityPoints(gs[i], efficiency)
           == FermentedPart(gs[i], efficiency, attenuation) + UnfermentedPart(gs[i], efficiency, attenuation)
    {
      PartsMakeWhole(gs[i], efficiency, attenuation);
    }
    SumAdd(gs, (g: GristRecipe) => FermentedPart(g, efficiency, attenuation),
           (g: GristRecipe) => UnfermentedPart(g, efficiency, attenuation),
           (g: GristRecipe) => OriginalGravity.OriginalGravityPoints(g, efficiency));
  }

  /** A fully fermentable grist leaves nothing unfermented. */
  lemma FullyFermentableLeavesNoResidue(g: GristRecipe, efficiency: real, attenuation: real)
    requires g.fermentability == Some(1.0)
    ensures UnfermentedPart(g, efficiency, attenuation) == 0.0
    ensures FermentedPart(g, efficiency, attenuation) == OriginalGravity.OriginalGravityPoints(g, efficiency)
  {
    PartsMakeWhole(g, efficiency, attenuation);
  }

  lemma FinalGravityEmpty(volume: real, efficiency: real, attenuation: real)
    requires volume != 0.0
    ensures FinalGravity([], volume, efficiency, attenuation) == 0.0
  {
  }

  /** When every grist carries its own fermentability, the default attenuation is never used. */
  lemma FinalGravityIgnoresAttenuationWhenAllSet(gs: seq<GristRecipe>, volume: real, efficiency: real, at1: real, at2: real)
    requires volume != 0.0
    requires forall i :: 0 <= i < |gs| ==> gs[i].fermentability.Some?
    ensures FinalGravity(gs, volume, efficiency, at1) == FinalGravity(gs, volume, efficiency, at2)
  {
    SumPointwise(gs, (g: GristRecipe) => FermentedPart(g, efficiency, at1),
                 gs, (g: GristRecipe) => FermentedPart(g, efficiency, at2));
    SumPointwise(gs, (g: GristRecipe) => UnfermentedPart(g, efficiency, at1),
                 gs, (g: GristRecipe) => UnfermentedPart(g, efficiency, at2));
  }

  /** Whenever the fermented extract is non-negative and the volume positive, the
      final gravity does not exceed the original gravity. */
  lemma FinalGravityAtMostOriginal(gs: seq<GristRecipe>, volume: real, efficiency: real, attenuation: real)
    requires 0.0 < volume
    requires 0.0 <= FermentedPoints(gs, efficiency, attenuation)
    ensures FinalGravity(gs, volume, efficiency, attenuation) <= OriginalGravity.OriginalGravity(gs, volume, efficiency)
  {
    FermentedPlusUnfermentedIsOriginal(gs, volume, efficiency, attenuation);
    assert 0.0 <= 1.225 * FermentedPoints(gs, efficiency, attenuation) / volume;
  }
}
