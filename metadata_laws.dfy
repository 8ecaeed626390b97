/** No formula reads a grist's display metadata: dropping it changes no result. */
module MetadataLaws {
  import opened Sums
  import opened Grist
  import Util
  import OriginalGravity
  import FinalGravity
  import Ebc
  import MashLiquor

  lemma MassesIgnoreMetadata(gs: seq<GristRecipe>, lgr: real)
    ensures Util.TotalMass(StripMetadata(gs)) == Util.TotalMass(gs)
    ensures Util.TotalMassOfMashables(StripMetadata(gs)) == Util.TotalMassOfMashables(gs)
    ensures MashLiquor.MashLiquor(StripMetadata(gs), lgr) == MashLiquor.MashLiquor(gs, lgr)
  {
    var ss := StripMetadata(gs);
    SumPointwise(ss, Util.Mass, gs, Util.Mass);
    SumPointwise(ss, Util.MashableMass, gs, Util.MashableMass);
  }

  lemma GravitiesIgnoreMetadata(gs: seq<GristRecipe>, volume: real, efficiency: real, attenuation: real)
    requires volume != 0.0
    ensures OriginalGravity.OriginalGravity(StripMetadata(gs), volume, efficiency)
         == OriginalGravity.OriginalGravity(gs, volume, efficiency)
    ensures FinalGravity.FinalGravity(StripMetadata(gs), volume, efficiency, attenuation)
         == FinalGravity.FinalGravity(gs, volume, efficiency, attenuation)
  {
    var ss := StripMetadata(gs);
    forall i | 0 <= i < |ss|
      ensures OriginalGravity.OriginalGravityPoints(ss[i], efficiency) == OriginalGravity.OriginalGravityPoints(gs[i], efficiency)
      ensures FinalGravity.FermentedPart(ss[i], efficiency, attenuation) == FinalGravity.FermentedPart(gs[i], efficiency, attenuation)
      ensures FinalGravity.UnfermentedPart(ss[i], efficiency, attenuation) == FinalGravity.UnfermentedPart(gs[i], efficiency, attenuation)
    {
      assert ss[i] == WithoutMetadata(gs[i]);
    }
    SumPointwise(ss, (g: GristRecipe) => OriginalGravity.OriginalGravityPoints(g, efficiency),
                 gs, (g: GristRecipe) => OriginalGravity.OriginalGravityPoints(g, efficiency));
    SumPointwise(ss, (g: GristRecipe) => FinalGravity.FermentedPart(g, efficiency, attenuation),
                 gs, (g: GristRecipe) => FinalGravity.FermentedPart(g, efficiency, attenuation));
    SumPointwise(ss, (g: GristRecipe) => FinalGravity.UnfermentedPart(g, efficiency, attenuation),
                 gs, (g: GristRecipe) => FinalGravity.UnfermentedPart(g, efficiency, attenuation));
  }

  lemma ColourIgnoresMetadata(gs: seq<GristRecipe>, volume: real, efficiency: real)
    requires volume != 0.0
    ensures Ebc.GrahamRecipeEbc(StripMetadata(gs), volume, efficiency) == Ebc.GrahamRecipeEbc(gs, volume, efficiency)
  {
    var ss := StripMetadata(gs);
    forall i | 0 <= i < |ss|
      ensures Ebc.GrahamGristEbcInSolution(ss[i], volume, efficiency) == Ebc.GrahamGristEbcInSolution(gs[i], volume, efficiency)
    {
      assert ss[i] == WithoutMetadata(gs[i]);
    }
    Ebc.GrahamRecipeEbcIsSum(ss, volume, efficiency);
    Ebc.GrahamRecipeEbcIsSum(gs, volume, efficiency);
    SumPointwise(ss, (g: GristRecipe) => Ebc.GrahamGristEbcInSolution(g, volume, efficiency),
                 gs, (g: GristRecipe) => Ebc.GrahamGristEbcInSolution(g, volume, efficiency));
  }
}
