/** Colour in EBC units, by the formula of Graham Wheeler's Beer Engine. */
module Ebc {
  import opened Sums
  import opened Grist

  /** The colour one grist gives the wort. The factor 10 is the fixed 10 mm
      path length of the EBC 430 nm measurement. */
  function GrahamGristEbcInSolution(g: GristRecipe, volume: real, efficiency: real := 0.75): real
    requires volume != 0.0
  {
    var massKg := g.mass / 1000.0;
    var eff := AppliedEfficiency(g, efficiency);
    (g.ebc * massKg * eff * 10.0) / volume
  }

  /** The colour of the recipe: the sum of its grists' colours. Only the per-grist
      terms divide by the volume, so an empty recipe has colour 0 at any volume. */
  function GrahamRecipeEbc(gs: seq<GristRecipe>, volume: real, efficiency: real := 0.75): real
    requires gs != [] ==> volume != 0.0
  {
    if gs == [] then 0.0
    else Sum(gs, (g: GristRecipe) => GrahamGristEbcInSolution(g, volume, efficiency))
  }

  /** For a non-zero volume the recipe colour is the sum of the grists' colours,
      the empty recipe included. */
  lemma GrahamRecipeEbcIsSum(gs: seq<GristRecipe>, volume: real, efficiency: real)
    requires volume != 0.0
    ensures GrahamRecipeEbc(gs, volume, efficiency)
         == Sum(gs, (g: GristRecipe) => GrahamGristEbcInSolution(g, volume, efficiency))
  {
  }

  /** Sugars and extracts colour the wort fully whatever the efficiency. */
  lemma NonMashableEbcIgnoresEfficiency(g: GristRecipe, volume: real, e1: real, e2: real)
    requires volume != 0.0 && !g.mashable
    ensures GrahamGristEbcInSolution(g, volume, e1) == GrahamGristEbcInSolution(g, volume, e2)
         == g.ebc * g.mass / 100.0 / volume
  {
  }

  /** The empty recipe has no colour, whatever the volume (0 included). */
  lemma GrahamRecipeEbcEmpty(volume: real, efficiency: real)
    ensures GrahamRecipeEbc([], volume, efficiency) == 0.0
  {
  }

  /** The colour of a concatenation is the sum of the colours of the parts. */
  lemma GrahamRecipeEbcAppend(xs: seq<GristRecipe>, ys: seq<GristRecipe>, volume: real, efficiency: real)
    requires volume != 0.0
    ensures GrahamRecipeEbc(xs + ys, volume, efficiency)
         == GrahamRecipeEbc(xs, volume, efficiency) + GrahamRecipeEbc(ys, volume, efficiency)
  {
    GrahamRecipeEbcIsSum(xs + ys, volume, efficiency);
    GrahamRecipeEbcIsSum(xs, volume, efficiency);
    GrahamRecipeEbcIsSum(ys, volume, efficiency);
    SumAppend(xs, ys, (g: GristRecipe) => GrahamGristEbcInSolution(g, volume, efficiency));
  }

  /** Non-negative colours, masses and efficiency in a positive volume give a non-negative colour. */
  lemma GrahamRecipeEbcNonNegative(gs: seq<GristRecipe>, volume: real, efficiency: real)
    requires 0.0 < volume && 0.0 <= efficiency
    requires forall i :: 0 <= i < |gs| ==> 0.0 <= gs[i].ebc && 0.0 <= gs[i].mass
    ensures 0.0 <= GrahamRecipeEbc(gs, volume, efficiency)
  {
    forall i | 0 <= i < |gs|
      ensures 0.0 <= GrahamGristEbcInSolution(gs[i], volume, efficiency)
    {
      var g := gs[i];
      assert 0.0 <= g.ebc * (g.mass / 1000.0);
      assert 0.0 <= g.ebc * (g.mass / 1000.0) * AppliedEfficiency(g, efficiency);
    }
    GrahamRecipeEbcIsSum(gs, volume, efficiency);
    SumNonNegative(gs, (g: GristRecipe) => GrahamGristEbcInSolution(g, volume, efficiency));
  }
}
