/** Mass totals and mass fractions over a list of grists. */
module Util {
  import opened Sums
  import opened Grist

  function Mass(g: GristRecipe): real { g.mass }

  /** The mass `g` adds to the mashable total: its own when mashed, none otherwise. */
  function MashableMass(g: GristRecipe): real { if g.mashable then g.mass else 0.0 }

  /** Total mass of the grists, in grams. */
  function TotalMass(gs: seq<GristRecipe>): real
  {
    Sum(gs, Mass)
  }

  /** Total mass of the grists that are mashed; sugars and extracts are skipped. */
  function TotalMassOfMashables(gs: seq<GristRecipe>): real
  {
    Sum(gs, MashableMass)
  }

  /** The fraction (not percentage) of the total mass that `g` makes up.
      The source divides by the total mass, so a zero total is the caller's error. */
  function PercentageByMass(g: GristRecipe, gs: seq<GristRecipe>): (r: real)
    requires TotalMass(gs) != 0.0
    ensures r * TotalMass(gs) == g.mass
  {
    g.mass / TotalMass(gs)
  }

  /** The fractions of the members of `xs`, each taken against the total of `gs`, summed. */
  function FractionSum(xs: seq<GristRecipe>, gs: seq<GristRecipe>): real
    requires TotalMass(gs) != 0.0
  {
    Sum(xs, x => PercentageByMass(x, gs))
  }

  lemma TotalMassEmpty()
    ensures TotalMass([]) == 0.0
    ensures TotalMassOfMashables([]) == 0.0
  {
  }

  /** The total of a concatenation is the sum of the totals. */
  lemma TotalMassAppend(xs: seq<GristRecipe>, ys: seq<GristRecipe>)
    ensures TotalMass(xs + ys) == TotalMass(xs) + TotalMass(ys)
    ensures TotalMassOfMashables(xs + ys) == TotalMassOfMashables(xs) + TotalMassOfMashables(ys)
  {
    SumAppend(xs, ys, Mass);
    SumAppend(xs, ys, MashableMass);
  }

  lemma TotalMassNonNegative(gs: seq<GristRecipe>)
    requires forall i :: 0 <= i < |gs| ==> 0.0 <= gs[i].mass
    ensures 0.0 <= TotalMassOfMashables(gs) <= TotalMass(gs)
  {
    SumNonNegative(gs, MashableMass);
    SumLe(gs, MashableMass, Mass);
  }

  /** With nothing mashable the mashable total is 0; with everything mashable it is the total. */
  lemma TotalMassOfMashablesExtremes(gs: seq<GristRecipe>)
    ensures (forall i :: 0 <= i < |gs| ==> !gs[i].mashable) ==> TotalMassOfMashables(gs) == 0.0
    ensures (forall i :: 0 <= i < |gs| ==> gs[i].mashable) ==> TotalMassOfMashables(gs) == TotalMass(gs)
  {
    if forall i :: 0 <= i < |gs| ==> !gs[i].mashable {
      SumZero(gs, MashableMass);
    }
    if forall i :: 0 <= i < |gs| ==> gs[i].mashable {
      SumPointwise(gs, MashableMass, gs, Mass);
    }
  }

  /** Adding grists that are not mashed leaves the mashable total unchanged. */
  lemma TotalMassOfMashablesIgnoresNonMashables(gs: seq<GristRecipe>, ns: seq<GristRecipe>)
    requires forall i :: 0 <= i < |ns| ==> !ns[i].mashable
    ensures TotalMassOfMashables(gs + ns) == TotalMassOfMashables(gs)
    ensures TotalMassOfMashables(ns + gs) == TotalMassOfMashables(gs)
  {
    TotalMassAppend(gs, ns);
    TotalMassAppend(ns, gs);
    TotalMassOfMashablesExtremes(ns);
  }

  /** Each member's fraction of a list, summed, is its share of that list's total. */
  lemma FractionSumIsMassShare(xs: seq<GristRecipe>, gs: seq<GristRecipe>)
    requires TotalMass(gs) != 0.0
    ensures FractionSum(xs, gs) == TotalMass(xs) / TotalMass(gs)
  {
    var t := TotalMass(gs);
    forall i | 0 <= i < |xs|
      ensures PercentageByMass(xs[i], gs) == (1.0 / t) * xs[i].mass
    {
    }
    SumScale(xs, Mass, x => PercentageByMass(x, gs), 1.0 / t);
  }

  /** The mass fractions of all the grists of a recipe add up to exactly 1. */
  lemma FractionsSumToOne(gs: seq<GristRecipe>)
    requires TotalMass(gs) != 0.0
    ensures FractionSum(gs, gs) == 1.0
  {
    FractionSumIsMassShare(gs, gs);
  }
}
