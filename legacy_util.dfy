/** The older copy of the mass helpers; proved equal to the current ones, so the
    current ones' laws carry over. */
module LegacyUtil {
  import opened Sums
  import opened Grist
  import Util

  function TotalMass(grists: seq<GristRecipe>): real
  {
    Sum(grists, (g: GristRecipe) => g.mass)
  }

  function PercentageByMass(grist: GristRecipe, grists: seq<GristRecipe>): real
    requires TotalMass(grists) != 0.0
  {
    grist.mass / TotalMass(grists)
  }

  lemma AgreesWithUtil(g: GristRecipe, grists: seq<GristRecipe>)
    ensures TotalMass(grists) == Util.TotalMass(grists)
    ensures TotalMass(grists) != 0.0 ==> PercentageByMass(g, grists) == Util.PercentageByMass(g, grists)
  {
    SumPointwise(grists, (g: GristRecipe) => g.mass, grists, Util.Mass);
  }

  /** The total of the empty list is 0 and the total of a concatenation is the sum of the totals. */
  lemma TotalMassAppend(xs: seq<GristRecipe>, ys: seq<GristRecipe>)
    ensures TotalMass([]) == 0.0
    ensures TotalMass(xs + ys) == TotalMass(xs) + TotalMass(ys)
  {
    SumAppend(xs, ys, (g: GristRecipe) => g.mass);
  }

  /** The mass fractions of all the grists add up to exactly 1. */
  lemma FractionsSumToOne(grists: seq<GristRecipe>)
    requires TotalMass(grists) != 0.0
    ensures Sum(grists, (g: GristRecipe) => PercentageByMass(g, grists)) == 1.0
  {
    var t := TotalMass(grists);
    forall i | 0 <= i < |grists|
      ensures PercentageByMass(grists[i], grists) == (1.0 / t) * grists[i].mass
    {
    }
    SumScale(grists, (g: GristRecipe) => g.mass, (g: GristRecipe) => PercentageByMass(g, grists), 1.0 / t);
  }
}
