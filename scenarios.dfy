/**
  The recipes of the library's own test suite, with the exact real values the
  formulas give them and, where the tests round, the rounded value they expect.
 */
module Scenarios {
  import opened Wrappers
  import opened Sums
  import opened Grist
  import opened Rounding
  import Util
  import OriginalGravity
  import FinalGravity
  import Ebc
  import MashLiquor
  import Abv

  function AmberMalt(mass: real): GristRecipe
  {
    GristRecipe(60.0, true, 265.0, 3.0, None, Some(GristMetadata(name := Some("Amber Malt"))), mass)
  }

  function DemeraraSugar(mass: real): GristRecipe
  {
    GristRecipe(50.0, false, 370.0, 30.0, Some(1.0), Some(GristMetadata(name := Some("Sugar, Demerara"))), mass)
  }

  /** Two plain 100 g and 300 g grists weigh 400 g, the first a quarter of it. */
  lemma MassScenario()
    ensures var gs := [GristRecipe(0.0, false, 0.0, 0.0, Some(0.0), None, 100.0),
                       GristRecipe(0.0, false, 0.0, 0.0, Some(0.0), None, 300.0)];
      Util.TotalMass(gs) == 400.0 && Util.PercentageByMass(gs[0], gs) == 0.25
  {
    var gs := [GristRecipe(0.0, false, 0.0, 0.0, Some(0.0), None, 100.0),
               GristRecipe(0.0, false, 0.0, 0.0, Some(0.0), None, 300.0)];
    Util.TotalMassAppend([gs[0]], [gs[1]]);
    assert [gs[0]] + [gs[1]] == gs;
  }

  /** Amber malt and demerara sugar at 10 L and 75%: 1.9875 and 3.7 on their own
      (2.0 and 3.7 rounded), 5.6875 together (5.7 rounded); together at 30 L about
      1.896 (1.9), and at 65% 5.4225 (5.4). */
  lemma OriginalGravityScenarios()
    ensures OriginalGravity.OriginalGravity([AmberMalt(100.0)], 10.0, 0.75) == 1.9875
    ensures OriginalGravity.IndividualGravity(AmberMalt(100.0), 10.0, 0.75) == 1.9875
    ensures Round1(1.9875) == 2.0
    ensures OriginalGravity.OriginalGravity([DemeraraSugar(100.0)], 10.0, 0.75) == 3.7
    ensures OriginalGravity.IndividualGravity(DemeraraSugar(100.0), 10.0, 0.75) == 3.7
    ensures OriginalGravity.OriginalGravity([AmberMalt(100.0), DemeraraSugar(100.0)], 10.0, 0.75) == 5.6875
    ensures Round1(5.6875) == 5.7
    ensures OriginalGravity.OriginalGravity([AmberMalt(100.0), DemeraraSugar(100.0)], 30.0, 0.75) == 56.875 / 30.0
    ensures Round1(56.875 / 30.0) == 1.9
    ensures OriginalGravity.OriginalGravity([AmberMalt(100.0), DemeraraSugar(100.0)], 10.0, 0.65) == 5.4225
    ensures Round1(5.4225) == 5.4
  {
    var a, s := AmberMalt(100.0), DemeraraSugar(100.0);
    OriginalGravity.IndividualGravitiesSumToOriginalGravity([a], 10.0, 0.75);
    OriginalGravity.IndividualGravitiesSumToOriginalGravity([s], 10.0, 0.75);
    assert [a] + [s] == [a, s];
    OriginalGravity.OriginalGravityAppend([a], [s], 10.0, 0.75);
    OriginalGravity.OriginalGravityAppend([a], [s], 10.0, 0.65);
    OriginalGravity.OriginalGravityScalesInverselyWithVolume([a, s], 10.0, 3.0, 0.75);
    Round1Unique(1.9875, 20);
    Round1Unique(5.6875, 57);
    Round1Unique(56.875 / 30.0, 19);
    Round1Unique(5.4225, 54);
  }

  /** Their colour at 10 L and 75% is exactly 9.5 EBC: 4.5 from the malt, 5 from the sugar. */
  lemma EbcScenario()
    ensures Ebc.GrahamRecipeEbc([AmberMalt(100.0), DemeraraSugar(100.0)], 10.0, 0.75) == 9.5
  {
    var a, s := AmberMalt(100.0), DemeraraSugar(100.0);
    assert [a] + [s] == [a, s];
    Ebc.GrahamRecipeEbcAppend([a], [s], 10.0, 0.75);
    Ebc.GrahamRecipeEbcIsSum([a], 10.0, 0.75);
    Ebc.GrahamRecipeEbcIsSum([s], 10.0, 0.75);
    SumSingleton(a, (g: GristRecipe) => Ebc.GrahamGristEbcInSolution(g, 10.0, 0.75));
    SumSingleton(s, (g: GristRecipe) => Ebc.GrahamGristEbcInSolution(g, 10.0, 0.75));
  }

  /** Only the malt is mashed: 0.25 L of liquor at 2.5 L/kg, which rounds half-even
      to 0.2; the sugar on its own needs none. */
  lemma MashLiquorScenarios()
    ensures MashLiquor.MashLiquor([AmberMalt(100.0), DemeraraSugar(100.0)], 2.5) == 0.25
    ensures Round1(0.25) == 0.2
    ensures MashLiquor.MashLiquor([DemeraraSugar(100.0)], 2.5) == 0.0
  {
    var a, s := AmberMalt(100.0), DemeraraSugar(100.0);
    assert [a] + [s] == [a, s];
    MashLiquor.NonMashablesDoNotChangeLiquor([a], [s], 2.5);
    MashLiquor.NonMashablesDoNotChangeLiquor([], [s], 2.5);
    assert [] + [s] == [s];
    SumSingleton(a, Util.MashableMass);
  }

  /** 1100 g of malt with 40 g or 6040 g of sugar at 10 L, 75% and 62% attenuation:
      final gravities 4.92493125 (4.9) and -45.02506875 (-45.0), the second negative
      and left so; with the second recipe's original gravity of 245.3425 the linear
      ABV in degrees rounds to 40.4. */
  lemma FinalGravityScenarios()
    ensures FinalGravity.FinalGravity([AmberMalt(1100.0), DemeraraSugar(40.0)], 10.0, 0.75, 0.62) == 4.92493125
    ensures Round1(4.92493125) == 4.9
    ensures FinalGravity.FinalGravity([AmberMalt(1100.0), DemeraraSugar(6040.0)], 10.0, 0.75, 0.62) == -45.02506875
    ensures Round1(-45.02506875) == -45.0
    ensures OriginalGravity.OriginalGravity([AmberMalt(1100.0), DemeraraSugar(6040.0)], 10.0, 0.75) == 245.3425
    ensures Round1(Abv.WwwAlcoholByVolumeDegrees(245.3425, -45.02506875)) == 40.4
  {
    FinalGravityOf(AmberMalt(1100.0), DemeraraSugar(40.0));
    FinalGravityOf(AmberMalt(1100.0), DemeraraSugar(6040.0));
    var a, s := AmberMalt(1100.0), DemeraraSugar(6040.0);
    assert [a] + [s] == [a, s];
    OriginalGravity.OriginalGravityAppend([a], [s], 10.0, 0.75);
    OriginalGravity.IndividualGravitiesSumToOriginalGravity([a], 10.0, 0.75);
    OriginalGravity.IndividualGravitiesSumToOriginalGravity([s], 10.0, 0.75);
    Round1Unique(4.92493125, 49);
    Round1Unique(-45.02506875, -450);
    Abv.WwwDegreesClosedForm(245.3425, -45.02506875);
    Round1Unique(Abv.WwwAlcoholByVolumeDegrees(245.3425, -45.02506875), 404);
  }

  /** The final gravity of a two-grist recipe at 10 L, 75% and 62%, term by term. */
  lemma FinalGravityOf(a: GristRecipe, s: GristRecipe)
    ensures FinalGravity.FinalGravity([a, s], 10.0, 0.75, 0.62)
         == (FinalGravity.UnfermentedPart(a, 0.75, 0.62) + FinalGravity.UnfermentedPart(s, 0.75, 0.62)
             - (FinalGravity.FermentedPart(a, 0.75, 0.62) + FinalGravity.FermentedPart(s, 0.75, 0.62)) * 0.225) / 10.0
  {
    assert [a] + [s] == [a, s];
    SumAppend([a], [s], (g: GristRecipe) => FinalGravity.FermentedPart(g, 0.75, 0.62));
    SumAppend([a], [s], (g: GristRecipe) => FinalGravity.UnfermentedPart(g, 0.75, 0.62));
    SumSingleton(a, (g: GristRecipe) => FinalGravity.FermentedPart(g, 0.75, 0.62));
    SumSingleton(s, (g: GristRecipe) => FinalGravity.FermentedPart(g, 0.75, 0.62));
    SumSingleton(a, (g: GristRecipe) => FinalGravity.UnfermentedPart(g, 0.75, 0.62));
    SumSingleton(s, (g: GristRecipe) => FinalGravity.UnfermentedPart(g, 0.75, 0.62));
  }
}
