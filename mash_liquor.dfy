/** Mash liquor (water) volume from the liquor-to-grist ratio. */
module MashLiquor {
  import opened Grist
  import opened Util

  /** Litres of liquor for the mashed grists at `lgr` litres per kilogram
      (2.5 and 3.2 are the usual ratios). */
  function MashLiquor(grists: seq<GristRecipe>, lgr: real := 2.5): real
  {
    var gristMassKg := TotalMassOfMashables(grists) / 1000.0;
    gristMassKg * lgr
  }

  /** Without mashed grists there is no mash liquor. */
  lemma NoMashablesNoLiquor(grists: seq<GristRecipe>, lgr: real)
    requires forall i :: 0 <= i < |grists| ==> !grists[i].mashable
    ensures MashLiquor(grists, lgr) == 0.0
  {
    TotalMassOfMashablesExtremes(grists);
  }

  /** Sugars and extracts, added before or after, do not change the mash liquor. */
  lemma NonMashablesDoNotChangeLiquor(grists: seq<GristRecipe>, ns: seq<GristRecipe>, lgr: real)
    requires forall i :: 0 <= i < |ns| ==> !ns[i].mashable
    ensures MashLiquor(grists + ns, lgr) == MashLiquor(grists, lgr)
    ensures MashLiquor(ns + grists, lgr) == MashLiquor(grists, lgr)
  {
    TotalMassOfMashablesIgnoresNonMashables(grists, ns);
  }

  /** The liquor is proportional to the ratio. */
  lemma MashLiquorLinearInRatio(grists: seq<GristRecipe>, lgr: real, k: real)
    ensures MashLiquor(grists, k * lgr) == k * MashLiquor(grists, lgr)
    ensures MashLiquor(grists, lgr) == MashLiquor(grists, 1.0) * lgr
  {
  }

  /** With non-negative masses and ratio the liquor is non-negative and at most
      the ratio times the whole grist mass in kilograms. */
  lemma MashLiquorBounded(grists: seq<GristRecipe>, lgr: real)
    requires 0.0 <= lgr
    requires forall i :: 0 <= i < |grists| ==> 0.0 <= grists[i].mass
    ensures 0.0 <= MashLiquor(grists, lgr) <= TotalMass(grists) / 1000.0 * lgr
  {
    TotalMassNonNegative(grists);
    var m := TotalMassOfMashables(grists) / 1000.0;
    var t := TotalMass(grists) / 1000.0;
    assert 0.0 <= m <= t;
    assert m * lgr <= t * lgr;
  }
}
