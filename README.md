# brew_maths in Dafny

A model of the brewing-formula library `brew_maths`. The library computes these values from a list of grists (grains, malts, sugars, extracts) and from hop additions:

- original gravity and final gravity, in brewer's degrees;
- alcohol by volume, by three methods;
- bitterness in IBU;
- colour in EBC;
- the volume of mash liquor.

Every function in the library is a pure expression, so the model is pure as well: datatypes for the records, and functions and lemmas over exact `real`s for the formulas.

Layout, one module per source file:

- `Grist` and `Hop`: the ingredient records. `Recipes`: the recipe aggregate.
- `Util`: mass totals and fractions.
- `OriginalGravity`, `FinalGravity`: gravities.
- `Ebc`: colour in EBC.
- `MashLiquor`: mash liquor volume.
- `Abv`: the linear "WWW" ABV, Ritchie's ABV and the tiered excise-notice method.
- `HopBitterness`: IBU of one hop addition.
- `Srm`: SRM to RGB.
- `LegacyCalcs`, `LegacyUtil`, `LegacyAbv`, `LegacyHopBitterness`: the older module tree. Each is defined by its own body and then proved equal to the current module, or related to it (the 1000-form gravity is the 0-based gravity plus 1000).

Supporting modules:

- `Sums`: Python's `sum(...)` over a generator, as a left-to-right fold with its algebraic laws.
- `Rounding`: Python's `round(x, 1)` on an exact value. It returns the nearest tenth, and an exact tie goes to the even tenth.
- `Scenarios`: the recipes of the test suite, with their exact values.
- `MetadataLaws`: no formula reads the display metadata.

Where the code and its description differ, the model follows the code. The main case is `gov_uk_abv`. Its docstring takes full-form gravities such as 1.045 (brew_maths/calc/abv.py:82-83). The table's brackets are drops in gravity points (brew_maths/calc/abv.py:53-63). The code nevertheless rounds `original_gravity - final_gravity` directly, with no ×1000 scaling (brew_maths/calc/abv.py:87). `Abv.GovUkAbv` models the code; see Findings.

Division by zero raises `ZeroDivisionError` in the source. The model turns each division the source actually performs into a `requires`: a zero volume, a zero total mass, an original gravity of 1.775 in Ritchie's formula, and a final gravity of −1000 degrees. Where the source divides only on some inputs, the precondition is conditional too. `Ebc.GrahamRecipeEbc` needs a non-zero volume only for a non-empty recipe, because only the per-grist terms divide. `Abv.GovUkAbv` demands `og != 1.775` only when its Ritchie fallback is actually reached.

## Model

| member | source | states |
|---|---|---|
| Grist.GristTypeCategories | brew_maths/recipe_objects/grist.py:6-15 | there are exactly six grist categories, and the non-mashable set is exactly {malt extract, copper sugar} |
| Grist.AppliedEfficiency | brew_maths/calc/original_gravity.py:12 | (definition) the mash efficiency for a mashable grist, 1 otherwise; the same choice is made at calc/ebc.py:9 and calc/final_gravity.py:23 |
| Grist.WithoutMetadata | brew_maths/recipe_objects/grist.py:40 | the result has no metadata, and putting the old metadata back gives the grist unchanged, so no other field changes |
| Grist.GristRecipeIsGristPlusMass | brew_maths/recipe_objects/grist.py:25-45 | a recipe grist is exactly a grist plus a mass: dropping the mass and adding it back are inverse; the mass defaults to 0 |
| Util.TotalMass | brew_maths/calc/util.py:6-10 | (definition) the sum of `mass` over the list; its laws are in TotalMassEmpty, TotalMassAppend and TotalMassNonNegative |
| Util.TotalMassOfMashables | brew_maths/calc/util.py:13-16 | (definition) the sum of `mass` over the mashable grists only |
| Util.PercentageByMass | brew_maths/calc/util.py:19-24 | requires a non-zero total; the fraction times the total mass gives back the grist's mass |
| Util.TotalMassEmpty | brew_maths/calc/util.py:6-16 | the empty list has total and mashable total 0 |
| Util.TotalMassAppend | brew_maths/calc/util.py:6-16 | total and mashable total are additive over concatenation |
| Util.TotalMassNonNegative | brew_maths/calc/util.py:6-16 | with non-negative masses, 0 <= mashable total <= total |
| Util.TotalMassOfMashablesExtremes | brew_maths/calc/util.py:13-16 | the mashable total is 0 when nothing is mashable, and equals the total when everything is |
| Util.TotalMassOfMashablesIgnoresNonMashables | brew_maths/calc/util.py:13-16 | appending or prepending non-mashable grists leaves the mashable total unchanged |
| Util.FractionSumIsMassShare | brew_maths/calc/util.py:19-24 | the fractions of the members of xs, each against the total of gs, add up to total(xs)/total(gs) |
| Util.FractionsSumToOne | brew_maths/calc/util.py:19-24 | the fractions of all members of a list with a non-zero total add up to exactly 1 |
| OriginalGravity.OriginalGravityPoints | brew_maths/calc/original_gravity.py:6-12 | (definition) extract × mass/1000 × (efficiency if mashable else 1) |
| OriginalGravity.OriginalGravity | brew_maths/calc/original_gravity.py:15-24 | (definition) requires volume != 0; sum of points / volume, in brewer's degrees |
| OriginalGravity.IndividualGravity | brew_maths/calc/original_gravity.py:27-31 | (definition) requires volume != 0; one grist's points / volume |
| OriginalGravity.NonMashablePointsIgnoreEfficiency | brew_maths/calc/original_gravity.py:11-12 | a non-mashable grist's points are extract × mass / 1000, whatever the efficiency |
| OriginalGravity.OriginalGravityEmpty | brew_maths/calc/original_gravity.py:23-24 | the empty recipe has gravity 0 |
| OriginalGravity.OriginalGravityAppend | brew_maths/calc/original_gravity.py:23-24 | the gravity of a concatenation is the sum of the parts' gravities |
| OriginalGravity.IndividualGravitiesSumToOriginalGravity | brew_maths/calc/original_gravity.py:15-31 | individual_gravity(g) equals original_gravity([g]); the individual gravities of a list add up to its original gravity |
| OriginalGravity.OriginalGravityLinearInEfficiency | brew_maths/calc/original_gravity.py:12-24 | for an all-mashable list, gravity at efficiency e = e × gravity at efficiency 1 |
| OriginalGravity.OriginalGravityIgnoresEfficiencyWithoutMashables | brew_maths/calc/original_gravity.py:12-24 | for an all-non-mashable list, the efficiency has no effect |
| OriginalGravity.OriginalGravityScalesInverselyWithVolume | brew_maths/calc/original_gravity.py:23-24 | k times the volume gives 1/k times the gravity |
| OriginalGravity.OriginalGravityNonNegative | brew_maths/calc/original_gravity.py:11-24 | non-negative extract, mass and efficiency in a positive volume give non-negative points and gravity |
| FinalGravity.ApplyAttenuation | calc/final_gravity.py:7-14 | (definition) the grist's fermentability when present, else the default attenuation |
| FinalGravity.ApplyAttenuationPrefersFermentability | calc/final_gravity.py:7-14 | a present fermentability is returned, and the attenuation argument then has no effect; an absent one yields the attenuation |
| FinalGravity.FermentedPart | calc/final_gravity.py:20-23 | (definition) one grist's term of `a`: fermentability or attenuation × mass/1000 × extract × (efficiency if mashable else 1) |
| FinalGravity.UnfermentedPart | calc/final_gravity.py:27-30 | (definition) one grist's term of `b`: (1 − fermentability or attenuation) × mass/1000 × extract × (efficiency if mashable else 1) |
| FinalGravity.FermentedPoints | calc/final_gravity.py:19-25 | (definition) the sum `a`: attenuation × mass/1000 × extract × efficiency |
| FinalGravity.UnfermentedPoints | calc/final_gravity.py:26-32 | (definition) the sum `b`: (1 − attenuation) × mass/1000 × extract × efficiency |
| FinalGravity.FinalGravity | calc/final_gravity.py:17-33 | (definition) requires volume != 0; (b − 0.225 a) / volume, not clamped |
| FinalGravity.PartsMakeWhole | calc/final_gravity.py:19-32 | per grist, the fermented part plus the unfermented part equals its original-gravity points |
| FinalGravity.FermentedPlusUnfermentedIsOriginal | calc/final_gravity.py:19-33 | (a + b) / volume is the original gravity, and the final gravity is the original gravity minus 1.225 a / volume |
| FinalGravity.FullyFermentableLeavesNoResidue | calc/final_gravity.py:27-32 | a grist with fermentability 1 adds nothing to `b` and its whole points to `a` |
| FinalGravity.FinalGravityEmpty | calc/final_gravity.py:17-33 | the empty recipe has final gravity 0 |
| FinalGravity.FinalGravityIgnoresAttenuationWhenAllSet | calc/final_gravity.py:14-32 | when every grist has its own fermentability, the default attenuation does not matter |
| FinalGravity.FinalGravityAtMostOriginal | calc/final_gravity.py:19-33 | with non-negative fermented points in a positive volume, final gravity <= original gravity |
| Ebc.GrahamGristEbcInSolution | calc/ebc.py:6-11 | (definition) requires volume != 0; ebc × mass/1000 × (efficiency if mashable else 1) × 10 / volume |
| Ebc.GrahamRecipeEbc | calc/ebc.py:14-18 | (definition) requires a non-zero volume only for a non-empty list; the sum of the per-grist colours, 0 for the empty list |
| Ebc.GrahamRecipeEbcIsSum | calc/ebc.py:16-18 | at any non-zero volume, the recipe colour is the sum of the per-grist colours, the empty list included |
| Ebc.NonMashableEbcIgnoresEfficiency | calc/ebc.py:8-11 | a non-mashable grist's colour is ebc × mass / 100 / volume, whatever the efficiency |
| Ebc.GrahamRecipeEbcEmpty | calc/ebc.py:14-18 | the empty recipe has colour 0 at every volume, 0 included |
| Ebc.GrahamRecipeEbcAppend | calc/ebc.py:14-18 | recipe colour is additive over concatenation |
| Ebc.GrahamRecipeEbcNonNegative | calc/ebc.py:6-18 | non-negative ebc, mass and efficiency in a positive volume give a non-negative colour |
| MashLiquor.MashLiquor | brew_maths/calc/mash_liquor.py:7-14 | (definition) mashable mass / 1000 × lgr, with lgr defaulting to 2.5 |
| MashLiquor.NoMashablesNoLiquor | brew_maths/calc/mash_liquor.py:13-14 | with no mashable grist the liquor is 0 |
| MashLiquor.NonMashablesDoNotChangeLiquor | brew_maths/calc/mash_liquor.py:13-14 | adding non-mashable grists before or after does not change the liquor |
| MashLiquor.MashLiquorLinearInRatio | brew_maths/calc/mash_liquor.py:14 | the liquor is proportional to lgr |
| MashLiquor.MashLiquorBounded | brew_maths/calc/mash_liquor.py:13-14 | with non-negative masses and ratio, 0 <= liquor <= total mass / 1000 × lgr |
| Rounding.NearestTenths | brew_maths/calc/abv.py:87 | the tenths count is within 0.5 of 10x, and is even on an exact tie |
| Rounding.Round1 | brew_maths/calc/abv.py:87 | round(x, 1): ten times the result is a whole number, and the result is within 0.05 of x |
| Rounding.Round1Unique | brew_maths/calc/abv.py:87 | a whole number of tenths strictly within 0.05 of x is the rounded value |
| Rounding.Round1OnGrid | brew_maths/calc/abv.py:87 | values on the 0.1 grid round to themselves, so rounding is idempotent |
| Rounding.Round1HalfToEven | test/test_calcs.py:198-199 | exact ties go to the even tenth: 0.25 becomes 0.2, 0.35 becomes 0.4 |
| Abv.WwwAlcoholByVolume | brew_maths/calc/abv.py:4-11 | (definition) requires fg != 0; 1.05 (og − fg) / fg / 0.79 × 100 |
| Abv.WwwAlcoholByVolumeDegrees | brew_maths/calc/abv.py:14-23 | (definition) converts each degree value d to (1000 + d) / 1000, then delegates |
| Abv.RitchieAbv | brew_maths/calc/abv.py:26-41 | (definition) requires og != 1.775; 76.08 (og − fg) / (1.775 − og) × fg / 0.794 |
| Abv.WwwSign | brew_maths/calc/abv.py:11 | for fg > 0: ABV = 0 iff og = fg, and ABV > 0 iff og > fg |
| Abv.WwwStrictlyIncreasing | brew_maths/calc/abv.py:11 | for a fixed fg > 0, ABV strictly increases with og |
| Abv.WwwDegreesClosedForm | brew_maths/calc/abv.py:14-23 | the degrees form equals 1.05 (og° − fg°) / (1000 + fg°) / 0.79 × 100, so the thousands cancel |
| Abv.RitchieSign | brew_maths/calc/abv.py:41 | the result is 0 when og = fg, and positive when 0 < fg < og < 1.775 |
| Abv.InBracket | brew_maths/calc/abv.py:74 | (definition) min <= d <= max, both ends inclusive |
| Abv.FirstBracketIndex | brew_maths/calc/abv.py:73-74 | the index of the first row whose bracket holds d, or the length when no row does; no earlier row holds d |
| Abv.FindGovUkFactor | brew_maths/calc/abv.py:67-74 | None iff no row's bracket holds d; otherwise a row of the table whose bracket holds d |
| Abv.GovUkAbvFactorsShape | brew_maths/calc/abv.py:44-64 | the table has 11 rows from 0 to 100.7; every bracket is well formed; brackets strictly ascend and are pairwise disjoint; factors strictly rise from 0.125 to 0.135 |
| Abv.FindGovUkFactorUnique | brew_maths/calc/abv.py:52-74 | any row holding d is the row found, so the first match is the only match |
| Abv.FindGovUkFactorOnGrid | brew_maths/calc/abv.py:52-74 | for d = k/10, a row is found iff 0 <= k <= 1007, so every grid point in [0, 100.7] is covered |
| Abv.FindGovUkFactorGap | brew_maths/calc/abv.py:53-54 | a value off the 0.1 grid between two brackets, 6.95, finds no row |
| Abv.FoundFactorBounds | brew_maths/calc/abv.py:52-64 | every factor found lies in [0.125, 0.135] |
| Abv.TieredAbv | brew_maths/calc/abv.py:88-99 | without the sanity check it never fails |
| Abv.TieredAbvBounds | brew_maths/calc/abv.py:88-94 | a non-negative drop found in the table yields between 0.125 and 0.135 times the drop |
| Abv.GovUkAbv | brew_maths/calc/abv.py:77-99 | requires og != 1.775 only when no row matches; with sanity_check false it never fails |
| Abv.GovUkAbvBranches | brew_maths/calc/abv.py:87-94 | no row matches iff the rounded drop is outside [0, 100.7]; there, the result is Ritchie's ABV; inside, it is the drop times the matched factor, or the sanity error carrying that value |
| Abv.GovUkAbvSanityCheck | brew_maths/calc/abv.py:87-99 | an error is returned iff sanity_check is set, a row matched, and drop × factor lies outside that row's [abv_min, abv_max] |
| Abv.SanityCheckFiresOnFirstBracketTop | brew_maths/calc/abv.py:53 | a drop of 6.9 gives 0.8625, accepted without the check and rejected with it, because 0.8625 > 0.8 |
| Abv.GovUkAbvZeroForFullFormGravities | brew_maths/calc/abv.py:82-87 | as written, any full-form pair with a drop in [0, 0.05) gives exactly 0% ABV, the documented 1.045/1.031 example included |
| Abv.GovUkAbvCorrected | brew_maths/calc/abv.py:77-99 | the method with the drop taken in degrees; with sanity_check false it never fails |
| Abv.GovUkAbvCorrectedUsesDegrees | brew_maths/calc/abv.py:87-94 | with the drop in degrees, a table-range drop d yields an ABV in [0.125 d, 0.135 d], and a positive one once d >= 0.1 |
| Abv.GovUkAbvCorrectedDocumentedExample | brew_maths/calc/abv.py:82-94 | 1.045 down to 1.031 gives 14 × 0.127 = 1.778%, with or without the sanity check |
| HopBitterness.GravityCorrection | brew_maths/calc/hop_bitterness.py:15 | the correction is >= 1, and equals 1 iff the boil gravity is <= 1.050 |
| HopBitterness.HopIbu | brew_maths/calc/hop_bitterness.py:5-17 | (definition) requires volume != 0; mass × alpha × U × 1000 / (volume × correction), with U the supplied utilization |
| HopBitterness.GravityCorrectionShape | brew_maths/calc/hop_bitterness.py:15 | the correction never decreases with gravity and strictly increases above 1.050; it moves by at most half the gravity change, so it is continuous and equals 1 at 1.050 |
| HopBitterness.HopIbuCorrection | brew_maths/calc/hop_bitterness.py:15-17 | up to 1.050 the IBU is uncorrected; in general IBU × correction is the uncorrected IBU |
| HopBitterness.HopIbuLinear | brew_maths/calc/hop_bitterness.py:17 | for a fixed utilization, scaling mass or alpha by k scales the IBU by k |
| HopBitterness.HopIbuNonNegative | brew_maths/calc/hop_bitterness.py:15-17 | non-negative inputs in a positive volume give IBU >= 0, and never more than the uncorrected value |
| Srm.ForceRgbRange | calc/srm.py:4-6 | with lower <= upper the result lies in [lower, upper]; it is the identity on [lower, upper]; it is always the value or one of the bounds |
| Srm.ForceRgbRangeIdempotentAndMonotone | calc/srm.py:4-6 | with lower <= upper, clamping is idempotent and keeps order |
| Srm.UnclampedRed | calc/srm.py:15-16 | red before clamping is at most 253 |
| Srm.UnclampedGreen | calc/srm.py:18 | green is 0 above 35 SRM |
| Srm.UnclampedBlue | calc/srm.py:20 | (definition) 0.5 + (179.3 − 28.7 srm), before clamping |
| Srm.PhilipLeeSrmToRgb | calc/srm.py:9-26 | all three components lie in [0, 255], and red is at most 253; green is 0 above 35 SRM |
| Srm.DarkerIsNeverRedderOrBluer | calc/srm.py:15-26 | a higher SRM never gives more red or more blue |
| LegacyCalcs.TotalMass | calcs.py:6-10 | (definition) the sum of masses |
| LegacyCalcs.PercentageByMass | calcs.py:13-18 | (definition) requires a non-zero total; mass / total |
| LegacyCalcs.OriginalGravityPoints | calcs.py:21-26 | (definition) the list-form sum of extract × mass/1000 × (efficiency if mashable else 1) |
| LegacyCalcs.OriginalGravity | calcs.py:29-37 | (definition) requires volume != 0; points / volume + 1000 |
| LegacyCalcs.MassAgreesWithUtil | calcs.py:6-18 | total mass and mass fraction equal the current ones, and the empty total is 0 |
| LegacyCalcs.OriginalGravityIsDegreesPlus1000 | calcs.py:21-37 | the 1000-form gravity is the 0-based gravity plus 1000 |
| LegacyCalcs.OriginalGravityAtLeast1000 | calcs.py:36-37 | with non-negative points in a positive volume, the result is >= 1000 |
| LegacyUtil.TotalMass | calc/util.py:6-10 | (definition) the sum of masses |
| LegacyUtil.PercentageByMass | calc/util.py:13-18 | (definition) requires a non-zero total; mass / total |
| LegacyUtil.AgreesWithUtil | calc/util.py:6-18 | total mass and mass fraction equal the current ones |
| LegacyUtil.TotalMassAppend | calc/util.py:6-10 | the empty total is 0, and the total is additive over concatenation |
| LegacyUtil.FractionsSumToOne | calc/util.py:13-18 | the fractions over a list with a non-zero total add up to 1 |
| LegacyAbv.AlcoholByVolume | calc/abv.py:1-8 | (definition) requires fg != 0; 1.05 (og − fg) / fg / 0.79 × 100 |
| LegacyAbv.AlcoholByVolumeDegrees | calc/abv.py:11-20 | (definition) converts each degree value d to (1000 + d) / 1000, then delegates |
| LegacyAbv.AgreesWithWww | calc/abv.py:1-8 | equals the current linear estimate; for fg > 0 it is 0 iff og = fg, positive iff og > fg, and strictly increasing in og |
| LegacyAbv.DegreesAgreeWithWww | calc/abv.py:11-20 | the degrees variants of the two revisions agree |
| LegacyHopBitterness.HopIbu | calc/hop_bitterness.py:9-23 | (definition) the correction starts at 1 and becomes 1 + (bg − 1.05)/2 above 1.050; IBU = mass × alpha × U × 1000 / (volume × correction) |
| LegacyHopBitterness.AgreesWithHopBitterness | calc/hop_bitterness.py:19-23 | for identical inputs and utilization, it equals the current hop_ibu |
| MetadataLaws.MassesIgnoreMetadata | brew_maths/recipe_objects/grist.py:18-23 | dropping every grist's metadata leaves total mass, mashable mass and mash liquor unchanged |
| MetadataLaws.GravitiesIgnoreMetadata | brew_maths/recipe_objects/grist.py:40 | dropping metadata leaves original and final gravity unchanged |
| MetadataLaws.ColourIgnoresMetadata | brew_maths/recipe_objects/grist.py:40 | dropping metadata leaves the EBC colour unchanged |
| Scenarios.MassScenario | test/test_calcs.py:19-40 | grists of 100 g and 300 g total 400 g; the first is 0.25 of it |
| Scenarios.OriginalGravityScenarios | test/test_calcs.py:44-155 | amber malt alone gives 1.9875, which rounds to the integer 2 of line 56 and to the 2.0 of line 144; sugar alone gives 3.7; together 5.6875 (5.7); at 30 L, 56.875/30 (1.9); at 65%, 5.4225 (5.4) |
| Scenarios.EbcScenario | test/test_calcs.py:159-177 | amber malt plus demerara at 10 L and 75% is exactly 9.5 EBC |
| Scenarios.MashLiquorScenarios | test/test_calcs.py:181-211 | the mixed recipe needs exactly 0.25 L (half-even rounding gives 0.2); sugar alone needs 0 |
| Scenarios.FinalGravityOf | calc/final_gravity.py:19-33 | for a two-grist recipe, the final gravity is the termwise fermented and unfermented parts combined |
| Scenarios.FinalGravityScenarios | test/test_calcs.py:215-279 | the final gravities are 4.92493125 (4.9) and −45.02506875 (−45.0, negative and not clamped); OG 245.3425; the degrees ABV rounds to 40.4 |

## Left out

- Hop utilization (calc/hop_util.py) is Tinseth's curve. It uses `math.e ** x` and the real power `0.000125 ** (g - 1)`, which exact reals cannot express. `HopIbu` takes the utilization as a function parameter `(HopRecipe, real) -> real`. The brew_maths copy of hop_util.py is not part of this model.
- HopBitterness.HopIbuLinear: proved only for a utilization that gives the same value for the scaled hop. The source's utilization reads only the boil time and the gravity, but the model does not know that.
- calc/boil_gravity.py is an alias onto calc/original_gravity.py, which is not part of this model. It would be `OriginalGravity` evaluated at the boil volume.
- brew_maths/calc/ebc.py, brew_maths/calc/final_gravity.py and brew_maths/recipe_objects/hop.py are imported by the tests but are not part of this model. The calc/ copies of ebc and final_gravity are modelled instead. The hop records follow recipe_objects/hop.py, which defines only `Hop` and `HopMetadata`. Yet calc/hop_bitterness.py:2 and calc/hop_util.py:3 import `HopRecipe` from it, so the older IBU module cannot be imported as shown. `Hop.HopRecipe` adds the mass and boil time the tests pass (test/test_calcs.py:284-289). Its defaults are unknown, so it has none.
- The IBU and utilization scenarios of the tests (test/test_calcs.py:282-317) need Tinseth's curve, so they are not stated.
- Floating point: `float` is modelled as an exact `real`. Float artefacts in the tests' rounding are not modelled. `round` is modelled on the exact value, half to even, as Python does. The test values are stated as exact reals.
- Division by zero, which raises `ZeroDivisionError`, is a precondition, not an error result. The one raised error, the sanity check's `ValueError`, is the `Err` of a `Result`.
- The older record in recipe_objects/grist.py:25-38 declares `fermentability` as a plain float, while calc/final_gravity.py:14 tests it against `None`. It is not modelled separately: one record with an optional fermentability serves both trees. The 200.0 sentinel is Graham's Beer Engine convention, which the newer record's docstring says `None` replaces (brew_maths/recipe_objects/grist.py:30-33); no code here tests for 200.
- `moisture` is carried but no formula reads it. `Recipe` (both recipe.py files) is a plain container.
- Python's dynamic typing is not modelled: integer arguments such as `0` or `100` are taken as reals.
- setup.py (packaging) is left out. The test file is used only as the source of the concrete scenarios.

## Findings

| source | as written | input that shows it | evidently intended | confidence | as-written member | corrected member |
|---|---|---|---|---|---|---|
| brew_maths/calc/abv.py:87 | rounds `original_gravity - final_gravity` to one decimal and looks that up in a table of gravity-point drops, although the inputs are documented as full-form gravities such as 1.045 (abv.py:82-83) | og 1.045, fg 1.031: the drop rounds to 0.0, so the first bracket gives 0% ABV (every drop below 0.05 does the same) | round the drop in degrees, `(og - fg) * 1000`: 14.0, bracket 10.5–17.2, factor 0.127, 1.778% ABV | high (docstring, table units and the HMRC method agree); not executed | Abv.GovUkAbvZeroForFullFormGravities | Abv.GovUkAbvCorrectedUsesDegrees |
