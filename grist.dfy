/**
  The fermentable-ingredient record (a grain, malt, sugar or extract) and the
  category tags that decide whether it must be mashed.
 */
module Grist {
  import opened Wrappers

  /** The six grist categories. */
  datatype GristType =
    | PrimaryMalt
    | SecondaryMalt
    | MashTunAdjunct
    | CanBeSteeped
    | MaltExtract   // needs no mashing
    | CopperSugar   // needs no mashing

  const AllGristTypes: set<GristType> :=
    {PrimaryMalt, SecondaryMalt, MashTunAdjunct, CanBeSteeped, MaltExtract, CopperSugar}

  /** The categories whose extract dissolves without mashing. */
  const NonMashables: set<GristType> := {MaltExtract, CopperSugar}

  /** Display-only description of a grist; no formula reads it. */
  datatype GristMetadata = GristMetadata(
    name: Option<string> := None,
    description: Option<string> := None,
    gristType: Option<GristType> := None)

  /**
    A grist as catalogued, without a quantity. `fermentability` is the
    fraction of its extract that ferments out (0.75 means 75%); `None` means
    "use the default attenuation", in place of Beer Engine's magic value 200.0.
   */
  datatype Grist = Grist(
    ebc: real,
    mashable: bool,
    extract: real,
    moisture: real,
    fermentability: Option<real>,
    metadata: Option<GristMetadata> := None)

  /** A grist as used in a recipe: every field of `Grist` plus a mass in grams. */
  datatype GristRecipe = GristRecipe(
    ebc: real,
    mashable: bool,
    extract: real,
    moisture: real,
    fermentability: Option<real>,
    metadata: Option<GristMetadata> := None,
    mass: real := 0.0)

  /** The recipe entry for `g` at the given mass (none given: 0 g). */
  function InRecipe(g: Grist, mass: real := 0.0): GristRecipe
  {
    GristRecipe(g.ebc, g.mashable, g.extract, g.moisture, g.fermentability, g.metadata, mass)
  }

  /** The catalogued grist a recipe entry was made from. */
  function Base(r: GristRecipe): Grist
  {
    Grist(r.ebc, r.mashable, r.extract, r.moisture, r.fermentability, r.metadata)
  }

  /** A recipe entry is exactly a grist plus a mass, and the mass defaults to 0. */
  lemma GristRecipeIsGristPlusMass(g: Grist, r: GristRecipe, mass: real)
    ensures Base(InRecipe(g, mass)) == g
    ensures InRecipe(Base(r), r.mass) == r
    ensures InRecipe(g).mass == 0.0
    ensures GristRecipe(g.ebc, g.mashable, g.extract, g.moisture, g.fermentability).mass == 0.0
  {
  }

  /** There are exactly six categories, and exactly two of them are not mashed. */
  lemma GristTypeCategories()
    ensures forall t: GristType :: t in AllGristTypes
    ensures |AllGristTypes| == 6
    ensures NonMashables <= AllGristTypes && |NonMashables| == 2
    ensures forall t: GristType :: t in NonMashables <==> t == MaltExtract || t == CopperSugar
  {
    forall t: GristType ensures t in AllGristTypes {
      match t
      case PrimaryMalt =>
      case SecondaryMalt =>
      case MashTunAdjunct =>
      case CanBeSteeped =>
      case MaltExtract =>
      case CopperSugar =>
    }
  }

  /** The efficiency a formula applies to `g`: the mash efficiency when `g` is
      mashed, full conversion (1) for sugars and extracts. */
  function AppliedEfficiency(g: GristRecipe, efficiency: real): real
  {
    if g.mashable then efficiency else 1.0
  }

  /** `g` with its display metadata dropped: putting the metadata back restores `g`,
      so every other field is kept. */
  function WithoutMetadata(g: GristRecipe): (r: GristRecipe)
    ensures r.metadata == None
    ensures r.(metadata := g.metadata) == g
  {
    g.(metadata := None)
  }

  /** Every grist of `gs` with its display metadata dropped, in order. */
  function StripMetadata(gs: seq<GristRecipe>): seq<GristRecipe>
  {
    seq(|gs|, i requires 0 <= i < |gs| => WithoutMetadata(gs[i]))
  }
}
