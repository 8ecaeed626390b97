/** The hop records: a catalogued hop and a hop addition in a recipe. */
module Hop {
  import opened Wrappers

  /** Display-only description of a hop; no formula reads it. */
  datatype HopMetadata = HopMetadata(form: string, origin: string, use: string)

  /** A catalogued hop: its alpha-acid content as a fraction (0.076 is 7.6%). */
  datatype Hop = Hop(alpha: real, metadata: Option<HopMetadata> := None)

  /** A hop addition: the hop's fields plus a mass in grams and a boil time in minutes. */
  datatype HopRecipe = HopRecipe(alpha: real, metadata: Option<HopMetadata>, mass: real, time: real)
}
