/** A recipe: the grists and the hop additions, in order. It has no behaviour of its own. */
module Recipes {
  import opened Grist
  import opened Hop

  datatype Recipe = Recipe(grists: seq<GristRecipe>, hops: seq<HopRecipe>)
}
