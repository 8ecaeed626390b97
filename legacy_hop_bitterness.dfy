/** The older copy of the hop IBU formula, which sets the correction with an `if`
    statement; proved equal to the current one. */
module LegacyHopBitterness {
  import opened Hop
  import HopBitterness

  function HopIbu(hop: HopRecipe, volume: real, boilGravity: real, utilization: (HopRecipe, real) -> real): real
    requires volume != 0.0
  {
    // The source starts the correction at 1 and raises it with an `if` statement.
    var correction := if boilGravity > 1.050 then 1.0 + (boilGravity - 1.05) / 2.0 else 1.0;
    (hop.mass * hop.alpha * utilization(hop, boilGravity) * 1000.0) / (volume * correction)
  }

  /** Both revisions give the same IBU for the same inputs and utilization. */
  lemma AgreesWithHopBitterness(hop: HopRecipe, volume: real, boilGravity: real, utilization: (HopRecipe, real) -> real)
    requires volume != 0.0
    ensures HopIbu(hop, volume, boilGravity, utilization) == HopBitterness.HopIbu(hop, volume, boilGravity, utilization)
  {
  }
}
