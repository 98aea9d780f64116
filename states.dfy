/** GameState and PlayerSnapshot: the immutable records of one moment of a game. */
module States {
  import opened Cards

  /** PlayerSnapshot: a player's name and a copy of the hand. */
  datatype Snapshot = Snapshot(playerName: string, hand: seq<Card>)

  /** GameState: a step number, a description and every player's snapshot. */
  datatype GameState = GameState(step: int, description: string, snapshots: seq<Snapshot>)
}
