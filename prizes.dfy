/** Prize definitions (authored content) and the runtime tag on a prize instance. */
module Prizes {

  /**
   * A prize definition.  Rewards carry the inspector `[Min(0)]` as their type;
   * `hasPrefab` says whether a prefab to instantiate is assigned.
   */
  datatype PrizeDef = PrizeDef(
    id: string,
    displayName: string,
    hasPrefab: bool,
    creditReward: nat,
    ticketReward: nat)

  /**
   * The `PrizeItem` component of one live prize object: `instance` identifies
   * the game object, `def` the definition it was spawned from.
   */
  datatype PrizeItem = PrizeItem(instance: nat, def: PrizeDef)
}
