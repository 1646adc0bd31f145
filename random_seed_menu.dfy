/** RandomSeedMenu: lets the player type a seed and makes it the game's seed. */
module RandomSeedMenu {
  import opened GameConfig

  /** The ID of the "OK" entry. */
  const OK_ID: int := 1

  class RandomSeedMenu {
    const config: Config
    var seed: int

    /** The field starts at the configured seed. */
    constructor (config: Config)
      ensures this.config == config && seed == config.randomSeed
    {
      this.config := config;
      seed := config.randomSeed;
    }

    /**
     * Only "OK" acts: the configured seed becomes what srand returns for the
     * typed seed (a parameter here), and it is recorded in the history.
     */
    method MenuAction(itemId: int, srandResult: int)
      modifies config
      ensures itemId != OK_ID ==>
        config.randomSeed == old(config.randomSeed) && config.randomSeedHistory == old(config.randomSeedHistory)
      ensures itemId == OK_ID ==>
        config.randomSeed == srandResult &&
        config.randomSeedHistory == Capped(old(config.randomSeedHistory) + [srandResult], SEED_HISTORY_LIMIT)
      ensures config.profile == old(config.profile) && config.profileCount == old(config.profileCount)
    {
      if itemId != OK_ID {
        return;
      }
      config.randomSeed := srandResult;
      config.RecordSeed(config.randomSeed);
    }
  }
}
