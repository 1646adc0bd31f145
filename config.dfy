/** The parts of the global game configuration that the menus update. */
module GameConfig {
  /** How many seeds the history keeps. */
  const SEED_HISTORY_LIMIT: nat := 100

  /** The newest `limit` entries of a history, oldest first. */
  function Capped(history: seq<int>, limit: nat): (r: seq<int>)
    ensures |r| <= limit && |r| <= |history|
    ensures r == history[|history| - |r|..]
    ensures |history| <= limit ==> r == history
  {
    if |history| > limit then history[|history| - limit..] else history
  }

  /** After recording a seed the history holds at most 100 seeds, ends with it, and keeps the newest older ones in order. */
  lemma RecordedSeedIsNewest(history: seq<int>, seed: int)
    ensures var r := Capped(history + [seed], SEED_HISTORY_LIMIT);
      |r| == if |history| < SEED_HISTORY_LIMIT then |history| + 1 else SEED_HISTORY_LIMIT
    ensures var r := Capped(history + [seed], SEED_HISTORY_LIMIT);
      r != [] && r[|r| - 1] == seed && r[..|r| - 1] == history[|history| - (|r| - 1)..]
  {
    var h := history + [seed];
    var r := Capped(h, SEED_HISTORY_LIMIT);
    assert r == h[|h| - |r|..];
    assert r[..|r| - 1] == h[|h| - |r|..|h| - 1];
    assert h[..|h| - 1] == history;
  }

  class Config {
    var randomSeed: int
    var randomSeedHistory: seq<int>
    var profile: int
    var profileCount: int

    constructor (randomSeed: int, randomSeedHistory: seq<int>, profile: int, profileCount: int)
      ensures this.randomSeed == randomSeed && this.randomSeedHistory == randomSeedHistory
      ensures this.profile == profile && this.profileCount == profileCount
    {
      this.randomSeed := randomSeed;
      this.randomSeedHistory := randomSeedHistory;
      this.profile := profile;
      this.profileCount := profileCount;
    }

    /** Appends the seed to the history, then drops the oldest seeds until at most 100 remain. */
    method RecordSeed(seed: int)
      modifies this
      ensures randomSeedHistory == Capped(old(randomSeedHistory) + [seed], SEED_HISTORY_LIMIT)
      ensures randomSeed == old(randomSeed) && profile == old(profile) && profileCount == old(profileCount)
    {
      var history := randomSeedHistory + [seed];
      ghost var full := history;
      while |history| > SEED_HISTORY_LIMIT
        invariant |history| <= |full| && history == full[|full| - |history|..]
        invariant |full| > SEED_HISTORY_LIMIT ==> |history| >= SEED_HISTORY_LIMIT
        invariant |full| <= SEED_HISTORY_LIMIT ==> history == full
        decreases |history|
      {
        history := history[1..];
      }
      randomSeedHistory := history;
    }
  }
}
