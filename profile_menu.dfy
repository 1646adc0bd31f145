/** ProfileMenu: lists the profiles and adds, resets or selects them. */
module ProfileMenu {
  import opened GameConfig
  import opened Wrappers

  /** An entry of the menu; the current profile's entry is shown in brackets. */
  datatype ProfileEntry = ProfileEntry(id: int, current: bool)

  /** What the player chose in the menu. */
  datatype ProfileAction =
    | AddProfile
    | ResetProfile
    | ResetAllProfiles
    | SelectProfile(id: int)

  /** The confirmation dialog a reset opens; its callback runs only when the player confirms. */
  datatype Confirmation = ConfirmReset | ConfirmResetAll

  /** The dialog an action opens: the two resets ask for confirmation, the rest act at once. */
  function DialogOf(action: ProfileAction): (r: Option<Confirmation>)
    ensures r.Some? <==> action == ResetProfile || action == ResetAllProfiles
    ensures action == ResetProfile ==> r == Some(ConfirmReset)
    ensures action == ResetAllProfiles ==> r == Some(ConfirmResetAll)
  {
    match action
    case ResetProfile => Some(ConfirmReset)
    case ResetAllProfiles => Some(ConfirmResetAll)
    case _ => None
  }

  /** Profile and profile count right after an action: the resets leave both as they are until confirmed. */
  function Next(action: ProfileAction, profile: int, count: int): (r: (int, int))
    ensures action == AddProfile ==> r == (profile, count + 1)
    ensures action == ResetProfile || action == ResetAllProfiles ==> r == (profile, count)
    ensures action.SelectProfile? ==> r == (action.id, count)
  {
    match action
    case AddProfile => (profile, count + 1)
    case ResetProfile => (profile, count)
    case ResetAllProfiles => (profile, count)
    case SelectProfile(id) => (id, count)
  }

  /** Profile and profile count after a confirmed reset. */
  function Confirmed(c: Confirmation, profile: int, count: int): (r: (int, int))
    ensures c == ConfirmReset ==>
      (if profile == count && profile > 1 then r == (profile - 1, count - 1) else r == (profile, count))
    ensures c == ConfirmResetAll ==> r == (1, 1)
  {
    match c
    case ConfirmReset => if profile == count && profile > 1 then (profile - 1, count - 1) else (profile, count)
    case ConfirmResetAll => (1, 1)
  }

  predicate InRange(profile: int, count: int) {
    1 <= profile <= count
  }

  /** An action the menu can produce: a selection is one of the listed entries 1..count. */
  predicate Offered(action: ProfileAction, count: int) {
    action.SelectProfile? ==> 1 <= action.id <= count
  }

  /** Every action the menu offers, and every confirmed reset, keeps the current profile among the existing ones. */
  lemma NextKeepsProfileInRange(action: ProfileAction, c: Confirmation, profile: int, count: int)
    requires InRange(profile, count) && Offered(action, count)
    ensures InRange(Next(action, profile, count).0, Next(action, profile, count).1)
    ensures InRange(Confirmed(c, profile, count).0, Confirmed(c, profile, count).1)
  {
  }

  /** Resetting a profile that is not the last one keeps both counters. */
  lemma ResetOnlyDropsLastProfile(profile: int, count: int)
    requires profile != count || profile <= 1
    ensures Confirmed(ConfirmReset, profile, count) == (profile, count)
  {
  }

  /** The entries, one per profile 1..count, the current one marked. */
  method Entries(profile: int, count: int) returns (entries: seq<ProfileEntry>)
    ensures |entries| == if count < 0 then 0 else count
    ensures forall k :: 0 <= k < |entries| ==> entries[k] == ProfileEntry(k + 1, k + 1 == profile)
  {
    entries := [];
    var i := 1;
    while i <= count
      invariant 1 <= i <= if count < 0 then 1 else count + 1
      invariant |entries| == i - 1
      invariant forall k :: 0 <= k < |entries| ==> entries[k] == ProfileEntry(k + 1, k + 1 == profile)
    {
      entries := entries + [ProfileEntry(i, i == profile)];
      i := i + 1;
    }
  }

  /** Exactly one entry is marked when the profile is in range, none otherwise. */
  lemma MarkedEntry(entries: seq<ProfileEntry>, profile: int, count: int)
    requires |entries| == if count < 0 then 0 else count
    requires forall k :: 0 <= k < |entries| ==> entries[k] == ProfileEntry(k + 1, k + 1 == profile)
    ensures (exists k :: 0 <= k < |entries| && entries[k].current) <==> InRange(profile, count)
    ensures forall j, k :: 0 <= j < |entries| && 0 <= k < |entries| && entries[j].current && entries[k].current ==> j == k
  {
    if InRange(profile, count) {
      assert entries[profile - 1].current;
    }
  }

  class ProfileMenu {
    const config: Config
    var entries: seq<ProfileEntry>

    /** Lists profiles 1..profile_count and marks the current one. */
    constructor (config: Config)
      ensures this.config == config
      ensures |entries| == if config.profileCount < 0 then 0 else config.profileCount
      ensures forall k :: 0 <= k < |entries| ==> entries[k] == ProfileEntry(k + 1, k + 1 == config.profile)
    {
      this.config := config;
      var listed := Entries(config.profile, config.profileCount);
      entries := listed;
    }

    /**
     * menu_action: adding or selecting changes the configuration at once; a
     * reset only opens its confirmation dialog. Either way the menu is then
     * rebuilt from the counters as they stand, so a reset confirmed later
     * is not reflected in the rebuilt list.
     */
    method MenuAction(action: ProfileAction) returns (dialog: Option<Confirmation>)
      modifies this, config
      ensures dialog == DialogOf(action)
      ensures (config.profile, config.profileCount) == Next(action, old(config.profile), old(config.profileCount))
      ensures config.randomSeed == old(config.randomSeed) && config.randomSeedHistory == old(config.randomSeedHistory)
      ensures |entries| == if config.profileCount < 0 then 0 else config.profileCount
      ensures forall k :: 0 <= k < |entries| ==> entries[k] == ProfileEntry(k + 1, k + 1 == config.profile)
      ensures old(InRange(config.profile, config.profileCount)) && Offered(action, old(config.profileCount)) ==>
        InRange(config.profile, config.profileCount)
    {
      if InRange(config.profile, config.profileCount) && Offered(action, config.profileCount) {
        NextKeepsProfileInRange(action, ConfirmReset, config.profile, config.profileCount);
      }
      dialog := None;
      match action {
        case AddProfile =>
          config.profileCount := config.profileCount + 1;
        case ResetProfile =>
          dialog := Some(ConfirmReset);
        case ResetAllProfiles =>
          dialog := Some(ConfirmResetAll);
        case SelectProfile(id) =>
          config.profile := id;
      }
      entries := Entries(config.profile, config.profileCount);
    }

    /**
     * The confirmation callback of a reset (the save games it deletes are
     * files, not modelled): it changes the counters and leaves the menu as
     * it is.
     */
    method ConfirmResetCallback(c: Confirmation)
      modifies config
      ensures (config.profile, config.profileCount) == Confirmed(c, old(config.profile), old(config.profileCount))
      ensures config.randomSeed == old(config.randomSeed) && config.randomSeedHistory == old(config.randomSeedHistory)
    {
      match c {
        case ConfirmReset =>
          if config.profile == config.profileCount && config.profile > 1 {
            config.profile := config.profile - 1;
            config.profileCount := config.profileCount - 1;
          }
        case ConfirmResetAll =>
          config.profile := 1;
          config.profileCount := 1;
      }
    }
  }

  /**
   * A reset confirmed after the rebuild leaves the list stale: with three
   * profiles and the third current, the rebuilt list still shows three
   * while the configuration now has two.
   */
  lemma ResetListIsStale()
    ensures Next(ResetProfile, 3, 3) == (3, 3)
    ensures Confirmed(ConfirmReset, Next(ResetProfile, 3, 3).0, Next(ResetProfile, 3, 3).1) == (2, 2)
  {
  }
}
