/** ProfileCreateMenu: checks a new profile's name before creating its directory. */
module ProfileCreateMenu {
  /** The longest name accepted. */
  const MAX_NAME_LENGTH: nat := 20

  /** What pressing an entry of the menu leads to. */
  datatype ProfileVerdict =
    | Ignored                   // the entry has an ID of 0 or less
    | EmptyName
    | NameTooLong
    | AlreadyExists
    | CreateProfile(directory: string, profile: string)

  /** The directory a profile of this name lives in. */
  function ProfileDirectory(name: string): (r: string)
    ensures |r| == |name| + 9 && r[9..] == name
  {
    "profiles/" + name
  }

  /**
   * The checks as written: ignored entry, empty name, length, then whether the
   * bare name exists (`existing` holds the paths that exist); on success the
   * profile directory is created and the profile is set to the name.
   */
  function MenuAction(itemId: int, name: string, existing: set<string>): (v: ProfileVerdict)
    ensures v == Ignored <==> itemId <= 0
    ensures v == EmptyName <==> itemId > 0 && name == ""
    ensures v == NameTooLong <==> itemId > 0 && |name| > MAX_NAME_LENGTH
    ensures v == AlreadyExists <==> itemId > 0 && 0 < |name| <= MAX_NAME_LENGTH && name in existing
    ensures v.CreateProfile? <==> itemId > 0 && 0 < |name| <= MAX_NAME_LENGTH && name !in existing
    ensures v.CreateProfile? ==> v.directory == ProfileDirectory(name) && v.profile == name
  {
    if itemId <= 0 then Ignored
    else if name == "" then EmptyName
    else if |name| > MAX_NAME_LENGTH then NameTooLong
    else if name in existing then AlreadyExists
    else CreateProfile(ProfileDirectory(name), name)
  }

  /** The existence check looks at a different path from the one created, so an existing profile directory slips through. */
  lemma ExistingProfileIsNotDetected()
    ensures MenuAction(1, "anna", {"profiles/anna"}) == CreateProfile("profiles/anna", "anna")
  {
    assert "anna" != "profiles/anna";
  }

  /** The same chain with the existence check on the directory that is about to be created. */
  function GuardedMenuAction(itemId: int, name: string, existing: set<string>): (v: ProfileVerdict)
    ensures v.CreateProfile? <==>
      itemId > 0 && 0 < |name| <= MAX_NAME_LENGTH && ProfileDirectory(name) !in existing
    ensures v == AlreadyExists <==>
      itemId > 0 && 0 < |name| <= MAX_NAME_LENGTH && ProfileDirectory(name) in existing
    ensures v.CreateProfile? ==> v.directory == ProfileDirectory(name) && v.profile == name
  {
    if itemId <= 0 then Ignored
    else if name == "" then EmptyName
    else if |name| > MAX_NAME_LENGTH then NameTooLong
    else if ProfileDirectory(name) in existing then AlreadyExists
    else CreateProfile(ProfileDirectory(name), name)
  }

  /** With the guard on the directory, a profile is only created where none exists, and otherwise both chains agree. */
  lemma GuardedNeverCreatesExisting(itemId: int, name: string, existing: set<string>)
    ensures GuardedMenuAction(itemId, name, existing).CreateProfile? ==>
      GuardedMenuAction(itemId, name, existing).directory !in existing
    ensures !(MenuAction(itemId, name, existing).CreateProfile? || MenuAction(itemId, name, existing) == AlreadyExists) ==>
      GuardedMenuAction(itemId, name, existing) == MenuAction(itemId, name, existing)
  {
  }
}
