/**
 * AddonManager: the installed add-ons by id, listing them by title, enabling
 * and disabling them, and picking the archives of the add-on directory.
 *
 * The manager's map of installed add-ons is iterated in an order this model
 * does not know; the operations that depend on it take that order as a
 * parameter, a sequence listing every installed id once.
 */
module AddonManager {
  import opened Wrappers
  import opened Addons
  import FileSystem

  /** Why an operation of the manager throws. */
  datatype ManagerError =
    | NotInstalled(id: string)
    | AlreadyEnabled(id: string)
    | ResourcePackConflict
    | MountFailed(filename: string)
    | AlreadyDisabled(id: string)
    | UnmountFailed(filename: string)

  /** An add-on entry of the configuration: its id and whether it was enabled. */
  datatype ConfigAddon = ConfigAddon(id: string, enabled: bool)

  /** An order in which the map's entries are visited: every key exactly once. */
  ghost predicate IterationOrder(m: map<string, Addon>, order: seq<string>) {
    (forall id :: id in m <==> id in order) &&
    (forall i, j :: 0 <= i < j < |order| ==> order[i] != order[j])
  }

  // ---------------------------------------------------------------------
  // std::string's operator<

  /** Lexicographic order by character; a proper prefix comes first. */
  predicate Below(a: string, b: string)
    decreases |a|
  {
    if a == [] then b != []
    else if b == [] then false
    else a[0] < b[0] || (a[0] == b[0] && Below(a[1..], b[1..]))
  }

  lemma {:induction false} BelowIrreflexive(a: string)
    ensures !Below(a, a)
    decreases |a|
  {
    if a != [] {
      BelowIrreflexive(a[1..]);
    }
  }

  lemma {:induction false} BelowTransitive(a: string, b: string, c: string)
    requires Below(a, b) && Below(b, c)
    ensures Below(a, c)
    decreases |a|
  {
    if a != [] && a[0] == b[0] && b[0] == c[0] {
      BelowTransitive(a[1..], b[1..], c[1..]);
    }
  }

  lemma {:induction false} BelowTotal(a: string, b: string)
    requires a != b
    ensures Below(a, b) || Below(b, a)
    decreases |a|
  {
    if a != [] && b != [] && a[0] == b[0] {
      assert a == [a[0]] + a[1..] && b == [b[0]] + b[1..];
      BelowTotal(a[1..], b[1..]);
    }
  }

  // ---------------------------------------------------------------------
  // The std::map<title, id> that get_addons fills

  /** A title with the id stored for it. */
  datatype TitledId = TitledId(title: string, id: string)

  predicate StrictlyAscending(s: seq<TitledId>) {
    forall i, j :: 0 <= i < j < |s| ==> Below(s[i].title, s[j].title)
  }

  predicate HasTitle(s: seq<TitledId>, t: string) {
    exists i :: 0 <= i < |s| && s[i].title == t
  }

  /** std::map::insert: a title already present keeps its id; a new one goes to its place in the order. */
  function InsertTitle(s: seq<TitledId>, p: TitledId): seq<TitledId> {
    if s == [] then [p]
    else if s[0].title == p.title then s
    else if Below(p.title, s[0].title) then [p] + s
    else [s[0]] + InsertTitle(s[1..], p)
  }

  /** Inserting keeps the map ordered, and adds the pair exactly when its title is new. */
  lemma {:induction false} InsertTitleSpec(s: seq<TitledId>, p: TitledId)
    requires StrictlyAscending(s)
    ensures StrictlyAscending(InsertTitle(s, p))
    ensures forall q :: q in InsertTitle(s, p) <==> q in s || (q == p && !HasTitle(s, p.title))
  {
    if s == [] {
    } else if s[0].title == p.title {
      assert HasTitle(s, p.title);
    } else if Below(p.title, s[0].title) {
      forall i | 0 <= i < |s|
        ensures Below(p.title, s[i].title)
      {
        if i > 0 {
          BelowTransitive(p.title, s[0].title, s[i].title);
        }
      }
      if HasTitle(s, p.title) {
        var i :| 0 <= i < |s| && s[i].title == p.title;
        BelowIrreflexive(p.title);
        assert false;
      }
    } else {
      var rest := s[1..];
      assert StrictlyAscending(rest) by {
        forall i, j | 0 <= i < j < |rest|
          ensures Below(rest[i].title, rest[j].title)
        {
          assert rest[i] == s[i + 1] && rest[j] == s[j + 1];
        }
      }
      InsertTitleSpec(rest, p);
      BelowTotal(s[0].title, p.title);
      var r := InsertTitle(s, p);
      assert r == [s[0]] + InsertTitle(rest, p);
      forall i, j | 0 <= i < j < |r|
        ensures Below(r[i].title, r[j].title)
      {
        if i == 0 {
          assert r[j] in InsertTitle(rest, p);
          if r[j] in rest {
            var k :| 0 <= k < |rest| && rest[k] == r[j];
            assert s[k + 1] == r[j];
          }
        }
      }
      assert HasTitle(s, p.title) <==> HasTitle(rest, p.title) by {
        if HasTitle(s, p.title) {
          var i :| 0 <= i < |s| && s[i].title == p.title;
          assert rest[i - 1] == s[i];
        }
        if HasTitle(rest, p.title) {
          var i :| 0 <= i < |rest| && rest[i].title == p.title;
          assert s[i + 1] == rest[i];
        }
      }
      assert s == [s[0]] + rest;
    }
  }

  /** The map after inserting the pairs one after the other. */
  function ByTitle(ps: seq<TitledId>): seq<TitledId> {
    if ps == [] then [] else InsertTitle(ByTitle(ps[..|ps| - 1]), ps[|ps| - 1])
  }

  lemma ByTitleStep(ps: seq<TitledId>, k: nat)
    requires k < |ps|
    ensures ByTitle(ps[..k + 1]) == InsertTitle(ByTitle(ps[..k]), ps[k])
  {
    assert ps[..k + 1][..k] == ps[..k];
  }

  /** The first pair with the title, if any. */
  function FirstWithTitle(ps: seq<TitledId>, t: string): (r: Option<TitledId>)
    ensures r.None? ==> forall i :: 0 <= i < |ps| ==> ps[i].title != t
    ensures r.Some? ==> (r.value.title == t &&
                         exists i :: 0 <= i < |ps| && ps[i] == r.value && forall j :: 0 <= j < i ==> ps[j].title != t)
  {
    if ps == [] then None
    else
      var init := ps[..|ps| - 1];
      assert forall i :: 0 <= i < |init| ==> init[i] == ps[i];
      match FirstWithTitle(init, t)
      case Some(p) => Some(p)
      case None => if ps[|ps| - 1].title == t then Some(ps[|ps| - 1]) else None
  }

  /** The filled map is ordered by title and holds, for each title, the first pair inserted with it. */
  lemma {:induction false} ByTitleSpec(ps: seq<TitledId>)
    ensures StrictlyAscending(ByTitle(ps))
    ensures forall q :: q in ByTitle(ps) <==> FirstWithTitle(ps, q.title) == Some(q)
    ensures forall t :: HasTitle(ByTitle(ps), t) <==> FirstWithTitle(ps, t).Some?
  {
    if ps != [] {
      var init := ps[..|ps| - 1];
      var last := ps[|ps| - 1];
      ByTitleSpec(init);
      var s := ByTitle(init);
      InsertTitleSpec(s, last);
      var r := ByTitle(ps);
      assert r == InsertTitle(s, last);
      forall t
        ensures HasTitle(r, t) <==> FirstWithTitle(ps, t).Some?
      {
        if HasTitle(r, t) {
          var i :| 0 <= i < |r| && r[i].title == t;
          assert r[i] in r;
        }
        if FirstWithTitle(ps, t).Some? {
          var q := FirstWithTitle(ps, t).value;
          assert q in r;
          var i :| 0 <= i < |r| && r[i] == q;
        }
      }
    }
  }

  /** Each pair of the filled map is the first one inserted with its title. */
  lemma PairOrigin(ps: seq<TitledId>, i: nat)
    requires i < |ByTitle(ps)|
    ensures exists k :: (0 <= k < |ps| && ps[k] == ByTitle(ps)[i] &&
                         forall j :: 0 <= j < k ==> ps[j].title != ByTitle(ps)[i].title)
  {
    ByTitleSpec(ps);
    assert ByTitle(ps)[i] in ByTitle(ps);
  }

  /** Every inserted title is in the filled map. */
  lemma TitleCovered(ps: seq<TitledId>, k: nat)
    requires k < |ps|
    ensures exists i :: 0 <= i < |ByTitle(ps)| && ByTitle(ps)[i].title == ps[k].title
  {
    ByTitleSpec(ps);
    assert HasTitle(ByTitle(ps), ps[k].title);
  }

  /** The ids of the pairs, in their order. */
  function Ids(s: seq<TitledId>): (r: seq<string>)
    ensures |r| == |s| && forall i :: 0 <= i < |s| ==> r[i] == s[i].id
  {
    seq(|s|, i requires 0 <= i < |s| => s[i].id)
  }

  /** The installed add-ons as title and id pairs, in iteration order. */
  function TitledIds(m: map<string, Addon>, order: seq<string>): (r: seq<TitledId>)
    requires forall i :: 0 <= i < |order| ==> order[i] in m
    ensures |r| == |order| && forall i :: 0 <= i < |order| ==> r[i] == TitledId(m[order[i]].title, order[i])
  {
    seq(|order|, i requires 0 <= i < |order| => TitledId(m[order[i]].title, order[i]))
  }

  /** The ids get_addons lists. */
  function InstalledByTitle(m: map<string, Addon>, order: seq<string>): seq<string>
    requires IterationOrder(m, order)
  {
    Ids(ByTitle(TitledIds(m, order)))
  }

  /** Every listed id is installed, and it is the first in iteration order with its title. */
  lemma ListedIdsComeFirst(m: map<string, Addon>, order: seq<string>)
    requires IterationOrder(m, order)
    ensures var r := InstalledByTitle(m, order);
      forall i :: 0 <= i < |r| ==>
        (r[i] in m && ByTitle(TitledIds(m, order))[i].title == m[r[i]].title &&
         exists k :: (0 <= k < |order| && order[k] == r[i] &&
                      forall j :: 0 <= j < k ==> m[order[j]].title != m[r[i]].title))
  {
    var ps := TitledIds(m, order);
    var r := InstalledByTitle(m, order);
    forall i | 0 <= i < |r|
      ensures r[i] in m && ByTitle(ps)[i].title == m[r[i]].title
      ensures exists k :: (0 <= k < |order| && order[k] == r[i] &&
                           forall j :: 0 <= j < k ==> m[order[j]].title != m[r[i]].title)
    {
      PairOrigin(ps, i);
      var k :| 0 <= k < |ps| && ps[k] == ByTitle(ps)[i] && forall j :: 0 <= j < k ==> ps[j].title != ByTitle(ps)[i].title;
      assert order[k] == r[i];
    }
  }

  /** The listed ids go by strictly ascending title, so no title is listed twice. */
  lemma ListedTitlesAscend(m: map<string, Addon>, order: seq<string>)
    requires IterationOrder(m, order)
    ensures var r := InstalledByTitle(m, order);
      (forall i :: 0 <= i < |r| ==> r[i] in m) &&
      forall i, j :: 0 <= i < j < |r| ==> Below(m[r[i]].title, m[r[j]].title)
  {
    var ps := TitledIds(m, order);
    ListedIdsComeFirst(m, order);
    ByTitleSpec(ps);
  }

  /** Every title of the installed add-ons is listed. */
  lemma EveryTitleListed(m: map<string, Addon>, order: seq<string>)
    requires IterationOrder(m, order)
    ensures var r := InstalledByTitle(m, order);
      forall id :: id in m ==> exists i :: 0 <= i < |r| && r[i] in m && m[r[i]].title == m[id].title
  {
    var ps := TitledIds(m, order);
    var r := InstalledByTitle(m, order);
    ListedIdsComeFirst(m, order);
    forall id | id in m
      ensures exists i :: 0 <= i < |r| && r[i] in m && m[r[i]].title == m[id].title
    {
      var k :| 0 <= k < |order| && order[k] == id;
      TitleCovered(ps, k);
      var i :| 0 <= i < |ByTitle(ps)| && ByTitle(ps)[i].title == ps[k].title;
      assert r[i] in m && m[r[i]].title == ByTitle(ps)[i].title;
    }
  }

  // ---------------------------------------------------------------------
  // get_depending_addons

  /** The ids, in iteration order, whose add-on lists the id among its dependency ids. */
  function DependingIds(m: map<string, Addon>, order: seq<string>, x: string): seq<string>
    requires forall i :: 0 <= i < |order| ==> order[i] in m
  {
    if order == [] then []
    else
      var last := order[|order| - 1];
      DependingIds(m, order[..|order| - 1], x) + (if x in m[last].dependencyIds then [last] else [])
  }

  /** The depending ids are exactly the visited ids whose add-on depends on x. */
  lemma {:induction false} DependingIdsMembers(m: map<string, Addon>, order: seq<string>, x: string)
    requires forall i :: 0 <= i < |order| ==> order[i] in m
    ensures forall id :: id in DependingIds(m, order, x) <==> id in order && x in m[id].dependencyIds
  {
    if order != [] {
      var init := order[..|order| - 1];
      DependingIdsMembers(m, init, x);
      assert order == init + [order[|order| - 1]];
    }
  }

  // ---------------------------------------------------------------------
  // enable_addon and disable_addon on the map of installed add-ons

  predicate EnabledPack(a: Addon) {
    a.addonType == ResourcePack && a.enabled
  }

  /** The invariant enable_addon keeps: no two resource packs are enabled together. */
  predicate AtMostOnePack(m: map<string, Addon>) {
    forall a, b :: a in m && b in m && EnabledPack(m[a]) && EnabledPack(m[b]) ==> a == b
  }

  predicate SomePackEnabled(m: map<string, Addon>) {
    exists id :: id in m && EnabledPack(m[id])
  }

  /**
   * The installed add-ons after enable_addon, or why it throws: an unknown
   * id, an add-on already enabled, a resource pack while another one is
   * enabled, or an archive that does not mount. A resource pack after
   * initialisation is only flagged; anything else is flagged once mounted.
   */
  function Enabled(m: map<string, Addon>, id: string, initialized: bool, mountOk: bool): (r: Result<map<string, Addon>, ManagerError>)
    ensures r.Ok? <==>
      (id in m && !m[id].enabled && !(m[id].addonType == ResourcePack && SomePackEnabled(m)) &&
       ((m[id].addonType == ResourcePack && initialized) || mountOk))
    ensures r.Ok? ==> r.value == m[id := m[id].(enabled := true)]
    ensures id in m && m[id].enabled ==> r == Err(AlreadyEnabled(id))
    ensures id in m && !m[id].enabled && m[id].addonType == ResourcePack && SomePackEnabled(m) ==> r == Err(ResourcePackConflict)
  {
    if id !in m then Err(NotInstalled(id))
    else if m[id].enabled then Err(AlreadyEnabled(id))
    else if m[id].addonType == ResourcePack && SomePackEnabled(m) then Err(ResourcePackConflict)
    else if m[id].addonType == ResourcePack && initialized then Ok(m[id := m[id].(enabled := true)])
    else if !mountOk then Err(MountFailed(m[id].installFilename))
    else Ok(m[id := m[id].(enabled := true)])
  }

  /**
   * The installed add-ons after disable_addon, or why it throws: an unknown
   * id, an add-on not enabled, or an archive that does not unmount. A
   * resource pack is only unflagged.
   */
  function Disabled(m: map<string, Addon>, id: string, unmountOk: bool): (r: Result<map<string, Addon>, ManagerError>)
    ensures r.Ok? <==> id in m && m[id].enabled && (m[id].addonType == ResourcePack || unmountOk)
    ensures r.Ok? ==> r.value == m[id := m[id].(enabled := false)]
    ensures id in m && !m[id].enabled ==> r == Err(AlreadyDisabled(id))
  {
    if id !in m then Err(NotInstalled(id))
    else if !m[id].enabled then Err(AlreadyDisabled(id))
    else if m[id].addonType == ResourcePack then Ok(m[id := m[id].(enabled := false)])
    else if !unmountOk then Err(UnmountFailed(m[id].installFilename))
    else Ok(m[id := m[id].(enabled := false)])
  }

  /** Enabling never leaves two resource packs enabled. */
  lemma EnableKeepsOnePack(m: map<string, Addon>, id: string, initialized: bool, mountOk: bool)
    requires AtMostOnePack(m) && Enabled(m, id, initialized, mountOk).Ok?
    ensures AtMostOnePack(Enabled(m, id, initialized, mountOk).value)
  {
    var n := Enabled(m, id, initialized, mountOk).value;
    forall a, b | a in n && b in n && EnabledPack(n[a]) && EnabledPack(n[b])
      ensures a == b
    {
      if a != id && b != id {
        assert EnabledPack(m[a]) && EnabledPack(m[b]);
      }
    }
  }

  /** Disabling never enables anything, so it keeps the invariant too. */
  lemma DisableKeepsOnePack(m: map<string, Addon>, id: string, unmountOk: bool)
    requires AtMostOnePack(m) && Disabled(m, id, unmountOk).Ok?
    ensures AtMostOnePack(Disabled(m, id, unmountOk).value)
  {
    var n := Disabled(m, id, unmountOk).value;
    forall a, b | a in n && b in n && EnabledPack(n[a]) && EnabledPack(n[b])
      ensures a == b
    {
      assert EnabledPack(m[a]) && EnabledPack(m[b]);
    }
  }

  /** Disabling an add-on just enabled gives back the add-ons as they were. */
  lemma DisableUndoesEnable(m: map<string, Addon>, id: string, initialized: bool, mountOk: bool, unmountOk: bool)
    requires Enabled(m, id, initialized, mountOk).Ok?
    ensures var n := Enabled(m, id, initialized, mountOk).value;
      Disabled(n, id, unmountOk).Ok? <==> (m[id].addonType == ResourcePack || unmountOk)
    ensures var n := Enabled(m, id, initialized, mountOk).value;
      Disabled(n, id, unmountOk).Ok? ==> Disabled(n, id, unmountOk).value == m
  {
    var n := Enabled(m, id, initialized, mountOk).value;
    if Disabled(n, id, unmountOk).Ok? {
      assert Disabled(n, id, unmountOk).value == m[id := m[id]];
    }
  }

  /** The installed add-ons after the constructor enables those the configuration lists as enabled, ignoring failures. */
  function FromConfig(m: map<string, Addon>, config: seq<ConfigAddon>, mountable: set<string>): (r: map<string, Addon>)
    ensures r.Keys == m.Keys
  {
    if config == [] then m
    else
      var before := FromConfig(m, config[..|config| - 1], mountable);
      var c := config[|config| - 1];
      if !c.enabled then before
      else match Enabled(before, c.id, false, c.id in mountable)
        case Ok(n) => n
        case Err(_) => before
  }

  /** Starting from the configuration keeps at most one resource pack enabled. */
  lemma {:induction false} ConfigKeepsOnePack(m: map<string, Addon>, config: seq<ConfigAddon>, mountable: set<string>)
    requires AtMostOnePack(m)
    ensures AtMostOnePack(FromConfig(m, config, mountable))
  {
    if config != [] {
      var init := config[..|config| - 1];
      var c := config[|config| - 1];
      ConfigKeepsOnePack(m, init, mountable);
      var before := FromConfig(m, init, mountable);
      if c.enabled && Enabled(before, c.id, false, c.id in mountable).Ok? {
        EnableKeepsOnePack(before, c.id, false, c.id in mountable);
      }
    }
  }

  // ---------------------------------------------------------------------
  // scan_for_archives

  /** An entry of the add-on directory, with what PhysFS says about its full path. */
  datatype DirEntry = DirEntry(name: string, isDirectory: bool, present: bool)

  function LowerAscii(c: char): char {
    if 'A' <= c <= 'Z' then (c as int + 32) as char else c
  }

  /** StringUtil::tolower, for ASCII letters. */
  function Lower(s: string): (r: string)
    ensures |r| == |s| && forall i :: 0 <= i < |s| ==> r[i] == LowerAscii(s[i])
  {
    seq(|s|, i requires 0 <= i < |s| => LowerAscii(s[i]))
  }

  predicate HasSuffix(s: string, suffix: string) {
    |suffix| <= |s| && s[|s| - |suffix|..] == suffix
  }

  /**
   * An entry scan_for_archives keeps: a directory whose name does not start
   * with '.' (an empty name reads its terminating NUL there) and that is not
   * the cache directory, or an existing file whose lower-cased name ends in ".zip".
   */
  predicate Kept(directory: string, cache: string, e: DirEntry) {
    if e.isDirectory then
      !(|e.name| > 0 && e.name[0] == '.') && FileSystem.Join(directory, e.name) != cache
    else
      HasSuffix(Lower(e.name), ".zip") && e.present
  }

  /** The full paths of the kept entries, in enumeration order. */
  function Archives(directory: string, cache: string, es: seq<DirEntry>): seq<string> {
    if es == [] then []
    else
      var last := es[|es| - 1];
      Archives(directory, cache, es[..|es| - 1]) +
        (if Kept(directory, cache, last) then [FileSystem.Join(directory, last.name)] else [])
  }

  /** A path is listed exactly when a kept entry has it as its full path. */
  lemma {:induction false} ArchivesMembers(directory: string, cache: string, es: seq<DirEntry>)
    ensures forall p :: p in Archives(directory, cache, es) <==>
      exists i :: 0 <= i < |es| && Kept(directory, cache, es[i]) && FileSystem.Join(directory, es[i].name) == p
  {
    if es != [] {
      var init := es[..|es| - 1];
      ArchivesMembers(directory, cache, init);
      assert forall i :: 0 <= i < |init| ==> init[i] == es[i];
    }
  }

  /** With the cache directory inside the add-on directory, the cache is never taken for an archive. */
  lemma CacheIsNeverAnArchive(directory: string, es: seq<DirEntry>)
    ensures FileSystem.Join(directory, "cache") !in Archives(directory, FileSystem.Join(directory, "cache"), es)
  {
    var cache := FileSystem.Join(directory, "cache");
    ArchivesMembers(directory, cache, es);
    forall i | 0 <= i < |es| && FileSystem.Join(directory, es[i].name) == cache
      ensures !Kept(directory, cache, es[i])
    {
      assert es[i].name == cache[|directory| + 1..] == "cache";
      assert Lower(es[i].name) == "cache";
    }
  }

  /** Upper-case extensions are accepted, dot directories are not. */
  lemma ScanExamples(directory: string)
    ensures Kept(directory, "cache", DirEntry("LEVELS.ZIP", false, true))
    ensures !Kept(directory, "cache", DirEntry(".git", true, true))
    ensures !Kept(directory, "cache", DirEntry("levels.zip", false, false))
  {
    assert Lower("LEVELS.ZIP") == "levels.zip";
  }

  class AddonManager {
    const addonDirectory: string
    const cacheDirectory: string
    var installed: map<string, Addon>
    var initialized: bool

    /**
     * The constructor: the cache directory sits in the add-on directory; the
     * add-ons found there are installed; those the configuration lists as
     * enabled are enabled in order, a failure only skipping that one (resource
     * packs are mounted here, since the manager is not yet initialised).
     */
    constructor (directory: string, found: map<string, Addon>, config: seq<ConfigAddon>, mountable: set<string>)
      ensures addonDirectory == directory && cacheDirectory == FileSystem.Join(directory, "cache")
      ensures installed == FromConfig(found, config, mountable) && initialized
    {
      addonDirectory := directory;
      cacheDirectory := FileSystem.Join(directory, "cache");
      installed := found;
      initialized := false;
      new;
      var k := 0;
      while k < |config|
        invariant 0 <= k <= |config|
        invariant !initialized
        invariant installed == FromConfig(found, config[..k], mountable)
      {
        assert config[..k + 1][..k] == config[..k];
        var c := config[k];
        if c.enabled {
          var _ := EnableAddon(c.id, c.id in mountable);
        }
        k := k + 1;
      }
      assert config[..k] == config;
      initialized := true;
    }

    /** get_installed_addon: the add-on with the id, throwing when there is none. */
    function GetInstalledAddon(id: string): (r: Result<Addon, ManagerError>)
      reads this
      ensures r.Ok? <==> id in installed
      ensures r.Ok? ==> r.value == installed[id]
      ensures r.Err? ==> r.error == NotInstalled(id)
    {
      if id in installed then Ok(installed[id]) else Err(NotInstalled(id))
    }

    /** is_addon_installed: whether some visited entry has the id as its key. */
    function IsAddonInstalled(order: seq<string>, id: string): (r: bool)
      reads this
      requires IterationOrder(installed, order)
      ensures r <==> id in installed
    {
      exists i :: 0 <= i < |order| && order[i] == id
    }

    /** An installed add-on is one get_installed_addon finds. */
    lemma InstalledIffFound(order: seq<string>, id: string)
      requires IterationOrder(installed, order)
      ensures IsAddonInstalled(order, id) <==> GetInstalledAddon(id).Ok?
    {
    }

    /** get_installed_addons: fill a map from title to id, then list its ids. */
    method GetInstalledAddons(order: seq<string>) returns (ids: seq<string>)
      requires IterationOrder(installed, order)
      ensures ids == InstalledByTitle(installed, order)
    {
      var ps := TitledIds(installed, order);
      var sorted: seq<TitledId> := [];
      var k := 0;
      while k < |order|
        invariant 0 <= k <= |order|
        invariant sorted == ByTitle(ps[..k])
      {
        ByTitleStep(ps, k);
        sorted := InsertTitle(sorted, TitledId(installed[order[k]].title, order[k]));
        k := k + 1;
      }
      assert ps[..k] == ps;
      ids := [];
      var i := 0;
      while i < |sorted|
        invariant 0 <= i <= |sorted|
        invariant |ids| == i && forall j :: 0 <= j < i ==> ids[j] == sorted[j].id
      {
        ids := ids + [sorted[i].id];
        i := i + 1;
      }
    }

    /** get_depending_addons: the installed ids, in iteration order, that list the id as a dependency. */
    method GetDependingAddons(order: seq<string>, x: string) returns (ids: seq<string>)
      requires IterationOrder(installed, order)
      ensures ids == DependingIds(installed, order, x)
      ensures forall id :: id in ids <==> id in installed && x in installed[id].dependencyIds
    {
      ids := [];
      var k := 0;
      while k < |order|
        invariant 0 <= k <= |order|
        invariant ids == DependingIds(installed, order[..k], x)
      {
        assert order[..k + 1][..k] == order[..k];
        if x in installed[order[k]].dependencyIds {
          ids := ids + [order[k]];
        }
        k := k + 1;
      }
      assert order[..k] == order;
      DependingIdsMembers(installed, order, x);
    }

    /** enable_addon, with the result of mounting the archive as an input. */
    method EnableAddon(id: string, mountOk: bool) returns (r: Result<(), ManagerError>)
      modifies this
      ensures initialized == old(initialized)
      ensures Enabled(old(installed), id, initialized, mountOk).Ok? ==>
        r.Ok? && installed == Enabled(old(installed), id, initialized, mountOk).value
      ensures Enabled(old(installed), id, initialized, mountOk).Err? ==>
        r == Err(Enabled(old(installed), id, initialized, mountOk).error) && installed == old(installed)
    {
      if id !in installed {
        return Err(NotInstalled(id));
      }
      var addon := installed[id];
      if addon.enabled {
        return Err(AlreadyEnabled(id));
      }
      if addon.addonType == ResourcePack {
        var rest := installed.Keys;
        while rest != {}
          invariant rest <= installed.Keys
          invariant forall k :: k in installed && k !in rest ==> !EnabledPack(installed[k])
          decreases rest
        {
          var k :| k in rest;
          if EnabledPack(installed[k]) {
            return Err(ResourcePackConflict);
          }
          rest := rest - {k};
        }
      }
      if addon.addonType == ResourcePack && initialized {
        installed := installed[id := addon.(enabled := true)];
        return Ok(());
      }
      if !mountOk {
        return Err(MountFailed(addon.installFilename));
      }
      installed := installed[id := addon.(enabled := true)];
      return Ok(());
    }

    /** disable_addon, with the result of unmounting the archive as an input. */
    method DisableAddon(id: string, unmountOk: bool) returns (r: Result<(), ManagerError>)
      modifies this
      ensures initialized == old(initialized)
      ensures Disabled(old(installed), id, unmountOk).Ok? ==>
        r.Ok? && installed == Disabled(old(installed), id, unmountOk).value
      ensures Disabled(old(installed), id, unmountOk).Err? ==>
        r == Err(Disabled(old(installed), id, unmountOk).error) && installed == old(installed)
    {
      if id !in installed {
        return Err(NotInstalled(id));
      }
      var addon := installed[id];
      if !addon.enabled {
        return Err(AlreadyDisabled(id));
      }
      if addon.addonType == ResourcePack {
        installed := installed[id := addon.(enabled := false)];
        return Ok(());
      }
      if !unmountOk {
        return Err(UnmountFailed(addon.installFilename));
      }
      installed := installed[id := addon.(enabled := false)];
      return Ok(());
    }

    /** scan_for_archives: the enumerated entries of the add-on directory that may hold add-ons. */
    method ScanForArchives(entries: seq<DirEntry>) returns (archives: seq<string>)
      ensures archives == Archives(addonDirectory, cacheDirectory, entries)
    {
      archives := [];
      var k := 0;
      while k < |entries|
        invariant 0 <= k <= |entries|
        invariant archives == Archives(addonDirectory, cacheDirectory, entries[..k])
      {
        assert entries[..k + 1][..k] == entries[..k];
        var e := entries[k];
        var fullpath := FileSystem.Join(addonDirectory, e.name);
        if e.isDirectory {
          if !(|e.name| > 0 && e.name[0] == '.') && fullpath != cacheDirectory {
            archives := archives + [fullpath];
          }
        } else {
          if HasSuffix(Lower(e.name), ".zip") && e.present {
            archives := archives + [fullpath];
          }
        }
        k := k + 1;
      }
      assert entries[..k] == entries;
    }
  }
}
