/**
 * Addons: an add-on's description, as read from and written to the
 * "supertux-addoninfo" form. A reader mapping is modelled as a sequence of
 * key/value entries; a value is a text, a number or a nested mapping.
 */
module Addons {
  import opened Wrappers

  datatype Value = Text(text: string) | Number(number: int) | Nested(mapping: Mapping)
  datatype Entry = Entry(key: string, value: Value)
  datatype Mapping = Mapping(entries: seq<Entry>)

  /** A document read from a file or a string: the root's name and its mapping. */
  datatype Document = Document(root: string, body: Mapping)

  const ADDON_INFO_ROOT: string := "supertux-addoninfo"

  /** Addon::Type; PlainAddon is ADDON. */
  datatype AddonType = World | Worldmap | Levelset | LanguagePack | ResourcePack | PlainAddon

  datatype Version = Version(commit: string, title: string, description: string, createdAt: int)
  datatype Screenshots = Screenshots(baseUrl: string, files: seq<string>)

  /** An add-on with its description and the two fields the manager keeps on it. */
  datatype Addon = Addon(
    id: string,
    version: Version,
    addonType: AddonType,
    title: string,
    description: string,
    author: string,
    license: string,
    originUrl: string,
    url: string,
    upstreamUrl: string,
    md5: string,
    screenshots: Screenshots,
    dependencies: seq<Addon>,
    dependencyIds: seq<string>,
    installFilename: string,
    enabled: bool)

  /** Why a description is refused; every cause ends up as an exception in the source. */
  datatype ParseError =
    | NotAddonInfo
    | MissingId
    | EmptyId
    | IllegalIdCharacters
    | NoVersion
    | InvalidType(name: string)
    | InvalidField(key: string)
    | WrongValueType(key: string)
    | BadDependency(cause: ParseError)

  // ---------------------------------------------------------------------
  // The type codec

  const TYPE_NAMES: set<string> := {"world", "worldmap", "levelset", "languagepack", "resourcepack", "addon"}

  /** addon_type_from_string: one of the six names, or an error for anything else. */
  function TypeFromString(s: string): (r: Result<AddonType, ParseError>)
    ensures r.Ok? <==> s in TYPE_NAMES
    ensures r.Err? ==> r.error == InvalidType(s)
  {
    if s == "world" then Ok(World)
    else if s == "worldmap" then Ok(Worldmap)
    else if s == "levelset" then Ok(Levelset)
    else if s == "languagepack" then Ok(LanguagePack)
    else if s == "resourcepack" then Ok(ResourcePack)
    else if s == "addon" then Ok(PlainAddon)
    else Err(InvalidType(s))
  }

  /** addon_type_to_string: ADDON is the default case. */
  function TypeToString(t: AddonType): (r: string)
    ensures r in TYPE_NAMES
  {
    match t
    case Levelset => "levelset"
    case Worldmap => "worldmap"
    case World => "world"
    case LanguagePack => "languagepack"
    case ResourcePack => "resourcepack"
    case PlainAddon => "addon"
  }

  /** Writing a type and reading it back gives the type. */
  lemma TypeRoundTrip(t: AddonType)
    ensures TypeFromString(TypeToString(t)) == Ok(t)
  {
  }

  /** A name that reads as a type is the name that type writes: the codec is a bijection on the six names. */
  lemma TypeNameRoundTrip(s: string)
    requires TypeFromString(s).Ok?
    ensures TypeToString(TypeFromString(s).value) == s
  {
  }

  /** A missing type field reads as "", which is not a type. */
  lemma EmptyTypeIsInvalid()
    ensures TypeFromString("") == Err(InvalidType(""))
  {
  }

  // ---------------------------------------------------------------------
  // Reading a mapping

  /** The index of the first entry with the key, if any. */
  function Find(m: Mapping, key: string): (r: Option<nat>)
    ensures r.None? <==> forall i :: 0 <= i < |m.entries| ==> m.entries[i].key != key
    ensures r.Some? ==> (r.value < |m.entries| && m.entries[r.value].key == key &&
                         forall i :: 0 <= i < r.value ==> m.entries[i].key != key)
  {
    FindFrom(m.entries, key, 0)
  }

  function FindFrom(es: seq<Entry>, key: string, k: nat): (r: Option<nat>)
    requires k <= |es|
    requires forall i :: 0 <= i < k ==> es[i].key != key
    ensures r.None? <==> forall i :: 0 <= i < |es| ==> es[i].key != key
    ensures r.Some? ==> (k <= r.value < |es| && es[r.value].key == key &&
                         forall i :: 0 <= i < r.value ==> es[i].key != key)
    decreases |es| - k
  {
    if k == |es| then None
    else if es[k].key == key then Some(k)
    else FindFrom(es, key, k + 1)
  }

  /** get(key, string&): absent is None, a text is read, any other value throws. */
  function GetText(m: Mapping, key: string): (r: Result<Option<string>, ParseError>)
    ensures r == Ok(None) <==> Find(m, key).None?
    ensures r.Err? ==> r.error == WrongValueType(key)
    ensures r.Ok? && r.value.Some? ==> Find(m, key).Some? && m.entries[Find(m, key).value].value == Text(r.value.value)
  {
    match Find(m, key)
    case None => Ok(None)
    case Some(i) => if m.entries[i].value.Text? then Ok(Some(m.entries[i].value.text)) else Err(WrongValueType(key))
  }

  /** get(key, int&): absent is None, a number is read, any other value throws. */
  function GetNumber(m: Mapping, key: string): (r: Result<Option<int>, ParseError>)
    ensures r == Ok(None) <==> Find(m, key).None?
    ensures r.Err? ==> r.error == WrongValueType(key)
    ensures r.Ok? && r.value.Some? ==> Find(m, key).Some? && m.entries[Find(m, key).value].value == Number(r.value.value)
  {
    match Find(m, key)
    case None => Ok(None)
    case Some(i) => if m.entries[i].value.Number? then Ok(Some(m.entries[i].value.number)) else Err(WrongValueType(key))
  }

  /** get(key, optional<ReaderMapping>&): absent is None, a nested mapping is read, any other value throws. */
  function GetMapping(m: Mapping, key: string): (r: Result<Option<Mapping>, ParseError>)
    ensures r == Ok(None) <==> Find(m, key).None?
    ensures r.Err? ==> r.error == WrongValueType(key)
    ensures r.Ok? && r.value.Some? ==> Find(m, key).Some? && m.entries[Find(m, key).value].value == Nested(r.value.value)
  {
    match Find(m, key)
    case None => Ok(None)
    case Some(i) => if m.entries[i].value.Nested? then Ok(Some(m.entries[i].value.mapping)) else Err(WrongValueType(key))
  }

  function TextOr(o: Option<string>, default: string): string {
    if o.Some? then o.value else default
  }

  // ---------------------------------------------------------------------
  // Identifiers and versions

  /** The characters of s_allowed_characters. */
  predicate AllowedChar(c: char) {
    c == '-' || c == '_' || ('0' <= c <= '9') || ('A' <= c <= 'Z') || ('a' <= c <= 'z')
  }

  predicate ValidId(id: string) {
    id != [] && forall i :: 0 <= i < |id| ==> AllowedChar(id[i])
  }

  /** The id checks in order: present, then non-empty, then only allowed characters. */
  function CheckId(m: Mapping): (r: Result<string, ParseError>)
    ensures r.Ok? ==> ValidId(r.value) && GetText(m, "id") == Ok(Some(r.value))
    ensures r == Err(MissingId) <==> Find(m, "id").None?
    ensures r.Ok? <==> GetText(m, "id").Ok? && GetText(m, "id").value.Some? && ValidId(GetText(m, "id").value.value)
  {
    match GetText(m, "id")
    case Err(e) => Err(e)
    case Ok(None) => Err(MissingId)
    case Ok(Some(id)) =>
      if id == [] then Err(EmptyId)
      else if exists i :: 0 <= i < |id| && !AllowedChar(id[i]) then Err(IllegalIdCharacters)
      else Ok(id)
  }

  function DigitChar(d: nat): char
    requires d < 10
  {
    "0123456789"[d]
  }

  /** The decimal digits of a natural number, without leading zeros. */
  function NatString(n: nat): (r: string)
    ensures r != [] && forall i :: 0 <= i < |r| ==> '0' <= r[i] <= '9'
    ensures n > 0 ==> r[0] != '0'
  {
    if n < 10 then [DigitChar(n)] else NatString(n / 10) + [DigitChar(n % 10)]
  }

  /** std::to_string on an integer: a '-' before the digits when negative. */
  function DecimalString(n: int): (r: string)
    ensures r != []
    ensures (r[0] == '-') <==> n < 0
  {
    if n < 0 then "-" + NatString(-n) else NatString(n)
  }

  /** The value a string of decimal digits denotes. */
  function DigitsValue(s: string): int
    decreases |s|
  {
    if s == [] then 0 else DigitsValue(s[..|s| - 1]) * 10 + (s[|s| - 1] as int - '0' as int)
  }

  /** The digits NatString writes denote the number again. */
  lemma {:induction false} NatStringValue(n: nat)
    ensures DigitsValue(NatString(n)) == n
  {
    if n >= 10 {
      var s := NatString(n);
      assert s[..|s| - 1] == NatString(n / 10);
      NatStringValue(n / 10);
    } else {
      assert DigitsValue(NatString(n)) == DigitsValue([]) * 10 + (DigitChar(n) as int - '0' as int);
    }
  }

  /** Distinct numbers give distinct commit strings. */
  lemma {:induction false} DecimalStringInjective(a: int, b: int)
    requires DecimalString(a) == DecimalString(b)
    ensures a == b
  {
    assert (a < 0) == (b < 0);
    var m := if a < 0 then -a else a;
    var n := if b < 0 then -b else b;
    DigitsOfDecimal(a);
    DigitsOfDecimal(b);
    NatStringValue(m);
    NatStringValue(n);
  }

  /** The digits of std::to_string: everything after the sign, if any. */
  lemma {:induction false} DigitsOfDecimal(n: int)
    ensures NatString(if n < 0 then -n else n) == if n < 0 then DecimalString(n)[1..] else DecimalString(n)
  {
    if n < 0 {
      var d := NatString(-n);
      assert DecimalString(n) == "-" + d;
      assert ("-" + d)[1..] == d;
    }
  }

  /** The version an old integer "version" field stands for. */
  function LegacyVersion(n: int): (r: Version)
    ensures r.commit == DecimalString(n) && r.title == "v" + r.commit
    ensures r.description == "" && r.createdAt == 0
  {
    var commit := DecimalString(n);
    Version(commit, "v" + commit, "", 0)
  }

  /** The four fields of a "version" mapping; each absent one keeps its zero value. */
  function VersionFields(v: Mapping): (r: Result<Version, ParseError>)
    ensures r.Ok? <==> (GetText(v, "commit").Ok? && GetText(v, "title").Ok? &&
                        GetText(v, "description").Ok? && GetNumber(v, "created-at").Ok?)
  {
    match (GetText(v, "commit"), GetText(v, "title"), GetText(v, "description"), GetNumber(v, "created-at"))
    case (Ok(commit), Ok(title), Ok(description), Ok(createdAt)) =>
      Ok(Version(TextOr(commit, ""), TextOr(title, ""), TextOr(description, ""),
                 if createdAt.Some? then createdAt.value else 0))
    case _ => Err(WrongValueType("version"))
  }

  /**
   * The version: a nested mapping is read field by field; when that throws,
   * the field is read again as an integer, which succeeds only for a
   * number; no field at all is an error.
   */
  function ParseVersion(m: Mapping): (r: Result<Version, ParseError>)
    ensures Find(m, "version").None? ==> r == Err(NoVersion)
    ensures GetNumber(m, "version").Ok? && GetNumber(m, "version").value.Some? ==>
      r == Ok(LegacyVersion(GetNumber(m, "version").value.value))
    ensures GetText(m, "version").Ok? && GetText(m, "version").value.Some? ==> r.Err?
  {
    match GetMapping(m, "version")
    case Ok(None) => Err(NoVersion)
    case Ok(Some(v)) =>
      var fields := VersionFields(v);
      if fields.Ok? then fields else Err(WrongValueType("version"))
    case Err(_) =>
      match GetNumber(m, "version")
      case Ok(Some(n)) => Ok(LegacyVersion(n))
      case Ok(None) => Err(NoVersion)
      case Err(e) => Err(e)
  }

  // ---------------------------------------------------------------------
  // Lists inside the description

  /**
   * A list of texts under one key, as the screenshot "files" ("file") and
   * the "dependency-ids" ("dependency") are read: every entry must be a
   * text with that key.
   */
  function TextList(es: seq<Entry>, key: string): (r: Result<seq<string>, ParseError>)
    ensures r.Ok? ==> (|r.value| == |es| &&
                       forall i :: 0 <= i < |es| ==> es[i] == Entry(key, Text(r.value[i])))
    ensures r.Ok? <==> forall i :: 0 <= i < |es| ==> es[i].key == key && es[i].value.Text?
  {
    if es == [] then Ok([])
    else if es[0].key != key then Err(InvalidField(es[0].key))
    else if !es[0].value.Text? then Err(WrongValueType(key))
    else
      var rest := TextList(es[1..], key);
      if rest.Err? then rest
      else
        assert forall i :: 1 <= i < |es| ==> es[i] == es[1..][i - 1];
        Ok([es[0].value.text] + rest.value)
  }

  /** Screenshots: an absent mapping leaves both parts empty, an absent "files" leaves the list empty. */
  function ParseScreenshots(m: Mapping): (r: Result<Screenshots, ParseError>)
    ensures Find(m, "screenshots").None? ==> r == Ok(Screenshots("", []))
  {
    match GetMapping(m, "screenshots")
    case Err(e) => Err(e)
    case Ok(None) => Ok(Screenshots("", []))
    case Ok(Some(s)) =>
      match (GetText(s, "base-url"), GetMapping(s, "files"))
      case (Err(e), _) => Err(e)
      case (_, Err(e)) => Err(e)
      case (Ok(baseUrl), Ok(None)) => Ok(Screenshots(TextOr(baseUrl, ""), []))
      case (Ok(baseUrl), Ok(Some(f))) =>
        match TextList(f.entries, "file")
        case Err(e) => Err(e)
        case Ok(files) => Ok(Screenshots(TextOr(baseUrl, ""), files))
  }

  /** The ids of a list of add-ons, in order. */
  function IdsOf(addons: seq<Addon>): (r: seq<string>)
    ensures |r| == |addons| && forall i :: 0 <= i < |addons| ==> r[i] == addons[i].id
  {
    if addons == [] then [] else [addons[0].id] + IdsOf(addons[1..])
  }

  /** A list of add-ons and a list of ids, as the dependency loops produce them. */
  datatype Dependencies = Dependencies(addons: seq<Addon>, ids: seq<string>)

  /** Puts already-read dependencies in front of the outcome of the rest. */
  function Prepend(addons: seq<Addon>, ids: seq<string>, rest: Result<Dependencies, ParseError>): Result<Dependencies, ParseError> {
    if rest.Ok? then Ok(Dependencies(addons + rest.value.addons, ids + rest.value.ids)) else rest
  }

  /**
   * The "dependencies" entries from the k-th on: each must be a "dependency"
   * holding a whole add-on description; a failing one is reported as a bad
   * dependency. Every add-on read contributes its id as well.
   */
  function DependencyList(d: Mapping, k: nat): (r: Result<Dependencies, ParseError>)
    requires k <= |d.entries|
    ensures r.Ok? ==> r.value.ids == IdsOf(r.value.addons) && |r.value.addons| == |d.entries| - k
    ensures r.Ok? ==> forall i :: 0 <= i < |r.value.addons| ==> ValidId(r.value.addons[i].id)
    decreases d, |d.entries| - k
  {
    if k == |d.entries| then Ok(Dependencies([], []))
    else
      match Dependency(d.entries[k])
      case Err(e) => Err(e)
      case Ok(a) =>
        var rest := DependencyList(d, k + 1);
        if rest.Err? then rest
        else
          assert IdsOf([a] + rest.value.addons) == [a.id] + IdsOf(rest.value.addons);
          Prepend([a], [a.id], rest)
  }

  /** One "dependencies" entry: a "dependency" holding an add-on description that is itself accepted. */
  function Dependency(e: Entry): (r: Result<Addon, ParseError>)
    ensures e.key != "dependency" ==> r == Err(InvalidField(e.key))
    ensures r.Ok? ==> e.value.Nested? && ParseAddon(e.value.mapping) == r
    ensures r.Err? && e.key == "dependency" ==> r.error.BadDependency?
    ensures r.Ok? ==> ValidId(r.value.id)
    decreases e
  {
    if e.key != "dependency" then Err(InvalidField(e.key))
    else if !e.value.Nested? then Err(BadDependency(WrongValueType("dependency")))
    else
      match ParseAddon(e.value.mapping)
      case Err(cause) => Err(BadDependency(cause))
      case Ok(a) => Ok(a)
  }

  /** "dependencies" wins over "dependency-ids"; the latter gives ids without add-ons. */
  function ParseDependencies(m: Mapping): (r: Result<Dependencies, ParseError>)
    ensures Find(m, "dependencies").None? && Find(m, "dependency-ids").None? ==> r == Ok(Dependencies([], []))
    ensures r.Ok? && Find(m, "dependencies").None? ==> r.value.addons == []
    ensures r.Ok? && Find(m, "dependencies").Some? ==> r.value.ids == IdsOf(r.value.addons)
    ensures r.Ok? ==> forall i :: 0 <= i < |r.value.addons| ==> ValidId(r.value.addons[i].id)
    decreases m, 1
  {
    match GetMapping(m, "dependencies")
    case Err(e) => Err(e)
    case Ok(Some(d)) => DependencyList(d, 0)
    case Ok(None) =>
      match GetMapping(m, "dependency-ids")
      case Err(e) => Err(e)
      case Ok(None) => Ok(Dependencies([], []))
      case Ok(Some(d)) =>
        match TextList(d.entries, "dependency")
        case Err(e) => Err(e)
        case Ok(ids) => Ok(Dependencies([], ids))
  }

  /** The eight optional text fields; an absent one reads as "". */
  datatype TextFields = TextFields(
    title: string, description: string, author: string, license: string,
    originUrl: string, url: string, upstreamUrl: string, md5: string)

  /** Reads the optional texts in the order the constructor does; the first one of the wrong kind is the error. */
  function ReadTexts(m: Mapping): (r: Result<TextFields, ParseError>)
    ensures r.Ok? <==> (GetText(m, "title").Ok? && GetText(m, "description").Ok? && GetText(m, "author").Ok? &&
                        GetText(m, "license").Ok? && GetText(m, "origin-url").Ok? && GetText(m, "url").Ok? &&
                        GetText(m, "upstream-url").Ok? && GetText(m, "md5").Ok?)
  {
    match GetText(m, "title")
    case Err(e) => Err(e)
    case Ok(title) =>
      match GetText(m, "description")
      case Err(e) => Err(e)
      case Ok(description) =>
        match GetText(m, "author")
        case Err(e) => Err(e)
        case Ok(author) =>
          match GetText(m, "license")
          case Err(e) => Err(e)
          case Ok(license) =>
            match GetText(m, "origin-url")
            case Err(e) => Err(e)
            case Ok(originUrl) =>
              match GetText(m, "url")
              case Err(e) => Err(e)
              case Ok(url) =>
                match GetText(m, "upstream-url")
                case Err(e) => Err(e)
                case Ok(upstreamUrl) =>
                  match GetText(m, "md5")
                  case Err(e) => Err(e)
                  case Ok(md5) =>
                    Ok(TextFields(TextOr(title, ""), TextOr(description, ""), TextOr(author, ""), TextOr(license, ""),
                                  TextOr(originUrl, ""), TextOr(url, ""), TextOr(upstreamUrl, ""), TextOr(md5, "")))
  }

  /**
   * Addon::Addon(mapping): the id checks, then the version, the type, the
   * optional texts, the screenshots and the dependencies; the first failure
   * is the error. The manager's fields start empty and disabled.
   */
  function ParseAddon(m: Mapping): (r: Result<Addon, ParseError>)
    ensures r.Ok? ==> ValidId(r.value.id) && GetText(m, "id") == Ok(Some(r.value.id))
    ensures r.Ok? ==> ParseVersion(m) == Ok(r.value.version)
    ensures r.Ok? ==> GetText(m, "type").Ok? && TypeFromString(TextOr(GetText(m, "type").value, "")) == Ok(r.value.addonType)
    ensures r.Ok? ==> r.value.installFilename == "" && !r.value.enabled
    ensures r.Ok? ==> forall i :: 0 <= i < |r.value.dependencies| ==> ValidId(r.value.dependencies[i].id)
    ensures CheckId(m).Err? ==> r == Err(CheckId(m).error)
    ensures CheckId(m).Ok? && Find(m, "version").None? ==> r == Err(NoVersion)
    decreases m, 2
  {
    match CheckId(m)
    case Err(e) => Err(e)
    case Ok(id) =>
      match ParseVersion(m)
      case Err(e) => Err(e)
      case Ok(version) =>
        match GetText(m, "type")
        case Err(e) => Err(e)
        case Ok(typeName) =>
          match TypeFromString(TextOr(typeName, ""))
          case Err(e) => Err(e)
          case Ok(addonType) =>
            match ReadTexts(m)
            case Err(e) => Err(e)
            case Ok(t) =>
              match ParseScreenshots(m)
              case Err(e) => Err(e)
              case Ok(screenshots) =>
                match ParseDependencies(m)
                case Err(e) => Err(e)
                case Ok(deps) =>
                  Ok(Addon(id, version, addonType, t.title, t.description, t.author, t.license,
                           t.originUrl, t.url, t.upstreamUrl, t.md5, screenshots, deps.addons, deps.ids, "", false))
  }

  /** Addon::parse / parse_string: the root must be "supertux-addoninfo". */
  function ParseDocument(doc: Document): (r: Result<Addon, ParseError>)
    ensures doc.root != ADDON_INFO_ROOT ==> r == Err(NotAddonInfo)
    ensures doc.root == ADDON_INFO_ROOT ==> r == ParseAddon(doc.body)
  {
    if doc.root != ADDON_INFO_ROOT then Err(NotAddonInfo) else ParseAddon(doc.body)
  }

  /** An id that is present but empty is refused, whatever else the description holds. */
  lemma EmptyIdIsRejected(m: Mapping)
    requires GetText(m, "id") == Ok(Some(""))
    ensures ParseAddon(m) == Err(EmptyId)
  {
  }

  /** An id with a character outside -_0-9A-Za-z is refused. */
  lemma IllegalCharacterIsRejected(m: Mapping, id: string, i: nat)
    requires GetText(m, "id") == Ok(Some(id))
    requires i < |id| && !AllowedChar(id[i])
    ensures ParseAddon(m) == Err(IllegalIdCharacters)
  {
  }

  /** An integer version n reads as commit n, title "v" + n, created at 0. */
  lemma LegacyVersionIsRead(m: Mapping, n: int)
    requires CheckId(m).Ok?
    requires GetNumber(m, "version") == Ok(Some(n))
    requires ParseAddon(m).Ok?
    ensures ParseAddon(m).value.version == Version(DecimalString(n), "v" + DecimalString(n), "", 0)
  {
  }

  // ---------------------------------------------------------------------
  // Queries

  /** get_filename: the id with ".zip" appended. */
  function FileName(a: Addon): (r: string)
    ensures |r| == |a.id| + 4 && r[..|a.id|] == a.id && r[|a.id|..] == ".zip"
  {
    a.id + ".zip"
  }

  /** Two add-ons share an archive name exactly when they share an id. */
  lemma FileNameDeterminesId(a: Addon, b: Addon)
    ensures FileName(a) == FileName(b) <==> a.id == b.id
  {
    if FileName(a) == FileName(b) {
      assert a.id == FileName(a)[..|FileName(a)| - 4];
    }
  }

  predicate IsLevelset(a: Addon) {
    a.addonType == World || a.addonType == Worldmap || a.addonType == Levelset
  }

  predicate OverridesData(a: Addon) {
    a.addonType == ResourcePack
  }

  predicate RequiresRestart(a: Addon) {
    a.addonType == LanguagePack || a.addonType == ResourcePack
  }

  /** The three kinds sort the types: levelsets never override data or need a restart, data overrides always do. */
  lemma KindsOfAddon(a: Addon)
    ensures IsLevelset(a) ==> !OverridesData(a) && !RequiresRestart(a)
    ensures OverridesData(a) ==> RequiresRestart(a)
    ensures RequiresRestart(a) && !OverridesData(a) <==> a.addonType == LanguagePack
    ensures !IsLevelset(a) && !RequiresRestart(a) <==> a.addonType == PlainAddon
  {
  }

  /**
   * has_available_update: the upstream copy exists, has another commit and
   * was created strictly later.
   */
  function HasAvailableUpdate(a: Addon, upstream: Option<Addon>): (r: bool)
    ensures r <==> (upstream.Some? && upstream.value.version.commit != a.version.commit &&
                    upstream.value.version.createdAt > a.version.createdAt)
  {
    upstream.Some? && upstream.value.version.commit != a.version.commit &&
    upstream.value.version.createdAt > a.version.createdAt
  }

  /** An add-on is never an update of itself, and updates point forward in time only. */
  lemma UpdateIsOneWay(a: Addon, b: Addon)
    ensures !HasAvailableUpdate(a, Some(a))
    ensures HasAvailableUpdate(a, Some(b)) ==> !HasAvailableUpdate(b, Some(a))
  {
  }

  // ---------------------------------------------------------------------
  // Writing

  function TextEntries(key: string, values: seq<string>): (r: seq<Entry>)
    ensures |r| == |values| && forall i :: 0 <= i < |values| ==> r[i] == Entry(key, Text(values[i]))
  {
    if values == [] then [] else [Entry(key, Text(values[0]))] + TextEntries(key, values[1..])
  }

  /**
   * write_info: the description the manager stores next to an installed
   * archive. It holds no "url" and no "md5", and it lists the ids of the
   * dependency add-ons under "dependency-ids".
   */
  function InfoDocument(a: Addon): (r: Document)
    ensures r.root == ADDON_INFO_ROOT
    ensures Find(r.body, "url").None? && Find(r.body, "md5").None? && Find(r.body, "dependencies").None?
  {
    Document(ADDON_INFO_ROOT, InfoBody(a))
  }

  function InfoBody(a: Addon): Mapping {
    Mapping([
      Entry("id", Text(a.id)),
      Entry("version", Nested(VersionBody(a.version))),
      Entry("type", Text(TypeToString(a.addonType))),
      Entry("title", Text(a.title)),
      Entry("description", Text(a.description)),
      Entry("author", Text(a.author)),
      Entry("license", Text(a.license)),
      Entry("origin-url", Text(a.originUrl)),
      Entry("upstream-url", Text(a.upstreamUrl)),
      Entry("screenshots", Nested(ScreenshotsBody(a.screenshots))),
      Entry("dependency-ids", Nested(Mapping(TextEntries("dependency", IdsOf(a.dependencies)))))])
  }

  function VersionBody(v: Version): Mapping {
    Mapping([
      Entry("commit", Text(v.commit)),
      Entry("title", Text(v.title)),
      Entry("description", Text(v.description)),
      Entry("created-at", Number(v.createdAt))])
  }

  function ScreenshotsBody(s: Screenshots): Mapping {
    Mapping([
      Entry("base-url", Text(s.baseUrl)),
      Entry("files", Nested(Mapping(TextEntries("file", s.files))))])
  }

  /** What reading back a written description gives. */
  function Reloaded(a: Addon): Addon {
    a.(url := "", md5 := "", dependencies := [], dependencyIds := IdsOf(a.dependencies),
       installFilename := "", enabled := false)
  }

  lemma {:induction false} TextEntriesRead(key: string, values: seq<string>)
    ensures TextList(TextEntries(key, values), key) == Ok(values)
  {
    if values != [] {
      TextEntriesRead(key, values[1..]);
      assert TextEntries(key, values)[1..] == TextEntries(key, values[1..]);
      assert values == [values[0]] + values[1..];
    }
  }

  /** The first entry with the key is where Find stops. */
  lemma FindAt(m: Mapping, key: string, i: nat)
    requires i < |m.entries| && m.entries[i].key == key
    requires forall j :: 0 <= j < i ==> m.entries[j].key != key
    ensures Find(m, key) == Some(i)
  {
  }

  lemma VersionReadBack(v: Version)
    ensures VersionFields(VersionBody(v)) == Ok(v)
  {
    var m := VersionBody(v);
    FindAt(m, "commit", 0);
    FindAt(m, "title", 1);
    FindAt(m, "description", 2);
    FindAt(m, "created-at", 3);
  }

  lemma ScreenshotsReadBack(a: Addon)
    ensures ParseScreenshots(InfoBody(a)) == Ok(a.screenshots)
  {
    var s := ScreenshotsBody(a.screenshots);
    FindAt(InfoBody(a), "screenshots", 9);
    FindAt(s, "base-url", 0);
    FindAt(s, "files", 1);
    TextEntriesRead("file", a.screenshots.files);
  }

  lemma DependenciesReadBack(a: Addon)
    ensures ParseDependencies(InfoBody(a)) == Ok(Dependencies([], IdsOf(a.dependencies)))
  {
    assert Find(InfoBody(a), "dependencies").None?;
    FindAt(InfoBody(a), "dependency-ids", 10);
    TextEntriesRead("dependency", IdsOf(a.dependencies));
  }

  lemma HeaderReadBack(a: Addon)
    ensures GetText(InfoBody(a), "id") == Ok(Some(a.id))
    ensures ParseVersion(InfoBody(a)) == Ok(a.version)
    ensures GetText(InfoBody(a), "type") == Ok(Some(TypeToString(a.addonType)))
  {
    var m := InfoBody(a);
    FindAt(m, "id", 0);
    FindAt(m, "version", 1);
    FindAt(m, "type", 2);
    VersionReadBack(a.version);
  }

  lemma AbsentKeys(a: Addon)
    ensures GetText(InfoBody(a), "url") == Ok(None) && GetText(InfoBody(a), "md5") == Ok(None)
  {
    var m := InfoBody(a);
    assert forall i :: 0 <= i < |m.entries| ==> |m.entries[i].key| != 3;
  }

  lemma TextsReadBack(a: Addon)
    ensures ReadTexts(InfoBody(a)) == Ok(TextFields(a.title, a.description, a.author, a.license, a.originUrl, "", a.upstreamUrl, ""))
  {
    var m := InfoBody(a);
    TextsFoundFirst(a);
    TextsFoundLast(a);
    AbsentKeys(a);
    assert GetText(m, "title") == Ok(Some(a.title));
  }

  /** The title, description and author are found under their keys. */
  lemma TextsFoundFirst(a: Addon)
    ensures var m := InfoBody(a);
      GetText(m, "title") == Ok(Some(a.title)) && GetText(m, "description") == Ok(Some(a.description)) &&
      GetText(m, "author") == Ok(Some(a.author))
  {
    var m := InfoBody(a);
    FindAt(m, "title", 3);
    FindAt(m, "description", 4);
    FindAt(m, "author", 5);
  }

  /** The license and the two urls are found under their keys. */
  lemma TextsFoundLast(a: Addon)
    ensures var m := InfoBody(a);
      GetText(m, "license") == Ok(Some(a.license)) &&
      GetText(m, "origin-url") == Ok(Some(a.originUrl)) && GetText(m, "upstream-url") == Ok(Some(a.upstreamUrl))
  {
    var m := InfoBody(a);
    FindAt(m, "license", 6);
    FindAt(m, "origin-url", 7);
    FindAt(m, "upstream-url", 8);
  }

  /**
   * Writing an add-on and reading it back keeps everything but the url, the
   * md5 and the dependency add-ons themselves (only their ids come back),
   * and the manager's fields.
   */
  lemma WriteThenRead(a: Addon)
    requires ValidId(a.id)
    ensures ParseDocument(InfoDocument(a)) == Ok(Reloaded(a))
  {
    TypeRoundTrip(a.addonType);
    HeaderReadBack(a);
    TextsReadBack(a);
    ScreenshotsReadBack(a);
    DependenciesReadBack(a);
  }

  /** An add-on read from "dependency-ids" loses those ids when written and read again. */
  lemma ListedIdsAreLost(a: Addon)
    requires ValidId(a.id) && a.dependencies == [] && a.dependencyIds != []
    ensures ParseDocument(InfoDocument(a)).Ok?
    ensures ParseDocument(InfoDocument(a)).value.dependencyIds == [] != a.dependencyIds
  {
    WriteThenRead(a);
  }

  // ---------------------------------------------------------------------
  // The constructor, step by step

  /** Puts already-read texts in front of the outcome of the rest. */
  function PrependTexts(done: seq<string>, rest: Result<seq<string>, ParseError>): Result<seq<string>, ParseError> {
    if rest.Ok? then Ok(done + rest.value) else rest
  }

  lemma PrependTextsLaws(done: seq<string>, t: string, rest: Result<seq<string>, ParseError>)
    ensures PrependTexts([], rest) == rest
    ensures PrependTexts(done, Ok([])) == Ok(done)
    ensures PrependTexts(done, PrependTexts([t], rest)) == PrependTexts(done + [t], rest)
  {
    if rest.Ok? {
      assert [] + rest.value == rest.value;
      assert done + ([t] + rest.value) == (done + [t]) + rest.value;
    }
    assert done + [] == done;
  }

  /** One step of the dependency list: the k-th entry's outcome goes in front of the rest's. */
  lemma DependencyListStep(d: Mapping, k: nat)
    requires k < |d.entries|
    ensures Dependency(d.entries[k]).Err? ==> DependencyList(d, k) == Err(Dependency(d.entries[k]).error)
    ensures Dependency(d.entries[k]).Ok? ==>
      (var a := Dependency(d.entries[k]).value; DependencyList(d, k) == Prepend([a], [a.id], DependencyList(d, k + 1)))
  {
  }

  /** One step of the "dependencies" loop: a failing entry is the overall error, an accepted one moves into the prefix. */
  lemma ReadDependencyStep(d: Mapping, k: nat, addons: seq<Addon>, ids: seq<string>)
    requires k < |d.entries|
    requires DependencyList(d, 0) == Prepend(addons, ids, DependencyList(d, k))
    ensures Dependency(d.entries[k]).Err? ==> DependencyList(d, 0) == Err(Dependency(d.entries[k]).error)
    ensures Dependency(d.entries[k]).Ok? ==>
      (var a := Dependency(d.entries[k]).value;
       DependencyList(d, 0) == Prepend(addons + [a], ids + [a.id], DependencyList(d, k + 1)))
  {
    DependencyListStep(d, k);
    if Dependency(d.entries[k]).Ok? {
      var a := Dependency(d.entries[k]).value;
      PrependTwice(addons, ids, a, DependencyList(d, k + 1));
    }
  }

  /** Prepending nothing changes nothing; prepending to an empty outcome gives the prefix. */
  lemma PrependEmpty(addons: seq<Addon>, ids: seq<string>, rest: Result<Dependencies, ParseError>)
    ensures Prepend([], [], rest) == rest
    ensures Prepend(addons, ids, Ok(Dependencies([], []))) == Ok(Dependencies(addons, ids))
  {
    if rest.Ok? {
      assert [] + rest.value.addons == rest.value.addons;
      assert [] + rest.value.ids == rest.value.ids;
    }
    assert addons + [] == addons && ids + [] == ids;
  }

  /** Prepending twice is prepending the concatenation. */
  lemma PrependTwice(addons: seq<Addon>, ids: seq<string>, a: Addon, rest: Result<Dependencies, ParseError>)
    ensures Prepend(addons, ids, Prepend([a], [a.id], rest)) == Prepend(addons + [a], ids + [a.id], rest)
  {
    if rest.Ok? {
      assert addons + ([a] + rest.value.addons) == (addons + [a]) + rest.value.addons;
      assert ids + ([a.id] + rest.value.ids) == (ids + [a.id]) + rest.value.ids;
    }
  }

  /** The loops over the screenshot files and the dependency ids: push each text in turn, throwing at the first other key. */
  method ReadTextList(es: seq<Entry>, key: string) returns (r: Result<seq<string>, ParseError>)
    ensures r == TextList(es, key)
  {
    var texts: seq<string> := [];
    var k := 0;
    assert es[0..] == es;
    PrependTextsLaws([], "", TextList(es, key));
    while k < |es|
      invariant 0 <= k <= |es|
      invariant TextList(es, key) == PrependTexts(texts, TextList(es[k..], key))
    {
      assert es[k..][0] == es[k] && es[k..][1..] == es[k + 1..];
      if es[k].key != key {
        return Err(InvalidField(es[k].key));
      }
      if !es[k].value.Text? {
        return Err(WrongValueType(key));
      }
      assert TextList(es[k..], key) == PrependTexts([es[k].value.text], TextList(es[k + 1..], key));
      PrependTextsLaws(texts, es[k].value.text, TextList(es[k + 1..], key));
      texts := texts + [es[k].value.text];
      k := k + 1;
    }
    assert es[k..] == [];
    PrependTextsLaws(texts, "", TextList(es[k..], key));
    return Ok(texts);
  }

  /**
   * Addon::Addon: fills the description field by field, appending screenshot
   * files, dependency add-ons and their ids in loops; a nested dependency is
   * read by the same constructor.
   */
  method NewAddon(m: Mapping) returns (r: Result<Addon, ParseError>)
    ensures r == ParseAddon(m)
    decreases m, 2
  {
    var id := CheckId(m);
    if id.Err? {
      return Err(id.error);
    }
    var version := ParseVersion(m);
    if version.Err? {
      return Err(version.error);
    }
    var typeName := GetText(m, "type");
    if typeName.Err? {
      return Err(typeName.error);
    }
    var addonType := TypeFromString(TextOr(typeName.value, ""));
    if addonType.Err? {
      return Err(addonType.error);
    }
    var t := ReadTexts(m);
    if t.Err? {
      return Err(t.error);
    }
    var screenshots := Screenshots("", []);
    var shots := GetMapping(m, "screenshots");
    if shots.Err? {
      return Err(shots.error);
    }
    if shots.value.Some? {
      var s := shots.value.value;
      var baseUrl := GetText(s, "base-url");
      if baseUrl.Err? {
        return Err(baseUrl.error);
      }
      var filesMapping := GetMapping(s, "files");
      if filesMapping.Err? {
        return Err(filesMapping.error);
      }
      var files: seq<string> := [];
      if filesMapping.value.Some? {
        var read := ReadTextList(filesMapping.value.value.entries, "file");
        if read.Err? {
          return Err(read.error);
        }
        files := read.value;
      }
      screenshots := Screenshots(TextOr(baseUrl.value, ""), files);
    }
    assert ParseScreenshots(m) == Ok(screenshots);
    var deps := ReadDependencies(m);
    if deps.Err? {
      return Err(deps.error);
    }
    var tv := t.value;
    return Ok(Addon(id.value, version.value, addonType.value, tv.title, tv.description, tv.author, tv.license,
                    tv.originUrl, tv.url, tv.upstreamUrl, tv.md5, screenshots, deps.value.addons, deps.value.ids, "", false));
  }

  /** The dependencies part of the constructor: the "dependencies" loop, else the "dependency-ids" loop. */
  method ReadDependencies(m: Mapping) returns (r: Result<Dependencies, ParseError>)
    ensures r == ParseDependencies(m)
    decreases m, 1
  {
    var d := GetMapping(m, "dependencies");
    if d.Err? {
      return Err(d.error);
    }
    if d.value.Some? {
      r := ReadDependencyList(d.value.value);
      return;
    }
    var listed := GetMapping(m, "dependency-ids");
    if listed.Err? {
      return Err(listed.error);
    }
    if listed.value.None? {
      return Ok(Dependencies([], []));
    }
    var ids := ReadTextList(listed.value.value.entries, "dependency");
    if ids.Err? {
      return Err(ids.error);
    }
    return Ok(Dependencies([], ids.value));
  }

  /** One "dependencies" entry, read by the constructor itself. */
  method ReadDependency(e: Entry) returns (r: Result<Addon, ParseError>)
    ensures r == Dependency(e)
    decreases e
  {
    if e.key != "dependency" {
      return Err(InvalidField(e.key));
    }
    if !e.value.Nested? {
      return Err(BadDependency(WrongValueType("dependency")));
    }
    var a := NewAddon(e.value.mapping);
    if a.Err? {
      return Err(BadDependency(a.error));
    }
    return a;
  }

  /** The "dependencies" loop: each entry is read as an add-on and both lists grow together. */
  method ReadDependencyList(d: Mapping) returns (r: Result<Dependencies, ParseError>)
    ensures r == DependencyList(d, 0)
    decreases d, |d.entries| + 1
  {
    var addons: seq<Addon> := [];
    var ids: seq<string> := [];
    var k := 0;
    PrependEmpty([], [], DependencyList(d, 0));
    while k < |d.entries|
      invariant 0 <= k <= |d.entries|
      invariant DependencyList(d, 0) == Prepend(addons, ids, DependencyList(d, k))
    {
      var a := ReadDependency(d.entries[k]);
      ReadDependencyStep(d, k, addons, ids);
      if a.Err? {
        return Err(a.error);
      }
      addons := addons + [a.value];
      ids := ids + [a.value.id];
      k := k + 1;
    }
    PrependEmpty(addons, ids, DependencyList(d, k));
    return Ok(Dependencies(addons, ids));
  }
}
