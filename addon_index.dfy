/**
 * AddonIndex: one page of the add-on repository's index, a
 * "supertux-addons" document listing add-on descriptions and the links to
 * the neighbouring pages.
 */
module AddonIndex {
  import opened Wrappers
  import opened Addons

  const INDEX_ROOT: string := "supertux-addons"
  const ADDON_INFO_KEY: string := "supertux-addoninfo"

  datatype IndexError =
    | NotAnIndex
    | UnknownEntry(key: string)
    | WrongIndexValue(key: string)
    | BadAddon(cause: ParseError)

  /** The fields of an AddonIndex. */
  datatype Index = Index(addons: seq<Addon>, previousPageUrl: string, nextPageUrl: string, totalPages: int)

  /** An entry the index constructor accepts: a page link or count of the right kind, or any add-on entry. */
  predicate KnownEntry(e: Entry) {
    ((e.key == "previous-page" || e.key == "next-page") && e.value.Text?) ||
    (e.key == "total-pages" && e.value.Number?) ||
    e.key == ADDON_INFO_KEY
  }

  /** The exception an entry the constructor does not accept raises. */
  function EntryError(e: Entry): IndexError
    requires !KnownEntry(e)
  {
    if e.key == "previous-page" || e.key == "next-page" || e.key == "total-pages" then WrongIndexValue(e.key)
    else UnknownEntry(e.key)
  }

  /** The add-on an entry contributes: an add-on entry whose description is accepted. */
  function AddonOf(e: Entry): (r: Option<Addon>)
    ensures r.Some? <==> e.key == ADDON_INFO_KEY && e.value.Nested? && ParseAddon(e.value.mapping).Ok?
    ensures r.Some? ==> ParseAddon(e.value.mapping) == Ok(r.value)
  {
    if e.key == ADDON_INFO_KEY && e.value.Nested? && ParseAddon(e.value.mapping).Ok? then
      Some(ParseAddon(e.value.mapping).value)
    else None
  }

  /** What f gives for the entries, in the order of the entries; entries it gives nothing for are skipped. */
  function Collected(es: seq<Entry>, f: Entry -> Option<Addon>): (r: seq<Addon>)
    ensures |r| <= |es|
  {
    if es == [] then []
    else
      var last := es[|es| - 1];
      Collected(es[..|es| - 1], f) + (if f(last).Some? then [f(last).value] else [])
  }

  /** The add-ons of the accepted entries, in the order of the entries; the others are skipped. */
  function IndexedAddons(es: seq<Entry>): seq<Addon> {
    Collected(es, AddonOf)
  }

  /** The value of the last text entry with the key, or the default when there is none. */
  function LastText(es: seq<Entry>, key: string, default: string): string {
    if es == [] then default
    else
      var last := es[|es| - 1];
      if last.key == key && last.value.Text? then last.value.text
      else LastText(es[..|es| - 1], key, default)
  }

  /** The value of the last number entry with the key, or the default when there is none. */
  function LastNumber(es: seq<Entry>, key: string, default: int): int {
    if es == [] then default
    else
      var last := es[|es| - 1];
      if last.key == key && last.value.Number? then last.value.number
      else LastNumber(es[..|es| - 1], key, default)
  }

  /** Without a text entry with the key, the default stays. */
  lemma {:induction false} NoTextKeepsDefault(es: seq<Entry>, key: string, default: string)
    requires forall i :: 0 <= i < |es| ==> !(es[i].key == key && es[i].value.Text?)
    ensures LastText(es, key, default) == default
  {
    if es != [] {
      var init := es[..|es| - 1];
      assert forall i :: 0 <= i < |init| ==> init[i] == es[i];
      NoTextKeepsDefault(init, key, default);
    }
  }

  /** The text entry with the key that no later one overrides gives the value. */
  lemma {:induction false} LastTextWins(es: seq<Entry>, key: string, default: string, i: nat)
    requires i < |es| && es[i].key == key && es[i].value.Text?
    requires forall j :: i < j < |es| ==> !(es[j].key == key && es[j].value.Text?)
    ensures LastText(es, key, default) == es[i].value.text
  {
    if i < |es| - 1 {
      var init := es[..|es| - 1];
      assert forall j :: 0 <= j < |init| ==> init[j] == es[j];
      LastTextWins(init, key, default, i);
    }
  }

  /** Without a number entry with the key, the default stays. */
  lemma {:induction false} NoNumberKeepsDefault(es: seq<Entry>, key: string, default: int)
    requires forall i :: 0 <= i < |es| ==> !(es[i].key == key && es[i].value.Number?)
    ensures LastNumber(es, key, default) == default
  {
    if es != [] {
      var init := es[..|es| - 1];
      assert forall i :: 0 <= i < |init| ==> init[i] == es[i];
      NoNumberKeepsDefault(init, key, default);
    }
  }

  /** The number entry with the key that no later one overrides gives the value. */
  lemma {:induction false} LastNumberWins(es: seq<Entry>, key: string, default: int, i: nat)
    requires i < |es| && es[i].key == key && es[i].value.Number?
    requires forall j :: i < j < |es| ==> !(es[j].key == key && es[j].value.Number?)
    ensures LastNumber(es, key, default) == es[i].value.number
  {
    if i < |es| - 1 {
      var init := es[..|es| - 1];
      assert forall j :: 0 <= j < |init| ==> init[j] == es[j];
      LastNumberWins(init, key, default, i);
    }
  }

  /** The first entry the constructor refuses, if any. */
  function FirstUnknown(es: seq<Entry>, k: nat): (r: Option<nat>)
    requires k <= |es|
    ensures r.None? ==> forall i :: k <= i < |es| ==> KnownEntry(es[i])
    ensures r.Some? ==> (k <= r.value < |es| && !KnownEntry(es[r.value]) &&
                         forall i :: k <= i < r.value ==> KnownEntry(es[i]))
    decreases |es| - k
  {
    if k == |es| then None
    else if !KnownEntry(es[k]) then Some(k)
    else FirstUnknown(es, k + 1)
  }

  /**
   * AddonIndex::parse, as a definition: a wrong root or a refused entry is
   * an error; otherwise the accepted add-ons in order, and for each page
   * field the last value given (or the empty default).
   */
  function IndexOf(doc: Document): (r: Result<Index, IndexError>)
    ensures r == Err(NotAnIndex) <==> doc.root != INDEX_ROOT
    ensures r.Ok? <==> doc.root == INDEX_ROOT && forall i :: 0 <= i < |doc.body.entries| ==> KnownEntry(doc.body.entries[i])
  {
    var es := doc.body.entries;
    if doc.root != INDEX_ROOT then Err(NotAnIndex)
    else
      match FirstUnknown(es, 0)
      case Some(i) => Err(EntryError(es[i]))
      case None =>
        Ok(Index(IndexedAddons(es), LastText(es, "previous-page", ""), LastText(es, "next-page", ""),
                 LastNumber(es, "total-pages", 0)))
  }

  /** Collecting keeps the order of the entries: two runs of entries give their add-ons one after the other. */
  lemma {:induction false} CollectedAppend(a: seq<Entry>, b: seq<Entry>, f: Entry -> Option<Addon>)
    ensures Collected(a + b, f) == Collected(a, f) + Collected(b, f)
    decreases |b|
  {
    if b == [] {
      assert a + b == a;
    } else {
      var b' := b[..|b| - 1];
      assert (a + b)[..|a + b| - 1] == a + b';
      CollectedAppend(a, b', f);
    }
  }

  /** Every entry's add-on is collected, and every collected add-on comes from an entry. */
  lemma {:induction false} CollectedMembers(es: seq<Entry>, f: Entry -> Option<Addon>)
    ensures forall i :: 0 <= i < |es| && f(es[i]).Some? ==> f(es[i]).value in Collected(es, f)
    ensures forall a :: a in Collected(es, f) ==> exists i :: 0 <= i < |es| && f(es[i]) == Some(a)
  {
    if es != [] {
      var init := es[..|es| - 1];
      CollectedMembers(init, f);
      assert forall i :: 0 <= i < |init| ==> init[i] == es[i];
    }
  }

  /** The constructor's loop: appends the accepted add-ons and lets a later page field overwrite an earlier one. */
  method ParseIndex(doc: Document) returns (r: Result<Index, IndexError>)
    ensures r == IndexOf(doc)
  {
    if doc.root != INDEX_ROOT {
      return Err(NotAnIndex);
    }
    var es := doc.body.entries;
    var addons: seq<Addon> := [];
    var previousPageUrl := "";
    var nextPageUrl := "";
    var totalPages := 0;
    var k := 0;
    while k < |es|
      invariant 0 <= k <= |es|
      invariant forall i :: 0 <= i < k ==> KnownEntry(es[i])
      invariant addons == IndexedAddons(es[..k])
      invariant previousPageUrl == LastText(es[..k], "previous-page", "")
      invariant nextPageUrl == LastText(es[..k], "next-page", "")
      invariant totalPages == LastNumber(es[..k], "total-pages", 0)
    {
      var e := es[k];
      if e.key == "previous-page" {
        if !e.value.Text? {
          RefusedEntry(doc, k);
          return Err(WrongIndexValue(e.key));
        }
        previousPageUrl := e.value.text;
      } else if e.key == "next-page" {
        if !e.value.Text? {
          RefusedEntry(doc, k);
          return Err(WrongIndexValue(e.key));
        }
        nextPageUrl := e.value.text;
      } else if e.key == "total-pages" {
        if !e.value.Number? {
          RefusedEntry(doc, k);
          return Err(WrongIndexValue(e.key));
        }
        totalPages := e.value.number;
      } else if e.key == ADDON_INFO_KEY {
        if e.value.Nested? {
          var a := NewAddon(e.value.mapping);
          if a.Ok? {
            addons := addons + [a.value];
          }
        }
      } else {
        RefusedEntry(doc, k);
        return Err(UnknownEntry(e.key));
      }
      AcceptedEntry(es, k);
      k := k + 1;
    }
    assert es[..k] == es;
    return Ok(Index(addons, previousPageUrl, nextPageUrl, totalPages));
  }

  /** The first refused entry decides the error of the whole index. */
  lemma RefusedEntry(doc: Document, k: nat)
    requires doc.root == INDEX_ROOT && k < |doc.body.entries| && !KnownEntry(doc.body.entries[k])
    requires forall i :: 0 <= i < k ==> KnownEntry(doc.body.entries[i])
    ensures IndexOf(doc) == Err(EntryError(doc.body.entries[k]))
  {
    FirstUnknownSkips(doc.body.entries, 0, k);
  }

  /** One more accepted entry: its add-on is appended and its page field replaces the earlier one. */
  lemma AcceptedEntry(es: seq<Entry>, k: nat)
    requires k < |es|
    ensures var e := es[k];
      IndexedAddons(es[..k + 1]) == IndexedAddons(es[..k]) + (if AddonOf(e).Some? then [AddonOf(e).value] else [])
    ensures var e := es[k];
      LastText(es[..k + 1], "previous-page", "") ==
        if e.key == "previous-page" && e.value.Text? then e.value.text else LastText(es[..k], "previous-page", "")
    ensures var e := es[k];
      LastText(es[..k + 1], "next-page", "") ==
        if e.key == "next-page" && e.value.Text? then e.value.text else LastText(es[..k], "next-page", "")
    ensures var e := es[k];
      LastNumber(es[..k + 1], "total-pages", 0) ==
        if e.key == "total-pages" && e.value.Number? then e.value.number else LastNumber(es[..k], "total-pages", 0)
  {
    assert es[..k + 1][..k] == es[..k] && es[..k + 1][k] == es[k];
  }

  /** The search for a refused entry passes over accepted ones. */
  lemma {:induction false} FirstUnknownSkips(es: seq<Entry>, j: nat, k: nat)
    requires j <= k <= |es|
    requires forall i :: j <= i < k ==> KnownEntry(es[i])
    ensures FirstUnknown(es, j) == FirstUnknown(es, k)
    decreases k - j
  {
    if j < k {
      FirstUnknownSkips(es, j + 1, k);
    }
  }

  /** An add-on entry whose "id" reads as the wanted id (an absent id reads as ""). */
  predicate HasId(e: Entry, id: string) {
    e.key == ADDON_INFO_KEY && e.value.Nested? &&
    GetText(e.value.mapping, "id").Ok? && TextOr(GetText(e.value.mapping, "id").value, "") == id
  }

  /** An entry where parse_addon's search stops: an add-on entry that throws, or one with the wanted id. */
  predicate Stops(e: Entry, id: string) {
    e.key == ADDON_INFO_KEY &&
    (!e.value.Nested? || GetText(e.value.mapping, "id").Err? || TextOr(GetText(e.value.mapping, "id").value, "") == id)
  }

  /** The first entry from the k-th on where the search stops; other keys are passed over. */
  function FirstStop(es: seq<Entry>, k: nat, id: string): (r: Option<nat>)
    requires k <= |es|
    ensures r.None? ==> forall i :: k <= i < |es| ==> !Stops(es[i], id)
    ensures r.Some? ==> (k <= r.value < |es| && Stops(es[r.value], id) &&
                         forall i :: k <= i < r.value ==> !Stops(es[i], id))
    decreases |es| - k
  {
    if k == |es| then None
    else if Stops(es[k], id) then Some(k)
    else FirstStop(es, k + 1, id)
  }

  /**
   * AddonIndex::parse_addon: a wrong root is an error; entries with other
   * keys are skipped; an add-on entry that is not a mapping, or whose id
   * cannot be read, throws; the first entry with the wanted id is read as
   * an add-on; no such entry gives null.
   */
  function FindAddon(doc: Document, id: string): (r: Result<Option<Addon>, IndexError>)
    ensures doc.root != INDEX_ROOT ==> r == Err(NotAnIndex)
    ensures r.Ok? && r.value.Some? ==> r.value.value.id == id
    ensures r == Ok(None) ==> forall i :: 0 <= i < |doc.body.entries| ==> !HasId(doc.body.entries[i], id)
  {
    if doc.root != INDEX_ROOT then Err(NotAnIndex)
    else
      match FirstStop(doc.body.entries, 0, id)
      case None => Ok(None)
      case Some(i) =>
        var e := doc.body.entries[i];
        if !e.value.Nested? then Err(WrongIndexValue(ADDON_INFO_KEY))
        else
          match GetText(e.value.mapping, "id")
          case Err(cause) => Err(BadAddon(cause))
          case Ok(_) =>
            match ParseAddon(e.value.mapping)
            case Ok(a) => Ok(Some(a))
            case Err(cause) => Err(BadAddon(cause))
  }

  /** The add-on found is read from the first add-on entry with the wanted id. */
  lemma FoundAddonIsFirst(doc: Document, id: string)
    requires FindAddon(doc, id).Ok? && FindAddon(doc, id).value.Some?
    ensures var i := FirstStop(doc.body.entries, 0, id);
      i.Some? && HasId(doc.body.entries[i.value], id) &&
      ParseAddon(doc.body.entries[i.value].value.mapping) == Ok(FindAddon(doc, id).value.value) &&
      forall j :: 0 <= j < i.value ==> !HasId(doc.body.entries[j], id)
  {
  }

  /** An add-on parse_addon finds is one of the add-ons the whole index lists. */
  lemma FoundAddonIsListed(doc: Document, id: string)
    requires IndexOf(doc).Ok? && FindAddon(doc, id).Ok? && FindAddon(doc, id).value.Some?
    ensures FindAddon(doc, id).value.value in IndexOf(doc).value.addons
  {
    var es := doc.body.entries;
    var a := FindAddon(doc, id).value.value;
    var i := FirstStop(es, 0, id).value;
    assert AddonOf(es[i]) == Some(a);
    CollectedMembers(es, AddonOf);
  }
}
