/** SpriteManager: the registry of sprites by name, filled from a resource file. */
module SpriteManager {
  import opened Wrappers

  /** A sprite as the registry holds it: its name and, abstractly, its actions. */
  datatype Sprite = Sprite(name: string, actions: seq<string>)

  /**
   * An entry of the resource file: a "sprite" entry carries the sprite it
   * describes, or None when building the sprite from it fails; any other tag
   * is just its key.
   */
  datatype ResEntry = SpriteEntry(sprite: Option<Sprite>) | OtherEntry(key: string)

  /** A readable resource file: its root's name and its entries. */
  datatype ResDocument = ResDocument(root: string, entries: seq<ResEntry>)

  const RESOURCES_ROOT: string := "supertux-resources"

  /**
   * The registry after the entries: every sprite is stored under its name,
   * replacing an earlier one of that name; other tags are skipped; a sprite
   * that fails to build stops the reading, keeping what came before it.
   */
  function Registered(sprites: map<string, Sprite>, entries: seq<ResEntry>): (r: map<string, Sprite>)
    ensures sprites.Keys <= r.Keys
    decreases |entries|
  {
    if entries == [] then sprites
    else match entries[0]
      case SpriteEntry(Some(s)) => Registered(sprites[s.name := s], entries[1..])
      case SpriteEntry(None) => sprites
      case OtherEntry(_) => Registered(sprites, entries[1..])
  }

  /** Every sprite entry built without error. */
  predicate AllSpritesBuild(entries: seq<ResEntry>) {
    forall i :: 0 <= i < |entries| ==> entries[i] != SpriteEntry(None)
  }

  /** When every sprite builds, a sprite is registered under its name unless a later entry of that name replaces it. */
  lemma {:induction false} LastDuplicateWins(sprites: map<string, Sprite>, entries: seq<ResEntry>, k: nat)
    requires AllSpritesBuild(entries)
    requires k < |entries| && entries[k].SpriteEntry?
    requires forall j :: k < j < |entries| && entries[j].SpriteEntry? ==> entries[j].sprite.value.name != entries[k].sprite.value.name
    ensures var s := entries[k].sprite.value;
      s.name in Registered(sprites, entries) && Registered(sprites, entries)[s.name] == s
    decreases |entries|
  {
    var s := entries[k].sprite.value;
    if k == 0 {
      var m := sprites[s.name := s];
      KeptUnlessRenamed(m, entries[1..], s.name);
    } else {
      var m := if entries[0].SpriteEntry? then sprites[entries[0].sprite.value.name := entries[0].sprite.value] else sprites;
      assert Registered(sprites, entries) == Registered(m, entries[1..]);
      LastDuplicateWins(m, entries[1..], k - 1);
    }
  }

  /** An entry of the registry survives entries that never name it. */
  lemma {:induction false} KeptUnlessRenamed(sprites: map<string, Sprite>, entries: seq<ResEntry>, name: string)
    requires name in sprites && AllSpritesBuild(entries)
    requires forall j :: 0 <= j < |entries| && entries[j].SpriteEntry? ==> entries[j].sprite.value.name != name
    ensures name in Registered(sprites, entries) && Registered(sprites, entries)[name] == sprites[name]
    decreases |entries|
  {
    if entries != [] {
      var m := if entries[0].SpriteEntry? then sprites[entries[0].sprite.value.name := entries[0].sprite.value] else sprites;
      assert Registered(sprites, entries) == Registered(m, entries[1..]);
      KeptUnlessRenamed(m, entries[1..], name);
    }
  }

  /** Only names of sprite entries are added: other tags never register anything. */
  lemma {:induction false} OnlySpritesRegister(sprites: map<string, Sprite>, entries: seq<ResEntry>)
    ensures forall n :: n in Registered(sprites, entries) && n !in sprites ==>
      exists j :: 0 <= j < |entries| && entries[j].SpriteEntry? && entries[j].sprite.Some? &&
        entries[j].sprite.value.name == n
    decreases |entries|
  {
    if entries != [] && entries[0] != SpriteEntry(None) {
      var m := if entries[0].SpriteEntry? then sprites[entries[0].sprite.value.name := entries[0].sprite.value] else sprites;
      OnlySpritesRegister(m, entries[1..]);
      forall n | n in Registered(sprites, entries) && n !in sprites
        ensures exists j ::
          0 <= j < |entries| && entries[j].SpriteEntry? && entries[j].sprite.Some? && entries[j].sprite.value.name == n
      {
        if n in m {
          assert entries[0].SpriteEntry?;
        } else {
          var j :| 0 <= j < |entries[1..]| && entries[1..][j].SpriteEntry? && entries[1..][j].sprite.Some? &&
            entries[1..][j].sprite.value.name == n;
          assert entries[j + 1] == entries[1..][j];
        }
      }
    }
  }

  class SpriteManager {
    var sprites: map<string, Sprite>

    /** The manager starts by loading one resource file. */
    constructor (filename: string, files: map<string, ResDocument>)
      ensures filename in files && files[filename].root == RESOURCES_ROOT ==>
        sprites == Registered(map[], files[filename].entries)
      ensures !(filename in files && files[filename].root == RESOURCES_ROOT) ==> sprites == map[]
    {
      sprites := map[];
      new;
      LoadResfile(filename, files);
    }

    /**
     * load_resfile: a missing file or a root other than "supertux-resources"
     * registers nothing; otherwise the entries are registered in order.
     */
    method LoadResfile(filename: string, files: map<string, ResDocument>)
      modifies this
      ensures filename in files && files[filename].root == RESOURCES_ROOT ==>
        sprites == Registered(old(sprites), files[filename].entries)
      ensures !(filename in files && files[filename].root == RESOURCES_ROOT) ==> sprites == old(sprites)
    {
      if filename !in files || files[filename].root != RESOURCES_ROOT {
        return;
      }
      var entries := files[filename].entries;
      var k := 0;
      while k < |entries|
        invariant 0 <= k <= |entries|
        invariant Registered(sprites, entries[k..]) == Registered(old(sprites), entries)
      {
        assert entries[k..][0] == entries[k] && entries[k..][1..] == entries[k + 1..];
        match entries[k] {
          case SpriteEntry(sprite) =>
            if sprite.None? {
              return;
            }
            sprites := sprites[sprite.value.name := sprite.value];
          case OtherEntry(_) =>
        }
        k := k + 1;
      }
    }

    /** load: the sprite registered under the name, or null when there is none. */
    function Load(name: string): (r: Option<Sprite>)
      reads this
      ensures r.Some? <==> name in sprites
      ensures r.Some? ==> r.value == sprites[name] && r.value in sprites.Values
    {
      if name in sprites then Some(sprites[name]) else None
    }
  }
}
