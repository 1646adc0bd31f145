/**
 * TileManager's tile table, loaded from a tileset file, and the frame a
 * tile shows when drawn.
 */
module Tiles {
  import opened Wrappers
  import opened CInt

  /** A tile as the table holds it; `images` are the paths of its frames. */
  datatype Tile = Tile(
    id: nat, solid: bool, brick: bool, ice: bool, water: bool, fullbox: bool,
    distro: bool, goal: bool, data: int, nextTile: int, animSpeed: int,
    images: seq<string>, editorImages: seq<string>)

  /** A "tile" entry of a tileset file: its id and whichever optional keys it has. */
  datatype TileFields = TileFields(
    id: nat, solid: Option<bool>, brick: Option<bool>, ice: Option<bool>,
    water: Option<bool>, fullbox: Option<bool>, distro: Option<bool>, goal: Option<bool>,
    data: Option<int>, animSpeed: Option<int>, nextTile: Option<int>,
    images: Option<seq<string>>, editorImages: Option<seq<string>>)

  datatype TileGroup = TileGroup(name: string, tiles: seq<int>)

  /** The entries of a tileset file, in file order. */
  datatype TilesetEntry =
    | TileDef(fields: TileFields)
    | TilesetInclude(file: Option<string>)
    | TileGroupDef(name: Option<string>, tiles: Option<seq<int>>)
    | Properties(id: Option<nat>)
    | Unhandled(key: string)

  /** A readable tileset file: the root's name and its entries. */
  datatype Document = Document(root: string, entries: seq<TilesetEntry>)

  /** The manager's state: the table (null slots are None), the file loaded last and the tile groups. */
  datatype TileState = TileState(tiles: seq<Option<Tile>>, current: string, groups: set<TileGroup>)

  const TILESET_DIR: string := "images/tilesets/"
  const DEFAULT_ANIM_SPEED: int := 25

  function Or<T>(o: Option<T>, default: T): T {
    if o.Some? then o.value else default
  }

  /** A new tile: keys that are absent give non-solid, no flags, data 0, next tile 0 and animation speed 25. */
  function NewTile(f: TileFields): (t: Tile)
    ensures t.id == f.id
    ensures f.solid.None? ==> !t.solid
    ensures f.brick.None? && f.ice.None? && f.water.None? && f.fullbox.None? && f.distro.None? && f.goal.None? ==>
      !t.brick && !t.ice && !t.water && !t.fullbox && !t.distro && !t.goal
    ensures f.data.None? ==> t.data == 0
    ensures f.nextTile.None? ==> t.nextTile == 0
    ensures f.animSpeed.None? ==> t.animSpeed == DEFAULT_ANIM_SPEED
    ensures f.animSpeed.Some? ==> t.animSpeed == f.animSpeed.value
    ensures |t.images| == |Or(f.images, [])| &&
      forall i :: 0 <= i < |t.images| ==> t.images[i] == TILESET_DIR + Or(f.images, [])[i]
  {
    Tile(f.id, Or(f.solid, false), Or(f.brick, false), Or(f.ice, false), Or(f.water, false),
         Or(f.fullbox, false), Or(f.distro, false), Or(f.goal, false), Or(f.data, 0),
         Or(f.nextTile, 0), Or(f.animSpeed, DEFAULT_ANIM_SPEED),
         Prefixed(Or(f.images, [])), Prefixed(Or(f.editorImages, [])))
  }

  /** Every image name with the tileset directory in front. */
  function Prefixed(names: seq<string>): (r: seq<string>)
    ensures |r| == |names| && forall i :: 0 <= i < |names| ==> r[i] == TILESET_DIR + names[i]
  {
    seq(|names|, i requires 0 <= i < |names| => TILESET_DIR + names[i])
  }

  /**
   * Stores a tile at an index: the table grows with empty slots to index + 1
   * when it is shorter, and every other slot keeps its tile.
   */
  function StoreTile(tiles: seq<Option<Tile>>, index: nat, t: Tile): (r: seq<Option<Tile>>)
    ensures |r| == if index < |tiles| then |tiles| else index + 1
    ensures r[index] == Some(t)
    ensures forall i :: 0 <= i < |tiles| && i != index ==> r[i] == tiles[i]
    ensures forall i :: |tiles| <= i < |r| && i != index ==> r[i] == None
  {
    var grown := if index < |tiles| then tiles else tiles + seq(index + 1 - |tiles|, _ => None);
    grown[index := Some(t)]
  }

  /**
   * load_tileset: loading the file that is already loaded changes nothing;
   * otherwise the table is cleared and, if the file is readable and its
   * root is "supertux-tiles", its entries are processed and the file becomes
   * the current one. `fuel` bounds how deep includes are followed.
   */
  function Load(st: TileState, filename: string, files: map<string, Document>, fuel: nat): (r: TileState)
    decreases fuel, 1
  {
    if filename == st.current then st
    else
      var cleared := st.(tiles := []);
      if filename !in files || files[filename].root != "supertux-tiles" then cleared
      else Process(cleared, files[filename].entries, 0, 0, files, fuel).(current := filename)
  }

  /** The entries from the k-th on, with tileset_id as the offset added to tile ids. */
  function Process(st: TileState, entries: seq<TilesetEntry>, k: nat, tilesetId: nat,
                   files: map<string, Document>, fuel: nat): (r: TileState)
    requires k <= |entries|
    decreases fuel, 0, |entries| - k
  {
    if k == |entries| then st
    else match entries[k]
      case TileDef(f) =>
        Process(st.(tiles := StoreTile(st.tiles, f.id + tilesetId, NewTile(f))), entries, k + 1, tilesetId, files, fuel)
      case TilesetInclude(file) =>
        if fuel == 0 then Process(st, entries, k + 1, tilesetId, files, fuel)
        else Process(Load(st, TILESET_DIR + Or(file, ""), files, fuel - 1), entries, k + 1, tilesetId, files, fuel)
      case TileGroupDef(name, tiles) =>
        Process(st.(groups := st.groups + {TileGroup(Or(name, ""), Or(tiles, []))}), entries, k + 1, tilesetId, files, fuel)
      case Properties(id) =>
        Process(st, entries, k + 1, Or(id, tilesetId) * 1000, files, fuel)
      case Unhandled(_) =>
        Process(st, entries, k + 1, tilesetId, files, fuel)
  }

  /** A "properties" entry offsets the tiles read after it by 1000 times its id. */
  lemma PropertiesOffsetsLaterTiles(st: TileState, n: nat, f: TileFields, tilesetId: nat,
                                    files: map<string, Document>, fuel: nat)
    ensures Process(st, [Properties(Some(n)), TileDef(f)], 0, tilesetId, files, fuel).tiles ==
      StoreTile(st.tiles, f.id + n * 1000, NewTile(f))
    ensures Process(st, [TileDef(f), Properties(Some(n))], 0, tilesetId, files, fuel).tiles ==
      StoreTile(st.tiles, f.id + tilesetId, NewTile(f))
  {
    var e1 := [Properties(Some(n)), TileDef(f)];
    var st1 := st.(tiles := StoreTile(st.tiles, f.id + n * 1000, NewTile(f)));
    assert Process(st, e1, 0, tilesetId, files, fuel) == Process(st, e1, 1, n * 1000, files, fuel);
    assert Process(st, e1, 1, n * 1000, files, fuel) == Process(st1, e1, 2, n * 1000, files, fuel);
    var e2 := [TileDef(f), Properties(Some(n))];
    var st2 := st.(tiles := StoreTile(st.tiles, f.id + tilesetId, NewTile(f)));
    assert Process(st, e2, 0, tilesetId, files, fuel) == Process(st2, e2, 1, tilesetId, files, fuel);
    assert Process(st2, e2, 1, tilesetId, files, fuel) == Process(st2, e2, 2, n * 1000, files, fuel);
  }

  /** A "properties" entry without an id multiplies the offset it already has by 1000 once more. */
  lemma PropertiesWithoutIdScalesOffset(st: TileState, f: TileFields, tilesetId: nat,
                                        files: map<string, Document>, fuel: nat)
    ensures Process(st, [Properties(None), TileDef(f)], 0, tilesetId, files, fuel).tiles ==
      StoreTile(st.tiles, f.id + tilesetId * 1000, NewTile(f))
  {
    var e := [Properties(None), TileDef(f)];
    var st1 := st.(tiles := StoreTile(st.tiles, f.id + tilesetId * 1000, NewTile(f)));
    assert Process(st, e, 0, tilesetId, files, fuel) == Process(st, e, 1, tilesetId * 1000, files, fuel);
    assert Process(st, e, 1, tilesetId * 1000, files, fuel) == Process(st1, e, 2, tilesetId * 1000, files, fuel);
  }

  /**
   * Loading a file other than the current one starts from an empty table: the
   * tiles loaded before (by the including file, say) do not survive it.
   */
  lemma LoadForgetsEarlierTiles(st: TileState, other: seq<Option<Tile>>, filename: string,
                                files: map<string, Document>, fuel: nat)
    requires filename != st.current
    ensures Load(st, filename, files, fuel) == Load(st.(tiles := other), filename, files, fuel)
  {
    assert st.(tiles := []) == st.(tiles := other).(tiles := []);
  }

  /** A file that cannot be read, or whose root is wrong, leaves the table empty and the current file as it was. */
  lemma FailedLoadEmptiesTable(st: TileState, filename: string, files: map<string, Document>, fuel: nat)
    requires filename != st.current
    requires filename !in files || files[filename].root != "supertux-tiles"
    ensures Load(st, filename, files, fuel).tiles == []
    ensures Load(st, filename, files, fuel).current == st.current
  {
  }

  /** A later tile with the same index replaces the earlier one. */
  lemma LaterTileWins(st: TileState, f: TileFields, g: TileFields, tilesetId: nat,
                      files: map<string, Document>, fuel: nat)
    requires f.id == g.id
    ensures var r := Process(st, [TileDef(f), TileDef(g)], 0, tilesetId, files, fuel).tiles;
      f.id + tilesetId < |r| && r[f.id + tilesetId] == Some(NewTile(g))
  {
    var e := [TileDef(f), TileDef(g)];
    var st1 := st.(tiles := StoreTile(st.tiles, f.id + tilesetId, NewTile(f)));
    var st2 := st1.(tiles := StoreTile(st1.tiles, g.id + tilesetId, NewTile(g)));
    assert Process(st, e, 0, tilesetId, files, fuel) == Process(st1, e, 1, tilesetId, files, fuel);
    assert Process(st1, e, 1, tilesetId, files, fuel) == Process(st2, e, 2, tilesetId, files, fuel);
  }

  class TileManager {
    var tiles: seq<Option<Tile>>
    var currentTileset: string
    var tilegroups: set<TileGroup>

    function State(): TileState
      reads this
    {
      TileState(tiles, currentTileset, tilegroups)
    }

    /** The manager starts by loading the main tileset. */
    constructor (files: map<string, Document>, fuel: nat)
      ensures State() == Load(TileState([], "", {}), TILESET_DIR + "supertux.stgt", files, fuel)
    {
      tiles := [];
      currentTileset := "";
      tilegroups := {};
      new;
      LoadTileset(TILESET_DIR + "supertux.stgt", files, fuel);
    }

    method LoadTileset(filename: string, files: map<string, Document>, fuel: nat)
      modifies this
      decreases fuel, 1
      ensures State() == Load(old(State()), filename, files, fuel)
      ensures filename == old(currentTileset) ==> State() == old(State())
      ensures filename != old(currentTileset) && (filename !in files || files[filename].root != "supertux-tiles") ==>
        tiles == [] && currentTileset == old(currentTileset)
    {
      if filename == currentTileset {
        return;
      }
      tiles := [];
      if filename !in files || files[filename].root != "supertux-tiles" {
        return;
      }
      var entries := files[filename].entries;
      ghost var target := Process(State(), entries, 0, 0, files, fuel);
      var tilesetId: nat := 0;
      var k := 0;
      while k < |entries|
        invariant 0 <= k <= |entries|
        invariant Process(State(), entries, k, tilesetId, files, fuel) == target
      {
        match entries[k] {
          case TileDef(f) =>
            tiles := StoreTile(tiles, f.id + tilesetId, NewTile(f));
          case TilesetInclude(file) =>
            if fuel > 0 {
              LoadTileset(TILESET_DIR + Or(file, ""), files, fuel - 1);
            }
          case TileGroupDef(name, groupTiles) =>
            tilegroups := tilegroups + {TileGroup(Or(name, ""), Or(groupTiles, []))};
          case Properties(id) =>
            tilesetId := Or(id, tilesetId) * 1000;
          case Unhandled(_) =>
        }
        k := k + 1;
      }
      currentTileset := filename;
    }
  }

  /** size_t arithmetic: the quotient is converted to a 64-bit unsigned value before the remainder. */
  const SIZE_MODULUS: int := 0x1_0000_0000_0000_0000

  /**
   * What Tile::draw and Tile::draw_stretched show for tile id c: nothing
   * for id 0, a missing tile or a tile without images; image 0 for a single
   * image; otherwise image (frame_counter * 25 / anim_speed) mod the image
   * count, which divides by zero when the tile's anim-speed is 0.
   */
  datatype Drawing = NotDrawn | Drawn(image: nat) | DivisionByZero

  function DrawnImage(c: nat, t: Option<Tile>, frameCounter: nat): (r: Drawing)
    ensures r.Drawn? ==> c != 0 && t.Some? && r.image < |t.value.images|
    ensures r.NotDrawn? <==> c == 0 || t.None? || |t.value.images| == 0
    ensures r.DivisionByZero? <==> c != 0 && t.Some? && |t.value.images| > 1 && t.value.animSpeed == 0
    ensures c != 0 && t.Some? && |t.value.images| == 1 ==> r == Drawn(0)
  {
    if c == 0 || t.None? then NotDrawn
    else if |t.value.images| > 1 then
      if t.value.animSpeed == 0 then DivisionByZero
      else Drawn((CDiv(frameCounter * 25, t.value.animSpeed) % SIZE_MODULUS) % |t.value.images|)
    else if |t.value.images| == 1 then Drawn(0)
    else NotDrawn
  }

  /** At the default speed the frame advances once per frame counted, cycling through the images. */
  lemma DefaultSpeedCyclesEveryFrame(c: nat, t: Tile, frameCounter: nat)
    requires c != 0 && |t.images| > 1 && t.animSpeed == DEFAULT_ANIM_SPEED
    requires frameCounter < SIZE_MODULUS
    ensures DrawnImage(c, Some(t), frameCounter) == Drawn(frameCounter % |t.images|)
  {
    assert CDiv(frameCounter * 25, 25) == frameCounter;
  }
}
