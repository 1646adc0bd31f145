/**
 * EditorMenu's level conversion: reads a tile mapping of "a -> b" lines and
 * replaces every tile of every tilemap of every sector once through it.
 */
module EditorMenu {
  import opened Wrappers

  /** One "a delimiter b" triple as the stream reads it. */
  datatype MappingLine = MappingLine(from: int, delimiter: string, to: int)

  datatype ConvertError = CannotOpen | CannotParse

  /** The mapping the lines describe, a later line for the same tile overriding an earlier one. */
  function MappingOf(lines: seq<MappingLine>): (m: map<int, int>)
    ensures forall k :: 0 <= k < |lines| ==> lines[k].from in m
  {
    if lines == [] then map[]
    else
      var init := lines[..|lines| - 1];
      var last := lines[|lines| - 1];
      assert forall k :: 0 <= k < |init| ==> init[k] == lines[k];
      MappingOf(init)[last.from := last.to]
  }

  /** The mapping holds no tile that no line names. */
  lemma {:induction false} MappingOfNamesOnly(lines: seq<MappingLine>, a: int)
    requires a in MappingOf(lines)
    ensures exists k :: 0 <= k < |lines| && lines[k].from == a
  {
    var init := lines[..|lines| - 1];
    var last := lines[|lines| - 1];
    if a != last.from {
      MappingOfNamesOnly(init, a);
      var k :| 0 <= k < |init| && init[k].from == a;
      assert lines[k] == init[k];
    }
  }

  /** A tile is mapped to the target of the last line that names it. */
  lemma {:induction false} LaterLineWins(lines: seq<MappingLine>, k: nat)
    requires k < |lines|
    requires forall j :: k < j < |lines| ==> lines[j].from != lines[k].from
    ensures MappingOf(lines)[lines[k].from] == lines[k].to
  {
    if k < |lines| - 1 {
      LaterLineWins(lines[..|lines| - 1], k);
    }
  }

  /** The one-step replacement: a mapped tile becomes its target, any other tile stays. */
  function Substitute(tiles: map<int, int>, t: int): (r: int)
    ensures t in tiles ==> r == tiles[t]
    ensures t !in tiles ==> r == t
  {
    if t in tiles then tiles[t] else t
  }

  /** A chain 1 -> 2, 2 -> 3 turns 1 into 2 and 2 into 3, never 1 into 3. */
  lemma SubstitutionIsNotChained()
    ensures var tiles := MappingOf([MappingLine(1, "->", 2), MappingLine(2, "->", 3)]);
      Substitute(tiles, 1) == 2 && Substitute(tiles, 2) == 3 && Substitute(tiles, 3) == 3
  {
    var lines := [MappingLine(1, "->", 2), MappingLine(2, "->", 3)];
    assert lines[..1] == [MappingLine(1, "->", 2)];
    assert lines[..1][..0] == [];
  }

  /** One more line of the prefix adds or overrides one entry. */
  lemma MappingOfPrefix(lines: seq<MappingLine>, i: nat)
    requires i < |lines|
    ensures MappingOf(lines[..i + 1]) == MappingOf(lines[..i])[lines[i].from := lines[i].to]
  {
    assert lines[..i + 1][..i] == lines[..i];
  }

  /** Reads the lines into a map; any delimiter other than "->" is an error. */
  method ParseMapping(lines: seq<MappingLine>) returns (r: Result<map<int, int>, ConvertError>)
    ensures r.Err? <==> exists k :: 0 <= k < |lines| && lines[k].delimiter != "->"
    ensures r.Err? ==> r.error == CannotParse
    ensures r.Ok? ==> r.value == MappingOf(lines)
  {
    var tiles: map<int, int> := map[];
    var i := 0;
    while i < |lines|
      invariant 0 <= i <= |lines|
      invariant forall k :: 0 <= k < i ==> lines[k].delimiter == "->"
      invariant tiles == MappingOf(lines[..i])
    {
      if lines[i].delimiter != "->" {
        return Err(CannotParse);
      }
      MappingOfPrefix(lines, i);
      tiles := tiles[lines[i].from := lines[i].to];
      i := i + 1;
    }
    assert lines[..i] == lines;
    return Ok(tiles);
  }

  /** Replaces every tile of one tilemap once; the map is read, never re-applied. */
  method ConvertTileMap(tilemap: array2<int>, tiles: map<int, int>)
    modifies tilemap
    ensures forall x, y :: 0 <= x < tilemap.Length0 && 0 <= y < tilemap.Length1 ==>
      tilemap[x, y] == Substitute(tiles, old(tilemap[x, y]))
  {
    var x := 0;
    while x < tilemap.Length0
      invariant 0 <= x <= tilemap.Length0
      invariant forall i, j :: 0 <= i < x && 0 <= j < tilemap.Length1 ==>
        tilemap[i, j] == Substitute(tiles, old(tilemap[i, j]))
      invariant forall i, j :: x <= i < tilemap.Length0 && 0 <= j < tilemap.Length1 ==>
        tilemap[i, j] == old(tilemap[i, j])
    {
      var y := 0;
      while y < tilemap.Length1
        invariant 0 <= y <= tilemap.Length1
        invariant forall i, j :: 0 <= i < x && 0 <= j < tilemap.Length1 ==>
          tilemap[i, j] == Substitute(tiles, old(tilemap[i, j]))
        invariant forall j :: 0 <= j < y ==> tilemap[x, j] == Substitute(tiles, old(tilemap[x, j]))
        invariant forall i, j :: x <= i < tilemap.Length0 && 0 <= j < tilemap.Length1 && (i > x || j >= y) ==>
          tilemap[i, j] == old(tilemap[i, j])
      {
        var tile := tilemap[x, y];
        if tile in tiles {
          tilemap[x, y] := tiles[tile];
        }
        y := y + 1;
      }
      x := x + 1;
    }
  }

  /** Every tilemap of every sector, as a set of arrays. */
  function AllTileMaps(sectors: seq<seq<array2<int>>>): set<array2<int>> {
    set s, t | 0 <= s < |sectors| && 0 <= t < |sectors[s]| :: sectors[s][t]
  }

  /** No tilemap appears twice in the level. */
  predicate Distinct(sectors: seq<seq<array2<int>>>) {
    forall s, t, s', t' ::
      (0 <= s < |sectors| && 0 <= t < |sectors[s]| &&
       0 <= s' < |sectors| && 0 <= t' < |sectors[s']| && (s, t) != (s', t')) ==>
      sectors[s][t] != sectors[s'][t']
  }

  /**
   * The whole conversion: an unreadable file or a bad line leaves the level
   * untouched; otherwise every tile of every tilemap is substituted once.
   */
  method ConvertLevel(fileGood: bool, lines: seq<MappingLine>, sectors: seq<seq<array2<int>>>)
    returns (r: Result<(), ConvertError>)
    requires Distinct(sectors)
    modifies AllTileMaps(sectors)
    ensures !fileGood ==> r == Err(CannotOpen)
    ensures fileGood ==> (r.Err? <==> exists k :: 0 <= k < |lines| && lines[k].delimiter != "->")
    ensures r.Err? ==> forall m :: m in AllTileMaps(sectors) ==> unchanged(m)
    ensures r.Ok? ==> forall s, t, x, y ::
      (0 <= s < |sectors| && 0 <= t < |sectors[s]| &&
       0 <= x < sectors[s][t].Length0 && 0 <= y < sectors[s][t].Length1) ==>
      sectors[s][t][x, y] == Substitute(MappingOf(lines), old(sectors[s][t][x, y]))
  {
    if !fileGood {
      return Err(CannotOpen);
    }
    var parsed := ParseMapping(lines);
    if parsed.Err? {
      return Err(parsed.error);
    }
    var tiles := parsed.value;
    var i := 0;
    while i < |sectors|
      invariant 0 <= i <= |sectors|
      invariant forall s, t, x, y ::
        (0 <= s < i && 0 <= t < |sectors[s]| &&
         0 <= x < sectors[s][t].Length0 && 0 <= y < sectors[s][t].Length1) ==>
        sectors[s][t][x, y] == Substitute(tiles, old(sectors[s][t][x, y]))
      invariant forall s, t :: i <= s < |sectors| && 0 <= t < |sectors[s]| ==> unchanged(sectors[s][t])
    {
      var j := 0;
      while j < |sectors[i]|
        invariant 0 <= j <= |sectors[i]|
        invariant forall s, t, x, y ::
          (0 <= s < i && 0 <= t < |sectors[s]| &&
           0 <= x < sectors[s][t].Length0 && 0 <= y < sectors[s][t].Length1) ==>
          sectors[s][t][x, y] == Substitute(tiles, old(sectors[s][t][x, y]))
        invariant forall t, x, y ::
          (0 <= t < j && 0 <= x < sectors[i][t].Length0 && 0 <= y < sectors[i][t].Length1) ==>
          sectors[i][t][x, y] == Substitute(tiles, old(sectors[i][t][x, y]))
        invariant forall s, t :: i <= s < |sectors| && 0 <= t < |sectors[s]| && (s > i || t >= j) ==>
          unchanged(sectors[s][t])
      {
        ConvertTileMap(sectors[i][j], tiles);
        j := j + 1;
      }
      i := i + 1;
    }
    return Ok(());
  }
}
