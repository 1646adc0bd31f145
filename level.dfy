/**
 * The legacy level: three layers (background, interactive, foreground) of
 * 15 tile rows each, a width, badguy start positions and reset points.
 */
module Level {
  import opened CInt
  import opened Wrappers

  /** Every layer has this many rows. */
  const ROWS: nat := 15
  /** The width a new level gets, and the least width a resize allows. */
  const MIN_WIDTH: int := 21
  /** Tiles are 32 pixels square. */
  const TILE_SIZE: int := 32

  /** The layers `change` can write to; any other code selects none. */
  datatype TileMapKind = Background | Interactive | Foreground | OtherKind(code: int)

  /** A badguy's kind and start position in pixels. */
  datatype BadGuyData = BadGuyData(kind: int, x: int, y: int, stayOnPlatform: bool)

  datatype ResetPoint = ResetPoint(x: int, y: int)

  // ----- Rows -----

  /** n zero cells. */
  function Zeros(n: nat): (r: seq<int>)
    ensures |r| == n && forall i :: 0 <= i < n ==> r[i] == 0
  {
    seq(n, _ => 0)
  }

  /** std::vector::resize(n, 0): keeps the first n cells, zero-fills any new ones. */
  function Resize(row: seq<int>, n: nat): (r: seq<int>)
    ensures |r| == n
    ensures forall i :: 0 <= i < n && i < |row| ==> r[i] == row[i]
    ensures forall i :: |row| <= i < n ==> r[i] == 0
  {
    if n <= |row| then row[..n] else row + Zeros(n - |row|)
  }

  /** Every row resized to n cells. */
  function ResizeRows(rows: seq<seq<int>>, n: nat): (r: seq<seq<int>>)
    ensures |r| == |rows| && forall y :: 0 <= y < |rows| ==> r[y] == Resize(rows[y], n)
  {
    seq(|rows|, y requires 0 <= y < |rows| => Resize(rows[y], n))
  }

  /** Resizing to the current length changes nothing, and resizing twice keeps only the smaller prefix. */
  lemma ResizeProperties(row: seq<int>, n: nat, m: nat)
    ensures Resize(row, |row|) == row
    ensures m <= n ==> Resize(Resize(row, n), m) == Resize(row, m)
  {
    assert row[..|row|] == row;
  }

  // ----- Cells from pixel coordinates -----

  /** The cell a pixel coordinate falls in: the float is cast to int, then divided by 32, both rounding toward zero. */
  function CellOf(x: real): int {
    CDiv(Truncate(x), TILE_SIZE)
  }

  /** Coordinates in (-32, 0) land in cell 0, like those in [0, 32). */
  lemma SmallNegativeCoordinatesMapToCellZero(x: real)
    requires -32.0 < x < 32.0
    ensures CellOf(x) == 0
  {
    var t := Truncate(x);
    assert -32 < t < 32;
    assert Abs(t) / 32 == 0;
  }

  /** A non-negative coordinate lands in the cell whose 32-pixel span holds it. */
  lemma CellOfNonNegative(x: real)
    requires x >= 0.0
    ensures var c := CellOf(x); c >= 0 && (c * 32) as real <= x < (c * 32 + 32) as real
  {
    var t := Truncate(x);
    var c := CellOf(x);
    assert c == t / 32;
    assert t == c * 32 + t % 32;
  }

  /** The guard `change`, `gettileid` and `get_tile_at` use as written: the column may equal the width. */
  predicate InGridAsWritten(xx: int, yy: int, width: int) {
    0 <= yy < ROWS && 0 <= xx <= width
  }

  /** The guard with the column kept inside the width. */
  predicate InGrid(xx: int, yy: int, width: int) {
    0 <= yy < ROWS && 0 <= xx < width
  }

  /**
   * get_tile_at as written, on rows whose lengths are what they are: None
   * stands for the out-of-bounds read the guard lets through.
   */
  function TileAtAsWritten(rows: seq<seq<int>>, width: int, x: int, y: int): (r: Option<int>)
    requires |rows| == ROWS
    ensures r.None? <==> InGridAsWritten(x, y, width) && x >= |rows[y]|
    ensures !InGridAsWritten(x, y, width) ==> r == Some(0)
    ensures InGridAsWritten(x, y, width) && x < |rows[y]| ==> r == Some(rows[y][x])
  {
    if x < 0 || x > width || y < 0 || y > 14 then Some(0)
    else if x < |rows[y]| then Some(rows[y][x])
    else None
  }

  /** get_tile_at with the column kept inside the width: 0 outside the grid, the cell inside it. */
  function TileAt(rows: seq<seq<int>>, width: int, x: int, y: int): (r: int)
    requires |rows| == ROWS && forall k :: 0 <= k < ROWS ==> |rows[k]| >= width
    ensures !InGrid(x, y, width) ==> r == 0
    ensures InGrid(x, y, width) ==> r == rows[y][x]
  {
    if x < 0 || x >= width || y < 0 || y > 14 then 0 else rows[y][x]
  }

  /** After a resize every row is exactly `width` long, so the as-written guard reads one cell past the row. */
  lemma ColumnAtWidthIsOutOfBounds(rows: seq<seq<int>>, newWidth: int)
    requires |rows| == ROWS
    ensures var w := if newWidth < MIN_WIDTH then MIN_WIDTH else newWidth;
      TileAtAsWritten(ResizeRows(rows, w), w, w, 0).None?
  {
  }

  /** Where the corrected guard and the as-written one both read in bounds, they agree except at column == width. */
  lemma TileAtAgreesInsideWidth(rows: seq<seq<int>>, width: int, x: int, y: int)
    requires |rows| == ROWS && forall k :: 0 <= k < ROWS ==> |rows[k]| >= width
    requires x != width
    ensures TileAtAsWritten(rows, width, x, y) == Some(TileAt(rows, width, x, y))
  {
  }

  /** Writing one cell: only that cell of that row changes. */
  function SetCell(rows: seq<seq<int>>, xx: int, yy: int, c: int): (r: seq<seq<int>>)
    requires 0 <= yy < |rows| && 0 <= xx < |rows[yy]|
    ensures |r| == |rows| && forall y :: 0 <= y < |rows| ==> |r[y]| == |rows[y]|
    ensures forall y, x :: 0 <= y < |rows| && 0 <= x < |rows[y]| ==>
      r[y][x] == if y == yy && x == xx then c else rows[y][x]
  {
    rows[yy := rows[yy][xx := c]]
  }

  // ----- The row-major fill of `load` -----

  /** k = y * w + x with 0 <= x < w determines x and y. */
  lemma DivModUnique(k: int, w: int, y: int, x: int)
    requires w > 0 && 0 <= x < w && k == y * w + x
    ensures k / w == y && k % w == x
  {
    var q := k / w;
    var m := k % w;
    assert k == q * w + m && 0 <= m < w;
    var d := y - q;
    assert d * w == y * w - q * w;
    assert d * w == m - x;
    if d >= 1 {
      MulAtLeast(d, w);
    } else if d <= -1 {
      MulAtLeast(-d, w);
    }
  }

  lemma MulAtLeast(a: int, w: int)
    requires a >= 1 && w > 0
    ensures a * w >= w
  {
    assert a * w == (a - 1) * w + w;
    assert (a - 1) * w >= 0;
  }

  /** Cells of the first 15 rows and the first `width` columns are numbered row by row. */
  lemma CellIndexBelowGrid(r: int, c: int, width: int)
    requires width >= 1 && 0 <= r < ROWS && 0 <= c < width
    ensures 0 <= r * width + c < ROWS * width
  {
    assert r * width <= (ROWS - 1) * width;
  }

  /**
   * The rows after the fill: value k of the tile list goes to row k div width,
   * column k mod width (as a 32-bit unsigned value); values past the 15th
   * row are dropped and every other cell keeps its value.
   */
  function Filled(rows: seq<seq<int>>, tm: seq<int>, width: int): (r: seq<seq<int>>)
    requires width >= 1
    ensures |r| == |rows| && forall y :: 0 <= y < |rows| ==> |r[y]| == |rows[y]|
  {
    seq(|rows|, y requires 0 <= y < |rows| =>
      seq(|rows[y]|, x requires 0 <= x < |rows[y]| =>
        if x < width && 0 <= y * width + x < |tm| then ToUnsigned(tm[y * width + x]) else rows[y][x]))
  }

  /** The k-th value lands at row k div width, column k mod width, as long as it falls in the 15 rows. */
  lemma FillPlacesValue(rows: seq<seq<int>>, tm: seq<int>, width: int, k: int)
    requires width >= 1 && |rows| == ROWS && forall y :: 0 <= y < ROWS ==> |rows[y]| >= width
    requires 0 <= k < |tm| && k < ROWS * width
    ensures Filled(rows, tm, width)[k / width][k % width] == ToUnsigned(tm[k])
  {
    var q, m := k / width, k % width;
    QuotientBelow(k, width, ROWS);
    assert k == q * width + m && 0 <= m < width;
  }

  /** A cell number below n rows of width w lies in one of those rows. */
  lemma QuotientBelow(k: int, w: int, n: int)
    requires w > 0 && 0 <= k < n * w
    ensures 0 <= k / w < n
  {
    var q := k / w;
    assert k == q * w + k % w;
    if q >= n {
      MulMonotoneInt(n, q, w);
    }
  }

  lemma MulMonotoneInt(a: int, b: int, w: int)
    requires a <= b && w > 0
    ensures a * w <= b * w
  {
    assert b * w == a * w + (b - a) * w;
  }

  /** Values past the 15th row leave no trace. */
  lemma FillDropsOverflow(rows: seq<seq<int>>, tm: seq<int>, width: int)
    requires width >= 1 && |rows| == ROWS && |tm| >= ROWS * width
    ensures Filled(rows, tm, width) == Filled(rows, tm[..ROWS * width], width)
  {
    var a := Filled(rows, tm, width);
    var b := Filled(rows, tm[..ROWS * width], width);
    forall y | 0 <= y < ROWS
      ensures a[y] == b[y]
    {
      forall x | 0 <= x < |rows[y]|
        ensures a[y][x] == b[y][x]
      {
        if x < width {
          CellIndexBelowGrid(y, x, width);
        }
      }
    }
  }

  /** One more value fills exactly one more cell. */
  lemma FilledStep(rows: seq<seq<int>>, tm: seq<int>, width: int, j: int, i: int)
    requires width >= 1 && |rows| == ROWS && forall y :: 0 <= y < ROWS ==> |rows[y]| >= width
    requires 0 <= j < ROWS && 0 <= i < width && j * width + i < |tm|
    ensures var k := j * width + i;
      Filled(rows, tm[..k + 1], width) == SetCell(Filled(rows, tm[..k], width), i, j, ToUnsigned(tm[k]))
  {
    var k := j * width + i;
    var a := Filled(rows, tm[..k + 1], width);
    var b := SetCell(Filled(rows, tm[..k], width), i, j, ToUnsigned(tm[k]));
    forall y, x | 0 <= y < ROWS && 0 <= x < |rows[y]|
      ensures a[y][x] == b[y][x]
    {
      if x < width && y * width + x == k {
        DivModUnique(k, width, y, x);
        DivModUnique(k, width, j, i);
      }
    }
    assert forall y :: 0 <= y < ROWS ==> a[y] == b[y];
  }

  /** The fill loop of `load`: a column counter that wraps at the width and a row counter that stops at 15. */
  method FillRows(rows: seq<seq<int>>, tm: seq<int>, width: int) returns (out: seq<seq<int>>)
    requires width >= 1 && |rows| == ROWS && forall y :: 0 <= y < ROWS ==> |rows[y]| >= width
    ensures out == Filled(rows, tm, width)
  {
    out := rows;
    var k := 0;
    var i := 0;
    var j := 0;
    assert tm[..0] == [];
    assert forall y :: 0 <= y < ROWS ==> Filled(rows, [], width)[y] == rows[y];
    while k < |tm|
      invariant 0 <= k <= |tm| && 0 <= i < width && 0 <= j <= ROWS
      invariant k == j * width + i && (j == ROWS ==> i == 0)
      invariant out == Filled(rows, tm[..k], width)
    {
      if j >= ROWS {
        break;
      }
      FilledStep(rows, tm, width, j, i);
      out := SetCell(out, i, j, ToUnsigned(tm[k]));
      ghost var i0, j0 := i, j;
      if i == width - 1 {
        i := 0;
        j := j + 1;
      } else {
        i := i + 1;
      }
      assert RowLength(width) == width;
      NextCell(k, width, j0, i0, j, i);
      k := k + 1;
    }
    if k < |tm| {
      FillDropsOverflow(rows, tm, width);
    } else {
      assert tm[..k] == tm;
    }
  }

  /** The rows resized to width + 1 cells, then filled. */
  method FillResized(rows: seq<seq<int>>, tm: seq<int>, width: int) returns (out: seq<seq<int>>)
    requires width >= 1 && |rows| == ROWS
    ensures out == Filled(ResizeRows(rows, width + 1), tm, width)
    ensures |out| == ROWS && forall y :: 0 <= y < ROWS ==> |out[y]| == width + 1
  {
    var resized := ResizeRows(rows, width + 1);
    assert forall y :: 0 <= y < ROWS ==> |resized[y]| == width + 1;
    out := FillRows(resized, tm, width);
  }

  // ----- Version-0 conversion -----

  /** Old levels stored characters; these are the tile IDs they stand for. */
  const TRANSTABLE: map<int, int> := map[
    '.' as int := 0, 'x' as int := 104, 'X' as int := 77, 'y' as int := 78,
    'Y' as int := 105, 'A' as int := 83, 'B' as int := 102, '!' as int := 103,
    'a' as int := 84, 'C' as int := 85, 'D' as int := 86, 'E' as int := 87,
    'F' as int := 88, 'c' as int := 89, 'd' as int := 90, 'e' as int := 91,
    'f' as int := 92, 'G' as int := 93, 'H' as int := 94, 'I' as int := 95,
    'J' as int := 96, 'g' as int := 97, 'h' as int := 98, 'i' as int := 99,
    'j' as int := 100, '#' as int := 11, '[' as int := 13, '=' as int := 14,
    ']' as int := 15, '$' as int := 82, '^' as int := 76, '*' as int := 80,
    '|' as int := 79, '\\' as int := 81, '&' as int := 75]

  /** '0', '1' and '2' in an old level are badguys of kind 0, 1 and 2. */
  predicate IsBadGuyChar(v: int) {
    v == '0' as int || v == '1' as int || v == '2' as int
  }

  /**
   * What one old cell becomes: a badguy character becomes 0; otherwise the
   * value, narrowed to a char for the lookup, is translated if the table has
   * it and kept if not.
   */
  function ConvertCell(v: int): (r: int)
    ensures IsBadGuyChar(v) ==> r == 0
    ensures !IsBadGuyChar(v) && v % 256 in TRANSTABLE ==> r == TRANSTABLE[v % 256]
    ensures !IsBadGuyChar(v) && v % 256 !in TRANSTABLE ==> r == v
  {
    if IsBadGuyChar(v) then 0
    else if v % 256 in TRANSTABLE then TRANSTABLE[v % 256]
    else v
  }

  /** No converted cell holds a badguy character: the table never produces '0', '1' or '2', and badguy cells become 0. */
  lemma ConvertedCellIsNoBadGuy(v: int)
    ensures !IsBadGuyChar(ConvertCell(v))
  {
    if !IsBadGuyChar(v) && v % 256 in TRANSTABLE {
      var t := TRANSTABLE[v % 256];
      assert t in TRANSTABLE.Values;
      assert forall u :: u in TRANSTABLE.Values ==> u == 0 || 11 <= u <= 15 || 75 <= u <= 105;
    }
  }

  /** The column counter wraps at the width; a width below 1 puts every cell in column 0 of its own row. */
  function RowLength(width: int): (w: int)
    ensures w >= 1
  {
    if width < 1 then 1 else width
  }

  /** The badguys the conversion appends, one per badguy cell in list order, at 32 times the cell's column and row. */
  function BadGuysOf(s: seq<int>, width: int): (r: seq<BadGuyData>)
    ensures |r| <= |s|
  {
    if s == [] then []
    else
      var k := |s| - 1;
      var w := RowLength(width);
      BadGuysOf(s[..k], width) +
        if IsBadGuyChar(s[k]) then [BadGuyData(s[k] - '0' as int, (k % w) * 32, (k / w) * 32, false)] else []
  }

  function CountBadGuyChars(s: seq<int>): nat {
    if s == [] then 0 else CountBadGuyChars(s[..|s| - 1]) + if IsBadGuyChar(s[|s| - 1]) then 1 else 0
  }

  /** Exactly one badguy per badguy cell, each of kind 0, 1 or 2. */
  lemma {:induction false} OneBadGuyPerCell(s: seq<int>, width: int)
    ensures |BadGuysOf(s, width)| == CountBadGuyChars(s)
    ensures forall b :: b in BadGuysOf(s, width) ==> 0 <= b.kind <= 2 && !b.stayOnPlatform
  {
    if s != [] {
      OneBadGuyPerCell(s[..|s| - 1], width);
    }
  }

  /** Advancing the column counter, and wrapping it at the width, keeps k == y * w + x. */
  lemma NextCell(k: int, width: int, y: int, x: int, y': int, x': int)
    requires 0 <= x < RowLength(width) && k == y * RowLength(width) + x
    requires (x', y') == if x + 1 >= width then (0, y + 1) else (x + 1, y)
    ensures 0 <= x' < RowLength(width) && k + 1 == y' * RowLength(width) + x'
  {
    var w := RowLength(width);
    assert (y + 1) * w == y * w + w;
  }

  /** One more cell at column x of row y adds at most its own badguy. */
  lemma BadGuysStep(s: seq<int>, k: nat, width: int, y: int, x: int)
    requires k < |s| && 0 <= x < RowLength(width) && k == y * RowLength(width) + x
    ensures BadGuysOf(s[..k + 1], width) == BadGuysOf(s[..k], width) +
      if IsBadGuyChar(s[k]) then [BadGuyData(s[k] - '0' as int, x * 32, y * 32, false)] else []
  {
    DivModUnique(k, RowLength(width), y, x);
    assert s[..k + 1][..k] == s[..k];
  }

  /**
   * The conversion loop, in place on the tile list: returns the badguys the
   * old characters stood for.
   */
  method ConvertVersion0(tm: array<int>, width: int) returns (badguys: seq<BadGuyData>)
    modifies tm
    ensures forall k :: 0 <= k < tm.Length ==> tm[k] == ConvertCell(old(tm[k]))
    ensures badguys == BadGuysOf(old(tm[..]), width)
  {
    ghost var s := tm[..];
    ghost var w := RowLength(width);
    badguys := [];
    var x := 0;
    var y := 0;
    var k := 0;
    assert s[..0] == [];
    while k < tm.Length
      invariant 0 <= k <= tm.Length && 0 <= x < w && k == y * w + x
      invariant forall i :: 0 <= i < k ==> tm[i] == ConvertCell(s[i])
      invariant forall i :: k <= i < tm.Length ==> tm[i] == s[i]
      invariant badguys == BadGuysOf(s[..k], width)
    {
      BadGuysStep(s, k, width, y, x);
      var v := tm[k];
      if IsBadGuyChar(v) {
        badguys := badguys + [BadGuyData(v - '0' as int, x * 32, y * 32, false)];
      }
      // a cell the table does not know is written back unchanged
      tm[k] := ConvertCell(v);
      ghost var x0, y0 := x, y;
      x := x + 1;
      if x >= width {
        x := 0;
        y := y + 1;
      }
      NextCell(k, width, y0, x0, y, x);
      k := k + 1;
    }
    assert s[..k] == s;
  }

  // ----- The level -----

  class Level {
    var width: int
    var bgTiles: seq<seq<int>>
    var iaTiles: seq<seq<int>>
    var fgTiles: seq<seq<int>>
    var badguys: seq<BadGuyData>
    var resetPoints: seq<ResetPoint>
    var name: string
    var author: string
    var songTitle: string
    var bkgdImage: string

    /** Each layer holds its 15 rows. */
    ghost predicate Valid()
      reads this
    {
      |bgTiles| == ROWS && |iaTiles| == ROWS && |fgTiles| == ROWS
    }

    /** Every row of every layer is at least `width` cells long, so columns below the width can be read and written. */
    ghost predicate Wide()
      reads this
    {
      Valid() &&
      (forall y :: 0 <= y < ROWS ==> |bgTiles[y]| >= width) &&
      (forall y :: 0 <= y < ROWS ==> |iaTiles[y]| >= width) &&
      (forall y :: 0 <= y < ROWS ==> |fgTiles[y]| >= width)
    }

    /** init_defaults: width 21, and every row of every layer is width + 1 zero cells. */
    constructor ()
      ensures Wide() && Padded() && width == MIN_WIDTH
      ensures forall y :: 0 <= y < ROWS ==>
        bgTiles[y] == Zeros(22) && iaTiles[y] == Zeros(22) && fgTiles[y] == Zeros(22)
      ensures badguys == [] && resetPoints == []
      ensures name == "UnNamed" && author == "UnNamed"
      ensures songTitle == "Mortimers_chipdisko.mod" && bkgdImage == "arctis.png"
    {
      name := "UnNamed";
      author := "UnNamed";
      songTitle := "Mortimers_chipdisko.mod";
      bkgdImage := "arctis.png";
      width := MIN_WIDTH;
      badguys := [];
      resetPoints := [];
      var rows := [];
      var i := 0;
      while i < ROWS
        invariant 0 <= i <= ROWS && |rows| == i
        invariant forall y :: 0 <= y < i ==> rows[y] == Zeros(MIN_WIDTH + 1)
      {
        rows := rows + [Zeros(MIN_WIDTH + 1)];
        i := i + 1;
      }
      bgTiles := rows;
      iaTiles := rows;
      fgTiles := rows;
    }

    /**
     * The tile part of `load`: an old (version 0) level's interactive list is
     * converted in place and its badguys appended, then the width is set and
     * the three lists are filled into the rows.
     */
    method LoadTiles(newWidth: int, version: int, iaTm: array<int>, bgTm: seq<int>, fgTm: seq<int>)
      requires Valid() && newWidth >= 1
      modifies this, iaTm
      ensures Wide() && Padded() && width == newWidth
      ensures forall k :: 0 <= k < iaTm.Length ==>
        iaTm[k] == if version == 0 then ConvertCell(old(iaTm[k])) else old(iaTm[k])
      ensures badguys == old(badguys) + if version == 0 then BadGuysOf(old(iaTm[..]), newWidth) else []
      ensures iaTiles == Filled(ResizeRows(old(iaTiles), newWidth + 1), iaTm[..], newWidth)
      ensures bgTiles == Filled(ResizeRows(old(bgTiles), newWidth + 1), bgTm, newWidth)
      ensures fgTiles == Filled(ResizeRows(old(fgTiles), newWidth + 1), fgTm, newWidth)
      ensures resetPoints == old(resetPoints) && name == old(name) && author == old(author)
      ensures songTitle == old(songTitle) && bkgdImage == old(bkgdImage)
    {
      if version == 0 {
        var converted := ConvertVersion0(iaTm, newWidth);
        badguys := badguys + converted;
      }
      FillLayers(newWidth, iaTm[..], bgTm, fgTm);
    }

    /** Sets the width, resizes every row to width + 1 and fills the three lists row by row. */
    method FillLayers(newWidth: int, iaTm: seq<int>, bgTm: seq<int>, fgTm: seq<int>)
      requires Valid() && newWidth >= 1
      modifies this
      ensures Wide() && Padded() && width == newWidth
      ensures iaTiles == Filled(ResizeRows(old(iaTiles), newWidth + 1), iaTm, newWidth)
      ensures bgTiles == Filled(ResizeRows(old(bgTiles), newWidth + 1), bgTm, newWidth)
      ensures fgTiles == Filled(ResizeRows(old(fgTiles), newWidth + 1), fgTm, newWidth)
      ensures badguys == old(badguys) && resetPoints == old(resetPoints)
      ensures name == old(name) && author == old(author)
      ensures songTitle == old(songTitle) && bkgdImage == old(bkgdImage)
    {
      var ia := FillResized(iaTiles, iaTm, newWidth);
      var bg := FillResized(bgTiles, bgTm, newWidth);
      var fg := FillResized(fgTiles, fgTm, newWidth);
      width, iaTiles, bgTiles, fgTiles := newWidth, ia, bg, fg;
    }

    /** change_size: the width becomes at least 21 and every row is resized to exactly that width. */
    method ChangeSize(newWidth: int)
      requires Valid()
      modifies this
      ensures Wide() && width == if newWidth < MIN_WIDTH then MIN_WIDTH else newWidth
      ensures bgTiles == ResizeRows(old(bgTiles), width)
      ensures iaTiles == ResizeRows(old(iaTiles), width)
      ensures fgTiles == ResizeRows(old(fgTiles), width)
      ensures badguys == old(badguys) && resetPoints == old(resetPoints)
      ensures name == old(name) && author == old(author)
      ensures songTitle == old(songTitle) && bkgdImage == old(bkgdImage)
    {
      var w := newWidth;
      if w < MIN_WIDTH {
        w := MIN_WIDTH;
      }
      var y := 0;
      var bg, ia, fg := bgTiles, iaTiles, fgTiles;
      while y < ROWS
        invariant 0 <= y <= ROWS && |bg| == ROWS && |ia| == ROWS && |fg| == ROWS
        invariant forall r :: 0 <= r < y ==>
          bg[r] == Resize(bgTiles[r], w) && ia[r] == Resize(iaTiles[r], w) && fg[r] == Resize(fgTiles[r], w)
        invariant forall r :: y <= r < ROWS ==> bg[r] == bgTiles[r] && ia[r] == iaTiles[r] && fg[r] == fgTiles[r]
      {
        bg := bg[y := Resize(bg[y], w)];
        ia := ia[y := Resize(ia[y], w)];
        fg := fg[y := Resize(fg[y], w)];
        y := y + 1;
      }
      bgTiles, iaTiles, fgTiles := bg, ia, fg;
      width := w;
    }

    /**
     * Every row of every layer has a cell at column `width` too, as
     * init_defaults and load leave them (rows of width + 1 cells); change_size
     * does not, since it resizes rows to exactly `width`.
     */
    ghost predicate Padded()
      reads this
    {
      Valid() &&
      (forall y :: 0 <= y < ROWS ==> |bgTiles[y]| > width) &&
      (forall y :: 0 <= y < ROWS ==> |iaTiles[y]| > width) &&
      (forall y :: 0 <= y < ROWS ==> |fgTiles[y]| > width)
    }

    /**
     * change, as written: the cell under pixel (x, y) of the selected layer
     * takes c when its row is below 15 and its column is at most the width.
     * A column the guard lets through but the row does not hold (column ==
     * width after change_size) would be written past the row; the model
     * reports that as `overrun` and writes nothing.
     */
    method Change(x: real, y: real, tm: TileMapKind, c: int) returns (overrun: bool)
      requires Wide() && 0 <= c < 0x1_0000_0000
      modifies this
      ensures Wide() && width == old(width)
      ensures old(Padded()) ==> Padded() && !overrun
      ensures var xx, yy := CellOf(x), CellOf(y);
        overrun <==> (InGridAsWritten(xx, yy, width) &&
                      ((tm == Background && xx >= |old(bgTiles)[yy]|) ||
                       (tm == Interactive && xx >= |old(iaTiles)[yy]|) ||
                       (tm == Foreground && xx >= |old(fgTiles)[yy]|)))
      ensures var xx, yy := CellOf(x), CellOf(y);
        bgTiles == (if tm == Background && InGridAsWritten(xx, yy, width) && !overrun
                    then SetCell(old(bgTiles), xx, yy, c) else old(bgTiles)) &&
        iaTiles == (if tm == Interactive && InGridAsWritten(xx, yy, width) && !overrun
                    then SetCell(old(iaTiles), xx, yy, c) else old(iaTiles)) &&
        fgTiles == (if tm == Foreground && InGridAsWritten(xx, yy, width) && !overrun
                    then SetCell(old(fgTiles), xx, yy, c) else old(fgTiles))
      ensures badguys == old(badguys) && resetPoints == old(resetPoints)
      ensures name == old(name) && author == old(author)
      ensures songTitle == old(songTitle) && bkgdImage == old(bkgdImage)
    {
      overrun := false;
      var yy := CellOf(y);
      var xx := CellOf(x);
      if yy >= 0 && yy < ROWS && xx >= 0 && xx <= width {
        match tm {
          case Background =>
            if xx < |bgTiles[yy]| { bgTiles := SetCell(bgTiles, xx, yy, c); } else { overrun := true; }
          case Interactive =>
            if xx < |iaTiles[yy]| { iaTiles := SetCell(iaTiles, xx, yy, c); } else { overrun := true; }
          case Foreground =>
            if xx < |fgTiles[yy]| { fgTiles := SetCell(fgTiles, xx, yy, c); } else { overrun := true; }
          case OtherKind(_) =>
        }
      }
    }

    /**
     * gettileid, as written: the interactive tile under pixel (x, y), 0
     * outside the guard, and None for a read past the row the guard lets
     * through.
     */
    function GetTileId(x: real, y: real): (c: Option<int>)
      reads this
      requires Valid()
      ensures c == GetTileAt(CellOf(x), CellOf(y))
      ensures Padded() ==> c.Some?
    {
      TileAtAsWritten(iaTiles, width, CellOf(x), CellOf(y))
    }

    /**
     * get_tile_at, as written: 0 outside column 0..width and row 0..14, the
     * cell inside, and None for column == width on a row of only `width`
     * cells.
     */
    function GetTileAt(x: int, y: int): (c: Option<int>)
      reads this
      requires Valid()
      ensures !InGridAsWritten(x, y, width) ==> c == Some(0)
      ensures InGridAsWritten(x, y, width) && x < |iaTiles[y]| ==> c == Some(iaTiles[y][x])
      ensures c.None? <==> InGridAsWritten(x, y, width) && x >= |iaTiles[y]|
      ensures Padded() ==> c.Some?
    {
      TileAtAsWritten(iaTiles, width, x, y)
    }

    /** cleanup: every row, the reset points, the badguys and the level's names are emptied. */
    method Cleanup()
      modifies this
      ensures Valid() && width == old(width)
      ensures forall y :: 0 <= y < ROWS ==> bgTiles[y] == [] && iaTiles[y] == [] && fgTiles[y] == []
      ensures resetPoints == [] && badguys == []
      ensures name == "" && author == "" && songTitle == "" && bkgdImage == ""
    {
      var empty := seq(ROWS, _ => []);
      bgTiles, iaTiles, fgTiles := empty, empty, empty;
      resetPoints := [];
      badguys := [];
      name, author, songTitle, bkgdImage := "", "", "", "";
    }
  }

  /** A write followed by a read of the same cell returns what was written; other cells are untouched. */
  lemma ChangeThenRead(rows: seq<seq<int>>, width: int, xx: int, yy: int, c: int, x: int, y: int)
    requires |rows| == ROWS && forall k :: 0 <= k < ROWS ==> |rows[k]| >= width
    requires InGrid(xx, yy, width)
    ensures TileAt(SetCell(rows, xx, yy, c), width, x, y) ==
      if x == xx && y == yy then c else TileAt(rows, width, x, y)
  {
  }

  /** With the as-written guard, a write that stays inside its row is read back; other cells are untouched. */
  lemma ChangeThenReadAsWritten(rows: seq<seq<int>>, width: int, xx: int, yy: int, c: int, x: int, y: int)
    requires |rows| == ROWS && InGridAsWritten(xx, yy, width) && xx < |rows[yy]|
    ensures TileAtAsWritten(SetCell(rows, xx, yy, c), width, x, y) ==
      if x == xx && y == yy then Some(c) else TileAtAsWritten(rows, width, x, y)
  {
  }

  /** On a new level (width 21, rows of 22 cells) column 21 is a real cell: it is written and read back. */
  lemma NewLevelUsesColumnAtWidth()
    ensures var rows := seq(ROWS, _ => Zeros(MIN_WIDTH + 1));
      TileAtAsWritten(SetCell(rows, MIN_WIDTH, 0, 5), MIN_WIDTH, MIN_WIDTH, 0) == Some(5)
  {
    var rows := seq(ROWS, _ => Zeros(MIN_WIDTH + 1));
    ChangeThenReadAsWritten(rows, MIN_WIDTH, MIN_WIDTH, 0, 5, MIN_WIDTH, 0);
  }

  // ----- LevelSubset -----

  /** If levels 1..n all exist, there are at least n of them. */
  lemma {:induction false} PrefixFitsIn(present: set<nat>, n: nat)
    requires forall j :: 1 <= j <= n ==> j in present
    ensures n <= |present|
  {
    if n > 0 {
      PrefixFitsIn(present - {n}, n - 1);
    }
  }

  /**
   * LevelSubset::load's count: level files are probed from 1 upward and the
   * count is the last number before the first missing one. `present` holds
   * the numbers i for which levels/<subset>/level<i>.stl exists.
   */
  method CountLevels(present: set<nat>) returns (levels: nat)
    ensures forall j :: 1 <= j <= levels ==> j in present
    ensures levels + 1 !in present
  {
    var i: nat := 1;
    while i in present
      invariant 1 <= i && forall j :: 1 <= j < i ==> j in present
      decreases |present| + 1 - i
    {
      PrefixFitsIn(present, i);
      i := i + 1;
    }
    levels := i - 1;
  }
}
