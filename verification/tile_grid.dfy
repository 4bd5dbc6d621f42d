/**
 The tile grid of a scan: the scan bounds cut into a row-major list of
 fixed-size tile origins, and the per-tile colour drawn on the overview.
 Python's `range(lo, hi, 1024)` is modelled by the recursive functions `Row`
 and `Rows`, which follow the nested loops; `RangeLength` is the closed form
 the grid's shape is proved against.
 */
module TileGrid {

  /** Edge length of one tile, in base-resolution pixels. */
  const TileEdge: int := 1024

  /** Top-left corner of a tile, in base-resolution pixels. */
  datatype Origin = Origin(x: int, y: int)

  /** A colour in OpenCV's blue-green-red channel order. */
  datatype Color = Color(blue: int, green: int, red: int)

  /** The annotation every tile starts with: no candidates seen. */
  const Black := Color(0, 0, 0)

  /** The sticky annotation of a tile on which `count` candidates were found.
      The green channel is not clamped to 255 here; the drawing library
      saturates it when the rectangle is drawn. */
  function CandidateColor(count: nat): Color {
    Color(0, 2 * count, 0)
  }

  /** Number of values in `range(lo, hi, TileEdge)`: the ceiling of
      `(hi - lo) / TileEdge`, or zero when the range is empty. */
  function RangeLength(lo: int, hi: int): nat {
    if hi <= lo then 0 else (hi - lo + TileEdge - 1) / TileEdge
  }

  /** The tiles of the row at height `y`: `x` runs over `range(x, stopX, TileEdge)`. */
  function Row(x: int, stopX: int, y: int): seq<Origin>
    decreases stopX - x
  {
    if x >= stopX then [] else [Origin(x, y)] + Row(x + TileEdge, stopX, y)
  }

  /** The rows from height `y` on: `y` runs over `range(y, stopY, TileEdge)`,
      and each row starts again at `minx`. */
  function Rows(minx: int, stopX: int, y: int, stopY: int): seq<Origin>
    decreases stopY - y
  {
    if y >= stopY then [] else Row(minx, stopX, y) + Rows(minx, stopX, y + TileEdge, stopY)
  }

  /** The tile list of a scan region with origin (minx, miny) and extent (sizex, sizey). */
  function Tiles(minx: int, miny: int, sizex: int, sizey: int): seq<Origin> {
    Rows(minx, minx + sizex, miny, miny + sizey)
  }

  /** Number of tile columns of a region of width `sizex`. */
  function Columns(sizex: int): nat {
    RangeLength(0, sizex)
  }

  /** Number of tile rows of a region of height `sizey`. */
  function RowCount(sizey: int): nat {
    RangeLength(0, sizey)
  }

  lemma RangeLengthStep(lo: int, hi: int)
    requires lo < hi
    ensures RangeLength(lo, hi) == 1 + RangeLength(lo + TileEdge, hi)
  {
  }

  lemma RangeLengthShift(lo: int, hi: int)
    ensures RangeLength(lo, hi) == RangeLength(0, hi - lo)
  {
  }

  /** A row holds one tile per column, at stride TileEdge from its first `x`. */
  lemma {:induction false} RowShape(x: int, stopX: int, y: int)
    ensures |Row(x, stopX, y)| == RangeLength(x, stopX)
    ensures forall c :: 0 <= c < RangeLength(x, stopX) ==>
              Row(x, stopX, y)[c] == Origin(x + TileEdge * c, y)
    decreases stopX - x
  {
    if x < stopX {
      RowShape(x + TileEdge, stopX, y);
      RangeLengthStep(x, stopX);
      var rest := Row(x + TileEdge, stopX, y);
      assert Row(x, stopX, y) == [Origin(x, y)] + rest;
      forall c | 0 <= c < RangeLength(x, stopX)
        ensures Row(x, stopX, y)[c] == Origin(x + TileEdge * c, y)
      {
        if c > 0 {
          assert Row(x, stopX, y)[c] == rest[c - 1];
        }
      }
    }
  }

  /** Index arithmetic of a row-major layout with `w` columns and `h` rows. */
  lemma RowMajorIndex(r: int, c: int, w: int, h: int)
    requires 0 <= r < h && 0 <= c < w
    ensures 0 <= r * w + c < h * w
    ensures r > 0 ==> w <= r * w + c && r * w + c - w == (r - 1) * w + c
  {
    assert r * w <= (h - 1) * w by {
      assert (h - 1 - r) * w >= 0;
    }
  }

  /** `tiles` is a row-major grid of `h` rows and `w` columns at stride
      TileEdge from (x0, y0): the tile in row `r`, column `c` sits at index
      `r * w + c` and has origin (x0 + TileEdge*c, y0 + TileEdge*r). */
  predicate RowMajor(tiles: seq<Origin>, x0: int, y0: int, w: nat, h: nat) {
    && |tiles| == h * w
    && forall r, c :: 0 <= r < h && 0 <= c < w ==>
         r * w + c < |tiles| && tiles[r * w + c] == Origin(x0 + TileEdge * c, y0 + TileEdge * r)
  }

  /** One tile of a grid whose first row is `row` and whose other rows are `rest`. */
  lemma RowMajorCell(row: seq<Origin>, rest: seq<Origin>, x0: int, y0: int, w: nat, h: nat, r: int, c: int)
    requires h > 0 && 0 <= r < h && 0 <= c < w
    requires |row| == w
    requires forall k :: 0 <= k < w ==> row[k] == Origin(x0 + TileEdge * k, y0)
    requires RowMajor(rest, x0, y0 + TileEdge, w, h - 1)
    ensures r * w + c < |row + rest|
    ensures (row + rest)[r * w + c] == Origin(x0 + TileEdge * c, y0 + TileEdge * r)
  {
    RowMajorIndex(r, c, w, h);
    if r > 0 {
      RowMajorIndex(r - 1, c, w, h - 1);
      assert (row + rest)[r * w + c] == rest[(r - 1) * w + c];
    }
  }

  /** Prepending a row of `w` tiles at height y0 to a grid that starts one
      tile lower gives a grid with one more row. */
  lemma RowMajorCons(row: seq<Origin>, rest: seq<Origin>, x0: int, y0: int, w: nat, h: nat)
    requires h > 0
    requires |row| == w
    requires forall k :: 0 <= k < w ==> row[k] == Origin(x0 + TileEdge * k, y0)
    requires RowMajor(rest, x0, y0 + TileEdge, w, h - 1)
    ensures RowMajor(row + rest, x0, y0, w, h)
  {
    assert h * w == w + (h - 1) * w;
    forall r, c | 0 <= r < h && 0 <= c < w
      ensures r * w + c < |row + rest|
      ensures (row + rest)[r * w + c] == Origin(x0 + TileEdge * c, y0 + TileEdge * r)
    {
      RowMajorCell(row, rest, x0, y0, w, h, r, c);
    }
  }

  /** The rows from height `y` on form a row-major grid. */
  lemma {:induction false} RowsShape(minx: int, stopX: int, y: int, stopY: int)
    ensures RowMajor(Rows(minx, stopX, y, stopY), minx, y, RangeLength(minx, stopX), RangeLength(y, stopY))
    decreases stopY - y
  {
    if y < stopY {
      RowShape(minx, stopX, y);
      RowsShape(minx, stopX, y + TileEdge, stopY);
      RangeLengthStep(y, stopY);
      RowMajorCons(Row(minx, stopX, y), Rows(minx, stopX, y + TileEdge, stopY),
                   minx, y, RangeLength(minx, stopX), RangeLength(y, stopY));
    }
  }

  /** The tile list is row-major over a `Columns(sizex)` by `RowCount(sizey)`
      grid: tile (r, c) is at index `r * Columns(sizex) + c` with origin
      (minx + 1024*c, miny + 1024*r). */
  lemma TilesRowMajor(minx: int, miny: int, sizex: int, sizey: int)
    ensures RowMajor(Tiles(minx, miny, sizex, sizey), minx, miny, Columns(sizex), RowCount(sizey))
  {
    RangeLengthShift(minx, minx + sizex);
    RangeLengthShift(miny, miny + sizey);
    RowsShape(minx, minx + sizex, miny, miny + sizey);
  }

  /** Builds the tile list and the annotation list with the nested loops of
      the scan set-up: rows top to bottom, tiles left to right in each row,
      every annotation black. */
  method BuildGrid(minx: int, miny: int, sizex: int, sizey: int)
    returns (tiles: seq<Origin>, colors: seq<Color>)
    ensures tiles == Tiles(minx, miny, sizex, sizey)
    ensures RowMajor(tiles, minx, miny, Columns(sizex), RowCount(sizey))
    ensures |colors| == |tiles|
    ensures forall i :: 0 <= i < |colors| ==> colors[i] == Black
  {
    tiles := [];
    colors := [];
    var y := miny;
    while y < miny + sizey
      invariant tiles + Rows(minx, minx + sizex, y, miny + sizey) == Tiles(minx, miny, sizex, sizey)
      invariant |colors| == |tiles|
      invariant forall i :: 0 <= i < |colors| ==> colors[i] == Black
      decreases miny + sizey - y
    {
      ghost var before := tiles;
      var x := minx;
      while x < minx + sizex
        invariant tiles + Row(x, minx + sizex, y) == before + Row(minx, minx + sizex, y)
        invariant |colors| == |tiles|
        invariant forall i :: 0 <= i < |colors| ==> colors[i] == Black
        decreases minx + sizex - x
      {
        tiles := tiles + [Origin(x, y)];
        colors := colors + [Black];
        x := x + TileEdge;
      }
      assert tiles == before + Row(minx, minx + sizex, y);
      assert Rows(minx, minx + sizex, y, miny + sizey)
          == Row(minx, minx + sizex, y) + Rows(minx, minx + sizex, y + TileEdge, miny + sizey);
      y := y + TileEdge;
    }
    TilesRowMajor(minx, miny, sizex, sizey);
  }

  /** The example region of two tiles side by side: origin (0, 0), extent
      (2048, 1024) gives exactly (0, 0) then (1024, 0). */
  lemma TwoTileRegion()
    ensures Tiles(0, 0, 2048, 1024) == [Origin(0, 0), Origin(1024, 0)]
  {
    assert Row(2048, 2048, 0) == [];
    assert Row(1024, 2048, 0) == [Origin(1024, 0)];
    assert Rows(0, 2048, 1024, 1024) == [];
  }
}
