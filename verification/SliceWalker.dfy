/**
 Rectangular slices of a fixed size in tiles: the walk over the tiles that lists the slices, and the
 later pass over the list that gets the tile indices and sizes back.  The slices cover every coding
 tree unit once, and no tile index needs to be coded.
 */
module SliceWalker {
  import opened Multiples
  import opened TileGrid

  // The tile boundaries of a picture, in coding tree units.
  datatype Grid = Grid(cols: seq<nat>, rows: seq<nat>)

  ghost predicate Sound(g: Grid) {
    Boundaries(g.cols) && Boundaries(g.rows)
  }

  function NumCols(g: Grid): nat
    requires g.cols != []
  {
    |g.cols| - 1
  }

  function NumRows(g: Grid): nat
    requires g.rows != []
  {
    |g.rows| - 1
  }

  function Width(g: Grid): nat
    requires g.cols != []
  {
    g.cols[|g.cols| - 1]
  }

  function Height(g: Grid): nat
    requires g.rows != []
  {
    g.rows[|g.rows| - 1]
  }

  // A slice, in tiles.
  datatype Rect = Rect(x: nat, y: nat, w: nat, h: nat)

  ghost predicate InGrid(g: Grid, r: Rect)
    requires Sound(g)
  {
    r.w > 0 && r.h > 0 && r.x + r.w <= NumCols(g) && r.y + r.h <= NumRows(g)
  }

  /* ----- The walk ----- */

  function RectAt(g: Grid, fixedWidth: nat, fixedHeight: nat, x: nat, y: nat): Rect
    requires g.cols != [] && g.rows != [] && x < NumCols(g) && y < NumRows(g)
  {
    Rect(x, y, Min(fixedWidth, NumCols(g) - x), Min(fixedHeight, NumRows(g) - y))
  }

  // The slices from tile (x, y) on, row of slices by row of slices.
  function Walk(g: Grid, fixedWidth: nat, fixedHeight: nat, x: nat, y: nat): seq<Rect>
    requires g.cols != [] && g.rows != [] && fixedWidth > 0 && fixedHeight > 0 && x < NumCols(g)
    decreases NumRows(g) - y, NumCols(g) - x
  {
    if y >= NumRows(g) then [] else
      var r := RectAt(g, fixedWidth, fixedHeight, x, y);
      [r] + if x + r.w < NumCols(g) then Walk(g, fixedWidth, fixedHeight, x + r.w, y) else Walk(g, fixedWidth, fixedHeight, 0, y + r.h)
  }

  predicate InRect(r: Rect, tx: nat, ty: nat) {
    r.x <= tx < r.x + r.w && r.y <= ty < r.y + r.h
  }

  function TileCount(rects: seq<Rect>, tx: nat, ty: nat): nat {
    if rects == [] then 0 else (if InRect(rects[0], tx, ty) then 1 else 0) + TileCount(rects[1..], tx, ty)
  }

  // The walk from (x, y) covers what is left of the row of slices, and all rows below, once.
  lemma {:induction false} WalkCovers(g: Grid, fixedWidth: nat, fixedHeight: nat, x: nat, y: nat, tx: nat, ty: nat)
    requires g.cols != [] && g.rows != [] && fixedWidth > 0 && fixedHeight > 0 && x < NumCols(g)
    requires tx < NumCols(g) && ty < NumRows(g)
    ensures TileCount(Walk(g, fixedWidth, fixedHeight, x, y), tx, ty)
         == if y <= ty && (tx >= x || ty >= y + fixedHeight) then 1 else 0
    decreases NumRows(g) - y, NumCols(g) - x
  {
    if y < NumRows(g) {
      var r := RectAt(g, fixedWidth, fixedHeight, x, y);
      if x + r.w < NumCols(g) {
        WalkCovers(g, fixedWidth, fixedHeight, x + r.w, y, tx, ty);
        assert Walk(g, fixedWidth, fixedHeight, x, y)[1..] == Walk(g, fixedWidth, fixedHeight, x + r.w, y);
      } else {
        WalkCovers(g, fixedWidth, fixedHeight, 0, y + r.h, tx, ty);
        assert Walk(g, fixedWidth, fixedHeight, x, y)[1..] == Walk(g, fixedWidth, fixedHeight, 0, y + r.h);
      }
    }
  }

  /* ----- Addresses ----- */

  // The raster addresses of the first and the last unit of a slice.
  function StartOf(g: Grid, r: Rect): nat
    requires r.x < |g.cols| && r.y < |g.rows| && g.cols != []
  {
    g.rows[r.y] * Width(g) + g.cols[r.x]
  }

  function StopOf(g: Grid, r: Rect): int
    requires r.x + r.w < |g.cols| && r.y + r.h < |g.rows| && g.cols != []
  {
    var bottom: int, right: int := g.rows[r.y + r.h], g.cols[r.x + r.w];
    (bottom - 1) * Width(g) + (right - 1)
  }

  ghost predicate AllInGrid(g: Grid, rects: seq<Rect>)
    requires Sound(g)
  {
    forall i :: 0 <= i < |rects| ==> InGrid(g, rects[i])
  }

  ghost function Addresses(g: Grid, rects: seq<Rect>): (pos: seq<int>)
    requires Sound(g) && AllInGrid(g, rects)
    ensures |pos| == 2 * |rects|
    ensures forall i :: 0 <= i < |rects| ==> pos[2 * i] == StartOf(g, rects[i]) && pos[2 * i + 1] == StopOf(g, rects[i])
  {
    if rects == [] then [] else
      var r := rects[|rects| - 1];
      Addresses(g, rects[..|rects| - 1]) + [StartOf(g, r), StopOf(g, r)]
  }

  lemma {:induction false} WalkInGrid(g: Grid, fixedWidth: nat, fixedHeight: nat, x: nat, y: nat)
    requires Sound(g) && fixedWidth > 0 && fixedHeight > 0 && x < NumCols(g)
    ensures AllInGrid(g, Walk(g, fixedWidth, fixedHeight, x, y))
    decreases NumRows(g) - y, NumCols(g) - x
  {
    if y < NumRows(g) {
      var r := RectAt(g, fixedWidth, fixedHeight, x, y);
      if x + r.w < NumCols(g) {
        WalkInGrid(g, fixedWidth, fixedHeight, x + r.w, y);
      } else {
        WalkInGrid(g, fixedWidth, fixedHeight, 0, y + r.h);
      }
    }
  }

  // The unit at column cx and row cy lies between two raster addresses, seen as corners.
  predicate InSlice(g: Grid, start: int, stop: int, cx: nat, cy: nat)
    requires g.cols != [] && Width(g) > 0
  {
    start % Width(g) <= cx <= stop % Width(g) && start / Width(g) <= cy <= stop / Width(g)
  }

  function UnitCount(g: Grid, pos: seq<int>, cx: nat, cy: nat): nat
    requires g.cols != [] && Width(g) > 0
    decreases |pos|
  {
    if |pos| < 2 then 0 else
      var n := |pos| - 2;
      UnitCount(g, pos[..n], cx, cy) + if InSlice(g, pos[n], pos[n + 1], cx, cy) then 1 else 0
  }

  // The corner addresses decode to the boundaries of the slice.
  lemma CornersDecode(g: Grid, r: Rect)
    requires Sound(g) && InGrid(g, r)
    ensures Width(g) > 0
    ensures StartOf(g, r) % Width(g) == g.cols[r.x] && StartOf(g, r) / Width(g) == g.rows[r.y]
    ensures StopOf(g, r) % Width(g) == g.cols[r.x + r.w] - 1 && StopOf(g, r) / Width(g) == g.rows[r.y + r.h] - 1
    ensures StopOf(g, r) >= 0
  {
    var n := |g.cols| - 1;
    assert g.cols[r.x] < g.cols[r.x + r.w] <= g.cols[n];
    assert g.rows[r.y] < g.rows[r.y + r.h];
    QuotientIs(g.rows[r.y], Width(g), g.cols[r.x]);
    QuotientIs(g.rows[r.y + r.h] - 1, Width(g), g.cols[r.x + r.w] - 1);
  }

  lemma BetweenBoundaries(bd: seq<nat>, a: nat, b: nat, x: nat)
    requires Boundaries(bd) && a < b < |bd| && x < bd[|bd| - 1]
    ensures bd[a] <= x <= bd[b] - 1 <==> a <= TileOf(bd, x) < b
  {
    var c := TileOf(bd, x);
    FindHolds(bd, x, |bd|);
    assert c + 1 < |bd|;
    if a <= c {
      assert bd[a] <= bd[c];
    } else {
      assert bd[c + 1] <= bd[a];
    }
    if c < b {
      assert bd[c + 1] <= bd[b];
    } else {
      assert bd[b] <= bd[c];
    }
  }

  // A unit is in a slice exactly if its tile is.
  lemma UnitInSlice(g: Grid, r: Rect, cx: nat, cy: nat)
    requires Sound(g) && InGrid(g, r) && cx < Width(g) && cy < Height(g)
    ensures InSlice(g, StartOf(g, r), StopOf(g, r), cx, cy) <==> InRect(r, TileOf(g.cols, cx), TileOf(g.rows, cy))
  {
    CornersDecode(g, r);
    BetweenBoundaries(g.cols, r.x, r.x + r.w, cx);
    BetweenBoundaries(g.rows, r.y, r.y + r.h, cy);
  }

  lemma {:induction false} TileCountOfMore(rects: seq<Rect>, r: Rect, tx: nat, ty: nat)
    ensures TileCount(rects + [r], tx, ty) == TileCount(rects, tx, ty) + if InRect(r, tx, ty) then 1 else 0
    decreases |rects|
  {
    if rects == [] {
      assert ([] + [r])[1..] == [];
    } else {
      assert (rects + [r])[1..] == rects[1..] + [r];
      TileCountOfMore(rects[1..], r, tx, ty);
    }
  }

  lemma UnitCountOfMore(g: Grid, pos: seq<int>, start: int, stop: int, cx: nat, cy: nat)
    requires g.cols != [] && Width(g) > 0
    ensures UnitCount(g, pos + [start, stop], cx, cy) == UnitCount(g, pos, cx, cy) + if InSlice(g, start, stop, cx, cy) then 1 else 0
  {
    assert (pos + [start, stop])[..|pos|] == pos;
  }

  lemma OneMoreSlice(g: Grid, before: seq<Rect>, r: Rect, cx: nat, cy: nat)
    requires Sound(g) && AllInGrid(g, before) && AllInGrid(g, before + [r]) && InGrid(g, r) && cx < Width(g) && cy < Height(g)
    requires UnitCount(g, Addresses(g, before), cx, cy) == TileCount(before, TileOf(g.cols, cx), TileOf(g.rows, cy))
    ensures UnitCount(g, Addresses(g, before + [r]), cx, cy) == TileCount(before + [r], TileOf(g.cols, cx), TileOf(g.rows, cy))
  {
    AddressesOfMore(g, before, r);
    UnitInSlice(g, r, cx, cy);
    UnitCountOfMore(g, Addresses(g, before), StartOf(g, r), StopOf(g, r), cx, cy);
    TileCountOfMore(before, r, TileOf(g.cols, cx), TileOf(g.rows, cy));
  }

  lemma AddressesOfMore(g: Grid, before: seq<Rect>, r: Rect)
    requires Sound(g) && AllInGrid(g, before) && InGrid(g, r)
    ensures AllInGrid(g, before + [r]) && Addresses(g, before + [r]) == Addresses(g, before) + [StartOf(g, r), StopOf(g, r)]
  {
    assert (before + [r])[..|before|] == before;
  }

  lemma {:induction false} UnitsAreTiles(g: Grid, rects: seq<Rect>, cx: nat, cy: nat)
    requires Sound(g) && AllInGrid(g, rects) && cx < Width(g) && cy < Height(g)
    ensures UnitCount(g, Addresses(g, rects), cx, cy) == TileCount(rects, TileOf(g.cols, cx), TileOf(g.rows, cy))
    decreases |rects|
  {
    if rects != [] {
      var before, r := rects[..|rects| - 1], rects[|rects| - 1];
      assert rects == before + [r];
      UnitsAreTiles(g, before, cx, cy);
      OneMoreSlice(g, before, r, cx, cy);
    }
  }

  lemma TileInGrid(bd: seq<nat>, x: nat)
    requires Boundaries(bd) && x < bd[|bd| - 1]
    ensures TileOf(bd, x) < |bd| - 1
  {
    FindHolds(bd, x, |bd|);
  }

  ghost function FixedList(g: Grid, fixedWidth: nat, fixedHeight: nat): seq<Rect>
    requires Sound(g) && fixedWidth > 0 && fixedHeight > 0
    ensures AllInGrid(g, FixedList(g, fixedWidth, fixedHeight))
  {
    WalkInGrid(g, fixedWidth, fixedHeight, 0, 0);
    Walk(g, fixedWidth, fixedHeight, 0, 0)
  }

  lemma FixedListCovers(g: Grid, fixedWidth: nat, fixedHeight: nat, tx: nat, ty: nat)
    requires Sound(g) && fixedWidth > 0 && fixedHeight > 0 && tx < NumCols(g) && ty < NumRows(g)
    ensures TileCount(FixedList(g, fixedWidth, fixedHeight), tx, ty) == 1
  {
    WalkCovers(g, fixedWidth, fixedHeight, 0, 0, tx, ty);
  }

  // The list of slices covers every unit of the picture exactly once.
  lemma ExactCover(g: Grid, fixedWidth: nat, fixedHeight: nat, cx: nat, cy: nat)
    requires Sound(g) && fixedWidth > 0 && fixedHeight > 0 && cx < Width(g) && cy < Height(g)
    ensures UnitCount(g, Addresses(g, FixedList(g, fixedWidth, fixedHeight)), cx, cy) == 1
  {
    TileInGrid(g.cols, cx);
    TileInGrid(g.rows, cy);
    UnitsAreTiles(g, FixedList(g, fixedWidth, fixedHeight), cx, cy);
    FixedListCovers(g, fixedWidth, fixedHeight, TileOf(g.cols, cx), TileOf(g.rows, cy));
  }

  /* ----- The loop ----- */

  // The tile index that the encoder goes on with after a slice at a tile index.
  function NextTile(n: nat, tileIdx: nat, w: nat, h: nat): int
    requires n > 0
  {
    var next := tileIdx + w;
    if next % n == 0 then next + (h - 1) * n else next
  }

  lemma NextTileIs(n: nat, x: nat, y: nat, w: nat, h: nat)
    requires 0 < w && x + w <= n && h > 0
    ensures NextTile(n, y * n + x, w, h) == if x + w < n then y * n + (x + w) else (y + h) * n
  {
    if x + w < n {
      QuotientIs(y, n, x + w);
    } else {
      QuotientIs(y + 1, n, 0);
      assert (y + 1) * n == y * n + n;
      assert (y + 1) * n + (h - 1) * n == (y + h) * n;
    }
  }

  // The last unit of a slice along one axis, and its tile.
  method StopAlong(bd: seq<nat>, first: nat, fixed: nat) returns (stop: nat, stopTile: nat)
    requires Boundaries(bd) && first + 1 < |bd| && fixed > 0
    ensures var size := Min(fixed, |bd| - 1 - first); stop == bd[first + size] - 1 && stopTile == first + size - 1
  {
    var size := Min(fixed, |bd| - 1 - first);
    assert bd[first] < bd[first + size];
    stop := if first + fixed >= |bd| - 1 then bd[|bd| - 1] - 1 else bd[first + fixed] - 1;
    TileOfIs(bd, stop, first + size - 1);
    stopTile := TileOf(bd, stop);
  }

  // One slice of the list, and the tile index to go on with.
  method FixedSlice(g: Grid, fixedWidth: nat, fixedHeight: nat, tileIdx: nat, ghost x: nat, ghost y: nat)
    returns (start: int, stop: int, next: int)
    requires Sound(g) && fixedWidth > 0 && fixedHeight > 0 && x < NumCols(g) && y < NumRows(g) && tileIdx == y * NumCols(g) + x
    ensures var r := RectAt(g, fixedWidth, fixedHeight, x, y);
      start == StartOf(g, r) && stop == StopOf(g, r) && next == NextTile(NumCols(g), tileIdx, r.w, r.h)
  {
    var n := NumCols(g);
    QuotientIs(y, n, x);
    var startTileX, startTileY := tileIdx % n, tileIdx / n;
    var stopCtuX, stopTileX := StopAlong(g.cols, startTileX, fixedWidth);
    var stopCtuY, stopTileY := StopAlong(g.rows, startTileY, fixedHeight);
    start := g.rows[startTileY] * Width(g) + g.cols[startTileX];
    stop := stopCtuY * Width(g) + stopCtuX;
    var sliceWidth, sliceHeight := stopTileX - startTileX + 1, stopTileY - startTileY + 1;
    next := tileIdx + sliceWidth;
    if next % n == 0 {
      next := next + (sliceHeight - 1) * n;
    }
  }

  lemma WalkNext(g: Grid, fixedWidth: nat, fixedHeight: nat, x: nat, y: nat, done: seq<Rect>)
    requires g.cols != [] && g.rows != [] && fixedWidth > 0 && fixedHeight > 0 && x < NumCols(g) && y < NumRows(g)
    ensures var r := RectAt(g, fixedWidth, fixedHeight, x, y);
      done + Walk(g, fixedWidth, fixedHeight, x, y)
      == done + [r] + if x + r.w < NumCols(g) then Walk(g, fixedWidth, fixedHeight, x + r.w, y) else Walk(g, fixedWidth, fixedHeight, 0, y + r.h)
  {
  }

  // Where the walk is: at tile (x, y), with the slices done listed.
  ghost predicate Walking(g: Grid, fixedWidth: nat, fixedHeight: nat, tileIdx: int, x: nat, y: nat, done: seq<Rect>)
    requires Sound(g) && fixedWidth > 0 && fixedHeight > 0
  {
    && x < NumCols(g) && y <= NumRows(g) && tileIdx == y * NumCols(g) + x && (y == NumRows(g) ==> x == 0)
    && AllInGrid(g, done) && FixedList(g, fixedWidth, fixedHeight) == done + Walk(g, fixedWidth, fixedHeight, x, y)
  }

  lemma WalkStep(g: Grid, fixedWidth: nat, fixedHeight: nat, tileIdx: nat, x: nat, y: nat, done: seq<Rect>, r: Rect) returns (x': nat, y': nat)
    requires Sound(g) && fixedWidth > 0 && fixedHeight > 0 && Walking(g, fixedWidth, fixedHeight, tileIdx, x, y, done) && y < NumRows(g)
    requires r == RectAt(g, fixedWidth, fixedHeight, x, y)
    ensures Walking(g, fixedWidth, fixedHeight, NextTile(NumCols(g), tileIdx, r.w, r.h), x', y', done + [r])
    ensures y' > y || (y' == y && x' > x)
  {
    NextTileIs(NumCols(g), x, y, r.w, r.h);
    WalkNext(g, fixedWidth, fixedHeight, x, y, done);
    RectInGrid(g, fixedWidth, fixedHeight, x, y);
    x', y' := if x + r.w < NumCols(g) then x + r.w else 0, if x + r.w < NumCols(g) then y else y + r.h;
  }

  lemma RectInGrid(g: Grid, fixedWidth: nat, fixedHeight: nat, x: nat, y: nat)
    requires Sound(g) && fixedWidth > 0 && fixedHeight > 0 && x < NumCols(g) && y < NumRows(g)
    ensures InGrid(g, RectAt(g, fixedWidth, fixedHeight, x, y))
  {
  }

  method FixedSlices(g: Grid, fixedWidth: nat, fixedHeight: nat) returns (pos: seq<int>)
    requires Sound(g) && fixedWidth > 0 && fixedHeight > 0
    ensures pos == Addresses(g, FixedList(g, fixedWidth, fixedHeight))
  {
    var tileIdx, numTiles := 0, NumCols(g) * NumRows(g);
    pos := [];
    ghost var x, y, done := 0, 0, [];
    assert [] + FixedList(g, fixedWidth, fixedHeight) == FixedList(g, fixedWidth, fixedHeight);
    while tileIdx < numTiles
      invariant Walking(g, fixedWidth, fixedHeight, tileIdx, x, y, done) && pos == Addresses(g, done)
      decreases NumRows(g) - y, NumCols(g) - x
    {
      BeforeTheLast(NumCols(g), NumRows(g), x, y, tileIdx);
      var start, stop, next := FixedSlice(g, fixedWidth, fixedHeight, tileIdx, x, y);
      ghost var r := RectAt(g, fixedWidth, fixedHeight, x, y);
      RectInGrid(g, fixedWidth, fixedHeight, x, y);
      AddressesOfMore(g, done, r);
      x, y := WalkStep(g, fixedWidth, fixedHeight, tileIdx, x, y, done, r);
      pos, tileIdx, done := pos + [start, stop], next, done + [r];
    }
    BeforeTheLast(NumCols(g), NumRows(g), x, y, tileIdx);
    assert done + [] == done;
  }

  lemma BeforeTheLast(n: nat, m: nat, x: nat, y: nat, tileIdx: int)
    requires x < n && y <= m && tileIdx == y * n + x
    ensures tileIdx < n * m <==> y < m
  {
    assert n * m == m * n && (y + 1) * n == y * n + n;
    if y < m {
      ProductIsMonotone(y + 1, m, n);
    } else {
      assert y == m;
    }
  }
}
