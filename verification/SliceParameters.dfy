/**
 The pass over a list of rectangular slices, given by the raster addresses of their first and last
 units: tile indices, sizes in tiles, slices within one tile, alignment, and whether tile indices have
 to be coded because they do not follow from the slice before.
 */
module SliceParameters {
  import opened Multiples
  import opened TileGrid
  import opened SliceWalker

  // What the picture parameter set says of a slice.
  datatype RectSlice = RectSlice(tileIdx: int, w: int, h: int, numInTile: nat, heightInCtu: int)

  // The columns and rows of the first and the last unit of a slice.
  datatype Corners = Corners(startX: nat, startY: nat, stopX: nat, stopY: nat)

  // A slice as its corners tell it, but for the number of slices in its tile.
  function Decoded(g: Grid, c: Corners): RectSlice
    requires g.cols != []
  {
    var tileX, tileY := TileOf(g.cols, c.startX), TileOf(g.rows, c.startY);
    var w, h := TileOf(g.cols, c.stopX) - tileX + 1, TileOf(g.rows, c.stopY) - tileY + 1;
    RectSlice(tileY * NumCols(g) + tileX, w, h, 0, if w == 1 && h == 1 then c.stopY - c.startY + 1 else 0)
  }

  predicate OneTile(s: RectSlice) {
    s.w == 1 && s.h == 1
  }

  // A slice lies in the tile of the slice before, both within one tile.
  predicate Shares(before: RectSlice, s: RectSlice) {
    OneTile(before) && OneTile(s) && before.tileIdx == s.tileIdx
  }

  // The corners are beyond the picture or no corners of tiles.
  predicate Misplaced(g: Grid, c: Corners)
    requires g.cols != [] && g.rows != []
  {
    c.startY >= Height(g) || c.stopY >= Height(g) ||
    var left, right := TileOf(g.cols, c.startX), TileOf(g.cols, c.stopX);
    var top, bottom := TileOf(g.rows, c.startY), TileOf(g.rows, c.stopY);
    right + 1 >= |g.cols| || bottom + 1 >= |g.rows| ||
    c.startX != g.cols[left] || c.stopX + 1 != g.cols[right + 1] ||
    ((right > left || bottom > top) && (c.startY != g.rows[top] || c.stopY + 1 != g.rows[bottom + 1]))
  }

  // The tile index that follows from a slice.
  function After(n: nat, s: RectSlice): int
    requires n > 0
  {
    var next := s.tileIdx + s.w;
    if next % n == 0 then next + (s.h - 1) * n else next
  }

  /* ----- The pass, over decoded slices ----- */

  // A slice, and whether its corners are misplaced.
  datatype Found = Found(s: RectSlice, misplaced: bool)

  ghost predicate Continues(list: seq<Found>, i: nat)
    requires i < |list|
  {
    i > 0 && Shares(list[i - 1].s, list[i].s)
  }

  // A slice that does not continue a tile has no proper corners.
  ghost predicate IsError(list: seq<Found>, i: nat)
    requires i < |list|
  {
    !Continues(list, i) && list[i].misplaced
  }

  // The tile index of slice i is not the one that follows from the slice before.
  ghost predicate Jumps(n: nat, list: seq<Found>, i: nat)
    requires n > 0 && i < |list|
  {
    i > 0 && !Continues(list, i) && After(n, list[i - 1].s) != list[i].s.tileIdx
  }

  // The slice as decoded, with some number of slices in its tile.
  ghost predicate SameSlice(s: RectSlice, found: Found) {
    s == found.s.(numInTile := s.numInTile)
  }

  // The slices that a pass has gone over, and what it has found.
  ghost predicate Passed(n: nat, list: seq<Found>, i: nat, slices: seq<RectSlice>, error: bool, needTileIdxDelta: bool)
    requires n > 0 && i <= |list|
  {
    && |slices| == i
    && (forall k :: 0 <= k < i ==> SameSlice(slices[k], list[k]))
    && (error <==> exists k :: 0 <= k < i && IsError(list, k))
    && (needTileIdxDelta <==> exists k :: 0 <= k < i && Jumps(n, list, k))
  }

  // The slices from one within a tile on, as long as they stay in the tile.
  method SlicesInTile(list: seq<Found>, first: nat) returns (end: nat, slices: seq<RectSlice>)
    requires first < |list| && OneTile(list[first].s)
    ensures first < end <= |list| && |slices| == end - first
    ensures slices[0] == list[first].s.(numInTile := end - first)
    ensures forall k :: first <= k < end ==> SameSlice(slices[k - first], list[k])
    ensures forall k :: first < k < end ==> Continues(list, k)
    ensures end < |list| ==> !Continues(list, end)
  {
    end, slices := first + 1, [list[first].s];
    while end < |list|
      invariant first < end <= |list| && |slices| == end - first
      invariant forall k :: 0 <= k < end - first ==> slices[k] == list[first + k].s && OneTile(slices[k]) && slices[k].tileIdx == slices[0].tileIdx
    {
      var next := list[end].s;
      if next.tileIdx != list[first].s.tileIdx || next.w != 1 || next.h != 1 {
        break;
      }
      slices := slices + [next];
      end := end + 1;
    }
    forall k | first < k < end
      ensures Continues(list, k)
    {
      assert slices[k - first] == list[k].s && slices[k - 1 - first] == list[k - 1].s;
    }
    assert slices[end - 1 - first] == list[end - 1].s;
    slices := slices[0 := slices[0].(numInTile := end - first)];
  }

  // One slice, or all slices of one tile.
  method PassOne(n: nat, list: seq<Found>, i: nat, slices: seq<RectSlice>, error: bool, needTileIdxDelta: bool)
    returns (next: nat, more: seq<RectSlice>, error': bool, need': bool)
    requires n > 0 && i < |list| && Passed(n, list, i, slices, error, needTileIdxDelta) && !Continues(list, i)
    ensures i < next <= |list| && Passed(n, list, next, more, error', need') && (next < |list| ==> !Continues(list, next))
  {
    var s := list[i].s;
    error' := error || list[i].misplaced;
    need' := needTileIdxDelta;
    if i > 0 && !needTileIdxDelta {
      assert SameSlice(slices[i - 1], list[i - 1]);
      if After(n, slices[i - 1]) != s.tileIdx {
        need' := true;
      }
    }
    if s.w == 1 && s.h == 1 {
      var group;
      next, group := SlicesInTile(list, i);
      more := slices + group;
      PassedMore(n, list, i, next, slices, group, error, needTileIdxDelta, error', need');
    } else {
      next, more := i + 1, slices + [s];
      PassedMore(n, list, i, next, slices, [s], error, needTileIdxDelta, error', need');
    }
  }

  lemma PassedMore(n: nat, list: seq<Found>, i: nat, next: nat, slices: seq<RectSlice>, group: seq<RectSlice>, error: bool, need: bool, error': bool, need': bool)
    requires n > 0 && i < next <= |list| && Passed(n, list, i, slices, error, need) && |group| == next - i && !Continues(list, i)
    requires forall k :: i <= k < next ==> SameSlice(group[k - i], list[k])
    requires forall k :: i < k < next ==> Continues(list, k)
    requires error' == (error || list[i].misplaced) && need' == (need || Jumps(n, list, i))
    ensures Passed(n, list, next, slices + group, error', need')
  {
    assert forall k :: i < k < next ==> !IsError(list, k) && !Jumps(n, list, k);
    assert error' <==> error || IsError(list, i);
  }

  // The whole pass.
  method SetSliceParameters(n: nat, list: seq<Found>) returns (slices: seq<RectSlice>, error: bool, needTileIdxDelta: bool)
    requires n > 0
    ensures Passed(n, list, |list|, slices, error, needTileIdxDelta)
  {
    var i := 0;
    slices, error, needTileIdxDelta := [], false, false;
    while i < |list|
      invariant i <= |list| && Passed(n, list, i, slices, error, needTileIdxDelta)
      invariant i < |list| ==> !Continues(list, i)
    {
      i, slices, error, needTileIdxDelta := PassOne(n, list, i, slices, error, needTileIdxDelta);
    }
  }

  /* ----- From addresses ----- */

  function CornersOf(width: nat, start: nat, stop: nat): Corners
    requires width > 0
  {
    Corners(start % width, start / width, stop % width, stop / width)
  }

  function FoundAt(g: Grid, start: nat, stop: nat): Found
    requires g.cols != [] && g.rows != [] && Width(g) > 0
  {
    var c := CornersOf(Width(g), start, stop);
    Found(Decoded(g, c), Misplaced(g, c))
  }

  // A pass over the addresses of a list of slices.
  method ReadSlices(g: Grid, pos: seq<int>) returns (list: seq<Found>)
    requires Sound(g) && Width(g) > 0 && |pos| % 2 == 0 && forall i :: 0 <= i < |pos| ==> pos[i] >= 0
    ensures |list| == |pos| / 2 && forall i :: 0 <= i < |list| ==> list[i] == FoundAt(g, pos[2 * i], pos[2 * i + 1])
  {
    list := [];
    for i := 0 to |pos| / 2
      invariant |list| == i && forall k :: 0 <= k < i ==> list[k] == FoundAt(g, pos[2 * k], pos[2 * k + 1])
    {
      list := list + [FoundAt(g, pos[2 * i], pos[2 * i + 1])];
    }
  }

  /* ----- Slices of a fixed size ----- */

  function IndexOf(n: nat, r: Rect): nat {
    r.y * n + r.x
  }

  lemma TileAtBoundary(bd: seq<nat>, a: nat, b: nat)
    requires Boundaries(bd) && a < b < |bd|
    ensures bd[a] < bd[b] && TileOf(bd, bd[a]) == a && TileOf(bd, bd[b] - 1) == b - 1
  {
    assert bd[a] < bd[a + 1] && bd[a] < bd[b] && bd[b - 1] < bd[b];
    TileOfIs(bd, bd[a], a);
    TileOfIs(bd, bd[b] - 1, b - 1);
  }

  lemma CornersOfRect(g: Grid, r: Rect)
    requires Sound(g) && InGrid(g, r)
    ensures Width(g) > 0 && StopOf(g, r) >= 0 && g.cols[r.x + r.w] > 0 && g.rows[r.y + r.h] > 0
    ensures CornersOf(Width(g), StartOf(g, r), StopOf(g, r)) == Corners(g.cols[r.x], g.rows[r.y], g.cols[r.x + r.w] - 1, g.rows[r.y + r.h] - 1)
  {
    CornersDecode(g, r);
    TileAtBoundary(g.cols, r.x, r.x + r.w);
    TileAtBoundary(g.rows, r.y, r.y + r.h);
  }

  lemma CornersAreTiles(g: Grid, r: Rect, c: Corners)
    requires Sound(g) && InGrid(g, r) && g.cols[r.x + r.w] > 0 && g.rows[r.y + r.h] > 0
    requires c == Corners(g.cols[r.x], g.rows[r.y], g.cols[r.x + r.w] - 1, g.rows[r.y + r.h] - 1)
    ensures !Misplaced(g, c)
    ensures var s := Decoded(g, c); s.tileIdx == IndexOf(NumCols(g), r) && s.w == r.w && s.h == r.h
  {
    TileAtBoundary(g.cols, r.x, r.x + r.w);
    TileAtBoundary(g.rows, r.y, r.y + r.h);
    assert g.rows[r.y + r.h] <= Height(g);
  }

  // A slice of the grid comes back from its addresses.
  ghost predicate ComesBack(n: nat, r: Rect, f: Found) {
    !f.misplaced && f.s.tileIdx == IndexOf(n, r) && f.s.w == r.w && f.s.h == r.h
  }

  lemma RectComesBack(g: Grid, r: Rect)
    requires Sound(g) && InGrid(g, r)
    ensures Width(g) > 0 && StopOf(g, r) >= 0 && ComesBack(NumCols(g), r, FoundAt(g, StartOf(g, r), StopOf(g, r)))
  {
    CornersOfRect(g, r);
    CornersAreTiles(g, r, Corners(g.cols[r.x], g.rows[r.y], g.cols[r.x + r.w] - 1, g.rows[r.y + r.h] - 1));
  }

  // A slice starts at the tile index that follows from the slice before, which is a later one.
  ghost predicate Link(n: nat, s: Rect, t: Rect)
    requires n > 0
  {
    IndexOf(n, s) < IndexOf(n, t) == NextTile(n, IndexOf(n, s), s.w, s.h)
  }

  ghost predicate Linked(n: nat, rects: seq<Rect>)
    requires n > 0
  {
    forall i, j :: 0 <= i && j == i + 1 < |rects| ==> Link(n, rects[i], rects[j])
  }

  lemma {:induction false} WalkIsLinked(g: Grid, fixedWidth: nat, fixedHeight: nat, x: nat, y: nat)
    requires Sound(g) && fixedWidth > 0 && fixedHeight > 0 && x < NumCols(g)
    ensures var rects := Walk(g, fixedWidth, fixedHeight, x, y);
      && (rects != [] ==> rects[0] == RectAt(g, fixedWidth, fixedHeight, x, y) && y < NumRows(g))
      && Linked(NumCols(g), rects)
    decreases NumRows(g) - y, NumCols(g) - x
  {
    if y < NumRows(g) {
      var r := RectAt(g, fixedWidth, fixedHeight, x, y);
      var x', y' := if x + r.w < NumCols(g) then x + r.w else 0, if x + r.w < NumCols(g) then y else y + r.h;
      WalkIsLinked(g, fixedWidth, fixedHeight, x', y');
      NextTileIs(NumCols(g), x, y, r.w, r.h);
      LinkedMore(NumCols(g), r, Walk(g, fixedWidth, fixedHeight, x', y'), x', y');
    }
  }

  lemma IndexGrows(n: nat, x: nat, y: nat, x': nat, y': nat)
    requires x < n && ((y' == y && x' > x) || y' > y)
    ensures y * n + x < y' * n + x'
  {
    if y' > y {
      ProductIsMonotone(y + 1, y', n);
      assert (y + 1) * n == y * n + n;
    }
  }

  lemma LinkedMore(n: nat, r: Rect, rest: seq<Rect>, x: nat, y: nat)
    requires r.x < n && Linked(n, rest) && NextTile(n, IndexOf(n, r), r.w, r.h) == y * n + x
    requires rest != [] ==> rest[0].x == x && rest[0].y == y && ((y == r.y && x > r.x) || y > r.y)
    ensures Linked(n, [r] + rest)
  {
    if rest != [] {
      IndexGrows(n, r.x, r.y, x, y);
      assert Link(n, r, rest[0]);
    }
  }

  // Slices that come back and are linked need no tile index of their own.
  lemma LinkedNeedsNoDelta(n: nat, rects: seq<Rect>, list: seq<Found>, i: nat)
    requires n > 0 && Linked(n, rects) && |list| == |rects| && i < |list|
    requires forall k :: 0 <= k < |list| ==> ComesBack(n, rects[k], list[k])
    ensures !IsError(list, i) && !Jumps(n, list, i)
  {
    if i > 0 {
      var r := rects[i - 1];
      assert ComesBack(n, r, list[i - 1]) && ComesBack(n, rects[i], list[i]);
      assert Link(n, rects[i - 1], rects[i]);
      assert After(n, list[i - 1].s) == NextTile(n, IndexOf(n, r), r.w, r.h);
    }
  }

  // The list of fixed-size slices, passed over again: no error, no tile index to be coded, and the
  // slices are those of the walk.
  method FixedSliceParameters(g: Grid, fixedWidth: nat, fixedHeight: nat) returns (slices: seq<RectSlice>, error: bool, needTileIdxDelta: bool)
    requires Sound(g) && fixedWidth > 0 && fixedHeight > 0
    ensures !error && !needTileIdxDelta
    ensures var rects := FixedList(g, fixedWidth, fixedHeight);
      |slices| == |rects| && forall i :: 0 <= i < |rects| ==>
        slices[i].tileIdx == IndexOf(NumCols(g), rects[i]) && slices[i].w == rects[i].w && slices[i].h == rects[i].h
  {
    ghost var rects := FixedList(g, fixedWidth, fixedHeight);
    var pos := FixedSlices(g, fixedWidth, fixedHeight);
    FixedAddresses(g, rects, pos);
    var list := ReadSlices(g, pos);
    slices, error, needTileIdxDelta := SetSliceParameters(NumCols(g), list);
    WalkIsLinked(g, fixedWidth, fixedHeight, 0, 0);
    forall i | 0 <= i < |rects|
      ensures ComesBack(NumCols(g), rects[i], list[i])
    {
      RectComesBack(g, rects[i]);
    }
    forall i | 0 <= i < |list|
      ensures !IsError(list, i) && !Jumps(NumCols(g), list, i)
    {
      LinkedNeedsNoDelta(NumCols(g), rects, list, i);
    }
    forall i | 0 <= i < |rects|
      ensures slices[i].tileIdx == IndexOf(NumCols(g), rects[i]) && slices[i].w == rects[i].w && slices[i].h == rects[i].h
    {
      assert SameSlice(slices[i], list[i]) && ComesBack(NumCols(g), rects[i], list[i]);
    }
  }

  lemma FixedAddresses(g: Grid, rects: seq<Rect>, pos: seq<int>)
    requires Sound(g) && AllInGrid(g, rects) && pos == Addresses(g, rects)
    ensures Width(g) > 0 && |pos| % 2 == 0 && forall i :: 0 <= i < |pos| ==> pos[i] >= 0
  {
    forall i | 0 <= i < |pos|
      ensures pos[i] >= 0
    {
      var r := rects[i / 2];
      CornersDecode(g, r);
      assert i == 2 * (i / 2) || i == 2 * (i / 2) + 1;
    }
  }
}
