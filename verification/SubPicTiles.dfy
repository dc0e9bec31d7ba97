/**
 Tiles and slices of a picture from which one sub-picture is extracted: the boundaries of the tiles that
 remain, and the tile index of each slice that remains.
 */
module SubPicTiles {
  import opened TileGrid
  import opened Multiples

  /* ----- Boundaries inside the sub-picture ----- */

  predicate Within(b: nat, low: nat, len: nat) {
    low <= b <= low + len
  }

  // Those of the first n boundaries that lie in the sub-picture or on its border, counted from its start.
  function Inside(bd: seq<nat>, low: nat, len: nat, n: nat): seq<nat>
    requires n <= |bd|
  {
    if n == 0 then []
    else if Within(bd[n - 1], low, len) then Inside(bd, low, len, n - 1) + [bd[n - 1] - low]
    else Inside(bd, low, len, n - 1)
  }

  // The first of them, or -1.
  function FirstInside(bd: seq<nat>, low: nat, len: nat, n: nat): int
    requires n <= |bd|
  {
    if n == 0 then -1
    else if Within(bd[n - 1], low, len) && FirstInside(bd, low, len, n - 1) == -1 then n - 1
    else FirstInside(bd, low, len, n - 1)
  }

  method Collect(bd: seq<nat>, low: nat, len: nat) returns (list: seq<nat>, topLeft: int)
    ensures list == Inside(bd, low, len, |bd|)
    ensures topLeft == FirstInside(bd, low, len, |bd|)
  {
    list, topLeft := [], -1;
    for i := 0 to |bd|
      invariant list == Inside(bd, low, len, i)
      invariant topLeft == FirstInside(bd, low, len, i)
    {
      if low <= bd[i] && bd[i] <= low + len {
        list := list + [bd[i] - low];
        if topLeft == -1 {
          topLeft := i;
        }
      }
    }
  }

  // The boundaries from the a-th up to the b-th are the ones inside.
  ghost predicate AreInside(bd: seq<nat>, low: nat, len: nat, a: nat, b: nat) {
    a <= b <= |bd| && forall i :: 0 <= i < |bd| ==> (Within(bd[i], low, len) <==> a <= i < b)
  }

  function ShiftedPart(bd: seq<nat>, low: nat, a: nat, n: nat): (r: seq<nat>)
    requires n <= |bd| && forall i :: a <= i < n ==> bd[i] >= low
    ensures |r| == if a <= n then n - a else 0
    ensures forall k :: 0 <= k < |r| ==> r[k] == bd[a + k] - low
  {
    if n <= a then [] else ShiftedPart(bd, low, a, n - 1) + [bd[n - 1] - low]
  }

  lemma {:induction false} InsideIs(bd: seq<nat>, low: nat, len: nat, a: nat, b: nat, n: nat)
    requires AreInside(bd, low, len, a, b) && n <= |bd|
    ensures Inside(bd, low, len, n) == ShiftedPart(bd, low, a, if n <= b then n else b)
    ensures FirstInside(bd, low, len, n) == if n <= a || a == b then -1 else a
  {
    if n > 0 {
      InsideIs(bd, low, len, a, b, n - 1);
    }
  }

  // How many boundaries lie before x.
  function Before(bd: seq<nat>, x: nat): (r: nat)
    requires Boundaries(bd)
    ensures r <= |bd| && forall i :: 0 <= i < |bd| ==> (bd[i] < x <==> i < r)
  {
    BeforeIn(bd, x, |bd|)
  }

  function BeforeIn(bd: seq<nat>, x: nat, n: nat): (r: nat)
    requires Boundaries(bd) && n <= |bd|
    ensures r <= n && forall i :: 0 <= i < n ==> (bd[i] < x <==> i < r)
  {
    if n == 0 then 0 else if bd[n - 1] < x then n else BeforeIn(bd, x, n - 1)
  }

  lemma BeforeIsMonotone(bd: seq<nat>, x: nat, y: nat)
    requires Boundaries(bd) && x <= y
    ensures Before(bd, x) <= Before(bd, y)
  {
    var r := Before(bd, x);
    assert r > 0 ==> bd[r - 1] < x;
  }

  lemma PartInside(bd: seq<nat>, low: nat, len: nat) returns (a: nat, b: nat)
    requires Boundaries(bd)
    ensures AreInside(bd, low, len, a, b)
    ensures Inside(bd, low, len, |bd|) == ShiftedPart(bd, low, a, b)
    ensures FirstInside(bd, low, len, |bd|) == if a == b then -1 else a
  {
    a, b := Before(bd, low), Before(bd, low + len + 1);
    BeforeIsMonotone(bd, low, low + len + 1);
    InsideIs(bd, low, len, a, b, |bd|);
  }

  /* ----- Columns ----- */

  // Whole tiles: both borders of the sub-picture are boundaries.
  predicate WholeTiles(bd: seq<nat>, low: nat, len: nat) {
    low in bd && low + len in bd
  }

  // Tile boundaries of a picture of a size.
  ghost predicate Tiles(bd: seq<nat>, size: nat) {
    Boundaries(bd) && bd[|bd| - 1] == size
  }

  // The collected columns are the tile boundaries of the sub-picture exactly if it is made of whole tiles.
  lemma ColumnsFit(bd: seq<nat>, low: nat, len: nat)
    requires Boundaries(bd) && len > 0
    ensures Tiles(Inside(bd, low, len, |bd|), len) <==> WholeTiles(bd, low, len)
  {
    var a, b := PartInside(bd, low, len);
    var r := Inside(bd, low, len, |bd|);
    if WholeTiles(bd, low, len) {
      var i :| 0 <= i < |bd| && bd[i] == low;
      var j :| 0 <= j < |bd| && bd[j] == low + len;
      assert Within(bd[i], low, len) && Within(bd[j], low, len);
      assert Within(bd[a], low, len) && Within(bd[b - 1], low, len);
      assert i == a && j == b - 1;
    }
    if Tiles(r, len) {
      assert bd[a] == r[0] + low && bd[b - 1] == r[b - 1 - a] + low;
    }
  }

  /* ----- Rows ----- */

  // With fewer than two boundaries, the missing borders are added.
  function Completed(list: seq<nat>, len: nat): seq<nat> {
    if |list| >= 2 then list
    else if |list| == 0 then [0, len]
    else if list[0] == 0 then list + [len]
    else [0, list[0]]
  }

  method Complete(list: seq<nat>, len: nat) returns (r: seq<nat>)
    ensures r == Completed(list, len)
  {
    r := list;
    if |r| < 2 {
      if |r| == 0 {
        r := r + [0] + [len];
      } else if r[0] == 0 {
        r := r + [len];
      } else {
        var row1 := r[0];
        r := r[0 := 0];
        r := r + [row1];
      }
    }
  }

  // No boundary lies strictly between the borders: the sub-picture is a band of one tile.
  predicate OneTile(bd: seq<nat>, low: nat, len: nat) {
    forall i :: 0 <= i < |bd| ==> !(low < bd[i] < low + len)
  }

  // The completed rows are the tile boundaries of the sub-picture exactly if it is made of whole tiles or is a
  // band of one tile.
  lemma RowsFit(bd: seq<nat>, low: nat, len: nat)
    requires Boundaries(bd) && len > 0
    ensures Tiles(Completed(Inside(bd, low, len, |bd|), len), len) <==> WholeTiles(bd, low, len) || OneTile(bd, low, len)
  {
    var a, b := PartInside(bd, low, len);
    var r := Inside(bd, low, len, |bd|);
    ColumnsFit(bd, low, len);
    if b - a >= 2 {
      assert Within(bd[a], low, len) && Within(bd[b - 1], low, len) && bd[a] < bd[b - 1];
      if OneTile(bd, low, len) {
        assert bd[a] == low && bd[b - 1] == low + len;
      }
    } else if b - a == 1 {
      assert Within(bd[a], low, len) && r[0] == bd[a] - low;
      assert Tiles(Completed(r, len), len) <==> r[0] == 0 || r[0] == len;
      if r[0] == 0 || r[0] == len {
        forall i | 0 <= i < |bd|
          ensures !(low < bd[i] < low + len)
        {
          assert Within(bd[i], low, len) ==> i == a;
        }
      }
    } else {
      forall i | 0 <= i < |bd|
        ensures !(low < bd[i] < low + len)
      {
        assert !Within(bd[i], low, len);
      }
    }
  }

  /* ----- Sizes ----- */

  // The distances between boundaries, as 32-bit differences.
  function Distances(bd: seq<nat>, n: nat): seq<int>
    requires n <= |bd|
  {
    if n < 2 then [] else Distances(bd, n - 1) + [Unsigned(bd[n - 1], bd[n - 2])]
  }

  function Unsigned(a: int, b: int): nat {
    (a - b) % 0x1_0000_0000
  }

  method Measure(bd: seq<nat>) returns (sizes: seq<int>)
    requires |bd| >= 1
    ensures sizes == Distances(bd, |bd|)
  {
    sizes := [];
    for i := 0 to |bd| - 1
      invariant sizes == Distances(bd, i + 1)
    {
      sizes := sizes + [Unsigned(bd[i + 1], bd[i])];
    }
  }

  function Total(s: seq<int>): int {
    if s == [] then 0 else Total(s[..|s| - 1]) + s[|s| - 1]
  }

  // Between boundaries that fit, all sizes are positive and they add up to the size of the sub-picture.
  lemma {:induction false} SizesFill(bd: seq<nat>, n: nat)
    requires Boundaries(bd) && 1 <= n <= |bd| && bd[|bd| - 1] < 0x1_0000_0000
    ensures |Distances(bd, n)| == n - 1 && Total(Distances(bd, n)) == bd[n - 1]
    ensures forall i :: 0 <= i < n - 1 ==> Distances(bd, n)[i] > 0
  {
    if n > 1 {
      SizesFill(bd, n - 1);
      var before := Distances(bd, n - 1);
      assert Distances(bd, n)[..n - 2] == before;
      assert bd[n - 1] <= bd[|bd| - 1];
    }
  }

  /* ----- Positions ----- */

  // The tile of a position in the sub-picture, and which tile of the picture it was.
  lemma ColumnMoves(bd: seq<nat>, low: nat, len: nat, x: nat)
    requires Boundaries(bd) && WholeTiles(bd, low, len) && low <= x < low + len
    ensures FirstInside(bd, low, len, |bd|) >= 0
    ensures TileOf(Inside(bd, low, len, |bd|), x - low) == TileOf(bd, x) - FirstInside(bd, low, len, |bd|)
    ensures TileOf(bd, x) < |bd| - 1 && TileOf(Inside(bd, low, len, |bd|), x - low) < |Inside(bd, low, len, |bd|)| - 1
  {
    var a, b := PartInside(bd, low, len);
    var r := Inside(bd, low, len, |bd|);
    ColumnsFit(bd, low, len);
    FindHolds(r, x - low, |r|);
    var c := TileOf(r, x - low);
    assert r[|r| - 1] == len;
    assert bd[a + c] == r[c] + low && bd[a + c + 1] == r[c + 1] + low;
    TileOfIs(bd, x, a + c);
  }

  // In a band of one tile all rows are in its only tile row.
  lemma BandRow(bd: seq<nat>, low: nat, len: nat, y: nat)
    requires Tiles(Completed(Inside(bd, low, len, |bd|), len), len) && Boundaries(bd) && len > 0
    requires OneTile(bd, low, len) && low <= y < low + len <= bd[|bd| - 1]
    ensures Completed(Inside(bd, low, len, |bd|), len) == [0, len]
    ensures TileOf(Completed(Inside(bd, low, len, |bd|), len), y - low) == 0
    ensures TileOf(bd, y) == TileOf(bd, low) < |bd| - 1
  {
    var a, b := PartInside(bd, low, len);
    var r := Completed(Inside(bd, low, len, |bd|), len);
    if b - a >= 2 {
      assert Within(bd[a], low, len) && Within(bd[b - 1], low, len) && bd[a] < bd[b - 1];
      assert Within(bd[a + 1], low, len) && bd[a] < bd[a + 1] <= bd[b - 1];
    }
    TileOfIs(r, y - low, 0);
    FindHolds(bd, y, |bd|);
    var c := TileOf(bd, y);
    TileOfIs(bd, y, c);
    TileOfIs(bd, low, c);
  }

  // In a band that is not a whole tile row, the first boundary inside is its tile row only if it starts there.
  lemma BandOffset(bd: seq<nat>, low: nat, len: nat)
    requires Boundaries(bd) && len > 0 && OneTile(bd, low, len) && low + len <= bd[|bd| - 1]
    ensures TileOf(bd, low) == FirstInside(bd, low, len, |bd|) <==> low in bd
  {
    var a, b := PartInside(bd, low, len);
    FindHolds(bd, low, |bd|);
    if low in bd {
      var i :| 0 <= i < |bd| && bd[i] == low;
      assert Within(bd[i], low, len) && Within(bd[a], low, len);
      assert i == a;
      TileOfIs(bd, low, i);
    } else if a < b {
      assert Within(bd[a], low, len) && bd[a] == low + len;
      assert TileOf(bd, low) < a;
    }
  }

  // The row offset is right exactly if the sub-picture starts on a tile row boundary.
  lemma RowMoves(bd: seq<nat>, low: nat, len: nat, y: nat)
    requires Boundaries(bd) && (WholeTiles(bd, low, len) || OneTile(bd, low, len))
    requires low <= y < low + len <= bd[|bd| - 1]
    ensures TileOf(Completed(Inside(bd, low, len, |bd|), len), y - low) == TileOf(bd, y) - FirstInside(bd, low, len, |bd|)
            <==> low in bd
  {
    RowsFit(bd, low, len);
    if WholeTiles(bd, low, len) {
      ColumnMoves(bd, low, len, y);
      ColumnsFit(bd, low, len);
    } else {
      BandRow(bd, low, len, y);
      BandOffset(bd, low, len);
    }
  }

  /* ----- Slices ----- */

  // A rectangular slice: its sizes, its tile and the position of its first tree unit.
  datatype Slice = Slice(width: nat, height: nat, inTile: nat, heightInCtu: nat, tile: int, x: nat, y: nat)

  datatype Area = Area(x: nat, y: nat, width: nat, height: nat)

  predicate Contains(a: Area, s: Slice) {
    a.x <= s.x < a.x + a.width && a.y <= s.y < a.y + a.height
  }

  // The slices of the sub-picture among the first n, in their order.
  function Selected(slices: seq<Slice>, a: Area, n: nat): seq<Slice>
    requires n <= |slices|
  {
    if n == 0 then []
    else if Contains(a, slices[n - 1]) then Selected(slices, a, n - 1) + [slices[n - 1]]
    else Selected(slices, a, n - 1)
  }

  // The index of a tile when tile columns and rows before it are gone.
  function Remapped(tile: int, columns: nat, left: int, top: int, newColumns: int): int
    requires columns > 0
  {
    (tile / columns - top) * newColumns + (tile % columns - left)
  }

  function Renumbered(list: seq<Slice>, columns: nat, left: int, top: int, newColumns: int, n: nat): (r: seq<Slice>)
    requires columns > 0 && n <= |list|
    ensures |r| == |list|
    ensures forall i :: 0 <= i < |list| ==>
      r[i] == list[i].(tile := if i < n then Remapped(list[i].tile, columns, left, top, newColumns) else list[i].tile)
  {
    if n == 0 then list
    else
      var r := Renumbered(list, columns, left, top, newColumns, n - 1);
      r[n - 1 := list[n - 1].(tile := Remapped(list[n - 1].tile, columns, left, top, newColumns))]
  }

  // The slices that are left, renumbered unless every sub-picture is one slice.
  function SlicesLeft(slices: seq<Slice>, a: Area, oneSlice: bool, columns: nat, left: int, top: int, newColumns: int): seq<Slice>
    requires columns > 0
  {
    if oneSlice then slices
    else Renumbered(Selected(slices, a, |slices|), columns, left, top, newColumns, |Selected(slices, a, |slices|)|)
  }

  datatype Target = NoTiles | Target(columns: seq<nat>, rows: seq<nat>, widths: seq<int>, heights: seq<int>, slices: seq<Slice>)

  // The rewriting: columns, rows, and, unless every sub-picture is one slice, the slices.
  function Rewritten(columns: seq<nat>, rows: seq<nat>, a: Area, slices: seq<Slice>, oneSlice: bool): Target
    requires |columns| >= 2
  {
    var c := Inside(columns, a.x, a.width, |columns|);
    var r := Completed(Inside(rows, a.y, a.height, |rows|), a.height);
    if |c| < 2 then NoTiles
    else
      var left, top := FirstInside(columns, a.x, a.width, |columns|), FirstInside(rows, a.y, a.height, |rows|);
      Target(c, r, Distances(c, |c|), Distances(r, |r|),
             SlicesLeft(slices, a, oneSlice, |columns| - 1, left, top, |c| - 1))
  }

  method Select(slices: seq<Slice>, a: Area) returns (list: seq<Slice>)
    ensures list == Selected(slices, a, |slices|)
  {
    list := [];
    for i := 0 to |slices|
      invariant list == Selected(slices, a, i)
    {
      if Contains(a, slices[i]) {
        list := list + [slices[i]];
      }
    }
  }

  method Renumber(list: seq<Slice>, columns: nat, left: int, top: int, newColumns: int) returns (r: seq<Slice>)
    requires columns > 0
    ensures r == Renumbered(list, columns, left, top, newColumns, |list|)
  {
    r := list;
    for i := 0 to |list|
      invariant r == Renumbered(list, columns, left, top, newColumns, i)
    {
      var tileInPicX, tileInPicY := r[i].tile % columns, r[i].tile / columns;
      r := r[i := r[i].(tile := (tileInPicY - top) * newColumns + (tileInPicX - left))];
    }
  }

  method RewriteSlices(slices: seq<Slice>, a: Area, oneSlice: bool, columns: nat, left: int, top: int, newColumns: int)
    returns (r: seq<Slice>)
    requires columns > 0
    ensures r == SlicesLeft(slices, a, oneSlice, columns, left, top, newColumns)
  {
    r := slices;
    if !oneSlice {
      r := Select(slices, a);
      r := Renumber(r, columns, left, top, newColumns);
    }
  }

  method RewriteRows(rows: seq<nat>, a: Area) returns (r: seq<nat>, top: int)
    ensures r == Completed(Inside(rows, a.y, a.height, |rows|), a.height)
    ensures top == FirstInside(rows, a.y, a.height, |rows|)
  {
    r, top := Collect(rows, a.y, a.height);
    r := Complete(r, a.height);
  }

  method RewritePps(columns: seq<nat>, rows: seq<nat>, a: Area, slices: seq<Slice>, oneSlice: bool) returns (t: Target)
    requires |columns| >= 2
    ensures t == Rewritten(columns, rows, a, slices, oneSlice)
  {
    var c, left := Collect(columns, a.x, a.width);
    if |c| - 1 < 1 {
      return NoTiles;
    }
    var widths := Measure(c);
    var r, top := RewriteRows(rows, a);
    var heights := Measure(r);
    var list := RewriteSlices(slices, a, oneSlice, |columns| - 1, left, top, |c| - 1);
    t := Target(c, r, widths, heights, list);
  }

  /* ----- What the rewriting keeps ----- */

  function TileIndex(columns: seq<nat>, rows: seq<nat>, x: nat, y: nat): int
    requires |columns| >= 2
  {
    TileOf(rows, y) * (|columns| - 1) + TileOf(columns, x)
  }

  // A sub-picture in the picture, made of whole tile columns, and of whole tile rows or a band of one.
  ghost predicate Extractable(columns: seq<nat>, rows: seq<nat>, a: Area) {
    && Boundaries(columns) && Boundaries(rows)
    && a.width > 0 && a.height > 0 && a.y + a.height <= rows[|rows| - 1]
    && WholeTiles(columns, a.x, a.width)
    && (WholeTiles(rows, a.y, a.height) || OneTile(rows, a.y, a.height))
  }

  // The new boundaries run from zero to the size of the sub-picture, and the sizes are positive and add up to
  // it, exactly if the sub-picture is extractable.
  lemma TargetFits(columns: seq<nat>, rows: seq<nat>, a: Area, slices: seq<Slice>, oneSlice: bool)
    requires Boundaries(columns) && Boundaries(rows) && a.width > 0 && a.height > 0 && a.y + a.height <= rows[|rows| - 1]
    requires a.width < 0x1_0000_0000 && a.height < 0x1_0000_0000
    ensures var t := Rewritten(columns, rows, a, slices, oneSlice);
      && (t.Target? && Tiles(t.columns, a.width) && Tiles(t.rows, a.height) <==> Extractable(columns, rows, a))
      && (Extractable(columns, rows, a) ==> Fill(t.widths, a.width) && Fill(t.heights, a.height))
  {
    ColumnsFit(columns, a.x, a.width);
    RowsFit(rows, a.y, a.height);
    var c := Inside(columns, a.x, a.width, |columns|);
    var r := Completed(Inside(rows, a.y, a.height, |rows|), a.height);
    if Extractable(columns, rows, a) {
      DistancesFill(c, a.width);
      DistancesFill(r, a.height);
    }
  }

  lemma DistancesFill(bd: seq<nat>, size: nat)
    requires Tiles(bd, size) && size < 0x1_0000_0000
    ensures Fill(Distances(bd, |bd|), size)
  {
    SizesFill(bd, |bd|);
  }

  predicate Fill(sizes: seq<int>, size: nat) {
    Total(sizes) == size && forall i :: 0 <= i < |sizes| ==> sizes[i] > 0
  }

  lemma IndexParts(row: int, column: nat, columns: nat)
    requires column < columns && row >= 0
    ensures (row * columns + column) / columns == row && (row * columns + column) % columns == column
  {
    QuotientIs(row, columns, column);
  }

  lemma SameRow(a: int, b: int, n: nat)
    requires n > 0
    ensures a * n == b * n <==> a == b
  {
    if a < b {
      ProductIsMonotone(a + 1, b, n);
    } else if b < a {
      ProductIsMonotone(b + 1, a, n);
    }
  }

  // The new tile index of every position of the sub-picture is that of its tile in the new grid, exactly if
  // the sub-picture starts on a tile row boundary.
  lemma TileMoves(columns: seq<nat>, rows: seq<nat>, a: Area, x: nat, y: nat)
    requires Extractable(columns, rows, a)
    requires a.x <= x < a.x + a.width && a.y <= y < a.y + a.height
    ensures var t := Rewritten(columns, rows, a, [], false);
      var left, top := FirstInside(columns, a.x, a.width, |columns|), FirstInside(rows, a.y, a.height, |rows|);
      && t.Target? && |t.columns| >= 2
      && ((Remapped(TileIndex(columns, rows, x, y), |columns| - 1, left, top, |t.columns| - 1)
           == TileIndex(t.columns, t.rows, x - a.x, y - a.y)) <==> a.y in rows)
  {
    ColumnsFit(columns, a.x, a.width);
    ColumnMoves(columns, a.x, a.width, x);
    RowMoves(rows, a.y, a.height, y);
    var t := Rewritten(columns, rows, a, [], false);
    var top := FirstInside(rows, a.y, a.height, |rows|);
    IndexParts(TileOf(rows, y), TileOf(columns, x), |columns| - 1);
    SameRow(TileOf(rows, y) - top, TileOf(t.rows, y - a.y), |t.columns| - 1);
  }

  // Half of the only tile: the remapped index of its tile is not its index in the new grid.
  lemma LowerHalfMovesWrong()
    ensures var bd, a := [0, 4], Area(0, 2, 4, 2); var t := Rewritten(bd, bd, a, [], false);
      && Extractable(bd, bd, a) && t.Target? && |t.columns| >= 2
      && Remapped(TileIndex(bd, bd, 0, 2), 1, FirstInside(bd, 0, 4, 2), FirstInside(bd, 2, 2, 2), |t.columns| - 1)
         != TileIndex(t.columns, t.rows, 0, 0)
  {
    var bd, a := [0, 4], Area(0, 2, 4, 2);
    assert bd[0] == 0 && bd[1] == 4 && 2 !in bd;
    TileMoves(bd, bd, a, 0, 2);
  }

  // Borders inside tiles: the columns, and the rows of more than one tile, do not add up to the sub-picture.
  lemma CutTilesDoNotFit()
    ensures !Tiles(Inside([0, 4], 2, 2, 2), 2)
    ensures !Tiles(Completed(Inside([0, 4, 8], 2, 4, 3), 4), 4)
  {
    assert [0, 4][0] == 0 && [0, 4][1] == 4 && 2 !in [0, 4];
    ColumnsFit([0, 4], 2, 2);
    var bd := [0, 4, 8];
    assert bd[0] == 0 && bd[1] == 4 && bd[2] == 8 && 2 !in bd;
    RowsFit(bd, 2, 4);
  }

  // The new index is one of the tiles of the sub-picture.
  lemma TileIndexInRange(columns: seq<nat>, rows: seq<nat>, width: nat, height: nat, x: nat, y: nat)
    requires Tiles(columns, width) && Tiles(rows, height) && x < width && y < height
    ensures 0 <= TileIndex(columns, rows, x, y) < (|rows| - 1) * (|columns| - 1)
  {
    FindHolds(columns, x, |columns|);
    FindHolds(rows, y, |rows|);
    assert TileOf(rows, y) + 1 <= |rows| - 1 && TileOf(columns, x) < |columns| - 1;
    ProductIsMonotone(TileOf(rows, y) + 1, |rows| - 1, |columns| - 1);
    assert (TileOf(rows, y) + 1) * (|columns| - 1) == TileOf(rows, y) * (|columns| - 1) + (|columns| - 1);
    ProductIsMonotone(0, TileOf(rows, y), |columns| - 1);
  }

  // Raster order: first the row, then the column.
  lemma RasterOrder(r: int, c: int, r': int, c': int, n: nat)
    requires 0 <= c < n && 0 <= c' < n
    ensures r * n + c < r' * n + c' <==> r < r' || (r == r' && c < c')
  {
    if r < r' {
      ProductIsMonotone(r + 1, r', n);
      assert (r + 1) * n == r * n + n;
    } else if r' < r {
      ProductIsMonotone(r' + 1, r, n);
      assert (r' + 1) * n == r' * n + n;
    }
  }

  lemma RemappedIs(r: nat, c: nat, n: nat, left: int, top: int, m: nat)
    requires c < n
    ensures Remapped(r * n + c, n, left, top, m) == (r - top) * m + (c - left)
  {
    IndexParts(r, c, n);
  }

  // Two tiles of the sub-picture keep their raster order, so that none are mixed up.
  lemma RemapKeepsOrder(columns: seq<nat>, rows: seq<nat>, a: Area, x: nat, y: nat, x': nat, y': nat)
    requires Extractable(columns, rows, a)
    requires a.x <= x < a.x + a.width && a.y <= y < a.y + a.height
    requires a.x <= x' < a.x + a.width && a.y <= y' < a.y + a.height
    ensures var n, m := |columns| - 1, |Inside(columns, a.x, a.width, |columns|)| - 1;
      var left, top := FirstInside(columns, a.x, a.width, |columns|), FirstInside(rows, a.y, a.height, |rows|);
      TileIndex(columns, rows, x, y) < TileIndex(columns, rows, x', y')
      <==> Remapped(TileIndex(columns, rows, x, y), n, left, top, m) < Remapped(TileIndex(columns, rows, x', y'), n, left, top, m)
  {
    ColumnsFit(columns, a.x, a.width);
    ColumnMoves(columns, a.x, a.width, x);
    ColumnMoves(columns, a.x, a.width, x');
    var n, m := |columns| - 1, |Inside(columns, a.x, a.width, |columns|)| - 1;
    var left, top := FirstInside(columns, a.x, a.width, |columns|), FirstInside(rows, a.y, a.height, |rows|);
    var c, r, c', r' := TileOf(columns, x), TileOf(rows, y), TileOf(columns, x'), TileOf(rows, y');
    RemappedIs(r, c, n, left, top, m);
    RemappedIs(r', c', n, left, top, m);
    RasterOrder(r, c, r', c', n);
    RasterOrder(r - top, c - left, r' - top, c' - left, m);
  }

  // A slice lies in the tile that holds its first tree unit.
  ghost predicate InItsTile(columns: seq<nat>, rows: seq<nat>, s: Slice, x: int, y: int)
  {
    |columns| >= 2 && x >= 0 && y >= 0 && s.tile == TileIndex(columns, rows, x, y)
  }

  lemma {:induction false} SelectedAre(slices: seq<Slice>, a: Area, n: nat)
    requires n <= |slices|
    ensures forall s :: s in Selected(slices, a, n) <==> s in slices[..n] && Contains(a, s)
  {
    if n > 0 {
      SelectedAre(slices, a, n - 1);
      assert slices[..n] == slices[..n - 1] + [slices[n - 1]];
    }
  }

  // In a sub-picture that starts on a tile row boundary, every slice that is left lies, moved to the new
  // origin, in the tile of the new grid that it names.
  lemma SlicesMove(columns: seq<nat>, rows: seq<nat>, a: Area, slices: seq<Slice>, i: nat)
    requires Extractable(columns, rows, a) && a.y in rows
    requires forall s :: s in slices ==> InItsTile(columns, rows, s, s.x, s.y)
    requires i < |Selected(slices, a, |slices|)|
    ensures var t := Rewritten(columns, rows, a, slices, false); var s := Selected(slices, a, |slices|)[i];
      && t.Target? && |t.slices| == |Selected(slices, a, |slices|)| && Contains(a, s)
      && t.slices[i] == s.(tile := t.slices[i].tile)
      && InItsTile(t.columns, t.rows, t.slices[i], s.x - a.x, s.y - a.y)
  {
    SelectedAre(slices, a, |slices|);
    assert slices[..|slices|] == slices;
    var s := Selected(slices, a, |slices|)[i];
    assert s in Selected(slices, a, |slices|);
    TileMoves(columns, rows, a, s.x, s.y);
  }
}
