/**
 The shared Laplacian buffer and the two accumulation passes that widen it in
 place: 2x2 sums to 4x4 sums, and 4x4 sums to 12x12 sums.  Cell (i, j) of the
 buffer belongs to the 2x2 samples at rows y0-5+2i, y0-4+2i and columns x0-5+2j,
 x0-4+2j of a block whose top-left sample is (y0, x0).  The four direction planes
 of the source are the four fields of a cell.
 */
module AlfLaplacian {
  import opened AlfPicture

  // Samples classified around a block, on each side.
  const ALF_CLASSIFIER_FL: nat := 5

  datatype Sums = Sums(v: int, h: int, d0: int, d1: int) {
    function Plus(s: Sums): Sums {
      Sums(v + s.v, h + s.h, d0 + s.d0, d1 + s.d1)
    }
  }

  // One plane for each direction.
  datatype Planes = Planes(v: Plane, h: Plane, d0: Plane, d1: Plane)

  function Laplacians(p: Plane): Planes {
    Planes(LaplacianPlane(p, VER), LaplacianPlane(p, HOR), LaplacianPlane(p, DIAG0), LaplacianPlane(p, DIAG1))
  }

  // The direct sums of an m-by-n window in the four directions.
  function WindowSums(fs: Planes, y: int, x: int, m: nat, n: nat): Sums {
    Sums(WindowSum(fs.v, y, x, m, n), WindowSum(fs.h, y, x, m, n),
         WindowSum(fs.d0, y, x, m, n), WindowSum(fs.d1, y, x, m, n))
  }

  // The direct sums of the m-by-n window that starts at the samples of cell (i, j).
  function CellSums(fs: Planes, y0: int, x0: int, i: int, j: int, m: nat, n: nat): Sums {
    WindowSums(fs, y0 - 5 + 2 * i, x0 - 5 + 2 * j, m, n)
  }

  lemma CellWidens(fs: Planes, y0: int, x0: int, i: int, j: int, m: nat, a: nat, b: nat)
    ensures CellSums(fs, y0, x0, i, j, m, 2 * a + b)
         == CellSums(fs, y0, x0, i, j, m, 2 * a).Plus(CellSums(fs, y0, x0, i, j + a, m, b))
  {
    var y, x := y0 - 5 + 2 * i, x0 - 5 + 2 * j;
    WindowSplitCols(fs.v, y, x, m, 2 * a, b);
    WindowSplitCols(fs.h, y, x, m, 2 * a, b);
    WindowSplitCols(fs.d0, y, x, m, 2 * a, b);
    WindowSplitCols(fs.d1, y, x, m, 2 * a, b);
  }

  lemma CellDeepens(fs: Planes, y0: int, x0: int, i: int, j: int, a: nat, b: nat, n: nat)
    ensures CellSums(fs, y0, x0, i, j, 2 * a + b, n)
         == CellSums(fs, y0, x0, i, j, 2 * a, n).Plus(CellSums(fs, y0, x0, i + a, j, b, n))
  {
    var y, x := y0 - 5 + 2 * i, x0 - 5 + 2 * j;
    WindowSplitRows(fs.v, y, x, 2 * a, b, n);
    WindowSplitRows(fs.h, y, x, 2 * a, b, n);
    WindowSplitRows(fs.d0, y, x, 2 * a, b, n);
    WindowSplitRows(fs.d1, y, x, 2 * a, b, n);
  }

  lemma CellWidensByThree(fs: Planes, y0: int, x0: int, i: int, j: int, m: nat, a: nat)
    ensures CellSums(fs, y0, x0, i, j, m, 6 * a)
         == CellSums(fs, y0, x0, i, j, m, 2 * a)
              .Plus(CellSums(fs, y0, x0, i, j + a, m, 2 * a).Plus(CellSums(fs, y0, x0, i, j + 2 * a, m, 2 * a)))
  {
    CellWidens(fs, y0, x0, i, j, m, a, 4 * a);
    CellWidens(fs, y0, x0, i, j + a, m, a, 2 * a);
  }

  lemma CellDeepensByThree(fs: Planes, y0: int, x0: int, i: int, j: int, a: nat, n: nat)
    ensures CellSums(fs, y0, x0, i, j, 6 * a, n)
         == CellSums(fs, y0, x0, i, j, 2 * a, n)
              .Plus(CellSums(fs, y0, x0, i + a, j, 2 * a, n).Plus(CellSums(fs, y0, x0, i + 2 * a, j, 2 * a, n)))
  {
    CellDeepens(fs, y0, x0, i, j, a, 4 * a, n);
    CellDeepens(fs, y0, x0, i + a, j, a, 2 * a, n);
  }

  lemma WindowOfFour(f: Plane, y: int, x: int)
    ensures WindowSum(f, y, x, 2, 2) == f(y, x) + f(y, x + 1) + f(y + 1, x) + f(y + 1, x + 1)
  {
    assert RowSum(f, y, x, 1) == f(y, x);
    assert RowSum(f, y + 1, x, 1) == f(y + 1, x);
    assert WindowSum(f, y, x, 1, 2) == RowSum(f, y, x, 2);
  }

  lemma FourLaplacians(p: Plane, d: nat, y: int, x: int)
    ensures WindowSum(LaplacianPlane(p, d), y, x, 2, 2)
         == Laplacian(p, d, y, x) + Laplacian(p, d, y, x + 1) + Laplacian(p, d, y + 1, x) + Laplacian(p, d, y + 1, x + 1)
  {
    WindowOfFour(LaplacianPlane(p, d), y, x);
  }

  // The 2x2 sums with the neighbours the source reads, one absolute value a sample.
  method CellOfSamples(p: Plane, y: int, x: int) returns (s: Sums)
    ensures s == WindowSums(Laplacians(p), y, x, 2, 2)
  {
    var y0, y01, y1, y11 := 2 * p(y, x), 2 * p(y, x + 1), 2 * p(y + 1, x), 2 * p(y + 1, x + 1);
    var ver := Abs(y0 - p(y - 1, x) - p(y + 1, x)) + Abs(y01 - p(y - 1, x + 1) - p(y + 1, x + 1))
      + Abs(y1 - p(y, x) - p(y + 2, x)) + Abs(y11 - p(y, x + 1) - p(y + 2, x + 1));
    var hor := Abs(y0 - p(y, x - 1) - p(y, x + 1)) + Abs(y01 - p(y, x) - p(y, x + 2))
      + Abs(y1 - p(y + 1, x - 1) - p(y + 1, x + 1)) + Abs(y11 - p(y + 1, x) - p(y + 1, x + 2));
    var diag0 := Abs(y0 - p(y - 1, x - 1) - p(y + 1, x + 1)) + Abs(y01 - p(y - 1, x) - p(y + 1, x + 2))
      + Abs(y1 - p(y, x - 1) - p(y + 2, x + 1)) + Abs(y11 - p(y, x) - p(y + 2, x + 2));
    var diag1 := Abs(y0 - p(y - 1, x + 1) - p(y + 1, x - 1)) + Abs(y01 - p(y - 1, x + 2) - p(y + 1, x))
      + Abs(y1 - p(y, x + 1) - p(y + 2, x - 1)) + Abs(y11 - p(y, x + 2) - p(y + 2, x));
    assert ver == WindowSum(LaplacianPlane(p, VER), y, x, 2, 2) by { FourLaplacians(p, VER, y, x); }
    assert hor == WindowSum(LaplacianPlane(p, HOR), y, x, 2, 2) by { FourLaplacians(p, HOR, y, x); }
    assert diag0 == WindowSum(LaplacianPlane(p, DIAG0), y, x, 2, 2) by { FourLaplacians(p, DIAG0, y, x); }
    assert diag1 == WindowSum(LaplacianPlane(p, DIAG1), y, x, 2, 2) by { FourLaplacians(p, DIAG1, y, x); }
    s := Sums(ver, hor, diag0, diag1);
  }

  /* ----- The passes, over any cells whose sums nest ----- */

  // The sums of the m-by-n window of cell (i, j), for every i, j, m and n.
  type Cells = (int, int, nat, nat) -> Sums

  function CellsOf(fs: Planes, y0: int, x0: int): Cells {
    (i: int, j: int, m: nat, n: nat) => CellSums(fs, y0, x0, i, j, m, n)
  }

  // 2x2 sums make 4x4 sums, by columns and then by rows.
  ghost predicate NestsNarrow(cell: Cells) {
    && (forall i, j :: cell(i, j, 2, 4) == cell(i, j, 2, 2).Plus(cell(i, j + 1, 2, 2)))
    && (forall i, j :: cell(i, j, 4, 4) == cell(i, j, 2, 4).Plus(cell(i + 1, j, 2, 4)))
  }

  // 4x4 sums make 12x12 sums, by columns and then by rows.
  ghost predicate NestsWide(cell: Cells) {
    && (forall i, j :: cell(i, j, 4, 12) == cell(i, j, 4, 4).Plus(cell(i, j + 2, 4, 4).Plus(cell(i, j + 4, 4, 4))))
    && (forall i, j :: cell(i, j, 12, 12) == cell(i, j, 4, 12).Plus(cell(i + 2, j, 4, 12).Plus(cell(i + 4, j, 4, 12))))
  }

  ghost predicate Nests(cell: Cells) {
    NestsNarrow(cell) && NestsWide(cell)
  }

  lemma CellsNestAt(fs: Planes, y0: int, x0: int, i: int, j: int)
    ensures CellSums(fs, y0, x0, i, j, 2, 4) == CellSums(fs, y0, x0, i, j, 2, 2).Plus(CellSums(fs, y0, x0, i, j + 1, 2, 2))
    ensures CellSums(fs, y0, x0, i, j, 4, 4) == CellSums(fs, y0, x0, i, j, 2, 4).Plus(CellSums(fs, y0, x0, i + 1, j, 2, 4))
  {
    CellWidens(fs, y0, x0, i, j, 2, 1, 2);
    CellDeepens(fs, y0, x0, i, j, 1, 2, 4);
  }

  lemma CellsNest(fs: Planes, y0: int, x0: int)
    ensures Nests(CellsOf(fs, y0, x0))
  {
    CellsNestNarrow(fs, y0, x0);
    CellsNestWide(fs, y0, x0);
  }

  lemma CellsNestNarrow(fs: Planes, y0: int, x0: int)
    ensures NestsNarrow(CellsOf(fs, y0, x0))
  {
    var cell := CellsOf(fs, y0, x0);
    forall i, j
      ensures cell(i, j, 2, 4) == cell(i, j, 2, 2).Plus(cell(i, j + 1, 2, 2))
      ensures cell(i, j, 4, 4) == cell(i, j, 2, 4).Plus(cell(i + 1, j, 2, 4))
    {
      CellsNestAt(fs, y0, x0, i, j);
    }
  }

  lemma CellsNestWide(fs: Planes, y0: int, x0: int)
    ensures NestsWide(CellsOf(fs, y0, x0))
  {
    var cell := CellsOf(fs, y0, x0);
    forall i, j
      ensures cell(i, j, 4, 12) == cell(i, j, 4, 4).Plus(cell(i, j + 2, 4, 4).Plus(cell(i, j + 4, 4, 4)))
    {
      CellWidensByThree(fs, y0, x0, i, j, 4, 2);
    }
    forall i, j
      ensures cell(i, j, 12, 12) == cell(i, j, 4, 12).Plus(cell(i + 2, j, 4, 12).Plus(cell(i + 4, j, 4, 12)))
    {
      CellDeepensByThree(fs, y0, x0, i, j, 2, 12);
    }
  }

  // The cells of rows r0 .. r1-1 and columns c0 .. c1-1 hold the sums of m-by-n windows.
  ghost predicate Holds(lap: array2<Sums>, cell: Cells, r0: int, r1: int, c0: int, c1: int, m: nat, n: nat)
    requires r1 <= lap.Length0 && c1 <= lap.Length1
    reads lap
  {
    forall r, c :: 0 <= r && r0 <= r < r1 && 0 <= c && c0 <= c < c1 ==> lap[r, c] == cell(r, c, m, n)
  }

  twostate predicate OtherRowsKept(lap: array2<Sums>, i: int)
    reads lap
  {
    forall r, c :: 0 <= r < lap.Length0 && r != i && 0 <= c < lap.Length1 ==> lap[r, c] == old(lap[r, c])
  }

  ghost predicate Fits(lap: array2<Sums>, h: nat, w: nat) {
    h % 2 == 0 && w % 2 == 0 && (h + 10) / 2 <= lap.Length0 && (w + 10) / 2 <= lap.Length1
  }

  // After the 2x2-to-4x4 pass.  The last row and the last column have nothing to add.
  ghost predicate HoldsNarrowSums(lap: array2<Sums>, cell: Cells, h: nat, w: nat)
    requires Fits(lap, h, w)
    reads lap
  {
    Holds(lap, cell, 0, (h + 8) / 2, 0, (w + 8) / 2, 4, 4)
  }

  // After the 4x4-to-12x12 pass: one cell for each 2x2 block of the h-by-w block.
  ghost predicate HoldsWideSums(lap: array2<Sums>, cell: Cells, h: nat, w: nat)
    requires Fits(lap, h, w)
    reads lap
  {
    Holds(lap, cell, 0, h / 2, 0, w / 2, 12, 12)
  }

  // Marks the cells whose sums are looked up in the picture.
  ghost predicate Cell(i: int, j: int) {
    true
  }

  ghost predicate SumsOf(cell: Cells, p: Plane, y0: int, x0: int) {
    forall i, j {:trigger Cell(i, j)} :: Cell(i, j) ==>
      cell(i, j, 2, 2) == WindowSums(Laplacians(p), y0 - 5 + 2 * i, x0 - 5 + 2 * j, 2, 2)
  }

  // The sums of a block's cells, as the passes and their readers need them.
  lemma BlockCells(p: Plane, y0: int, x0: int) returns (cell: Cells)
    ensures cell == CellsOf(Laplacians(p), y0, x0)
    ensures Nests(cell) && SumsOf(cell, p, y0, x0)
  {
    cell := CellsOf(Laplacians(p), y0, x0);
    CellsNest(Laplacians(p), y0, x0);
  }

  // After the call the buffer holds the direct 4x4 sums of the picture.
  method DeriveClassificationLaplacian(p: Plane, y0: int, x0: int, h: nat, w: nat, lap: array2<Sums>)
    requires Fits(lap, h, w)
    modifies lap
    ensures HoldsNarrowSums(lap, CellsOf(Laplacians(p), y0, x0), h, w)
  {
    ghost var cell := BlockCells(p, y0, x0);
    FillLaplacian(p, y0, x0, cell, h, w, lap);
  }

  method FillLaplacian(p: Plane, y0: int, x0: int, ghost cell: Cells, h: nat, w: nat, lap: array2<Sums>)
    requires Fits(lap, h, w) && Nests(cell) && SumsOf(cell, p, y0, x0)
    modifies lap
    ensures HoldsNarrowSums(lap, cell, h, w)
  {
    var rows, cols := (h + 2 * ALF_CLASSIFIER_FL) / 2, (w + 2 * ALF_CLASSIFIER_FL) / 2;
    StoreCells(p, y0, x0, cell, lap, rows, cols);
    NarrowCells(cell, lap, rows, cols);
  }

  method StoreCells(p: Plane, y0: int, x0: int, ghost cell: Cells, lap: array2<Sums>, rows: nat, cols: nat)
    requires rows <= lap.Length0 && cols <= lap.Length1
    requires SumsOf(cell, p, y0, x0)
    modifies lap
    ensures Holds(lap, cell, 0, rows, 0, cols, 2, 2)
  {
    for i := 0 to rows
      invariant Holds(lap, cell, 0, i, 0, cols, 2, 2)
    {
      for j := 0 to cols
        invariant Holds(lap, cell, 0, i, 0, cols, 2, 2)
        invariant Holds(lap, cell, i, i + 1, 0, j, 2, 2)
      {
        var s := CellOfSamples(p, y0 - 5 + 2 * i, x0 - 5 + 2 * j);
        assert s == cell(i, j, 2, 2) by { assert Cell(i, j); }
        lap[i, j] := s;
      }
    }
  }

  // Row i: each cell takes in its right neighbour.
  method NarrowRow(ghost cell: Cells, lap: array2<Sums>, i: nat, rows: nat, cols: nat)
    requires i < rows <= lap.Length0 && 0 < cols <= lap.Length1
    requires NestsNarrow(cell)
    requires Holds(lap, cell, 0, i - 1, 0, cols - 1, 4, 4) && (i > 0 ==> Holds(lap, cell, i - 1, i, 0, cols - 1, 2, 4))
    requires Holds(lap, cell, i, rows, 0, cols, 2, 2)
    modifies lap
    ensures Holds(lap, cell, 0, i - 1, 0, cols - 1, 4, 4) && (i > 0 ==> Holds(lap, cell, i - 1, i, 0, cols - 1, 2, 4))
    ensures Holds(lap, cell, i, i + 1, 0, cols - 1, 2, 4) && Holds(lap, cell, i + 1, rows, 0, cols, 2, 2)
  {
    for j := 1 to cols
      invariant Holds(lap, cell, 0, i - 1, 0, cols - 1, 4, 4)
      invariant i > 0 ==> Holds(lap, cell, i - 1, i, 0, cols - 1, 2, 4)
      invariant Holds(lap, cell, i + 1, rows, 0, cols, 2, 2)
      invariant Holds(lap, cell, i, i + 1, 0, j - 1, 2, 4)
      invariant Holds(lap, cell, i, i + 1, j - 1, cols, 2, 2)
    {
      lap[i, j - 1] := lap[i, j - 1].Plus(lap[i, j]);
    }
  }

  // Row i-1: each cell takes in the one below.
  method NarrowPair(ghost cell: Cells, lap: array2<Sums>, i: nat, rows: nat, cols: nat)
    requires 0 < i < rows <= lap.Length0 && 0 < cols <= lap.Length1
    requires NestsNarrow(cell)
    requires Holds(lap, cell, 0, i - 1, 0, cols - 1, 4, 4) && Holds(lap, cell, i - 1, i, 0, cols - 1, 2, 4)
    requires Holds(lap, cell, i, i + 1, 0, cols - 1, 2, 4) && Holds(lap, cell, i + 1, rows, 0, cols, 2, 2)
    modifies lap
    ensures Holds(lap, cell, 0, i, 0, cols - 1, 4, 4)
    ensures Holds(lap, cell, i, i + 1, 0, cols - 1, 2, 4) && Holds(lap, cell, i + 1, rows, 0, cols, 2, 2)
  {
    for j := 0 to cols
      invariant Holds(lap, cell, 0, i - 1, 0, cols - 1, 4, 4)
      invariant Holds(lap, cell, i - 1, i, 0, if j < cols then j else cols - 1, 4, 4)
      invariant Holds(lap, cell, i - 1, i, j, cols - 1, 2, 4)
      invariant Holds(lap, cell, i, i + 1, 0, cols - 1, 2, 4)
      invariant Holds(lap, cell, i + 1, rows, 0, cols, 2, 2)
    {
      lap[i - 1, j] := lap[i - 1, j].Plus(lap[i, j]);
    }
  }

  method NarrowCells(ghost cell: Cells, lap: array2<Sums>, rows: nat, cols: nat)
    requires rows <= lap.Length0 && 0 < cols <= lap.Length1
    requires NestsNarrow(cell) && Holds(lap, cell, 0, rows, 0, cols, 2, 2)
    modifies lap
    ensures Holds(lap, cell, 0, rows - 1, 0, cols - 1, 4, 4)
  {
    for i := 0 to rows
      invariant Holds(lap, cell, 0, i - 1, 0, cols - 1, 4, 4)
      invariant i > 0 ==> Holds(lap, cell, i - 1, i, 0, cols - 1, 2, 4)
      invariant Holds(lap, cell, i, rows, 0, cols, 2, 2)
    {
      NarrowRow(cell, lap, i, rows, cols);
      if i > 0 {
        NarrowPair(cell, lap, i, rows, cols);
      }
    }
  }

  method DeriveClassificationLaplacianBig(ghost cell: Cells, h: nat, w: nat, lap: array2<Sums>)
    requires Fits(lap, h, w)
    requires Nests(cell) && HoldsNarrowSums(lap, cell, h, w)
    modifies lap
    ensures HoldsWideSums(lap, cell, h, w)
  {
    var rows := (h + 2 * ALF_CLASSIFIER_FL) / 2;
    for i := 0 to rows
      invariant Holds(lap, cell, 0, if i - 4 < h / 2 then i - 4 else h / 2, 0, w / 2, 12, 12)
      invariant Holds(lap, cell, i - 4, if i < rows then i else rows - 1, 0, w / 2, 4, 12)
      invariant Holds(lap, cell, i, rows - 1, 0, (w + 8) / 2, 4, 4)
    {
      WidenRow(cell, h, w, lap, i);
      if i >= 4 {
        DeepenRow(cell, h, w, lap, i);
      }
    }
  }

  lemma WidensAt(cell: Cells, i: int, jM4: int, jM2: int, j: int)
    requires NestsWide(cell) && jM2 == jM4 + 2 && j == jM4 + 4
    ensures cell(i, jM4, 4, 12) == cell(i, jM4, 4, 4).Plus(cell(i, jM2, 4, 4).Plus(cell(i, j, 4, 4)))
  {
  }

  lemma DeepensAt(cell: Cells, iM4: int, iM2: int, i: int, j: int)
    requires NestsWide(cell) && iM2 == iM4 + 2 && i == iM4 + 4
    ensures cell(iM4, j, 12, 12) == cell(iM4, j, 4, 12).Plus(cell(iM2, j, 4, 12).Plus(cell(i, j, 4, 12)))
  {
  }

  // Row i of 4x4 sums becomes a row of 4x12 sums.  The last row and the last columns do
  // not hold 4x4 sums; what the pass makes of them is never read.
  method WidenRow(ghost cell: Cells, h: nat, w: nat, lap: array2<Sums>, i: nat)
    requires Fits(lap, h, w) && i < (h + 10) / 2 && NestsWide(cell)
    requires i < (h + 8) / 2 ==> Holds(lap, cell, i, i + 1, 0, (w + 8) / 2, 4, 4)
    modifies lap
    ensures i < (h + 8) / 2 ==> Holds(lap, cell, i, i + 1, 0, w / 2, 4, 12)
    ensures OtherRowsKept(lap, i)
  {
    for j := 4 to (w + 2 * ALF_CLASSIFIER_FL - 2) / 2 + 1
      invariant i < (h + 8) / 2 ==> Holds(lap, cell, i, i + 1, 0, if j - 4 < w / 2 then j - 4 else w / 2, 4, 12)
      invariant i < (h + 8) / 2 ==> Holds(lap, cell, i, i + 1, j - 4, (w + 8) / 2, 4, 4)
      invariant OtherRowsKept(lap, i)
    {
      var jM2, jM4 := j - 2, j - 4;
      WidensAt(cell, i, jM4, jM2, j);
      lap[i, jM4] := lap[i, jM4].Plus(lap[i, jM2].Plus(lap[i, j]));
    }
  }

  // Rows i-4, i-2 and i of four-row sums leave a row of twelve-row sums at i-4.
  method DeepenRow(ghost cell: Cells, h: nat, w: nat, lap: array2<Sums>, i: nat)
    requires Fits(lap, h, w) && 4 <= i < (h + 10) / 2 && NestsWide(cell)
    requires i < (h + 8) / 2 ==> Holds(lap, cell, i - 4, i + 1, 0, w / 2, 4, 12)
    modifies lap
    ensures i < (h + 8) / 2 ==> Holds(lap, cell, i - 4, i - 3, 0, w / 2, 12, 12)
    ensures OtherRowsKept(lap, i - 4)
  {
    var iM2, iM4 := i - 2, i - 4;
    for j := 0 to (w + 2 * ALF_CLASSIFIER_FL - 11) / 2 + 1
      invariant i < (h + 8) / 2 ==> Holds(lap, cell, iM4, iM4 + 1, 0, j, 12, 12)
      invariant i < (h + 8) / 2 ==> Holds(lap, cell, iM4, iM4 + 1, j, w / 2, 4, 12)
      invariant OtherRowsKept(lap, iM4)
    {
      DeepensAt(cell, iM4, iM2, i, j);
      lap[iM4, j] := lap[iM4, j].Plus(lap[iM2, j].Plus(lap[i, j]));
    }
  }
}
