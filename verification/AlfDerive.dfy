/**
 One block through the loop filter: the shared Laplacian buffer is filled, widened at most
 once, classified on the right sums, and every fixed-result plane that is read afterwards
 holds the fixed results of this block and of the right QP set.
 */
module AlfDerive {
  import opened AlfPicture
  import opened AlfLaplacian
  import opened AlfClassifier
  import opened AlfTaps
  import opened AlfPipeline
  import opened AlfBlock

  /* ----- QP sets ----- */

  // Division as the source's language rounds it, towards zero.
  function TruncatedDiv(a: int, b: int): int
    requires b > 0
  {
    if a >= 0 then a / b else -(-a / b)
  }

  // The lower of the two adjacent QP sets of a quantisation parameter.
  function LowerSet(qp: int): nat {
    var lower, upper := TruncatedDiv(qp - 22, 4), TruncatedDiv(qp - 18, 4);
    if lower <= 0 then 0 else if upper > NUM_SETS_FIXED_FILTERS - 1 then NUM_SETS_FIXED_FILTERS - 2 else lower
  }

  // The two sets in use are always neighbours among the eight, whatever the parameter.
  method SelectSets(qp: int) returns (fixedFiltSetIndMin: int, fixedFiltSetIndMax: int)
    ensures fixedFiltSetIndMin == LowerSet(qp)
    ensures 0 <= fixedFiltSetIndMin && fixedFiltSetIndMax == fixedFiltSetIndMin + 1 < NUM_SETS_FIXED_FILTERS
  {
    fixedFiltSetIndMin := TruncatedDiv(qp - 22, 4);
    fixedFiltSetIndMax := TruncatedDiv(qp - 18, 4);
    if fixedFiltSetIndMin <= 0 {
      fixedFiltSetIndMin := 0;
      fixedFiltSetIndMax := 1;
    }
    if fixedFiltSetIndMax > NUM_SETS_FIXED_FILTERS - 1 {
      fixedFiltSetIndMin := NUM_SETS_FIXED_FILTERS - 2;
      fixedFiltSetIndMax := NUM_SETS_FIXED_FILTERS - 1;
    }
  }

  /* ----- What a block's arrays hold, over destination rows and columns ----- */

  // Where a block is read and where it is written.
  datatype Place = Place(blkY: int, blkX: int, dstY: nat, dstX: nat, h: nat, w: nat)

  ghost predicate Sane(b: Place) {
    b.blkY % 2 == 0 && b.blkX % 2 == 0 && b.h % 2 == 0 && b.w % 2 == 0
  }

  // The sample of the source block behind a destination sample.
  function SrcRow(b: Place, r: int): int {
    b.blkY + (r - b.dstY)
  }

  function SrcCol(b: Place, c: int): int {
    b.blkX + (c - b.dstX)
  }

  // The top-left sample of cell (i, j) of the block.
  function CellRow(b: Place, i: int): int {
    b.blkY + 2 * i
  }

  function CellCol(b: Place, j: int): int {
    b.blkX + 2 * j
  }

  function SumsAt(p: Plane, b: Place, window: nat): (int, int) -> Sums {
    (r: int, c: int) => SampleSums(p, window, SrcRow(b, r), SrcCol(b, c))
  }

  function FixedCodes(setup: Setup, window: nat, sums: (int, int) -> Sums): (int, int) -> nat {
    (r: int, c: int) => FixedCode(setup, window, sums(r, c))
  }

  function AdaptiveCodes(setup: Setup, sums: (int, int) -> Sums): (int, int) -> nat {
    (r: int, c: int) => AdaptiveCode(setup, sums(r, c))
  }

  function FixedCodeAt(setup: Setup, p: Plane, b: Place, window: nat): (int, int) -> nat {
    FixedCodes(setup, window, SumsAt(p, b, window))
  }

  function AdaptiveCodeAt(setup: Setup, p: Plane, b: Place): (int, int) -> nat {
    AdaptiveCodes(setup, SumsAt(p, b, 1))
  }

  function BandCodeAt(setup: Setup, p: Plane, b: Place): (int, int) -> nat {
    (r: int, c: int) => Natural(BandCode(setup, p, BlockOf(SrcRow(b, r)), BlockOf(SrcCol(b, c))))
  }

  // Filtered samples by the codes of the samples.
  function ByCode(out: FixedOut, b: Place, code: (int, int) -> nat): Plane {
    (r: int, c: int) => out(SrcRow(b, r), SrcCol(b, c), code(r, c))
  }

  function FixedOutOf(setup: Setup, p: Plane, set_: nat, window: nat): FixedOut {
    (y: int, x: int, code: nat) => FixedByCode(setup, Centred(p, y, x), set_, window, code)
  }

  // The fixed results of a QP set and a window.
  function FixedAt(setup: Setup, p: Plane, b: Place, set_: nat, window: nat): Plane {
    ByCode(FixedOutOf(setup, p, set_, window), b, FixedCodeAt(setup, p, b, window))
  }

  lemma FixedCodeAtMeans(setup: Setup, p: Plane, b: Place, window: nat, r: int, c: int)
    ensures FixedCodeAt(setup, p, b, window)(r, c)
         == FixedCode(setup, window, SampleSums(p, window, SrcRow(b, r), SrcCol(b, c)))
  {
    assert SumsAt(p, b, window)(r, c) == SampleSums(p, window, SrcRow(b, r), SrcCol(b, c));
  }

  lemma FixedResultMeans(setup: Setup, p: Plane, set_: nat, window: nat, y: int, x: int, code: nat)
    requires code == FixedCode(setup, window, SampleSums(p, window, y, x))
    ensures FixedOutOf(setup, p, set_, window)(y, x, code) == FixedResult(setup, p, set_, window, y, x)
  {
  }

  lemma ByCodeIs(out: FixedOut, b: Place, code: (int, int) -> nat, r: int, c: int, k: nat, v: int)
    requires code(r, c) == k && out(SrcRow(b, r), SrcCol(b, c), k) == v
    ensures ByCode(out, b, code)(r, c) == v
  {
  }

  lemma FixedAtMeans(setup: Setup, p: Plane, b: Place, set_: nat, window: nat, r: int, c: int)
    ensures FixedAt(setup, p, b, set_, window)(r, c) == FixedResult(setup, p, set_, window, SrcRow(b, r), SrcCol(b, c))
  {
    var y, x := SrcRow(b, r), SrcCol(b, c);
    var k := FixedCode(setup, window, SampleSums(p, window, y, x));
    var v := FixedResult(setup, p, set_, window, y, x);
    FixedCodeAtMeans(setup, p, b, window, r, c);
    FixedResultMeans(setup, p, set_, window, y, x, k);
    ByCodeIs(FixedOutOf(setup, p, set_, window), b, FixedCodeAt(setup, p, b, window), r, c, k, v);
  }

  lemma FixedOutIsOut(setup: Setup, p: Plane, set_: nat, window: nat)
    ensures IsFixedOut(FixedOutOf(setup, p, set_, window), setup, p, set_, window)
  {
  }

  /* ----- From buffer cells to sample codes ----- */

  lemma BlockOfCell(y0: int, i: int, ii: int)
    requires y0 % 2 == 0 && 0 <= ii < 2
    ensures BlockOf(y0 + 2 * i + ii) == y0 + 2 * i
  {
  }

  lemma CellIsBlock(p: Plane, y0: int, x0: int, i: int, j: int, y: int, x: int, cell: Cells)
    requires y == y0 + 2 * i && x == x0 + 2 * j && cell == CellsOf(Laplacians(p), y0, x0)
    ensures cell(i + 2, j + 2, 4, 4) == BlockSums(p, 0, y, x)
    ensures cell(i, j, 12, 12) == BlockSums(p, 1, y, x)
  {
    assert cell(i + 2, j + 2, 4, 4) == CellSums(Laplacians(p), y0, x0, i + 2, j + 2, 4, 4);
    assert cell(i, j, 12, 12) == CellSums(Laplacians(p), y0, x0, i, j, 12, 12);
    assert y0 - 5 + 2 * (i + 2) == y - 1 && x0 - 5 + 2 * (j + 2) == x - 1 && y0 - 5 + 2 * i == y - 5 && x0 - 5 + 2 * j == x - 5;
  }

  lemma CellsAreBlocks(p: Plane, b: Place, cell: Cells)
    requires cell == CellsOf(Laplacians(p), b.blkY, b.blkX)
    ensures CellsShow(cell, p, b)
  {
    forall i, j | Within(i, j)
      ensures cell(i + 2, j + 2, 4, 4) == BlockSums(p, 0, CellRow(b, i), CellCol(b, j))
      ensures cell(i, j, 12, 12) == BlockSums(p, 1, CellRow(b, i), CellCol(b, j))
    {
      CellIsBlock(p, b.blkY, b.blkX, i, j, CellRow(b, i), CellCol(b, j), cell);
    }
  }

  // The cells of a block are the window sums of its 2x2 blocks.
  ghost predicate CellsShow(cell: Cells, p: Plane, b: Place) {
    forall i, j {:trigger Within(i, j)} :: Within(i, j) ==>
      && cell(i + 2, j + 2, 4, 4) == BlockSums(p, 0, CellRow(b, i), CellCol(b, j))
      && cell(i, j, 12, 12) == BlockSums(p, 1, CellRow(b, i), CellCol(b, j))
  }

  // What the passes and the classifiers know of the cells of a block.
  ghost predicate CellsFor(cell: Cells, p: Plane, b: Place) {
    Nests(cell) && SumsOf(cell, p, b.blkY, b.blkX) && CellsShow(cell, p, b)
  }

  lemma CellsOfPlace(p: Plane, b: Place) returns (cell: Cells)
    ensures CellsFor(cell, p, b)
  {
    cell := BlockCells(p, b.blkY, b.blkX);
    CellsAreBlocks(p, b, cell);
  }

  // The buffer holds the sums that window's classification reads.
  ghost predicate Ready(lap: array2<Sums>, cell: Cells, b: Place, window: nat)
    requires Fits(lap, b.h, b.w)
    reads lap
  {
    if window == 0 then HoldsNarrowSums(lap, cell, b.h, b.w) else HoldsWideSums(lap, cell, b.h, b.w)
  }

  lemma ReadyCell(lap: array2<Sums>, cell: Cells, p: Plane, b: Place, window: nat, i: nat, j: nat)
    requires Fits(lap, b.h, b.w) && CellsFor(cell, p, b) && window < 2 && Ready(lap, cell, b, window) && i < b.h / 2 && j < b.w / 2
    ensures var offset := if window == 0 then 2 else 0;
            lap[offset + i, offset + j] == BlockSums(p, window, CellRow(b, i), CellCol(b, j))
  {
    assert Within(i, j);
  }

  // Every sample of block (i, j) is classified on the sums of the block.
  ghost predicate SameSums(sums: (int, int) -> Sums, r0: int, c0: int, s: Sums) {
    forall r, c :: r0 <= r < r0 + 2 && c0 <= c < c0 + 2 ==> sums(r, c) == s
  }

  lemma SamplesAreInBlock(p: Plane, b: Place, window: nat, i: nat, j: nat)
    requires Sane(b)
    ensures SameSums(SumsAt(p, b, window), b.dstY + 2 * i, b.dstX + 2 * j, BlockSums(p, window, CellRow(b, i), CellCol(b, j)))
  {
    forall r, c | b.dstY + 2 * i <= r < b.dstY + 2 * i + 2 && b.dstX + 2 * j <= c < b.dstX + 2 * j + 2
      ensures SumsAt(p, b, window)(r, c) == BlockSums(p, window, CellRow(b, i), CellCol(b, j))
    {
      var y, x := SrcRow(b, r), SrcCol(b, c);
      assert BlockOf(y) == CellRow(b, i) by { BlockOfCell(b.blkY, i, y - b.blkY - 2 * i); }
      assert BlockOf(x) == CellCol(b, j) by { BlockOfCell(b.blkX, j, x - b.blkX - 2 * j); }
      assert SumsAt(p, b, window)(r, c) == SampleSums(p, window, y, x);
    }
  }

  lemma CellHasFixedCode(setup: Setup, sums: (int, int) -> Sums, window: nat, r0: int, c0: int, s: Sums)
    requires SameSums(sums, r0, c0, s) && NonNegative(s)
    ensures CellHasCode(s, WindowHalf(window), FixedKind, setup.bits, r0, c0, FixedCodes(setup, window, sums))
  {
  }

  lemma CellHasAdaptiveCode(setup: Setup, sums: (int, int) -> Sums, r0: int, c0: int, s: Sums)
    requires SameSums(sums, r0, c0, s) && NonNegative(s)
    ensures CellHasCode(s, 5, AdaptiveKind, setup.bits, r0, c0, AdaptiveCodes(setup, sums))
  {
  }

  lemma FixedCodeOfBlock(setup: Setup, p: Plane, b: Place, window: nat, i: nat, j: nat, s: Sums)
    requires Sane(b) && s == BlockSums(p, window, CellRow(b, i), CellCol(b, j))
    ensures CellHasCode(s, WindowHalf(window), FixedKind, setup.bits, b.dstY + 2 * i, b.dstX + 2 * j, FixedCodeAt(setup, p, b, window))
  {
    BlockSumsAreNonNegative(p, window, CellRow(b, i), CellCol(b, j));
    SamplesAreInBlock(p, b, window, i, j);
    CellHasFixedCode(setup, SumsAt(p, b, window), window, b.dstY + 2 * i, b.dstX + 2 * j, s);
  }

  lemma AdaptiveCodeOfBlock(setup: Setup, p: Plane, b: Place, i: nat, j: nat, s: Sums)
    requires Sane(b) && s == BlockSums(p, 1, CellRow(b, i), CellCol(b, j))
    ensures CellHasCode(s, 5, AdaptiveKind, setup.bits, b.dstY + 2 * i, b.dstX + 2 * j, AdaptiveCodeAt(setup, p, b))
  {
    BlockSumsAreNonNegative(p, 1, CellRow(b, i), CellCol(b, j));
    SamplesAreInBlock(p, b, 1, i, j);
    CellHasAdaptiveCode(setup, SumsAt(p, b, 1), b.dstY + 2 * i, b.dstX + 2 * j, s);
  }

  lemma FixedCellCodes(setup: Setup, lap: array2<Sums>, cell: Cells, p: Plane, b: Place, window: nat)
    requires Fits(lap, b.h, b.w) && Sane(b) && window < 2 && CellsFor(cell, p, b) && Ready(lap, cell, b, window)
    ensures CellCodes(lap, if window == 0 then 2 else 0, WindowHalf(window), FixedKind, setup.bits,
                      b.dstY, b.dstX, b.h, b.w, FixedCodeAt(setup, p, b, window))
  {
    var offset := if window == 0 then 2 else 0;
    forall i, j | Cell(i, j) && 0 <= i < b.h / 2 && 0 <= j < b.w / 2
      ensures CellHasCode(lap[offset + i, offset + j], WindowHalf(window), FixedKind, setup.bits,
                          b.dstY + 2 * i, b.dstX + 2 * j, FixedCodeAt(setup, p, b, window))
    {
      ReadyCell(lap, cell, p, b, window, i, j);
      FixedCodeOfBlock(setup, p, b, window, i, j, lap[offset + i, offset + j]);
    }
  }

  lemma AdaptiveCellCodes(setup: Setup, lap: array2<Sums>, cell: Cells, p: Plane, b: Place)
    requires Fits(lap, b.h, b.w) && Sane(b) && CellsFor(cell, p, b) && Ready(lap, cell, b, 1)
    ensures CellCodes(lap, 0, 5, AdaptiveKind, setup.bits, b.dstY, b.dstX, b.h, b.w, AdaptiveCodeAt(setup, p, b))
  {
    forall i, j | Cell(i, j) && 0 <= i < b.h / 2 && 0 <= j < b.w / 2
      ensures CellHasCode(lap[0 + i, 0 + j], 5, AdaptiveKind, setup.bits, b.dstY + 2 * i, b.dstX + 2 * j, AdaptiveCodeAt(setup, p, b))
    {
      ReadyCell(lap, cell, p, b, 1, i, j);
      AdaptiveCodeOfBlock(setup, p, b, i, j, lap[i, j]);
    }
  }

  /* ----- From sample codes to filtered samples ----- */

  // The samples of a 2x2 block share a code.
  ghost predicate OneCodePerBlock(code: (int, int) -> nat, b: Place) {
    forall i, j, ii, jj {:trigger Cell(i, j), Within(ii, jj)} ::
      Cell(i, j) && Within(ii, jj) && 0 <= i < b.h / 2 && 0 <= j < b.w / 2 && 0 <= ii < 2 && 0 <= jj < 2 ==>
        code(b.dstY + 2 * i + ii, b.dstX + 2 * j + jj) == code(b.dstY + 2 * i, b.dstX + 2 * j)
  }

  lemma FixedCodesPerBlock(setup: Setup, p: Plane, b: Place, window: nat)
    requires Sane(b)
    ensures OneCodePerBlock(FixedCodeAt(setup, p, b, window), b)
  {
    forall i, j, ii, jj | Cell(i, j) && Within(ii, jj) && 0 <= i < b.h / 2 && 0 <= j < b.w / 2 && 0 <= ii < 2 && 0 <= jj < 2
      ensures FixedCodeAt(setup, p, b, window)(b.dstY + 2 * i + ii, b.dstX + 2 * j + jj)
           == FixedCodeAt(setup, p, b, window)(b.dstY + 2 * i, b.dstX + 2 * j)
    {
      SamplesAreInBlock(p, b, window, i, j);
      SameCode(setup, window, SumsAt(p, b, window), b.dstY + 2 * i, b.dstX + 2 * j, ii, jj, BlockSums(p, window, CellRow(b, i), CellCol(b, j)));
    }
  }

  lemma SameCode(setup: Setup, window: nat, sums: (int, int) -> Sums, r0: int, c0: int, ii: nat, jj: nat, s: Sums)
    requires SameSums(sums, r0, c0, s) && ii < 2 && jj < 2
    ensures FixedCodes(setup, window, sums)(r0 + ii, c0 + jj) == FixedCodes(setup, window, sums)(r0, c0)
    ensures AdaptiveCodes(setup, sums)(r0 + ii, c0 + jj) == AdaptiveCodes(setup, sums)(r0, c0)
  {
    assert sums(r0, c0) == s && sums(r0 + ii, c0 + jj) == s;
  }

  lemma CellsByCode(out: FixedOut, b: Place, classifier: array2<nat>, code: (int, int) -> nat)
    requires Sane(b) && InBounds(classifier, b.dstY, b.dstX, b.h, b.w)
    requires Shows(classifier, b.dstY, b.dstY + b.h, b.dstX, b.dstX + b.w, code) && OneCodePerBlock(code, b)
    ensures FixedCells(out, b.blkY, b.blkX, b.h, b.w, classifier, b.dstY, b.dstX, ByCode(out, b, code))
  {
    var value := ByCode(out, b, code);
    forall i, j, ii, jj | Cell(i, j) && Within(ii, jj) && 0 <= i < b.h / 2 && 0 <= j < b.w / 2 && 0 <= ii < 2 && 0 <= jj < 2
      ensures value(b.dstY + 2 * i + ii, b.dstX + 2 * j + jj)
           == out(b.blkY + 2 * i + ii, b.blkX + 2 * j + jj, classifier[b.dstY + 2 * i, b.dstX + 2 * j])
    {
      var r, c := b.dstY + 2 * i + ii, b.dstX + 2 * j + jj;
      assert SrcRow(b, r) == b.blkY + 2 * i + ii && SrcCol(b, c) == b.blkX + 2 * j + jj;
      assert code(r, c) == classifier[b.dstY + 2 * i, b.dstX + 2 * j];
    }
  }

  lemma AdaptiveCodesPerBlock(setup: Setup, p: Plane, b: Place)
    requires Sane(b)
    ensures OneCodePerBlock(AdaptiveCodeAt(setup, p, b), b)
  {
    forall i, j, ii, jj | Cell(i, j) && Within(ii, jj) && 0 <= i < b.h / 2 && 0 <= j < b.w / 2 && 0 <= ii < 2 && 0 <= jj < 2
      ensures AdaptiveCodeAt(setup, p, b)(b.dstY + 2 * i + ii, b.dstX + 2 * j + jj)
           == AdaptiveCodeAt(setup, p, b)(b.dstY + 2 * i, b.dstX + 2 * j)
    {
      SamplesAreInBlock(p, b, 1, i, j);
      SameCode(setup, 1, SumsAt(p, b, 1), b.dstY + 2 * i, b.dstX + 2 * j, ii, jj, BlockSums(p, 1, CellRow(b, i), CellCol(b, j)));
    }
  }

  /* ----- One block: classification and fixed filters ----- */

  // Everything the filter keeps between blocks that this block touches.
  ghost predicate Arrays(b: Place, lap: array2<Sums>, classifier0: array2<nat>, classifier1: array2<nat>, planes: seq<array2<int>>) {
    && Sane(b) && Fits(lap, b.h, b.w)
    && InBounds(classifier0, b.dstY, b.dstX, b.h, b.w) && InBounds(classifier1, b.dstY, b.dstX, b.h, b.w)
    && classifier0 != classifier1
    && |planes| == 2 * EXT_LENGTH
    && (forall k :: 0 <= k < |planes| ==> InBounds(planes[k], b.dstY, b.dstX, b.h, b.w))
    && (forall k, m :: 0 <= k < m < |planes| ==> planes[k] != planes[m])
  }

  // The QP set named by the slice: the lower, the upper, or (any other value) both.
  function TargetSet(qp: int, fixedFilterSetIdx: int): int {
    if fixedFilterSetIdx == 0 then LowerSet(qp) else if fixedFilterSetIdx == 1 then LowerSet(qp) + 1 else -1
  }

  // Whether this call filters with a set and a window.
  predicate Wanted(qp: int, fixedFilterSetIdx: int, classifierIdx: int, set_: int, window: int) {
    && (classifierIdx == window || classifierIdx == -1)
    && (TargetSet(qp, fixedFilterSetIdx) == set_ || TargetSet(qp, fixedFilterSetIdx) == -1)
  }

  // The plane of the lower (s = 0) or upper (s = 1) set and of a window.
  function PlaneOf(window: nat, s: nat): nat {
    window * EXT_LENGTH + s
  }

  // A plane after the call: the fixed results of the block if they were wanted, and nothing else new.
  twostate predicate Processed(wanted: bool, plane: array2<int>, b: Place, value: Plane)
    requires InBounds(plane, b.dstY, b.dstX, b.h, b.w)
    reads plane
  {
    if wanted then Shows(plane, b.dstY, b.dstY + b.h, b.dstX, b.dstX + b.w, value) && OutsideKept(plane, b.dstY, b.dstX, b.h, b.w)
    else unchanged(plane)
  }

  // One window and one set: the fixed results of the block, on codes already in place.
  method FilterPlane(setup: Setup, p: Plane, b: Place, classifier0: array2<nat>, plane: array2<int>, set_: nat, window: nat)
    requires Sane(b) && InBounds(classifier0, b.dstY, b.dstX, b.h, b.w) && InBounds(plane, b.dstY, b.dstX, b.h, b.w)
    requires Shows(classifier0, b.dstY, b.dstY + b.h, b.dstX, b.dstX + b.w, FixedCodeAt(setup, p, b, window))
    modifies plane
    ensures Shows(plane, b.dstY, b.dstY + b.h, b.dstX, b.dstX + b.w, FixedAt(setup, p, b, set_, window))
    ensures OutsideKept(plane, b.dstY, b.dstX, b.h, b.w)
  {
    ghost var out, code := FixedOutOf(setup, p, set_, window), FixedCodeAt(setup, p, b, window);
    FixedOutIsOut(setup, p, set_, window);
    FixedCodesPerBlock(setup, p, b, window);
    CellsByCode(out, b, classifier0, code);
    FixedFiltering(setup, p, b.blkY, b.blkX, b.h, b.w, classifier0, plane, b.dstY, b.dstX, set_, window, out, ByCode(out, b, code));
  }

  // Classification for the fixed filters of a window whose sums are ready.
  method ClassifyFixed(setup: Setup, ghost cell: Cells, ghost p: Plane, b: Place, window: nat, lap: array2<Sums>, classifier0: array2<nat>, mappingDir: array2<int>)
    requires Sane(b) && InBounds(classifier0, b.dstY, b.dstX, b.h, b.w) && IsMapping(mappingDir)
    requires Fits(lap, b.h, b.w) && window < 2 && CellsFor(cell, p, b) && Ready(lap, cell, b, window)
    modifies classifier0
    ensures Shows(classifier0, b.dstY, b.dstY + b.h, b.dstX, b.dstX + b.w, FixedCodeAt(setup, p, b, window))
    ensures OutsideKept(classifier0, b.dstY, b.dstX, b.h, b.w)
  {
    FixedCellCodes(setup, lap, cell, p, b, window);
    CalcClass(classifier0, b.dstY, b.dstX, b.h, b.w, WindowHalf(window), FixedKind, setup.bits, mappingDir, lap, FixedCodeAt(setup, p, b, window));
  }

  method ClassifyAdaptive(setup: Setup, ghost cell: Cells, ghost p: Plane, b: Place, lap: array2<Sums>, classifier0: array2<nat>, mappingDir: array2<int>)
    requires Sane(b) && InBounds(classifier0, b.dstY, b.dstX, b.h, b.w) && IsMapping(mappingDir)
    requires Fits(lap, b.h, b.w) && CellsFor(cell, p, b) && Ready(lap, cell, b, 1)
    modifies classifier0
    ensures Shows(classifier0, b.dstY, b.dstY + b.h, b.dstX, b.dstX + b.w, AdaptiveCodeAt(setup, p, b))
    ensures OutsideKept(classifier0, b.dstY, b.dstX, b.h, b.w)
  {
    AdaptiveCellCodes(setup, lap, cell, p, b);
    CalcClass(classifier0, b.dstY, b.dstX, b.h, b.w, 5, AdaptiveKind, setup.bits, mappingDir, lap, AdaptiveCodeAt(setup, p, b));
  }

  method ClassifyBands(setup: Setup, p: Plane, b: Place, classifier1: array2<nat>)
    requires Sane(b) && InBounds(classifier1, b.dstY, b.dstX, b.h, b.w) && NonNegativePlane(p)
    modifies classifier1
    ensures Shows(classifier1, b.dstY, b.dstY + b.h, b.dstX, b.dstX + b.w, BandCodeAt(setup, p, b))
    ensures OutsideKept(classifier1, b.dstY, b.dstX, b.h, b.w)
  {
    BandCells(setup, p, b);
    CalcClassNew(setup, p, b.blkY, b.blkX, b.h, b.w, classifier1, b.dstY, b.dstX, BandCodeAt(setup, p, b));
  }

  // The first filtering of a window classifies it, and widens the buffer before if the window is the wide one.
  method PrepareWindow(setup: Setup, ghost cell: Cells, ghost p: Plane, b: Place, dirWindSize: nat, lap: array2<Sums>, classifier0: array2<nat>, mappingDir: array2<int>)
    requires Sane(b) && InBounds(classifier0, b.dstY, b.dstX, b.h, b.w) && IsMapping(mappingDir)
    requires Fits(lap, b.h, b.w) && dirWindSize < 2 && CellsFor(cell, p, b) && Ready(lap, cell, b, 0)
    modifies lap, classifier0
    ensures Ready(lap, cell, b, dirWindSize)
    ensures Shows(classifier0, b.dstY, b.dstY + b.h, b.dstX, b.dstX + b.w, FixedCodeAt(setup, p, b, dirWindSize))
    ensures OutsideKept(classifier0, b.dstY, b.dstX, b.h, b.w)
  {
    if dirWindSize > 0 {
      DeriveClassificationLaplacianBig(cell, b.h, b.w, lap);
    }
    ClassifyFixed(setup, cell, p, b, dirWindSize, lap, classifier0, mappingDir);
  }

  // One set of one window: the classification is reused if the window has been classified before.
  method ProcessSet(setup: Setup, ghost cell: Cells, p: Plane, b: Place, dirWindSize: nat, reuse: bool,
                    lap: array2<Sums>, classifier0: array2<nat>, plane: array2<int>, set_: nat, mappingDir: array2<int>)
    requires Sane(b) && Fits(lap, b.h, b.w) && InBounds(classifier0, b.dstY, b.dstX, b.h, b.w) && IsMapping(mappingDir)
    requires InBounds(plane, b.dstY, b.dstX, b.h, b.w) && dirWindSize < 2 && CellsFor(cell, p, b)
    requires !reuse ==> Ready(lap, cell, b, 0)
    requires reuse ==> Ready(lap, cell, b, dirWindSize)
    requires reuse ==> Shows(classifier0, b.dstY, b.dstY + b.h, b.dstX, b.dstX + b.w, FixedCodeAt(setup, p, b, dirWindSize))
    modifies lap, classifier0, plane
    ensures Ready(lap, cell, b, dirWindSize)
    ensures Shows(classifier0, b.dstY, b.dstY + b.h, b.dstX, b.dstX + b.w, FixedCodeAt(setup, p, b, dirWindSize))
    ensures OutsideKept(classifier0, b.dstY, b.dstX, b.h, b.w)
    ensures Processed(true, plane, b, FixedAt(setup, p, b, set_, dirWindSize))
  {
    if !reuse {
      PrepareWindow(setup, cell, p, b, dirWindSize, lap, classifier0, mappingDir);
    }
    FilterPlane(setup, p, b, classifier0, plane, set_, dirWindSize);
  }

  // A set of a window that is wanted, or not.
  method ProcessIfWanted(setup: Setup, ghost cell: Cells, p: Plane, b: Place, dirWindSize: nat, wanted: bool, reuse: bool,
                         lap: array2<Sums>, classifier0: array2<nat>, plane: array2<int>, set_: nat, mappingDir: array2<int>)
    returns (r: bool)
    requires Sane(b) && Fits(lap, b.h, b.w) && InBounds(classifier0, b.dstY, b.dstX, b.h, b.w) && IsMapping(mappingDir)
    requires InBounds(plane, b.dstY, b.dstX, b.h, b.w) && dirWindSize < 2 && CellsFor(cell, p, b)
    requires Classified(reuse, setup, cell, p, b, dirWindSize, lap, classifier0)
    modifies lap, classifier0, plane
    ensures r == (reuse || wanted) && Classified(r, setup, cell, p, b, dirWindSize, lap, classifier0)
    ensures OutsideKept(classifier0, b.dstY, b.dstX, b.h, b.w)
    ensures Processed(wanted, plane, b, FixedAt(setup, p, b, set_, dirWindSize))
  {
    r := reuse;
    if wanted {
      ProcessSet(setup, cell, p, b, dirWindSize, reuse, lap, classifier0, plane, set_, mappingDir);
      r := true;
    }
  }

  // The buffer and the classes of a window before and after its first filtering.
  ghost predicate Classified(reuse: bool, setup: Setup, cell: Cells, p: Plane, b: Place, window: nat, lap: array2<Sums>, classifier0: array2<nat>)
    requires Sane(b) && Fits(lap, b.h, b.w) && InBounds(classifier0, b.dstY, b.dstX, b.h, b.w) && window < 2
    reads lap, classifier0
  {
    if reuse then
      Ready(lap, cell, b, window)
      && Shows(classifier0, b.dstY, b.dstY + b.h, b.dstX, b.dstX + b.w, FixedCodeAt(setup, p, b, window))
    else Ready(lap, cell, b, 0)
  }

  // Both sets of one window.
  method ProcessWindow(setup: Setup, ghost cell: Cells, p: Plane, b: Place, qp: int, fixedFilterSetIdx: int, classifierIdx: int, dirWindSize: nat,
                       fixedFiltSetIndMin: int, fixedFiltSetIndMax: int, targetFixedFilterSetInd: int,
                       lap: array2<Sums>, classifier0: array2<nat>, lower: array2<int>, upper: array2<int>, mappingDir: array2<int>)
    requires Sane(b) && Fits(lap, b.h, b.w) && InBounds(classifier0, b.dstY, b.dstX, b.h, b.w) && IsMapping(mappingDir)
    requires InBounds(lower, b.dstY, b.dstX, b.h, b.w) && InBounds(upper, b.dstY, b.dstX, b.h, b.w)
    requires lower != upper && mappingDir != lower && mappingDir != upper
    requires fixedFiltSetIndMin == LowerSet(qp) && fixedFiltSetIndMax == fixedFiltSetIndMin + 1
    requires targetFixedFilterSetInd == TargetSet(qp, fixedFilterSetIdx) && -1 <= classifierIdx < 2 && dirWindSize < 2
    requires CellsFor(cell, p, b) && Ready(lap, cell, b, 0)
    modifies lap, classifier0, lower, upper
    ensures Ready(lap, cell, b, if classifierIdx == dirWindSize || classifierIdx == -1 then dirWindSize else 0)
    ensures Processed(Wanted(qp, fixedFilterSetIdx, classifierIdx, LowerSet(qp), dirWindSize), lower, b, FixedAt(setup, p, b, LowerSet(qp), dirWindSize))
    ensures Processed(Wanted(qp, fixedFilterSetIdx, classifierIdx, LowerSet(qp) + 1, dirWindSize), upper, b, FixedAt(setup, p, b, LowerSet(qp) + 1, dirWindSize))
    ensures OutsideKept(classifier0, b.dstY, b.dstX, b.h, b.w)
  {
    ghost var used := classifierIdx == dirWindSize || classifierIdx == -1;
    var reuse := false;
    for fixedFiltSetInd := fixedFiltSetIndMin to fixedFiltSetIndMax + 1
      invariant Classified(reuse, setup, cell, p, b, dirWindSize, lap, classifier0)
      invariant reuse ==> used
      invariant used && fixedFiltSetInd > fixedFiltSetIndMax ==> reuse
      invariant used && fixedFiltSetInd == fixedFiltSetIndMax && targetFixedFilterSetInd != fixedFiltSetIndMax ==> reuse
      invariant Processed(fixedFiltSetInd > fixedFiltSetIndMin && Wanted(qp, fixedFilterSetIdx, classifierIdx, LowerSet(qp), dirWindSize), lower, b, FixedAt(setup, p, b, LowerSet(qp), dirWindSize))
      invariant Processed(fixedFiltSetInd > fixedFiltSetIndMax && Wanted(qp, fixedFilterSetIdx, classifierIdx, LowerSet(qp) + 1, dirWindSize), upper, b, FixedAt(setup, p, b, LowerSet(qp) + 1, dirWindSize))
      invariant OutsideKept(classifier0, b.dstY, b.dstX, b.h, b.w)
    {
      var wanted := (dirWindSize == classifierIdx || classifierIdx == -1) && (fixedFiltSetInd == targetFixedFilterSetInd || targetFixedFilterSetInd == -1);
      var plane := if fixedFiltSetInd == fixedFiltSetIndMin then lower else upper;
      reuse := ProcessIfWanted(setup, cell, p, b, dirWindSize, wanted, reuse, lap, classifier0, plane, fixedFiltSetInd, mappingDir);
    }
  }

  method DeriveClassificationAndFixFilterResultsBlk(
    setup: Setup, p: Plane, b: Place, qp: int, fixedFilterSetIdx: int, classifierIdx: int, multipleClassifierIdx: int,
    lap: array2<Sums>, classifier0: array2<nat>, classifier1: array2<nat>, planes: seq<array2<int>>, mappingDir: array2<int>)
    requires Arrays(b, lap, classifier0, classifier1, planes) && IsMapping(mappingDir) && mappingDir !in planes
    requires -1 <= classifierIdx < 2 && NonNegativePlane(p)
    modifies lap, classifier0, classifier1, planes
    ensures Processed(Wanted(qp, fixedFilterSetIdx, classifierIdx, LowerSet(qp), 0), planes[PlaneOf(0, 0)], b, FixedAt(setup, p, b, LowerSet(qp), 0))
    ensures Processed(Wanted(qp, fixedFilterSetIdx, classifierIdx, LowerSet(qp) + 1, 0), planes[PlaneOf(0, 1)], b, FixedAt(setup, p, b, LowerSet(qp) + 1, 0))
    ensures Processed(Wanted(qp, fixedFilterSetIdx, classifierIdx, LowerSet(qp), 1), planes[PlaneOf(1, 0)], b, FixedAt(setup, p, b, LowerSet(qp), 1))
    ensures Processed(Wanted(qp, fixedFilterSetIdx, classifierIdx, LowerSet(qp) + 1, 1), planes[PlaneOf(1, 1)], b, FixedAt(setup, p, b, LowerSet(qp) + 1, 1))
    ensures OutsideKept(classifier0, b.dstY, b.dstX, b.h, b.w) && OutsideKept(classifier1, b.dstY, b.dstX, b.h, b.w)
    ensures classifierIdx == -1 && 0 <= multipleClassifierIdx <= 2 ==>
      Shows(classifier0, b.dstY, b.dstY + b.h, b.dstX, b.dstX + b.w, AdaptiveCodeAt(setup, p, b))
    ensures classifierIdx == -1 && 1 <= multipleClassifierIdx <= 2 ==>
      Shows(classifier1, b.dstY, b.dstY + b.h, b.dstX, b.dstX + b.w, BandCodeAt(setup, p, b))
  {
    ghost var cell := CellsOfPlace(p, b);
    FillLaplacian(p, b.blkY, b.blkX, cell, b.h, b.w, lap);
    var fixedFiltSetIndMin, fixedFiltSetIndMax := SelectSets(qp);
    var targetFixedFilterSetInd := if fixedFilterSetIdx == 0 then fixedFiltSetIndMin else if fixedFilterSetIdx == 1 then fixedFiltSetIndMax else -1;
    ProcessWindow(setup, cell, p, b, qp, fixedFilterSetIdx, classifierIdx, 0, fixedFiltSetIndMin, fixedFiltSetIndMax, targetFixedFilterSetInd,
                  lap, classifier0, planes[0], planes[1], mappingDir);
    ProcessWindow(setup, cell, p, b, qp, fixedFilterSetIdx, classifierIdx, 1, fixedFiltSetIndMin, fixedFiltSetIndMax, targetFixedFilterSetInd,
                  lap, classifier0, planes[2], planes[3], mappingDir);
    if classifierIdx == -1 {
      FinishClassifiers(setup, cell, p, b, multipleClassifierIdx, lap, classifier0, classifier1, mappingDir);
    }
  }

  // The classifiers of the adaptive filters: the wide sums of the direction classifier, and the bands.
  method FinishClassifiers(setup: Setup, ghost cell: Cells, p: Plane, b: Place, multipleClassifierIdx: int,
                           lap: array2<Sums>, classifier0: array2<nat>, classifier1: array2<nat>, mappingDir: array2<int>)
    requires Sane(b) && Fits(lap, b.h, b.w) && IsMapping(mappingDir) && classifier0 != classifier1
    requires InBounds(classifier0, b.dstY, b.dstX, b.h, b.w) && InBounds(classifier1, b.dstY, b.dstX, b.h, b.w)
    requires CellsFor(cell, p, b) && Ready(lap, cell, b, 1) && NonNegativePlane(p)
    modifies classifier0, classifier1
    ensures OutsideKept(classifier0, b.dstY, b.dstX, b.h, b.w) && OutsideKept(classifier1, b.dstY, b.dstX, b.h, b.w)
    ensures 0 <= multipleClassifierIdx <= 2 ==>
      Shows(classifier0, b.dstY, b.dstY + b.h, b.dstX, b.dstX + b.w, AdaptiveCodeAt(setup, p, b))
    ensures 1 <= multipleClassifierIdx <= 2 ==>
      Shows(classifier1, b.dstY, b.dstY + b.h, b.dstX, b.dstX + b.w, BandCodeAt(setup, p, b))
  {
    if multipleClassifierIdx == 2 || multipleClassifierIdx == 0 || multipleClassifierIdx == 1 {
      ClassifyAdaptive(setup, cell, p, b, lap, classifier0, mappingDir);
    }
    if multipleClassifierIdx == 2 || multipleClassifierIdx == 1 {
      ClassifyBands(setup, p, b, classifier1);
    }
  }

  lemma BandCells(setup: Setup, p: Plane, b: Place)
    requires Sane(b) && NonNegativePlane(p)
    ensures forall i, j {:trigger Cell(i, j)} :: Cell(i, j) ==>
      forall r, c :: b.dstY + 2 * i <= r < b.dstY + 2 * i + 2 && b.dstX + 2 * j <= c < b.dstX + 2 * j + 2 ==>
        BandCodeAt(setup, p, b)(r, c) == BandCode(setup, p, CellRow(b, i), CellCol(b, j))
  {
    forall i, j, r, c | Cell(i, j) && b.dstY + 2 * i <= r < b.dstY + 2 * i + 2 && b.dstX + 2 * j <= c < b.dstX + 2 * j + 2
      ensures BandCodeAt(setup, p, b)(r, c) == BandCode(setup, p, CellRow(b, i), CellCol(b, j))
    {
      var y, x := CellRow(b, i), CellCol(b, j);
      assert Within(y, x) && Within(y, x + 1) && Within(y + 1, x) && Within(y + 1, x + 1);
      assert BlockOf(SrcRow(b, r)) == CellRow(b, i) by { BlockOfCell(b.blkY, i, SrcRow(b, r) - b.blkY - 2 * i); }
      assert BlockOf(SrcCol(b, c)) == CellCol(b, j) by { BlockOfCell(b.blkX, j, SrcCol(b, c) - b.blkX - 2 * j); }
    }
  }

  /* ----- One block: the final filter ----- */

  // The codes that a classifier leaves for the adaptive filters.
  function CodeAt(setup: Setup, classifier: nat, p: Plane, b: Place): (int, int) -> nat {
    if classifier == 0 then AdaptiveCodeAt(setup, p, b) else BandCodeAt(setup, p, b)
  }

  function AdaptiveOutOf(setup: Setup, a: Adaptive, p: Plane): AdaptiveOut {
    (y: int, x: int, code: nat, val0: int, val1: int) => AdaptiveByCode(setup, a, Centred(p, y, x), code, Two(val0, val1))
  }

  function ByCodeAndResults(out: AdaptiveOut, b: Place, code: (int, int) -> nat, ext0: Plane, ext1: Plane): Plane {
    (r: int, c: int) => out(SrcRow(b, r), SrcCol(b, c), code(r, c), ext0(r, c), ext1(r, c))
  }

  // The adaptive results beside the fixed results of a QP set.
  function AdaptiveAt(setup: Setup, a: Adaptive, p: Plane, b: Place, set_: nat): Plane {
    ByCodeAndResults(AdaptiveOutOf(setup, a, p), b, CodeAt(setup, a.classifier, p, b),
                     FixedAt(setup, p, b, set_, 0), FixedAt(setup, p, b, set_, 1))
  }

  lemma AdaptiveOutIsOut(setup: Setup, a: Adaptive, p: Plane)
    ensures IsAdaptiveOut(AdaptiveOutOf(setup, a, p), setup, a, p)
  {
  }

  lemma AdaptiveByEqualResults(setup: Setup, a: Adaptive, nb: Plane, code: nat, e: nat -> int, g: nat -> int)
    requires e(0) == g(0) && e(1) == g(1)
    ensures AdaptiveByCode(setup, a, nb, code, e) == AdaptiveByCode(setup, a, nb, code, g)
  {
  }

  lemma CodesPerBlock(setup: Setup, classifier: nat, p: Plane, b: Place)
    requires Sane(b)
    ensures OneCodePerBlock(CodeAt(setup, classifier, p, b), b)
  {
    if classifier == 0 {
      AdaptiveCodesPerBlock(setup, p, b);
    } else {
      forall i, j, ii, jj | Cell(i, j) && Within(ii, jj) && 0 <= i < b.h / 2 && 0 <= j < b.w / 2 && 0 <= ii < 2 && 0 <= jj < 2
        ensures BandCodeAt(setup, p, b)(b.dstY + 2 * i + ii, b.dstX + 2 * j + jj) == BandCodeAt(setup, p, b)(b.dstY + 2 * i, b.dstX + 2 * j)
      {
        BlockOfCell(b.blkY, i, ii);
        BlockOfCell(b.blkX, j, jj);
        BlockOfCell(b.blkY, i, 0);
        BlockOfCell(b.blkX, j, 0);
        BandCodeOfBlock(setup, p, b, b.dstY + 2 * i, b.dstX + 2 * j, b.dstY + 2 * i + ii, b.dstX + 2 * j + jj);
      }
    }
  }

  lemma BandCodeOfBlock(setup: Setup, p: Plane, b: Place, r: int, c: int, s: int, d: int)
    requires BlockOf(SrcRow(b, r)) == BlockOf(SrcRow(b, s)) && BlockOf(SrcCol(b, c)) == BlockOf(SrcCol(b, d))
    ensures BandCodeAt(setup, p, b)(r, c) == BandCodeAt(setup, p, b)(s, d)
  {
  }

  lemma AdaptiveCellsByCode(out: AdaptiveOut, b: Place, classifier: array2<nat>, code: (int, int) -> nat, ext0: Plane, ext1: Plane)
    requires Sane(b) && InBounds(classifier, b.dstY, b.dstX, b.h, b.w)
    requires Shows(classifier, b.dstY, b.dstY + b.h, b.dstX, b.dstX + b.w, code) && OneCodePerBlock(code, b)
    ensures AdaptiveCells(out, b.blkY, b.blkX, b.h, b.w, classifier, b.dstY, b.dstX, ext0, ext1, ByCodeAndResults(out, b, code, ext0, ext1))
  {
    var value := ByCodeAndResults(out, b, code, ext0, ext1);
    forall i, j, ii, jj | Cell(i, j) && Within(ii, jj) && 0 <= i < b.h / 2 && 0 <= j < b.w / 2 && 0 <= ii < 2 && 0 <= jj < 2
      ensures var r, c := b.dstY + 2 * i + ii, b.dstX + 2 * j + jj;
        value(r, c) == out(b.blkY + 2 * i + ii, b.blkX + 2 * j + jj, classifier[b.dstY + 2 * i, b.dstX + 2 * j], ext0(r, c), ext1(r, c))
    {
      var r, c := b.dstY + 2 * i + ii, b.dstX + 2 * j + jj;
      assert SrcRow(b, r) == b.blkY + 2 * i + ii && SrcCol(b, c) == b.blkX + 2 * j + jj;
      assert code(r, c) == classifier[b.dstY + 2 * i, b.dstX + 2 * j];
    }
  }

  // A plane holds the fixed results of a block for a QP set and a window.
  ghost predicate PlaneHolds(setup: Setup, p: Plane, b: Place, plane: array2<int>, set_: nat, window: nat)
    reads plane
  {
    InBounds(plane, b.dstY, b.dstX, b.h, b.w) && Shows(plane, b.dstY, b.dstY + b.h, b.dstX, b.dstX + b.w, FixedAt(setup, p, b, set_, window))
  }

  method FilterAdaptively(setup: Setup, a: Adaptive, p: Plane, b: Place, ghost set_: nat, classifier: array2<nat>,
                          plane0: array2<int>, plane1: array2<int>, result: array2<int>)
    requires Sane(b) && InBounds(classifier, b.dstY, b.dstX, b.h, b.w) && InBounds(result, b.dstY, b.dstX, b.h, b.w)
    requires result != plane0 && result != plane1
    requires PlaneHolds(setup, p, b, plane0, set_, 0) && PlaneHolds(setup, p, b, plane1, set_, 1)
    requires Shows(classifier, b.dstY, b.dstY + b.h, b.dstX, b.dstX + b.w, CodeAt(setup, a.classifier, p, b))
    modifies result
    ensures Shows(result, b.dstY, b.dstY + b.h, b.dstX, b.dstX + b.w, AdaptiveAt(setup, a, p, b, set_))
    ensures OutsideKept(result, b.dstY, b.dstX, b.h, b.w)
  {
    ghost var out, code := AdaptiveOutOf(setup, a, p), CodeAt(setup, a.classifier, p, b);
    ghost var ext0, ext1 := FixedAt(setup, p, b, set_, 0), FixedAt(setup, p, b, set_, 1);
    AdaptiveOutIsOut(setup, a, p);
    CodesPerBlock(setup, a.classifier, p, b);
    AdaptiveCellsByCode(out, b, classifier, code, ext0, ext1);
    FilterBlk(setup, a, p, b.blkY, b.blkX, b.h, b.w, classifier, plane0, plane1, ext0, ext1,
              result, b.dstY, b.dstX, out, ByCodeAndResults(out, b, code, ext0, ext1));
  }

  lemma SameFixed(setup: Setup, p: Plane, b: Place, set_: nat, other: nat)
    requires set_ == other
    ensures FixedAt(setup, p, b, set_, 0) == FixedAt(setup, p, b, other, 0) && FixedAt(setup, p, b, set_, 1) == FixedAt(setup, p, b, other, 1)
  {
  }

  // Classification and fixed filters for a slice that names its QP set.
  method DeriveForSet(
    setup: Setup, p: Plane, b: Place, qp: int, ghost set_: nat, fixedFilterSetIdx: nat, classifierIdx: int, multipleClassifierIdx: int,
    lap: array2<Sums>, classifier0: array2<nat>, classifier1: array2<nat>, planes: seq<array2<int>>, mappingDir: array2<int>)
    requires Arrays(b, lap, classifier0, classifier1, planes) && IsMapping(mappingDir) && mappingDir !in planes
    requires -1 <= classifierIdx < 2 && NonNegativePlane(p) && fixedFilterSetIdx < 2
    requires set_ == TargetSet(qp, fixedFilterSetIdx)
    modifies lap, classifier0, classifier1, planes
    ensures classifierIdx <= 0 ==> PlaneHolds(setup, p, b, planes[PlaneOf(0, fixedFilterSetIdx)], set_, 0)
    ensures classifierIdx != 0 ==> PlaneHolds(setup, p, b, planes[PlaneOf(1, fixedFilterSetIdx)], set_, 1)
    ensures classifierIdx == -1 && 0 <= multipleClassifierIdx <= 2 ==>
      Shows(classifier0, b.dstY, b.dstY + b.h, b.dstX, b.dstX + b.w, AdaptiveCodeAt(setup, p, b))
    ensures classifierIdx == -1 && 1 <= multipleClassifierIdx <= 2 ==>
      Shows(classifier1, b.dstY, b.dstY + b.h, b.dstX, b.dstX + b.w, BandCodeAt(setup, p, b))
  {
    DeriveClassificationAndFixFilterResultsBlk(setup, p, b, qp, fixedFilterSetIdx, classifierIdx, multipleClassifierIdx,
                                               lap, classifier0, classifier1, planes, mappingDir);
    SameFixed(setup, p, b, set_, if fixedFilterSetIdx == 0 then LowerSet(qp) else LowerSet(qp) + 1);
  }

  // A block whose CTU names a fixed filter set (filterSetIndex 0 or 1, the window) is filtered by the fixed
  // filters alone; any other block by the adaptive filters of its parameter set.
  method FilterLumaBlock(
    setup: Setup, a: Adaptive, p: Plane, b: Place, qp: int, ghost set_: nat, fixedFilterSetIdx: nat, filterSetIndex: nat,
    lap: array2<Sums>, classifier0: array2<nat>, classifier1: array2<nat>, planes: seq<array2<int>>, mappingDir: array2<int>, result: array2<int>)
    requires Arrays(b, lap, classifier0, classifier1, planes) && IsMapping(mappingDir) && mappingDir !in planes
    requires NonNegativePlane(p) && fixedFilterSetIdx < 2 && a.classifier < 2 && set_ == TargetSet(qp, fixedFilterSetIdx)
    requires InBounds(result, b.dstY, b.dstX, b.h, b.w) && result !in planes && result != mappingDir
    modifies lap, classifier0, classifier1, planes, result
    ensures filterSetIndex < NUM_FIXED_FILTER_SETS ==>
      Shows(result, b.dstY, b.dstY + b.h, b.dstX, b.dstX + b.w, FixedAt(setup, p, b, set_, filterSetIndex))
    ensures filterSetIndex >= NUM_FIXED_FILTER_SETS ==>
      Shows(result, b.dstY, b.dstY + b.h, b.dstX, b.dstX + b.w, AdaptiveAt(setup, a, p, b, set_))
    ensures OutsideKept(result, b.dstY, b.dstX, b.h, b.w)
  {
    var classifierIdx := if filterSetIndex < NUM_FIXED_FILTER_SETS then filterSetIndex else -1;
    var multipleClassifierIdx := if filterSetIndex < NUM_FIXED_FILTER_SETS then -1 else a.classifier;
    DeriveForSet(setup, p, b, qp, set_, fixedFilterSetIdx, classifierIdx, multipleClassifierIdx,
                 lap, classifier0, classifier1, planes, mappingDir);
    if filterSetIndex < NUM_FIXED_FILTER_SETS {
      var filterIndex := PlaneOf(classifierIdx, fixedFilterSetIdx);
      var plane := planes[filterIndex];
      CopyFixedFilterResults(plane, result, b.dstY, b.dstX, b.h, b.w,
                             FixedAt(setup, p, b, set_, filterSetIndex));
    } else {
      var plane0, plane1 := planes[PlaneOf(0, fixedFilterSetIdx)], planes[PlaneOf(1, fixedFilterSetIdx)];
      var classifier := if a.classifier == 0 then classifier0 else classifier1;
      FilterAdaptively(setup, a, p, b, set_, classifier, plane0, plane1, result);
    }
  }

  lemma AdaptiveAtMeans(setup: Setup, a: Adaptive, p: Plane, b: Place, set_: nat, r: int, c: int)
    requires a.classifier < 2 && NonNegativePlane(p)
    ensures AdaptiveAt(setup, a, p, b, set_)(r, c) == AdaptiveResult(setup, a, p, set_, SrcRow(b, r), SrcCol(b, c))
  {
    var y, x := SrcRow(b, r), SrcCol(b, c);
    var code := SampleCode(setup, a.classifier, p, y, x);
    CodeAtMeans(setup, a.classifier, p, b, r, c);
    FixedAtMeans(setup, p, b, set_, 0, r, c);
    FixedAtMeans(setup, p, b, set_, 1, r, c);
    var e := (k: nat) => FixedResult(setup, p, set_, k, y, x);
    AdaptiveByEqualResults(setup, a, Centred(p, y, x), code, e, Two(e(0), e(1)));
    ByCodeAndResultsIs(AdaptiveOutOf(setup, a, p), b, CodeAt(setup, a.classifier, p, b), FixedAt(setup, p, b, set_, 0), FixedAt(setup, p, b, set_, 1),
                       r, c, code, e(0), e(1), AdaptiveByCode(setup, a, Centred(p, y, x), code, Two(e(0), e(1))));
  }

  lemma ByCodeAndResultsIs(out: AdaptiveOut, b: Place, code: (int, int) -> nat, ext0: Plane, ext1: Plane, r: int, c: int, k: nat, v0: int, v1: int, v: int)
    requires code(r, c) == k && ext0(r, c) == v0 && ext1(r, c) == v1 && out(SrcRow(b, r), SrcCol(b, c), k, v0, v1) == v
    ensures ByCodeAndResults(out, b, code, ext0, ext1)(r, c) == v
  {
  }

  lemma CodeAtMeans(setup: Setup, classifier: nat, p: Plane, b: Place, r: int, c: int)
    requires classifier < 2 && NonNegativePlane(p)
    ensures SampleCode(setup, classifier, p, SrcRow(b, r), SrcCol(b, c)) >= 0
    ensures CodeAt(setup, classifier, p, b)(r, c) == SampleCode(setup, classifier, p, SrcRow(b, r), SrcCol(b, c))
  {
    var y, x := BlockOf(SrcRow(b, r)), BlockOf(SrcCol(b, c));
    if classifier == 0 {
      assert SumsAt(p, b, 1)(r, c) == SampleSums(p, 1, SrcRow(b, r), SrcCol(b, c));
    } else {
      assert Within(y, x) && Within(y, x + 1) && Within(y + 1, x) && Within(y + 1, x + 1);
    }
  }
}
