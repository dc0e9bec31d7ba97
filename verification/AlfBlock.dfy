/**
 The block-level code of the loop filter: classification on the shared Laplacian buffer,
 the fixed filters, and the final filters, as loops over arrays.  What each writes is what
 the sample functions of the pipeline say.
 */
module AlfBlock {
  import opened AlfPicture
  import opened AlfLaplacian
  import opened AlfClassifier
  import opened AlfTaps
  import opened AlfPipeline

  /* ----- Classification ----- */

  // The direction table of every instance of the loop filter.
  ghost predicate IsMapping(mappingDir: array2<int>)
    reads mappingDir
  {
    && mappingDir.Length0 == mappingDir.Length1 == NUM_DIR_FIX
    && forall i, j :: 0 <= i < NUM_DIR_FIX && 0 <= j < NUM_DIR_FIX ==> mappingDir[i, j] == MappingDir(i, j)
  }

  // The larger and the smaller sum of each pair, and the directions they name.
  method SortDirections(s: Sums) returns (hv1: int, hv0: int, d1: int, d0: int, mainDirection: nat, secondaryDirection: nat)
    ensures hv1 == Max(s.v, s.h) && hv0 == Min(s.v, s.h) && d1 == Max(s.d0, s.d1) && d0 == Min(s.d0, s.d1)
    ensures mainDirection == MainDirection(s) && secondaryDirection == SecondaryDirection(s)
  {
    var dirTempHV, dirTempD := 3, 2;
    hv1, hv0 := s.h, s.v;
    if s.v > s.h {
      hv1, hv0, dirTempHV := s.v, s.h, 1;
    }
    d1, d0 := s.d1, s.d0;
    if s.d0 > s.d1 {
      d1, d0, dirTempD := s.d0, s.d1, 0;
    }
    mainDirection, secondaryDirection := dirTempHV, dirTempD;
    if d1 * hv0 > d0 * hv1 {
      mainDirection, secondaryDirection := dirTempD, dirTempHV;
    }
  }

  // One block, branch by branch, with the direction table as the constructor filled it.
  method ClassifyCell(s: Sums, dirWindSize: nat, kind: Kind, bits: nat, mappingDir: array2<int>) returns (code: nat)
    requires NonNegative(s) && IsMapping(mappingDir)
    ensures code == ClassCode(s, dirWindSize, kind, bits)
  {
    var hv1, hv0, d1, d0, mainDirection, secondaryDirection := SortDirections(s);
    var scaled := Multiplier(dirWindSize) * (s.v + s.h);
    var activity: nat;
    var direction: int := 0;
    var noDir: nat;
    match kind {
      case AdaptiveKind =>
        activity, noDir := Activity5(scaled * 3 / Pow2(9 + bits)), 5;
        direction := StrengthDirection(s, hv1, hv0, d1, d0, mainDirection);
      case FixedKind =>
        activity, noDir := Activity16(scaled / Pow2(5 + bits)), NUM_DIR_FIX * (NUM_DIR_FIX + 1);
        direction := LookUpDirection(s, hv1, hv0, d1, d0, mappingDir);
    }
    var actDirInd := noDir * activity + direction;
    code := 4 * actDirInd + TRANSPOSE_TABLE[mainDirection * 2 + secondaryDirection / 2];
  }

  method StrengthDirection(ghost s: Sums, hv1: int, hv0: int, d1: int, d0: int, mainDirection: nat) returns (direction: int)
    requires hv1 == Max(s.v, s.h) && hv0 == Min(s.v, s.h) && d1 == Max(s.d0, s.d1) && d0 == Min(s.d0, s.d1)
    requires mainDirection == MainDirection(s)
    ensures direction == Direction5(s)
  {
    var hvd1, hvd0 := hv1, hv0;
    if d1 * hv0 > d0 * hv1 {
      hvd1, hvd0 := d1, d0;
    }
    var directionStrength := 0;
    if hvd1 * 2 > 9 * hvd0 {
      directionStrength := 2;
    } else if hvd1 > 2 * hvd0 {
      directionStrength := 1;
    }
    direction := 0;
    if directionStrength != 0 {
      direction := mainDirection % 2 * 2 + directionStrength;
    }
  }

  method LookUpDirection(ghost s: Sums, hv1: int, hv0: int, d1: int, d0: int, mappingDir: array2<int>) returns (direction: int)
    requires IsMapping(mappingDir)
    requires hv1 == Max(s.v, s.h) && hv0 == Min(s.v, s.h) && d1 == Max(s.d0, s.d1) && d0 == Min(s.d0, s.d1)
    ensures direction == Direction56(s)
  {
    var edgeStrengthHV, edgeStrengthD := EdgeStrength(hv1, hv0), EdgeStrength(d1, d0);
    if hv1 * d0 > hv0 * d1 {
      direction := mappingDir[edgeStrengthHV, edgeStrengthD];
    } else {
      direction := 28 + mappingDir[edgeStrengthD, edgeStrengthHV];
    }
  }

  // Everything outside the block keeps its value.
  twostate predicate OutsideKept<T>(a: array2<T>, y0: int, x0: int, h: int, w: int)
    reads a
  {
    forall r, c :: 0 <= r < a.Length0 && 0 <= c < a.Length1 && !(y0 <= r < y0 + h && x0 <= c < x0 + w) ==>
      a[r, c] == old(a[r, c])
  }

  // The 2x2 samples at (r0, c0) take one value.
  method FillBlock(a: array2<nat>, r0: nat, c0: nat, code: nat)
    requires r0 + 2 <= a.Length0 && c0 + 2 <= a.Length1
    modifies a
    ensures forall r, c :: r0 <= r < r0 + 2 && c0 <= c < c0 + 2 ==> a[r, c] == code
    ensures OutsideKept(a, r0, c0, 2, 2)
  {
    for r := r0 to r0 + 2
      invariant forall i, j :: r0 <= i < r && c0 <= j < c0 + 2 ==> a[i, j] == code
      invariant OutsideKept(a, r0, c0, 2, 2)
    {
      for c := c0 to c0 + 2
        invariant forall i, j :: r0 <= i < r && c0 <= j < c0 + 2 ==> a[i, j] == code
        invariant forall j :: c0 <= j < c ==> a[r, j] == code
        invariant OutsideKept(a, r0, c0, 2, 2)
      {
        a[r, c] := code;
      }
    }
  }

  // A block of destination samples: even sizes, inside the arrays.
  ghost predicate InBounds<T>(a: array2<T>, dstY: nat, dstX: nat, h: nat, w: nat) {
    h % 2 == 0 && w % 2 == 0 && dstY + h <= a.Length0 && dstX + w <= a.Length1
  }

  // Rows r0 .. r1-1 and columns c0 .. c1-1 hold a plane's values.
  ghost predicate Shows<T>(a: array2<T>, r0: int, r1: int, c0: int, c1: int, value: (int, int) -> T)
    requires 0 <= r0 && r1 <= a.Length0 && 0 <= c0 && c1 <= a.Length1
    reads a
  {
    forall r, c :: r0 <= r < r1 && c0 <= c < c1 ==> a[r, c] == value(r, c)
  }

  // The 2x2 samples of cell (i, j) all have the code of one set of sums.
  ghost predicate CellHasCode(s: Sums, dirWindSize: nat, kind: Kind, bits: nat, r0: int, c0: int, code: (int, int) -> nat) {
    && NonNegative(s)
    && forall r, c :: r0 <= r < r0 + 2 && c0 <= c < c0 + 2 ==> code(r, c) == ClassCode(s, dirWindSize, kind, bits)
  }

  // The cells that calcClass reads have these codes, block by block.
  ghost predicate CellCodes(lap: array2<Sums>, offset: nat, dirWindSize: nat, kind: Kind, bits: nat,
                            dstY: int, dstX: int, h: nat, w: nat, code: (int, int) -> nat)
    requires offset + h / 2 <= lap.Length0 && offset + w / 2 <= lap.Length1
    reads lap
  {
    forall i, j {:trigger Cell(i, j)} :: Cell(i, j) && 0 <= i < h / 2 && 0 <= j < w / 2 ==>
      CellHasCode(lap[offset + i, offset + j], dirWindSize, kind, bits, dstY + 2 * i, dstX + 2 * j, code)
  }

  method CalcClass(classifier: array2<nat>, dstY: nat, dstX: nat, h: nat, w: nat, dirWindSize: nat, kind: Kind, bits: nat,
                   mappingDir: array2<int>, lap: array2<Sums>, ghost code: (int, int) -> nat)
    requires InBounds(classifier, dstY, dstX, h, w) && IsMapping(mappingDir)
    requires dirWindSize == 1 || dirWindSize == 5
    requires var offset := if dirWindSize == 1 then 2 else 0;
      && offset + h / 2 <= lap.Length0 && offset + w / 2 <= lap.Length1
      && CellCodes(lap, offset, dirWindSize, kind, bits, dstY, dstX, h, w, code)
    modifies classifier
    ensures Shows(classifier, dstY, dstY + h, dstX, dstX + w, code)
    ensures OutsideKept(classifier, dstY, dstX, h, w)
  {
    var offset := if dirWindSize == 1 then 2 else 0;
    for i := 0 to h / 2
      invariant Shows(classifier, dstY, dstY + 2 * i, dstX, dstX + w, code)
      invariant OutsideKept(classifier, dstY, dstX, h, w)
    {
      for j := 0 to w / 2
        invariant Shows(classifier, dstY, dstY + 2 * i, dstX, dstX + w, code)
        invariant Shows(classifier, dstY + 2 * i, dstY + 2 * i + 2, dstX, dstX + 2 * j, code)
        invariant OutsideKept(classifier, dstY, dstX, h, w)
      {
        var yOffset, xOffset := offset + i, offset + j;
        var s := lap[yOffset, xOffset];
        assert CellHasCode(s, dirWindSize, kind, bits, dstY + 2 * i, dstX + 2 * j, code) by { assert Cell(i, j); }
        var actDirTranspose := ClassifyCell(s, dirWindSize, kind, bits, mappingDir);
        FillBlock(classifier, dstY + 2 * i, dstX + 2 * j, actDirTranspose);
      }
    }
  }

  // Marks the samples whose values are looked up in the picture or in the pipeline.
  ghost predicate Within(i: int, j: int) {
    true
  }

  ghost predicate NonNegativePlane(p: Plane) {
    forall y, x {:trigger Within(y, x)} :: Within(y, x) ==> p(y, x) >= 0
  }

  // Twenty-five bands of the sum of a 2x2 block of samples.
  method CalcClassNew(setup: Setup, p: Plane, blkY: int, blkX: int, h: nat, w: nat,
                      classifier: array2<nat>, dstY: nat, dstX: nat, ghost code: (int, int) -> nat)
    requires InBounds(classifier, dstY, dstX, h, w)
    requires NonNegativePlane(p)
    requires forall i, j {:trigger Cell(i, j)} :: Cell(i, j) ==>
      forall r, c :: dstY + 2 * i <= r < dstY + 2 * i + 2 && dstX + 2 * j <= c < dstX + 2 * j + 2 ==>
        code(r, c) == BandCode(setup, p, blkY + 2 * i, blkX + 2 * j)
    modifies classifier
    ensures Shows(classifier, dstY, dstY + h, dstX, dstX + w, code)
    ensures OutsideKept(classifier, dstY, dstX, h, w)
  {
    for i := 0 to h / 2
      invariant Shows(classifier, dstY, dstY + 2 * i, dstX, dstX + w, code)
      invariant OutsideKept(classifier, dstY, dstX, h, w)
    {
      for j := 0 to w / 2
        invariant Shows(classifier, dstY, dstY + 2 * i, dstX, dstX + w, code)
        invariant Shows(classifier, dstY + 2 * i, dstY + 2 * i + 2, dstX, dstX + 2 * j, code)
        invariant OutsideKept(classifier, dstY, dstX, h, w)
      {
        var y, x := blkY + 2 * i, blkX + 2 * j;
        assert Within(y, x) && Within(y, x + 1) && Within(y + 1, x) && Within(y + 1, x + 1);
        var sum := p(y, x) + p(y, x + 1) + p(y + 1, x) + p(y + 1, x + 1);
        var classIdx := sum * MAX_NUM_ALF_CLASSES / Pow2(setup.bits + 2);
        assert 4 * classIdx == BandCode(setup, p, y, x);
        assert forall r, c :: dstY + 2 * i <= r < dstY + 2 * i + 2 && dstX + 2 * j <= c < dstX + 2 * j + 2 ==>
            code(r, c) == BandCode(setup, p, y, x) by { assert Cell(i, j); }
        FillBlock(classifier, dstY + 2 * i, dstX + 2 * j, 4 * classIdx);
      }
    }
  }

  /* ----- Filtering ----- */

  // The coefficients and clipping values of a filter in the order of a transpose index.
  method ReorderFilter(f: Filter, shape: Shape, t: nat) returns (coeff: seq<int>, clipp: seq<int>)
    ensures InOrder(coeff, clipp, f, shape, t)
  {
    coeff := seq(NumTaps(shape), (k: nat) => f.coef(Order(shape, t, k)));
    clipp := seq(NumTaps(shape), (k: nat) => f.clip(Order(shape, t, k)));
  }

  ghost predicate InOrder(coeff: seq<int>, clipp: seq<int>, f: Filter, shape: Shape, t: nat) {
    && |coeff| == |clipp| == NumTaps(shape)
    && forall k :: 0 <= k < NumTaps(shape) ==> coeff[k] == f.coef(Order(shape, t, k)) && clipp[k] == f.clip(Order(shape, t, k))
  }

  lemma TermOfArrays(p: Plane, y: int, x: int, shape: Shape, t: nat, f: Filter, k: nat, c: int, b: int, dy: int, dx: int)
    requires c == f.coef(Order(shape, t, k)) && b == f.clip(Order(shape, t, k))
    requires dy == TapRow(Radius(shape), k) && dx == TapCol(Radius(shape), k)
    ensures c * ClipAlf(b, p(y, x), p(y + dy, x + dx), p(y - dy, x - dx)) == TapTerm(Centred(p, y, x), shape, t, f, k)
  {
    var nb := Centred(p, y, x);
    assert nb(0, 0) == p(y, x) && nb(dy, dx) == p(y + dy, x + dx) && nb(-dy, -dx) == p(y - dy, x - dx);
  }

  method SumTaps(p: Plane, y: int, x: int, shape: Shape, coeff: seq<int>, clipp: seq<int>, ghost f: Filter, ghost t: nat)
    returns (sum: int)
    requires InOrder(coeff, clipp, f, shape, t)
    ensures sum == FilterSum(Centred(p, y, x), shape, t, f)
  {
    var r, curr := Radius(shape), p(y, x);
    sum := 0;
    for k := 0 to NumTaps(shape)
      invariant sum == TapSum(Centred(p, y, x), shape, t, f, k)
    {
      var dy, dx := TapRow(r, k), TapCol(r, k);
      var term := coeff[k] * ClipAlf(clipp[k], curr, p(y + dy, x + dx), p(y - dy, x - dx));
      TermOfArrays(p, y, x, shape, t, f, k, coeff[k], clipp[k], dy, dx);
      sum := sum + term;
    }
  }

  lemma CentreSample(p: Plane, y: int, x: int)
    ensures Centred(p, y, x)(0, 0) == p(y, x)
  {
  }

  // What a fixed filter makes of the sample at (y, x) of a block with a given code.
  type FixedOut = (int, int, nat) -> int

  ghost predicate IsFixedOut(out: FixedOut, setup: Setup, p: Plane, set_: nat, window: nat) {
    forall y, x, code: nat {:trigger Within(y, x), out(y, x, code)} :: Within(y, x) ==>
      out(y, x, code) == FixedByCode(setup, Centred(p, y, x), set_, window, code)
  }

  // The value of sample (ii, jj) of the 2x2 block (i, j) is its fixed result, by the code of the block.
  ghost predicate FixedCells(out: FixedOut, blkY: int, blkX: int, h: nat, w: nat, classifier: array2<nat>,
                             dstY: nat, dstX: nat, value: Plane)
    requires InBounds(classifier, dstY, dstX, h, w)
    reads classifier
  {
    forall i, j, ii, jj {:trigger Cell(i, j), Within(ii, jj)} ::
      Cell(i, j) && Within(ii, jj) && 0 <= i < h / 2 && 0 <= j < w / 2 && 0 <= ii < 2 && 0 <= jj < 2 ==>
        value(dstY + 2 * i + ii, dstX + 2 * j + jj) == out(blkY + 2 * i + ii, blkX + 2 * j + jj, classifier[dstY + 2 * i, dstX + 2 * j])
  }

  lemma FixedByCodeIs(setup: Setup, nb: Plane, set_: nat, window: nat, code: nat, sum: int, curr: int)
    requires sum == FilterSum(nb, Diamond13, code % 4, FixedFilter(setup, set_, window, code / 4)) && curr == nb(0, 0)
    ensures FixedByCode(setup, nb, set_, window, code) == Clamp(0, setup.maxSample, (sum + 1024) / 2048 + curr)
  {
  }

  // The filtered sample at (y, x) is the value the pipeline gives it.
  method FixedFilterSum(setup: Setup, p: Plane, y: int, x: int, coeff: seq<int>, clipp: seq<int>,
                        ghost set_: nat, ghost window: nat, ghost code: nat, ghost out: FixedOut)
    returns (sample: int)
    requires InOrder(coeff, clipp, FixedFilter(setup, set_, window, code / 4), Diamond13, code % 4)
    requires IsFixedOut(out, setup, p, set_, window)
    ensures sample == out(y, x, code)
  {
    assert Within(y, x);
    var curr := p(y, x);
    var sum := SumTaps(p, y, x, Diamond13, coeff, clipp, FixedFilter(setup, set_, window, code / 4), code % 4);
    CentreSample(p, y, x);
    FixedByCodeIs(setup, Centred(p, y, x), set_, window, code, sum, curr);
    sum := (sum + 1024) / 2048;
    sample := Clamp(0, setup.maxSample, sum + curr);
  }

  // Sample (ii, jj) of block (i, j).
  method FixedFilterSample(setup: Setup, p: Plane, blkY: int, blkX: int, h: nat, w: nat, classifier: array2<nat>, dstY: nat, dstX: nat,
                           set_: nat, window: nat, i: nat, j: nat, ii: nat, jj: nat, coeff: seq<int>, clipp: seq<int>,
                           ghost out: FixedOut, ghost value: Plane)
    returns (sample: int)
    requires InBounds(classifier, dstY, dstX, h, w) && i < h / 2 && j < w / 2 && ii < 2 && jj < 2
    requires IsFixedOut(out, setup, p, set_, window) && FixedCells(out, blkY, blkX, h, w, classifier, dstY, dstX, value)
    requires var code := classifier[dstY + 2 * i, dstX + 2 * j];
      InOrder(coeff, clipp, FixedFilter(setup, set_, window, code / 4), Diamond13, code % 4)
    ensures sample == value(dstY + 2 * i + ii, dstX + 2 * j + jj)
  {
    assert Cell(i, j) && Within(ii, jj);
    sample := FixedFilterSum(setup, p, blkY + 2 * i + ii, blkX + 2 * j + jj, coeff, clipp, set_, window,
                             classifier[dstY + 2 * i, dstX + 2 * j], out);
  }

  method FixedFilterCell(setup: Setup, p: Plane, blkY: int, blkX: int, h: nat, w: nat, classifier: array2<nat>,
                         result: array2<int>, dstY: nat, dstX: nat, set_: nat, window: nat, i: nat, j: nat,
                         ghost out: FixedOut, ghost value: Plane)
    requires InBounds(classifier, dstY, dstX, h, w) && InBounds(result, dstY, dstX, h, w) && i < h / 2 && j < w / 2
    requires IsFixedOut(out, setup, p, set_, window) && FixedCells(out, blkY, blkX, h, w, classifier, dstY, dstX, value)
    modifies result
    ensures Shows(result, dstY + 2 * i, dstY + 2 * i + 2, dstX + 2 * j, dstX + 2 * j + 2, value)
    ensures OutsideKept(result, dstY + 2 * i, dstX + 2 * j, 2, 2)
  {
    var code := classifier[dstY + 2 * i, dstX + 2 * j];
    var classIdx, transposeIdx := code / 4, code % 4;
    var coeff, clipp := ReorderFilter(FixedFilter(setup, set_, window, classIdx), Diamond13, transposeIdx);
    for ii := 0 to 2
      invariant Shows(result, dstY + 2 * i, dstY + 2 * i + ii, dstX + 2 * j, dstX + 2 * j + 2, value)
      invariant OutsideKept(result, dstY + 2 * i, dstX + 2 * j, 2, 2)
    {
      for jj := 0 to 2
        invariant Shows(result, dstY + 2 * i, dstY + 2 * i + ii, dstX + 2 * j, dstX + 2 * j + 2, value)
        invariant Shows(result, dstY + 2 * i + ii, dstY + 2 * i + ii + 1, dstX + 2 * j, dstX + 2 * j + jj, value)
        invariant OutsideKept(result, dstY + 2 * i, dstX + 2 * j, 2, 2)
      {
        result[dstY + 2 * i + ii, dstX + 2 * j + jj] :=
          FixedFilterSample(setup, p, blkY, blkX, h, w, classifier, dstY, dstX, set_, window, i, j, ii, jj, coeff, clipp, out, value);
      }
    }
  }

  method FixedFiltering(setup: Setup, p: Plane, blkY: int, blkX: int, h: nat, w: nat, classifier: array2<nat>,
                        result: array2<int>, dstY: nat, dstX: nat, set_: nat, window: nat, ghost out: FixedOut, ghost value: Plane)
    requires InBounds(classifier, dstY, dstX, h, w) && InBounds(result, dstY, dstX, h, w)
    requires IsFixedOut(out, setup, p, set_, window) && FixedCells(out, blkY, blkX, h, w, classifier, dstY, dstX, value)
    modifies result
    ensures Shows(result, dstY, dstY + h, dstX, dstX + w, value)
    ensures OutsideKept(result, dstY, dstX, h, w)
  {
    for i := 0 to h / 2
      invariant Shows(result, dstY, dstY + 2 * i, dstX, dstX + w, value)
      invariant OutsideKept(result, dstY, dstX, h, w)
    {
      for j := 0 to w / 2
        invariant Shows(result, dstY, dstY + 2 * i, dstX, dstX + w, value)
        invariant Shows(result, dstY + 2 * i, dstY + 2 * i + 2, dstX, dstX + 2 * j, value)
        invariant OutsideKept(result, dstY, dstX, h, w)
      {
        FixedFilterCell(setup, p, blkY, blkX, h, w, classifier, result, dstY, dstX, set_, window, i, j, out, value);
      }
    }
  }

  /* ----- The final filter ----- */

  function Two(u: int, v: int): nat -> int {
    (k: nat) => if k == 0 then u else v
  }

  function ShapeOf(kind: FilterType): Shape {
    match kind
    case Filter5 => Diamond5
    case Filter7 => Diamond7
    case Filter9 => Diamond9
    case Filter9Ext => Diamond9
    case FilterExt => Diamond5
  }

  // What an adaptive filter makes of the sample at (y, x) of a block with a given code, beside
  // two fixed results.
  type AdaptiveOut = (int, int, nat, int, int) -> int

  ghost predicate IsAdaptiveOut(out: AdaptiveOut, setup: Setup, a: Adaptive, p: Plane) {
    forall y, x, code: nat, val0, val1 {:trigger Within(y, x), out(y, x, code, val0, val1)} :: Within(y, x) ==>
      out(y, x, code, val0, val1) == AdaptiveByCode(setup, a, Centred(p, y, x), code, Two(val0, val1))
  }

  // The value of sample (ii, jj) of the 2x2 block (i, j) is its adaptive result, by the code of the
  // block and the fixed results in ext0 and ext1.
  ghost predicate AdaptiveCells(out: AdaptiveOut, blkY: int, blkX: int, h: nat, w: nat, classifier: array2<nat>,
                                dstY: nat, dstX: nat, ext0: Plane, ext1: Plane, value: Plane)
    requires InBounds(classifier, dstY, dstX, h, w)
    reads classifier
  {
    forall i, j, ii, jj {:trigger Cell(i, j), Within(ii, jj)} ::
      Cell(i, j) && Within(ii, jj) && 0 <= i < h / 2 && 0 <= j < w / 2 && 0 <= ii < 2 && 0 <= jj < 2 ==>
        var r, c := dstY + 2 * i + ii, dstX + 2 * j + jj;
        value(r, c) == out(blkY + 2 * i + ii, blkX + 2 * j + jj, classifier[dstY + 2 * i, dstX + 2 * j], ext0(r, c), ext1(r, c))
  }

  lemma AdaptiveByCodeIs(setup: Setup, a: Adaptive, nb: Plane, code: nat, ext: nat -> int, sum: int, curr: int)
    requires sum == FilterTypeSum(a.kind, nb, a.filters(code / 4), code % 4, ext) && curr == nb(0, 0)
    ensures AdaptiveByCode(setup, a, nb, code, ext) == Clamp(0, setup.maxSample, (sum + 64) / 128 + curr)
  {
  }

  method SumOfType(kind: FilterType, p: Plane, y: int, x: int, coeff: seq<int>, clipp: seq<int>, f: Filter, ghost t: nat,
                   val0: int, val1: int)
    returns (sum: int)
    requires InOrder(coeff, clipp, f, ShapeOf(kind), t)
    ensures sum == FilterTypeSum(kind, Centred(p, y, x), f, t, Two(val0, val1))
  {
    var curr := p(y, x);
    CentreSample(p, y, x);
    sum := 0;
    if !kind.FilterExt? {
      sum := SumTaps(p, y, x, ShapeOf(kind), coeff, clipp, f, t);
    }
    if kind.Filter9Ext? || kind.FilterExt? {
      var first := if kind.Filter9Ext? then 20 else 0;
      sum := sum + f.coef(first) * ClipAlfOne(f.clip(first), curr, val0);
      sum := sum + f.coef(first + 1) * ClipAlfOne(f.clip(first + 1), curr, val1);
    }
  }

  method AdaptiveFilterSum(setup: Setup, a: Adaptive, p: Plane, y: int, x: int, coeff: seq<int>, clipp: seq<int>,
                           code: nat, val0: int, val1: int, ghost out: AdaptiveOut)
    returns (sample: int)
    requires InOrder(coeff, clipp, a.filters(code / 4), ShapeOf(a.kind), code % 4)
    requires IsAdaptiveOut(out, setup, a, p)
    ensures sample == out(y, x, code, val0, val1)
  {
    assert Within(y, x);
    var curr := p(y, x);
    var sum := SumOfType(a.kind, p, y, x, coeff, clipp, a.filters(code / 4), code % 4, val0, val1);
    CentreSample(p, y, x);
    AdaptiveByCodeIs(setup, a, Centred(p, y, x), code, Two(val0, val1), sum, curr);
    sum := (sum + 64) / 128;
    sample := Clamp(0, setup.maxSample, sum + curr);
  }

  method AdaptiveSample(setup: Setup, a: Adaptive, p: Plane, blkY: int, blkX: int, h: nat, w: nat, classifier: array2<nat>,
                        dstY: nat, dstX: nat, i: nat, j: nat, ii: nat, jj: nat, coeff: seq<int>, clipp: seq<int>,
                        val0: int, val1: int, ghost out: AdaptiveOut, ghost ext0: Plane, ghost ext1: Plane, ghost value: Plane)
    returns (sample: int)
    requires InBounds(classifier, dstY, dstX, h, w) && i < h / 2 && j < w / 2 && ii < 2 && jj < 2
    requires IsAdaptiveOut(out, setup, a, p) && AdaptiveCells(out, blkY, blkX, h, w, classifier, dstY, dstX, ext0, ext1, value)
    requires var code := classifier[dstY + 2 * i, dstX + 2 * j];
      InOrder(coeff, clipp, a.filters(code / 4), ShapeOf(a.kind), code % 4)
    requires val0 == ext0(dstY + 2 * i + ii, dstX + 2 * j + jj) && val1 == ext1(dstY + 2 * i + ii, dstX + 2 * j + jj)
    ensures sample == value(dstY + 2 * i + ii, dstX + 2 * j + jj)
  {
    assert Cell(i, j) && Within(ii, jj);
    sample := AdaptiveFilterSum(setup, a, p, blkY + 2 * i + ii, blkX + 2 * j + jj, coeff, clipp,
                                classifier[dstY + 2 * i, dstX + 2 * j], val0, val1, out);
  }

  // The two samples of one row of a 2x2 block.
  method AdaptiveFilterPair(setup: Setup, a: Adaptive, p: Plane, blkY: int, blkX: int, h: nat, w: nat, classifier: array2<nat>,
                            plane0: array2<int>, plane1: array2<int>, ghost ext0: Plane, ghost ext1: Plane,
                            result: array2<int>, dstY: nat, dstX: nat, i: nat, j: nat, ii: nat,
                            coeff: seq<int>, clipp: seq<int>, ghost out: AdaptiveOut, ghost value: Plane)
    requires InBounds(classifier, dstY, dstX, h, w) && InBounds(result, dstY, dstX, h, w) && i < h / 2 && j < w / 2 && ii < 2
    requires result != plane0 && result != plane1
    requires InBounds(plane0, dstY, dstX, h, w) && Shows(plane0, dstY, dstY + h, dstX, dstX + w, ext0)
    requires InBounds(plane1, dstY, dstX, h, w) && Shows(plane1, dstY, dstY + h, dstX, dstX + w, ext1)
    requires IsAdaptiveOut(out, setup, a, p) && AdaptiveCells(out, blkY, blkX, h, w, classifier, dstY, dstX, ext0, ext1, value)
    requires var code := classifier[dstY + 2 * i, dstX + 2 * j];
      InOrder(coeff, clipp, a.filters(code / 4), ShapeOf(a.kind), code % 4)
    modifies result
    ensures Shows(result, dstY + 2 * i + ii, dstY + 2 * i + ii + 1, dstX + 2 * j, dstX + 2 * j + 2, value)
    ensures OutsideKept(result, dstY + 2 * i + ii, dstX + 2 * j, 1, 2)
  {
    for jj := 0 to 2
      invariant Shows(result, dstY + 2 * i + ii, dstY + 2 * i + ii + 1, dstX + 2 * j, dstX + 2 * j + jj, value)
      invariant OutsideKept(result, dstY + 2 * i + ii, dstX + 2 * j, 1, 2)
    {
      var r, c := dstY + 2 * i + ii, dstX + 2 * j + jj;
      var val0, val1 := plane0[r, c], plane1[r, c];
      result[r, c] := AdaptiveSample(setup, a, p, blkY, blkX, h, w, classifier, dstY, dstX, i, j, ii, jj, coeff, clipp,
                                     val0, val1, out, ext0, ext1, value);
    }
  }

  method AdaptiveFilterCell(setup: Setup, a: Adaptive, p: Plane, blkY: int, blkX: int, h: nat, w: nat, classifier: array2<nat>,
                            plane0: array2<int>, plane1: array2<int>, ghost ext0: Plane, ghost ext1: Plane,
                            result: array2<int>, dstY: nat, dstX: nat, i: nat, j: nat,
                            ghost out: AdaptiveOut, ghost value: Plane)
    requires InBounds(classifier, dstY, dstX, h, w) && InBounds(result, dstY, dstX, h, w) && i < h / 2 && j < w / 2
    requires result != plane0 && result != plane1
    requires InBounds(plane0, dstY, dstX, h, w) && Shows(plane0, dstY, dstY + h, dstX, dstX + w, ext0)
    requires InBounds(plane1, dstY, dstX, h, w) && Shows(plane1, dstY, dstY + h, dstX, dstX + w, ext1)
    requires IsAdaptiveOut(out, setup, a, p) && AdaptiveCells(out, blkY, blkX, h, w, classifier, dstY, dstX, ext0, ext1, value)
    modifies result
    ensures Shows(result, dstY + 2 * i, dstY + 2 * i + 2, dstX + 2 * j, dstX + 2 * j + 2, value)
    ensures OutsideKept(result, dstY + 2 * i, dstX + 2 * j, 2, 2)
  {
    var code := classifier[dstY + 2 * i, dstX + 2 * j];
    var classIdx, transposeIdx := code / 4, code % 4;
    var coeff, clipp := ReorderFilter(a.filters(classIdx), ShapeOf(a.kind), transposeIdx);
    for ii := 0 to 2
      invariant Shows(result, dstY + 2 * i, dstY + 2 * i + ii, dstX + 2 * j, dstX + 2 * j + 2, value)
      invariant OutsideKept(result, dstY + 2 * i, dstX + 2 * j, 2, 2)
    {
      AdaptiveFilterPair(setup, a, p, blkY, blkX, h, w, classifier, plane0, plane1, ext0, ext1, result, dstY, dstX, i, j, ii, coeff, clipp, out, value);
    }
  }

  method FilterBlk(setup: Setup, a: Adaptive, p: Plane, blkY: int, blkX: int, h: nat, w: nat, classifier: array2<nat>,
                   plane0: array2<int>, plane1: array2<int>, ghost ext0: Plane, ghost ext1: Plane,
                   result: array2<int>, dstY: nat, dstX: nat, ghost out: AdaptiveOut, ghost value: Plane)
    requires InBounds(classifier, dstY, dstX, h, w) && InBounds(result, dstY, dstX, h, w)
    requires result != plane0 && result != plane1
    requires InBounds(plane0, dstY, dstX, h, w) && Shows(plane0, dstY, dstY + h, dstX, dstX + w, ext0)
    requires InBounds(plane1, dstY, dstX, h, w) && Shows(plane1, dstY, dstY + h, dstX, dstX + w, ext1)
    requires IsAdaptiveOut(out, setup, a, p) && AdaptiveCells(out, blkY, blkX, h, w, classifier, dstY, dstX, ext0, ext1, value)
    modifies result
    ensures Shows(result, dstY, dstY + h, dstX, dstX + w, value)
    ensures OutsideKept(result, dstY, dstX, h, w)
  {
    for i := 0 to h / 2
      invariant Shows(result, dstY, dstY + 2 * i, dstX, dstX + w, value)
      invariant OutsideKept(result, dstY, dstX, h, w)
    {
      for j := 0 to w / 2
        invariant Shows(result, dstY, dstY + 2 * i, dstX, dstX + w, value)
        invariant Shows(result, dstY + 2 * i, dstY + 2 * i + 2, dstX, dstX + 2 * j, value)
        invariant OutsideKept(result, dstY, dstX, h, w)
      {
        AdaptiveFilterCell(setup, a, p, blkY, blkX, h, w, classifier, plane0, plane1, ext0, ext1, result, dstY, dstX, i, j, out, value);
      }
    }
  }

  // The fixed results of a block are copied to the picture.
  method CopyFixedFilterResults(plane: array2<int>, result: array2<int>, dstY: nat, dstX: nat, h: nat, w: nat, ghost value: Plane)
    requires InBounds(plane, dstY, dstX, h, w) && InBounds(result, dstY, dstX, h, w) && plane != result
    requires Shows(plane, dstY, dstY + h, dstX, dstX + w, value)
    modifies result
    ensures Shows(result, dstY, dstY + h, dstX, dstX + w, value)
    ensures OutsideKept(result, dstY, dstX, h, w)
  {
    for y := 0 to h
      invariant Shows(result, dstY, dstY + y, dstX, dstX + w, value)
      invariant OutsideKept(result, dstY, dstX, h, w)
    {
      for x := 0 to w
        invariant Shows(result, dstY, dstY + y, dstX, dstX + w, value)
        invariant Shows(result, dstY + y, dstY + y + 1, dstX, dstX + x, value)
        invariant OutsideKept(result, dstY, dstX, h, w)
      {
        result[y + dstY, x + dstX] := plane[y + dstY, x + dstX];
      }
    }
  }
}
