/**
 What one luma sample becomes: window sums, class, fixed 13x13 filters, and the final
 filter with its fixed-result taps, as functions of the padded picture.
 */
module AlfPipeline {
  import opened AlfPicture
  import opened AlfLaplacian
  import opened AlfClassifier
  import opened AlfTaps

  const EXT_LENGTH: nat := 2
  const NUM_FIXED_FILTER_SETS: nat := 2
  const NUM_SETS_FIXED_FILTERS: nat := 8

  // The numeric tables of the fixed filters, by QP set and window: class to filter, and the
  // coefficients and clipping indices of a filter.
  datatype FixedTables = FixedTables(
    filterOf: (nat, nat, nat) -> nat,
    coef: (nat, nat, nat, nat) -> int,
    clip: (nat, nat, nat, nat) -> nat)

  // Bit depth, largest sample, clipping values by index, and the fixed filters.
  datatype Setup = Setup(bits: nat, maxSample: int, clipValue: nat -> int, tables: FixedTables)

  // Half sizes of the two classifier windows.
  function WindowHalf(window: nat): nat {
    if window == 0 then 1 else 5
  }

  // The sums behind the 2x2 block whose top-left sample is (y, x): a 4x4 window for window
  // 0 and a 12x12 window for window 1, both centred on the block.
  function BlockSums(p: Plane, window: nat, y: int, x: int): Sums {
    if window == 0 then WindowSums(Laplacians(p), y - 1, x - 1, 4, 4)
    else WindowSums(Laplacians(p), y - 5, x - 5, 12, 12)
  }

  // The top or left coordinate of the 2x2 block of a sample.
  function BlockOf(y: int): int {
    y - y % 2
  }

  // The sums behind the block of sample (y, x).
  function SampleSums(p: Plane, window: nat, y: int, x: int): Sums {
    BlockSums(p, window, BlockOf(y), BlockOf(x))
  }

  function FixedFilter(setup: Setup, set_: nat, window: nat, classIdx: nat): Filter {
    var i := setup.tables.filterOf(set_, window, classIdx);
    Filter((k: nat) => setup.tables.coef(set_, window, i, k),
           (k: nat) => setup.clipValue(setup.tables.clip(set_, window, i, k)))
  }

  // Rounding to 11 fractional bits, as an arithmetic right shift.
  function FixedOutput(nb: Plane, f: Filter, t: nat, maxSample: int): int {
    Clamp(0, maxSample, (FilterSum(nb, Diamond13, t, f) + 1024) / 2048 + nb(0, 0))
  }

  // The fixed filters' classifier, on non-negative sums.
  function FixedCode(setup: Setup, window: nat, s: Sums): nat {
    if s.v >= 0 && s.h >= 0 then ClassCode(s, WindowHalf(window), FixedKind, setup.bits) else 0
  }

  function AdaptiveCode(setup: Setup, s: Sums): nat {
    if s.v >= 0 && s.h >= 0 then ClassCode(s, 5, AdaptiveKind, setup.bits) else 0
  }

  function FixedByCode(setup: Setup, nb: Plane, set_: nat, window: nat, code: nat): int {
    FixedOutput(nb, FixedFilter(setup, set_, window, code / 4), code % 4, setup.maxSample)
  }

  // Sample (y, x) after the fixed filter of a QP set and a window.
  function FixedResult(setup: Setup, p: Plane, set_: nat, window: nat, y: int, x: int): int {
    FixedByCode(setup, Centred(p, y, x), set_, window, FixedCode(setup, window, SampleSums(p, window, y, x)))
  }

  /* ----- The final filter ----- */

  datatype FilterType = Filter5 | Filter7 | Filter9 | Filter9Ext | FilterExt

  // The taps on the fixed results: ext(k) is the sample of window k's fixed result.
  function ExtTerm(nb: Plane, f: Filter, first: nat, ext: nat -> int, k: nat): int {
    f.coef(first + k) * ClipAlfOne(f.clip(first + k), nb(0, 0), ext(k))
  }

  function FilterTypeSum(kind: FilterType, nb: Plane, f: Filter, t: nat, ext: nat -> int): int {
    match kind
    case Filter5 => FilterSum(nb, Diamond5, t, f)
    case Filter7 => FilterSum(nb, Diamond7, t, f)
    case Filter9 => FilterSum(nb, Diamond9, t, f)
    case Filter9Ext => FilterSum(nb, Diamond9, t, f) + ExtTerm(nb, f, 20, ext, 0) + ExtTerm(nb, f, 20, ext, 1)
    case FilterExt => ExtTerm(nb, f, 0, ext, 0) + ExtTerm(nb, f, 0, ext, 1)
  }

  // Rounding to 7 fractional bits.
  function FilterOutput(kind: FilterType, nb: Plane, f: Filter, t: nat, ext: nat -> int, maxSample: int): int {
    Clamp(0, maxSample, (FilterTypeSum(kind, nb, f, t, ext) + 64) / 128 + nb(0, 0))
  }

  // The band classifier: twenty-five bands of the mean of a 2x2 block, never transposed.
  function BandCode(setup: Setup, p: Plane, y: int, x: int): int {
    4 * ((p(y, x) + p(y, x + 1) + p(y + 1, x) + p(y + 1, x + 1)) * 25 / Pow2(setup.bits + 2))
  }

  // Adaptive filters of one parameter set: the filter type, the classifier and the filters by class.
  datatype Adaptive = Adaptive(kind: FilterType, classifier: nat, filters: nat -> Filter)

  function SampleCode(setup: Setup, classifier: nat, p: Plane, y: int, x: int): int {
    if classifier == 0 then AdaptiveCode(setup, SampleSums(p, 1, y, x))
    else BandCode(setup, p, BlockOf(y), BlockOf(x))
  }

  function Natural(i: int): nat {
    if i < 0 then 0 else i
  }

  function AdaptiveByCode(setup: Setup, a: Adaptive, nb: Plane, code: int, ext: nat -> int): int {
    FilterOutput(a.kind, nb, a.filters(Natural(code / 4)), code % 4, ext, setup.maxSample)
  }

  // Sample (y, x) after an adaptive filter whose fixed results come from a QP set.
  function AdaptiveResult(setup: Setup, a: Adaptive, p: Plane, set_: nat, y: int, x: int): int {
    AdaptiveByCode(setup, a, Centred(p, y, x), SampleCode(setup, a.classifier, p, y, x),
                   (k: nat) => FixedResult(setup, p, set_, k, y, x))
  }

  lemma BlockSumsAreNonNegative(p: Plane, window: nat, y: int, x: int)
    ensures NonNegative(BlockSums(p, window, y, x))
  {
    var n, o := if window == 0 then 4 else 12, if window == 0 then 1 else 5;
    forall d | d in {VER, HOR, DIAG0, DIAG1}
      ensures WindowSum(LaplacianPlane(p, d), y - o, x - o, n, n) >= 0
    {
      WindowSumIsNonNegative(LaplacianPlane(p, d), y - o, x - o, n, n);
    }
  }

  lemma {:induction false} WindowSumIsNonNegative(f: Plane, y: int, x: int, m: nat, n: nat)
    requires forall i, j :: f(i, j) >= 0
    ensures WindowSum(f, y, x, m, n) >= 0
    decreases m
  {
    if m > 0 {
      WindowSumIsNonNegative(f, y, x, m - 1, n);
      RowSumIsNonNegative(f, y + m - 1, x, n);
    }
  }

  lemma {:induction false} RowSumIsNonNegative(f: Plane, y: int, x: int, n: nat)
    requires forall i, j :: f(i, j) >= 0
    ensures RowSum(f, y, x, n) >= 0
    decreases n
  {
    if n > 0 {
      RowSumIsNonNegative(f, y, x, n - 1);
    }
  }
}
