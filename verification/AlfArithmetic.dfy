/**
 The arithmetic of the loop filter: what fits in 32 bits, how far a sample can move, and when the clipped
 filter is the linear one.
 */
module AlfArithmetic {
  import opened AlfPicture
  import opened AlfLaplacian
  import opened AlfClassifier
  import opened AlfTaps
  import opened AlfPipeline
  import opened Multiples

  const TWO_TO_THE_31: int := 0x8000_0000

  lemma {:induction false} Pow2Grows(a: nat, b: nat)
    requires a <= b
    ensures Pow2(a) <= Pow2(b)
    ensures a < b ==> Pow2(a) < Pow2(b)
    decreases b
  {
    if a < b {
      Pow2Grows(a, b - 1);
    }
  }

  lemma Pow2Of12()
    ensures Pow2(12) == 4096 && Pow2(13) == 8192
  {
    assert Pow2(4) == 16 && Pow2(8) == 16 * Pow2(4) && Pow2(12) == 16 * Pow2(8);
  }

  // A bit depth whose samples are below 2^bits.
  predicate Samples(maxSample: int, bits: nat) {
    0 <= maxSample && maxSample == Pow2(bits) - 1
  }

  /* ----- Activity ----- */

  // The largest product behind the activity: with the five-level classifier's factor of three for the wide
  // window, which no other classifier uses.
  function ActivityProduct(s: Sums, window: nat): int {
    Multiplier(WindowHalf(window)) * (if window == 0 then 1 else 3) * (s.v + s.h)
  }

  // Four sums that a window of a picture of this bit depth can have.
  ghost predicate SumsBelow(s: Sums, m: nat) {
    0 <= s.v <= m && 0 <= s.h <= m && 0 <= s.d0 <= m && 0 <= s.d1 <= m
  }

  function WindowSize(window: nat): nat {
    if window == 0 then 4 else 12
  }

  lemma DirectionBound(p: Plane, d: nat, max: nat, y: int, x: int, n: nat, size: nat)
    requires InRange(p, max) && size == n * (n * (2 * max))
    ensures 0 <= WindowSum(LaplacianPlane(p, d), y, x, n, n) <= size
  {
    LaplacianInRange(p, d, max);
    WindowSumBound(LaplacianPlane(p, d), y, x, n, n, 2 * max);
  }

  lemma BlockSumsBelow(p: Plane, max: nat, window: nat, y: int, x: int)
    requires InRange(p, max)
    ensures SumsBelow(BlockSums(p, window, y, x), if window == 0 then 32 * max else 288 * max)
  {
    var n, o := WindowSize(window), if window == 0 then 1 else 5;
    var size := if window == 0 then 32 * max else 288 * max;
    assert size == n * (n * (2 * max));
    DirectionBound(p, VER, max, y - o, x - o, n, size);
    DirectionBound(p, HOR, max, y - o, x - o, n, size);
    DirectionBound(p, DIAG0, max, y - o, x - o, n, size);
    DirectionBound(p, DIAG1, max, y - o, x - o, n, size);
  }

  // The check that the sums and products of a window stay in 32 bits, those of two sums in 64.
  predicate Fits(s: Sums, window: nat) {
    && 9 * Max(Max(s.v, s.h), Max(s.d0, s.d1)) < TWO_TO_THE_31
    && 0 <= ActivityProduct(s, window) < TWO_TO_THE_31
    && Max(s.v, s.h) * Max(s.d0, s.d1) < 0x1_0000_0000_0000_0000
  }

  lemma ProductBelow(a: int, b: int, c: int)
    requires 0 <= a <= c && 0 <= b <= c
    ensures a * b <= c * c
  {
    ProductIsMonotone(a, c, b);
    ProductIsMonotone(b, c, c);
  }

  lemma SmallSumsFit(s: Sums, window: nat, max: nat)
    requires max <= 4095 && SumsBelow(s, if window == 0 then 32 * max else 288 * max)
    ensures Fits(s, window)
  {
    ProductBelow(Max(s.v, s.h), Max(s.d0, s.d1), 1179360);
  }

  // Up to twelve bits everything fits, for both windows.
  lemma ActivityFits(p: Plane, max: nat, bits: nat, window: nat, y: int, x: int)
    requires bits <= 12 && Samples(max, bits) && InRange(p, max)
    ensures Fits(BlockSums(p, window, y, x), window)
  {
    Pow2Grows(bits, 12);
    Pow2Of12();
    BlockSumsBelow(p, max, window, y, x);
    SmallSumsFit(BlockSums(p, window, y, x), window, max);
  }

  // The picture on which all vertical and horizontal Laplacians are as large as can be.
  function Checkerboard(max: nat): Plane {
    (y, x) => if (y + x) % 2 == 0 then max else 0
  }

  lemma CheckerboardLaplacian(max: nat, d: nat, y: int, x: int)
    requires d == VER || d == HOR
    ensures Laplacian(Checkerboard(max), d, y, x) == 2 * max
  {
    assert (y + x) % 2 == 0 <==> (y + x + 1) % 2 != 0;
    assert (y + x) % 2 == 0 <==> (y + x - 1) % 2 != 0;
  }

  lemma {:induction false} RowOfConstant(f: Plane, c: int, y: int, x: int, n: nat)
    requires forall i, j :: f(i, j) == c
    ensures RowSum(f, y, x, n) == n * c
    decreases n
  {
    if n > 0 {
      RowOfConstant(f, c, y, x, n - 1);
      assert n * c == (n - 1) * c + c;
    }
  }

  lemma {:induction false} WindowOfConstant(f: Plane, c: int, y: int, x: int, m: nat, n: nat)
    requires forall i, j :: f(i, j) == c
    ensures WindowSum(f, y, x, m, n) == m * (n * c)
    decreases m
  {
    if m > 0 {
      WindowOfConstant(f, c, y, x, m - 1, n);
      RowOfConstant(f, c, y + m - 1, x, n);
      assert m * (n * c) == (m - 1) * (n * c) + n * c;
    }
  }

  lemma CheckerboardSum(max: nat, d: nat, y: int, x: int)
    requires d == VER || d == HOR
    ensures WindowSum(LaplacianPlane(Checkerboard(max), d), y, x, 12, 12) == 288 * max
  {
    forall i, j
      ensures LaplacianPlane(Checkerboard(max), d)(i, j) == 2 * max
    {
      CheckerboardLaplacian(max, d, i, j);
    }
    WindowOfConstant(LaplacianPlane(Checkerboard(max), d), 2 * max, y, x, 12, 12);
  }

  // From thirteen bits on the activity of a checkerboard does not fit.
  lemma CheckerboardOverflows(max: nat, bits: nat, y: int, x: int)
    requires bits > 12 && Samples(max, bits)
    ensures InRange(Checkerboard(max), max)
    ensures ActivityProduct(BlockSums(Checkerboard(max), 1, y, x), 1) >= TWO_TO_THE_31
  {
    Pow2Grows(13, bits);
    Pow2Of12();
    CheckerboardSum(max, VER, y - 5, x - 5);
    CheckerboardSum(max, HOR, y - 5, x - 5);
  }

  ghost predicate AlwaysFits(max: nat, window: nat) {
    forall p: Plane, y, x :: InRange(p, max) ==> Fits(BlockSums(p, window, y, x), window)
  }

  // Twelve bits are exactly what the 32-bit arithmetic of the classifier bears.
  lemma TwelveBitsFit(max: nat, bits: nat)
    requires Samples(max, bits)
    ensures AlwaysFits(max, 0) && AlwaysFits(max, 1) <==> bits <= 12
  {
    if bits <= 12 {
      forall p: Plane, y, x, window: nat | InRange(p, max)
        ensures Fits(BlockSums(p, window, y, x), window)
      {
        ActivityFits(p, max, bits, window, y, x);
      }
    } else {
      CheckerboardOverflows(max, bits, 0, 0);
    }
  }

  // Each of the twenty-five bands is a class of the band classifier, and its code fits a short.
  lemma BandInRange(setup: Setup, p: Plane, y: int, x: int)
    requires Samples(setup.maxSample, setup.bits) && InRange(p, setup.maxSample)
    ensures 0 <= BandCode(setup, p, y, x) / 4 < MAX_NUM_ALF_CLASSES && BandCode(setup, p, y, x) % 4 == 0
  {
    var sum, size := p(y, x) + p(y, x + 1) + p(y + 1, x) + p(y + 1, x + 1), Pow2(setup.bits + 2);
    assert size == 2 * Pow2(setup.bits + 1) == 4 * Pow2(setup.bits);
    assert InRangeAt(p, setup.maxSample, y, x) && InRangeAt(p, setup.maxSample, y, x + 1);
    assert InRangeAt(p, setup.maxSample, y + 1, x) && InRangeAt(p, setup.maxSample, y + 1, x + 1);
    QuotientBelow(sum * 25, 25, size);
  }

  predicate InRangeAt(p: Plane, max: int, y: int, x: int) {
    0 <= p(y, x) <= max
  }

  lemma QuotientBelow(a: nat, q: nat, d: nat)
    requires a < q * d
    ensures 0 <= a / d < q
  {
    var b := a / d;
    assert a == b * d + a % d;
    LessByProduct(b, q, d);
  }

  /* ----- Clipping values ----- */

  // The value of a clipping index: never clipping for index zero, then ever tighter.
  function ClippingValue(bits: nat, i: nat): nat {
    if i == 0 then Pow2(bits) else if bits >= 1 + 2 * i then Pow2(bits - 1 - 2 * i) else 0
  }

  method InitClippingValues(bits: nat) returns (values: array<int>)
    requires bits >= 8
    ensures values.Length == 4 && forall i :: 0 <= i < 4 ==> values[i] == ClippingValue(bits, i)
  {
    values := new int[4];
    values[0] := Pow2(bits);
    var shiftLuma := bits - 8;
    for i := 1 to 4
      invariant forall k :: 0 <= k < i ==> values[k] == ClippingValue(bits, k)
    {
      values[i] := Pow2(7 - 2 * i + shiftLuma);
    }
  }

  // The values are positive and fall strictly; only index zero exceeds every difference of two samples.
  lemma ClippingValuesFall(bits: nat, i: nat)
    requires bits >= 8 && i < 4
    ensures 0 < ClippingValue(bits, i) <= Pow2(bits)
    ensures i < 3 ==> ClippingValue(bits, i + 1) < ClippingValue(bits, i)
    ensures ClippingValue(bits, i) > Pow2(bits) - 1 <==> i == 0
  {
    if i > 0 {
      Pow2Grows(bits - 1 - 2 * i, bits);
    }
    if i == 0 {
      Pow2Grows(bits - 3, bits);
    } else if i < 3 {
      Pow2Grows(bits - 3 - 2 * i, bits - 1 - 2 * i);
    }
  }

  /* ----- How far a filter moves a sample ----- */

  ghost predicate ClipsFrom(f: Filter, low: int, n: nat) {
    forall k: nat :: k < n ==> f.clip(k) >= low
  }

  // The most that tap k can add.
  function TapWeight(f: Filter, k: nat): int {
    Abs(f.coef(k)) * (2 * f.clip(k))
  }

  // The most that the first n taps can add, in no order.
  function Weight(f: Filter, n: nat): int
    decreases n, f
  {
    if n == 0 then 0 else Weight(f, n - 1) + TapWeight(f, n - 1)
  }

  // The same in the order of a transpose index.
  function OrderedWeight(shape: Shape, t: nat, f: Filter, n: nat): int
    decreases n, f
  {
    if n == 0 then 0 else OrderedWeight(shape, t, f, n - 1) + TapWeight(f, Order(shape, t, n - 1))
  }

  lemma ScaledBound(c: int, v: int, m: int)
    requires -m <= v <= m
    ensures -(Abs(c) * m) <= c * v <= Abs(c) * m
  {
    ProductIsMonotone(v, m, Abs(c));
    ProductIsMonotone(-m, v, Abs(c));
    assert v * Abs(c) == Abs(c) * v && m * Abs(c) == Abs(c) * m && (-m) * Abs(c) == -(Abs(c) * m);
    assert c * v == Abs(c) * v || c * v == -(Abs(c) * v);
  }

  lemma TapBound(nb: Plane, shape: Shape, t: nat, f: Filter, k: nat)
    requires f.clip(Order(shape, t, k)) >= 0
    ensures -TapWeight(f, Order(shape, t, k)) <= TapTerm(nb, shape, t, f, k) <= TapWeight(f, Order(shape, t, k))
  {
    var j, r := Order(shape, t, k), Radius(shape);
    ScaledBound(f.coef(j), PairTerm(nb, TapRow(r, k), TapCol(r, k), f.clip(j)), 2 * f.clip(j));
  }

  lemma {:induction false} TapSumBound(nb: Plane, shape: Shape, t: nat, f: Filter, n: nat)
    requires t < 4 && n <= NumTaps(shape) && ClipsFrom(f, 0, NumTaps(shape))
    ensures -OrderedWeight(shape, t, f, n) <= TapSum(nb, shape, t, f, n) <= OrderedWeight(shape, t, f, n)
    decreases n
  {
    if n > 0 {
      TapSumBound(nb, shape, t, f, n - 1);
      OrderTurnsTheTap(shape, t, n - 1);
      TapBound(nb, shape, t, f, n - 1);
    }
  }

  lemma {:induction false} WeightIsSum(f: Filter, n: nat, g: nat -> int)
    requires forall k: nat :: k < n ==> g(k) == TapWeight(f, k)
    ensures Weight(f, n) == Sum(g, UpTo(n))
    decreases n
  {
    if n > 0 {
      WeightIsSum(f, n - 1, g);
      assert UpTo(n)[..n - 1] == UpTo(n - 1);
    }
  }

  lemma {:induction false} OrderedWeightIsSum(shape: Shape, t: nat, f: Filter, n: nat, h: nat -> int)
    requires forall k: nat :: k < n ==> h(k) == TapWeight(f, Order(shape, t, k))
    ensures OrderedWeight(shape, t, f, n) == Sum(h, UpTo(n))
    decreases n
  {
    if n > 0 {
      OrderedWeightIsSum(shape, t, f, n - 1, h);
      assert UpTo(n)[..n - 1] == UpTo(n - 1);
    }
  }

  // No coefficient order weighs more than another.
  lemma WeightHasNoOrder(shape: Shape, t: nat, f: Filter)
    requires t < 4
    ensures OrderedWeight(shape, t, f, NumTaps(shape)) == Weight(f, NumTaps(shape))
  {
    var n := NumTaps(shape);
    var g := (k: nat) => TapWeight(f, k);
    var h := (k: nat) => TapWeight(f, Order(shape, t, k));
    var s := OrderSequence(shape, t);
    forall k | 0 <= k < n
      ensures h(k) == g(s[k])
    {
    }
    SumOfReordered(g, h, s);
    WeightIsSum(f, n, g);
    OrderedWeightIsSum(shape, t, f, n, h);
  }

  lemma FilterSumBound(nb: Plane, shape: Shape, t: nat, f: Filter)
    requires t < 4 && ClipsFrom(f, 0, NumTaps(shape))
    ensures -Weight(f, NumTaps(shape)) <= FilterSum(nb, shape, t, f) <= Weight(f, NumTaps(shape))
  {
    TapSumBound(nb, shape, t, f, NumTaps(shape));
    WeightHasNoOrder(shape, t, f);
  }

  lemma ExtBound(nb: Plane, f: Filter, first: nat, ext: nat -> int, k: nat)
    requires f.clip(first + k) >= 0
    ensures -(Abs(f.coef(first + k)) * f.clip(first + k)) <= ExtTerm(nb, f, first, ext, k) <= Abs(f.coef(first + k)) * f.clip(first + k)
  {
    ScaledBound(f.coef(first + k), ClipAlfOne(f.clip(first + k), nb(0, 0), ext(k)), f.clip(first + k));
  }

  // Taps of a filter type, with those on the fixed results.
  function TypeTaps(kind: FilterType): nat {
    match kind
    case Filter5 => 6
    case Filter7 => 12
    case Filter9 => 20
    case Filter9Ext => 22
    case FilterExt => 2
  }

  function ExtWeight(f: Filter, first: nat): int {
    Abs(f.coef(first)) * f.clip(first) + Abs(f.coef(first + 1)) * f.clip(first + 1)
  }

  // The most that all taps of a filter can add: twice the clipping value for a pair of samples, once for a
  // fixed result, times the coefficient.
  function TypeWeight(kind: FilterType, f: Filter): int {
    match kind
    case Filter5 => Weight(f, 6)
    case Filter7 => Weight(f, 12)
    case Filter9 => Weight(f, 20)
    case Filter9Ext => Weight(f, 20) + ExtWeight(f, 20)
    case FilterExt => ExtWeight(f, 0)
  }

  lemma TypeSumBound(kind: FilterType, nb: Plane, f: Filter, t: nat, ext: nat -> int)
    requires t < 4 && ClipsFrom(f, 0, TypeTaps(kind))
    ensures -TypeWeight(kind, f) <= FilterTypeSum(kind, nb, f, t, ext) <= TypeWeight(kind, f)
  {
    match kind
    case Filter5 => FilterSumBound(nb, Diamond5, t, f);
    case Filter7 => FilterSumBound(nb, Diamond7, t, f);
    case Filter9 => FilterSumBound(nb, Diamond9, t, f);
    case Filter9Ext =>
      FilterSumBound(nb, Diamond9, t, f);
      ExtBound(nb, f, 20, ext, 0);
      ExtBound(nb, f, 20, ext, 1);
    case FilterExt =>
      ExtBound(nb, f, 0, ext, 0);
      ExtBound(nb, f, 0, ext, 1);
  }

  lemma RoundedTo7Bits(sum: int, weight: int)
    requires -weight <= sum <= weight
    ensures -((weight + 64) / 128) <= (sum + 64) / 128 <= (weight + 64) / 128
  {
  }

  lemma RoundedTo11Bits(sum: int, weight: int)
    requires -weight <= sum <= weight
    ensures -((weight + 1024) / 2048) <= (sum + 1024) / 2048 <= (weight + 1024) / 2048
  {
  }

  // Clamping does not move a sample further.
  lemma ClampedMove(curr: int, max: int, d: int, bound: int)
    requires 0 <= curr <= max && -bound <= d <= bound
    ensures 0 <= Clamp(0, max, d + curr) <= max && Abs(Clamp(0, max, d + curr) - curr) <= bound
  {
  }

  // A filtered sample is a sample, and moves by at most the rounded weight of its filter.
  lemma FilterMovesLittle(kind: FilterType, nb: Plane, f: Filter, t: nat, ext: nat -> int, max: int)
    requires t < 4 && ClipsFrom(f, 0, TypeTaps(kind)) && 0 <= nb(0, 0) <= max
    ensures 0 <= FilterOutput(kind, nb, f, t, ext, max) <= max
    ensures Abs(FilterOutput(kind, nb, f, t, ext, max) - nb(0, 0)) <= (TypeWeight(kind, f) + 64) / 128
  {
    TypeSumBound(kind, nb, f, t, ext);
    RoundedTo7Bits(FilterTypeSum(kind, nb, f, t, ext), TypeWeight(kind, f));
    ClampedMove(nb(0, 0), max, (FilterTypeSum(kind, nb, f, t, ext) + 64) / 128, (TypeWeight(kind, f) + 64) / 128);
  }

  lemma FixedFilterMovesLittle(nb: Plane, f: Filter, t: nat, max: int)
    requires t < 4 && ClipsFrom(f, 0, 42) && 0 <= nb(0, 0) <= max
    ensures 0 <= FixedOutput(nb, f, t, max) <= max
    ensures Abs(FixedOutput(nb, f, t, max) - nb(0, 0)) <= (Weight(f, 42) + 1024) / 2048
  {
    FilterSumBound(nb, Diamond13, t, f);
    RoundedTo11Bits(FilterSum(nb, Diamond13, t, f), Weight(f, 42));
    ClampedMove(nb(0, 0), max, (FilterSum(nb, Diamond13, t, f) + 1024) / 2048, (Weight(f, 42) + 1024) / 2048);
  }

  // Over the whole filter: each fixed result is a sample and moves by at most its filter's rounded weight.
  lemma FixedResultMovesLittle(setup: Setup, p: Plane, set_: nat, window: nat, y: int, x: int)
    requires InRangeAt(p, setup.maxSample, y, x)
    requires ClipsFrom(FixedFilter(setup, set_, window, FixedCode(setup, window, SampleSums(p, window, y, x)) / 4), 0, 42)
    ensures var f := FixedFilter(setup, set_, window, FixedCode(setup, window, SampleSums(p, window, y, x)) / 4);
      var r := FixedResult(setup, p, set_, window, y, x);
      0 <= r <= setup.maxSample && Abs(r - p(y, x)) <= (Weight(f, 42) + 1024) / 2048
  {
    var code := FixedCode(setup, window, SampleSums(p, window, y, x));
    assert Centred(p, y, x)(0, 0) == p(y, x);
    FixedFilterMovesLittle(Centred(p, y, x), FixedFilter(setup, set_, window, code / 4), code % 4, setup.maxSample);
  }

  // The filter of the class of a sample.
  function FilterOfSample(setup: Setup, a: Adaptive, p: Plane, y: int, x: int): Filter {
    a.filters(Natural(SampleCode(setup, a.classifier, p, y, x) / 4))
  }

  // And so is, and does, the final result.
  lemma AdaptiveResultMovesLittle(setup: Setup, a: Adaptive, p: Plane, set_: nat, y: int, x: int)
    requires InRangeAt(p, setup.maxSample, y, x)
    requires ClipsFrom(FilterOfSample(setup, a, p, y, x), 0, TypeTaps(a.kind))
    ensures var r := AdaptiveResult(setup, a, p, set_, y, x);
      && 0 <= r <= setup.maxSample
      && Abs(r - p(y, x)) <= (TypeWeight(a.kind, FilterOfSample(setup, a, p, y, x)) + 64) / 128
  {
    var code := SampleCode(setup, a.classifier, p, y, x);
    assert Centred(p, y, x)(0, 0) == p(y, x);
    FilterMovesLittle(a.kind, Centred(p, y, x), FilterOfSample(setup, a, p, y, x), code % 4,
                      (k: nat) => FixedResult(setup, p, set_, k, y, x), setup.maxSample);
  }

  /* ----- 32 bits for the sums ----- */

  // Bounded coefficients and clipping values.
  ghost predicate Bounded(f: Filter, coef: nat, clip: nat, n: nat) {
    forall k: nat :: k < n ==> Abs(f.coef(k)) <= coef && 0 <= f.clip(k) <= clip
  }

  lemma ProductBound(a: nat, b: nat, c: nat, d: nat)
    requires a <= c && b <= d
    ensures 0 <= a * b <= c * d
  {
    ProductIsMonotone(a, c, b);
    ProductIsMonotone(b, d, c);
    ProductIsMonotone(0, a, b);
  }

  lemma {:induction false} OrderedWeightBound(shape: Shape, t: nat, f: Filter, n: nat, coef: nat, clip: nat, each: nat)
    requires t < 4 && n <= NumTaps(shape) && Bounded(f, coef, clip, NumTaps(shape)) && each == coef * (2 * clip)
    ensures 0 <= OrderedWeight(shape, t, f, n) <= n * each
    decreases n
  {
    if n > 0 {
      OrderedWeightBound(shape, t, f, n - 1, coef, clip, each);
      OrderTurnsTheTap(shape, t, n - 1);
      TapWeightBound(f, Order(shape, t, n - 1), coef, clip, each);
      OneMore(n, each);
    }
  }

  lemma TapWeightBound(f: Filter, j: nat, coef: nat, clip: nat, each: nat)
    requires Abs(f.coef(j)) <= coef && 0 <= f.clip(j) <= clip && each == coef * (2 * clip)
    ensures 0 <= TapWeight(f, j) <= each
  {
    ProductBound(Abs(f.coef(j)), 2 * f.clip(j), coef, 2 * clip);
  }

  lemma OneMore(n: int, each: int)
    ensures n * each == (n - 1) * each + each
  {
  }

  lemma TapSumsFit(nb: Plane, shape: Shape, t: nat, f: Filter, n: nat, coef: nat, clip: nat, each: nat)
    requires t < 4 && n <= NumTaps(shape) && Bounded(f, coef, clip, NumTaps(shape)) && each == coef * (2 * clip)
    ensures Abs(TapSum(nb, shape, t, f, n)) <= n * each
  {
    OrderedWeightBound(shape, t, f, n, coef, clip, each);
    TapSumBound(nb, shape, t, f, n);
  }

  // The taps of a filter type on pairs of samples, and the footprint they belong to; the others are on the fixed
  // results.
  function PairTaps(kind: FilterType): nat {
    match kind
    case Filter5 => 6
    case Filter7 => 12
    case Filter9 => 20
    case Filter9Ext => 20
    case FilterExt => 0
  }

  function ShapeOfType(kind: FilterType): Shape {
    if kind == Filter5 then Diamond5 else if kind == Filter7 then Diamond7 else Diamond9
  }

  // The accumulator of a filter after n taps.
  function PartialSum(kind: FilterType, nb: Plane, f: Filter, t: nat, ext: nat -> int, n: nat): int
    decreases n, f
  {
    if n <= PairTaps(kind) then TapSum(nb, ShapeOfType(kind), t, f, n)
    else PartialSum(kind, nb, f, t, ext, n - 1) + ExtTerm(nb, f, PairTaps(kind), ext, n - 1 - PairTaps(kind))
  }

  lemma PartialSumEnds(kind: FilterType, nb: Plane, f: Filter, t: nat, ext: nat -> int)
    ensures PartialSum(kind, nb, f, t, ext, TypeTaps(kind)) == FilterTypeSum(kind, nb, f, t, ext)
  {
    var first := PairTaps(kind);
    if kind == Filter9Ext || kind == FilterExt {
      assert PartialSum(kind, nb, f, t, ext, first + 1) == TapSum(nb, ShapeOfType(kind), t, f, first) + ExtTerm(nb, f, first, ext, 0);
      assert PartialSum(kind, nb, f, t, ext, first + 2) == PartialSum(kind, nb, f, t, ext, first + 1) + ExtTerm(nb, f, first, ext, 1);
    }
  }

  lemma ExtTermBound(nb: Plane, f: Filter, first: nat, ext: nat -> int, k: nat, coef: nat, clip: nat, each: nat)
    requires Abs(f.coef(first + k)) <= coef && 0 <= f.clip(first + k) <= clip && each == coef * (2 * clip)
    ensures Abs(ExtTerm(nb, f, first, ext, k)) <= each
  {
    ExtBound(nb, f, first, ext, k);
    ProductBound(Abs(f.coef(first + k)), f.clip(first + k), coef, 2 * clip);
  }

  lemma {:induction false} PartialSumBound(kind: FilterType, nb: Plane, f: Filter, t: nat, ext: nat -> int, n: nat, coef: nat, clip: nat, each: nat)
    requires t < 4 && n <= TypeTaps(kind) && Bounded(f, coef, clip, TypeTaps(kind)) && each == coef * (2 * clip)
    ensures Abs(PartialSum(kind, nb, f, t, ext, n)) <= n * each
    decreases n
  {
    if n <= PairTaps(kind) {
      PairSumBound(kind, nb, f, t, n, coef, clip, each);
    } else {
      PartialSumBound(kind, nb, f, t, ext, n - 1, coef, clip, each);
      ExtTermBound(nb, f, PairTaps(kind), ext, n - 1 - PairTaps(kind), coef, clip, each);
      OneMore(n, each);
    }
  }

  lemma PairSumBound(kind: FilterType, nb: Plane, f: Filter, t: nat, n: nat, coef: nat, clip: nat, each: nat)
    requires t < 4 && n <= PairTaps(kind) && Bounded(f, coef, clip, TypeTaps(kind)) && each == coef * (2 * clip)
    ensures Abs(TapSum(nb, ShapeOfType(kind), t, f, n)) <= n * each
  {
    if n > 0 {
      TapSumsFit(nb, ShapeOfType(kind), t, f, n, coef, clip, each);
    }
  }

  // Up to twelve bits no partial sum of an adaptive filter leaves the 32-bit range, the taps on the fixed results
  // included: coefficients up to 128 and clipping values up to the size of the sample range.  Rounding and adding
  // the sample need no more than what is left.
  lemma SumsFit(kind: FilterType, nb: Plane, f: Filter, t: nat, ext: nat -> int, n: nat, bits: nat)
    requires bits <= 12 && t < 4 && n <= TypeTaps(kind) && Bounded(f, 128, Pow2(bits), TypeTaps(kind))
    ensures Abs(PartialSum(kind, nb, f, t, ext, n)) < TWO_TO_THE_31 - 8192
  {
    Pow2Grows(bits, 12);
    Pow2Of12();
    assert Bounded(f, 128, 4096, TypeTaps(kind));
    PartialSumBound(kind, nb, f, t, ext, n, 128, 4096, 1048576);
  }

  // The same for the fixed filters, with coefficients up to 2048.
  lemma FixedSumsFit(nb: Plane, t: nat, f: Filter, n: nat, bits: nat)
    requires bits <= 12 && t < 4 && n <= 42 && Bounded(f, 2048, Pow2(bits), 42)
    ensures Abs(TapSum(nb, Diamond13, t, f, n)) < TWO_TO_THE_31 - 8192
  {
    Pow2Grows(bits, 12);
    Pow2Of12();
    assert Bounded(f, 2048, 4096, 42);
    TapSumsFit(nb, Diamond13, t, f, n, 2048, 4096, 16777216);
  }

  /* ----- Clipping index zero ----- */

  // All samples of a neighbourhood in range.
  lemma NothingIsClipped(nb: Plane, dy: int, dx: int, clip: int, max: nat)
    requires InRange(nb, max) && clip >= max
    ensures PairTerm(nb, dy, dx, clip) == nb(dy, dx) + nb(-dy, -dx) - 2 * nb(0, 0)
  {
    assert 0 <= nb(0, 0) <= max && 0 <= nb(dy, dx) <= max && 0 <= nb(-dy, -dx) <= max;
  }

  // The sum of coefficients times pairs of samples.
  function Convolved(nb: Plane, shape: Shape, t: nat, f: Filter, n: nat): int
    decreases n, f
  {
    if n == 0 then 0
    else Convolved(nb, shape, t, f, n - 1) + ConvolvedTerm(nb, shape, t, f, n - 1)
  }

  function ConvolvedTerm(nb: Plane, shape: Shape, t: nat, f: Filter, k: nat): int {
    var y, x := TapRow(Radius(shape), k), TapCol(Radius(shape), k);
    f.coef(Order(shape, t, k)) * (nb(y, x) + nb(-y, -x))
  }

  function CoefSum(shape: Shape, t: nat, f: Filter, n: nat): int
    decreases n, f
  {
    if n == 0 then 0 else CoefSum(shape, t, f, n - 1) + f.coef(Order(shape, t, n - 1))
  }

  lemma {:induction false} UnclippedSum(nb: Plane, shape: Shape, t: nat, f: Filter, n: nat, max: nat)
    requires t < 4 && n <= NumTaps(shape) && InRange(nb, max) && ClipsFrom(f, max, NumTaps(shape))
    ensures TapSum(nb, shape, t, f, n) == Convolved(nb, shape, t, f, n) - 2 * CoefSum(shape, t, f, n) * nb(0, 0)
    decreases n
  {
    if n > 0 {
      UnclippedSum(nb, shape, t, f, n - 1, max);
      OrderTurnsTheTap(shape, t, n - 1);
      UnclippedTerm(nb, shape, t, f, n - 1, max, f.coef(Order(shape, t, n - 1)));
      LinearStep(f.coef(Order(shape, t, n - 1)), nb(0, 0), CoefSum(shape, t, f, n - 1), CoefSum(shape, t, f, n));
    }
  }

  lemma UnclippedTerm(nb: Plane, shape: Shape, t: nat, f: Filter, k: nat, max: nat, c: int)
    requires InRange(nb, max) && f.clip(Order(shape, t, k)) >= max && c == f.coef(Order(shape, t, k))
    ensures TapTerm(nb, shape, t, f, k) == ConvolvedTerm(nb, shape, t, f, k) - 2 * c * nb(0, 0)
  {
    var y, x := TapRow(Radius(shape), k), TapCol(Radius(shape), k);
    NothingIsClipped(nb, y, x, f.clip(Order(shape, t, k)), max);
    TimesDifference(c, nb(y, x) + nb(-y, -x), nb(0, 0));
  }

  lemma TimesDifference(c: int, v: int, curr: int)
    ensures c * (v - 2 * curr) == c * v - 2 * c * curr
  {
  }

  lemma LinearStep(c: int, curr: int, before: int, after: int)
    requires after == before + c
    ensures 2 * after * curr == 2 * before * curr + 2 * c * curr
  {
  }

  // The fixed results times their coefficients, and those coefficients.
  function ExtConvolved(kind: FilterType, f: Filter, ext: nat -> int): int {
    if kind == Filter9Ext || kind == FilterExt
    then f.coef(PairTaps(kind)) * ext(0) + f.coef(PairTaps(kind) + 1) * ext(1)
    else 0
  }

  function ExtCoefs(kind: FilterType, f: Filter): int {
    if kind == Filter9Ext || kind == FilterExt then f.coef(PairTaps(kind)) + f.coef(PairTaps(kind) + 1) else 0
  }

  ghost predicate ExtInRange(ext: nat -> int, max: int) {
    0 <= ext(0) <= max && 0 <= ext(1) <= max
  }

  lemma UnclippedExt(nb: Plane, f: Filter, first: nat, ext: nat -> int, k: nat, max: int)
    requires 0 <= nb(0, 0) <= max && 0 <= ext(k) <= max && f.clip(first + k) >= max
    ensures ExtTerm(nb, f, first, ext, k) == f.coef(first + k) * ext(k) - f.coef(first + k) * nb(0, 0)
  {
    Distribute(f.coef(first + k), ext(k), nb(0, 0));
  }

  lemma Distribute(c: int, v: int, curr: int)
    ensures c * (v - curr) == c * v - c * curr
  {
  }

  // All taps times what they weigh, and how much of the sample itself they take away.
  function Weighed(kind: FilterType, nb: Plane, f: Filter, t: nat, ext: nat -> int): int {
    Convolved(nb, ShapeOfType(kind), t, f, PairTaps(kind)) + ExtConvolved(kind, f, ext)
  }

  function Gain(kind: FilterType, f: Filter, t: nat): int {
    2 * CoefSum(ShapeOfType(kind), t, f, PairTaps(kind)) + ExtCoefs(kind, f)
  }

  // What the taps of a filter type add without clipping: its linear part less what the sample itself loses.
  lemma UnclippedType(kind: FilterType, nb: Plane, f: Filter, t: nat, ext: nat -> int, max: nat)
    requires t < 4 && InRange(nb, max) && ExtInRange(ext, max) && ClipsFrom(f, max, TypeTaps(kind))
    ensures FilterTypeSum(kind, nb, f, t, ext) == Weighed(kind, nb, f, t, ext) - Gain(kind, f, t) * nb(0, 0)
  {
    var shape, first := ShapeOfType(kind), PairTaps(kind);
    if first > 0 {
      UnclippedSum(nb, shape, t, f, first, max);
    }
    if kind == Filter9Ext || kind == FilterExt {
      assert f.clip(first) >= max && f.clip(first + 1) >= max;
      UnclippedExts(nb, f, first, ext, max, 2 * CoefSum(shape, t, f, first));
    }
  }

  lemma UnclippedExts(nb: Plane, f: Filter, first: nat, ext: nat -> int, max: int, gain: int)
    requires 0 <= nb(0, 0) <= max && ExtInRange(ext, max) && f.clip(first) >= max && f.clip(first + 1) >= max
    ensures ExtTerm(nb, f, first, ext, 0) + ExtTerm(nb, f, first, ext, 1) - gain * nb(0, 0)
         == f.coef(first) * ext(0) + f.coef(first + 1) * ext(1) - (gain + (f.coef(first) + f.coef(first + 1))) * nb(0, 0)
  {
    UnclippedExt(nb, f, first, ext, 0, max);
    UnclippedExt(nb, f, first, ext, 1, max);
    SumOfCoefs(gain, f.coef(first), f.coef(first + 1), nb(0, 0));
  }

  lemma SumOfCoefs(c: int, d: int, e: int, curr: int)
    ensures (c + (d + e)) * curr == c * curr + d * curr + e * curr
  {
  }

  // The sum of a linear filter: pairs of samples and fixed results times their coefficients, and the sample itself
  // times what is left of 128.
  function LinearSum(kind: FilterType, nb: Plane, f: Filter, t: nat, ext: nat -> int): int {
    Weighed(kind, nb, f, t, ext) + (128 - Gain(kind, f, t)) * nb(0, 0)
  }

  // The same for the fixed filter, where 2048 are shared.
  function FixedLinearSum(nb: Plane, f: Filter, t: nat): int {
    Convolved(nb, Diamond13, t, f, 42) + (2048 - 2 * CoefSum(Diamond13, t, f, 42)) * nb(0, 0)
  }

  lemma RoundedTogether(sum: int, pairs: int, c: int, curr: int)
    requires sum == pairs - c * curr
    ensures (sum + 64) / 128 + curr == (pairs + (128 - c) * curr + 64) / 128
    ensures (sum + 1024) / 2048 + curr == (pairs + (2048 - c) * curr + 1024) / 2048
  {
    assert (128 - c) * curr == 128 * curr - c * curr && (2048 - c) * curr == 2048 * curr - c * curr;
  }

  // With clipping values of index zero every filter type is linear.
  lemma IndexZeroIsLinear(kind: FilterType, nb: Plane, f: Filter, t: nat, ext: nat -> int, max: nat, bits: nat)
    requires t < 4 && Samples(max, bits) && InRange(nb, max) && ExtInRange(ext, max)
    requires ClipsFrom(f, ClippingValue(bits, 0), TypeTaps(kind))
    ensures FilterOutput(kind, nb, f, t, ext, max) == Clamp(0, max, (LinearSum(kind, nb, f, t, ext) + 64) / 128)
  {
    UnclippedType(kind, nb, f, t, ext, max);
    OutputOfSum(kind, nb, f, t, ext, max, FilterTypeSum(kind, nb, f, t, ext), Weighed(kind, nb, f, t, ext), Gain(kind, f, t));
  }

  lemma OutputOfSum(kind: FilterType, nb: Plane, f: Filter, t: nat, ext: nat -> int, max: nat, sum: int, weighed: int, gain: int)
    requires sum == FilterTypeSum(kind, nb, f, t, ext) && sum == weighed - gain * nb(0, 0)
    ensures FilterOutput(kind, nb, f, t, ext, max) == Clamp(0, max, (weighed + (128 - gain) * nb(0, 0) + 64) / 128)
  {
    RoundedTogether(sum, weighed, gain, nb(0, 0));
  }

  lemma FixedIndexZeroIsLinear(nb: Plane, f: Filter, t: nat, max: nat, bits: nat)
    requires t < 4 && Samples(max, bits) && InRange(nb, max) && ClipsFrom(f, ClippingValue(bits, 0), 42)
    ensures FixedOutput(nb, f, t, max) == Clamp(0, max, (FixedLinearSum(nb, f, t) + 1024) / 2048)
  {
    UnclippedSum(nb, Diamond13, t, f, 42, max);
    FixedOutputOfSum(nb, f, t, max, FilterSum(nb, Diamond13, t, f), Convolved(nb, Diamond13, t, f, 42), 2 * CoefSum(Diamond13, t, f, 42));
  }

  lemma FixedOutputOfSum(nb: Plane, f: Filter, t: nat, max: nat, sum: int, weighed: int, gain: int)
    requires sum == FilterSum(nb, Diamond13, t, f) && sum == weighed - gain * nb(0, 0)
    ensures FixedOutput(nb, f, t, max) == Clamp(0, max, (weighed + (2048 - gain) * nb(0, 0) + 1024) / 2048)
  {
    RoundedTogether(sum, weighed, gain, nb(0, 0));
  }

  lemma CentredInRange(p: Plane, y: int, x: int, max: nat)
    requires InRange(p, max)
    ensures InRange(Centred(p, y, x), max)
  {
  }

  // Over the whole filter: with index zero in all taps of its class, a sample becomes the rounded linear
  // combination of its neighbours and of the two fixed results.
  lemma AdaptiveResultIsLinear(setup: Setup, a: Adaptive, p: Plane, set_: nat, y: int, x: int)
    requires Samples(setup.maxSample, setup.bits) && InRange(p, setup.maxSample)
    requires ClipsFrom(FilterOfSample(setup, a, p, y, x), ClippingValue(setup.bits, 0), TypeTaps(a.kind))
    ensures var ext := (k: nat) => FixedResult(setup, p, set_, k, y, x); var t := SampleCode(setup, a.classifier, p, y, x) % 4;
      AdaptiveResult(setup, a, p, set_, y, x)
      == Clamp(0, setup.maxSample, (LinearSum(a.kind, Centred(p, y, x), FilterOfSample(setup, a, p, y, x), t, ext) + 64) / 128)
  {
    var ext := (k: nat) => FixedResult(setup, p, set_, k, y, x);
    CentredInRange(p, y, x, setup.maxSample);
    IndexZeroIsLinear(a.kind, Centred(p, y, x), FilterOfSample(setup, a, p, y, x), SampleCode(setup, a.classifier, p, y, x) % 4,
                      ext, setup.maxSample, setup.bits);
  }
}
