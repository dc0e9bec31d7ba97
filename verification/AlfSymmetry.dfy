/**
 The whole luma pipeline commutes with transposing a picture and with turning it upside
 down, wherever the window sums tell the two directions apart.
 */
module AlfSymmetry {
  import opened AlfPicture
  import opened AlfLaplacian
  import opened AlfClassifier
  import opened AlfTaps
  import opened AlfPipeline

  lemma PlaneSumsOfTransposed(p: Plane, q: Plane, y: int, x: int, n: nat)
    requires IsTransposed(p, q)
    ensures WindowSums(Laplacians(q), y, x, n, n) == TransposedSums(WindowSums(Laplacians(p), x, y, n, n))
  {
    LaplacianOfTransposed(p, q, VER);
    LaplacianOfTransposed(p, q, HOR);
    LaplacianOfTransposed(p, q, DIAG0);
    LaplacianOfTransposed(p, q, DIAG1);
    TransposedWindowSum(LaplacianPlane(p, HOR), LaplacianPlane(q, VER), y, x, n, n);
    TransposedWindowSum(LaplacianPlane(p, VER), LaplacianPlane(q, HOR), y, x, n, n);
    TransposedWindowSum(LaplacianPlane(p, DIAG0), LaplacianPlane(q, DIAG0), y, x, n, n);
    TransposedWindowSum(LaplacianPlane(p, DIAG1), LaplacianPlane(q, DIAG1), y, x, n, n);
  }

  lemma PlaneSumsOfFlipped(p: Plane, q: Plane, h: int, y: int, x: int, n: nat)
    requires IsFlipped(p, q, h)
    ensures WindowSums(Laplacians(q), y, x, n, n) == FlippedSums(WindowSums(Laplacians(p), h - y - n, x, n, n))
  {
    LaplacianOfFlipped(p, q, h, VER);
    LaplacianOfFlipped(p, q, h, HOR);
    LaplacianOfFlipped(p, q, h, DIAG0);
    LaplacianOfFlipped(p, q, h, DIAG1);
    FlippedWindowSum(LaplacianPlane(p, VER), LaplacianPlane(q, VER), h, y, x, n, n);
    FlippedWindowSum(LaplacianPlane(p, HOR), LaplacianPlane(q, HOR), h, y, x, n, n);
    FlippedWindowSum(LaplacianPlane(p, DIAG1), LaplacianPlane(q, DIAG0), h, y, x, n, n);
    FlippedWindowSum(LaplacianPlane(p, DIAG0), LaplacianPlane(q, DIAG1), h, y, x, n, n);
  }

  // The sums behind a block and behind its image.
  lemma BlockSumsOfTransposed(p: Plane, q: Plane, window: nat, y: int, x: int)
    requires IsTransposed(p, q)
    ensures BlockSums(q, window, x, y) == TransposedSums(BlockSums(p, window, y, x))
  {
    if window == 0 {
      PlaneSumsOfTransposed(p, q, x - 1, y - 1, 4);
    } else {
      PlaneSumsOfTransposed(p, q, x - 5, y - 5, 12);
    }
  }

  lemma BlockSumsOfFlipped(p: Plane, q: Plane, h: int, window: nat, y: int, y2: int, x: int)
    requires IsFlipped(p, q, h) && y + y2 == h - 2
    ensures BlockSums(q, window, y2, x) == FlippedSums(BlockSums(p, window, y, x))
  {
    if window == 0 {
      PlaneSumsOfFlipped(p, q, h, y2 - 1, x - 1, 4);
    } else {
      PlaneSumsOfFlipped(p, q, h, y2 - 5, x - 5, 12);
    }
  }

  /* ----- Codes ----- */

  // What a code becomes: the class is kept and the transpose index changes by t.
  predicate CodeTurns(code: nat, turned: nat, t: nat) {
    turned / 4 == code / 4 && turned % 4 == Xor(code % 4, t)
  }

  lemma CodeOfTransposed(s: Sums, dirWindSize: nat, kind: Kind, bits: nat)
    requires NonNegative(s) && s.v != s.h
    ensures CodeTurns(ClassCode(s, dirWindSize, kind, bits), ClassCode(TransposedSums(s), dirWindSize, kind, bits), 1)
  {
    ClassIsSymmetric(s, dirWindSize, kind, bits);
    CodeInRange(s, dirWindSize, kind, bits);
    CodeInRange(TransposedSums(s), dirWindSize, kind, bits);
  }

  lemma CodeOfFlipped(s: Sums, dirWindSize: nat, kind: Kind, bits: nat)
    requires NonNegative(s) && s.d0 != s.d1
    ensures CodeTurns(ClassCode(s, dirWindSize, kind, bits), ClassCode(FlippedSums(s), dirWindSize, kind, bits), 2)
  {
    ClassIsSymmetric(s, dirWindSize, kind, bits);
    CodeInRange(s, dirWindSize, kind, bits);
    CodeInRange(FlippedSums(s), dirWindSize, kind, bits);
  }

  /* ----- Filters ----- */

  // The filter has taps on the fixed results.
  predicate ReadsFixed(kind: FilterType) {
    kind == Filter9Ext || kind == FilterExt
  }

  lemma FilterTypeSumOfTurned(kind: FilterType, nb: Plane, turned: Plane, f: Filter, t: nat, u: nat, e: nat -> int, g: nat -> int)
    requires t < 4 && u < 4 && IsTurned(nb, turned, t)
    requires ReadsFixed(kind) ==> e(0) == g(0) && e(1) == g(1)
    ensures FilterTypeSum(kind, turned, f, u, e) == FilterTypeSum(kind, nb, f, Xor(u, t), g)
  {
    assert turned(0, 0) == nb(0, 0);
    match kind
    case Filter5 => FilterOfTurned(nb, turned, Diamond5, t, u, f);
    case Filter7 => FilterOfTurned(nb, turned, Diamond7, t, u, f);
    case Filter9 => FilterOfTurned(nb, turned, Diamond9, t, u, f);
    case Filter9Ext => FilterOfTurned(nb, turned, Diamond9, t, u, f);
    case FilterExt =>
  }

  lemma CentreOfTransposed(p: Plane, q: Plane, y: int, x: int)
    requires IsTransposed(p, q)
    ensures IsTurned(Centred(p, y, x), Centred(q, x, y), 1)
  {
  }

  lemma FlippedSample(p: Plane, q: Plane, h: int, y: int, x: int)
    requires IsFlipped(p, q, h)
    ensures q(h - 1 - y, x) == p(y, x)
  {
    assert q(h - 1 - y, x) == p(h - 1 - (h - 1 - y), x);
  }

  lemma CentreOfFlipped(p: Plane, q: Plane, h: int, y: int, y2: int, x: int)
    requires IsFlipped(p, q, h) && y + y2 == h - 1
    ensures IsTurned(Centred(p, y, x), Centred(q, y2, x), 2)
  {
    var nb, turned := Centred(p, y, x), Centred(q, y2, x);
    forall dy, dx
      ensures turned(dy, dx) == nb(TurnRow(2, dy, dx), TurnCol(2, dy, dx))
    {
      FlippedSample(p, q, h, y - dy, x + dx);
    }
  }

  /* ----- The pipeline ----- */

  // Sample (y2, x2) of q lies in the turned surroundings of sample (y, x) of p, and the classifiers of a window
  // say so.
  ghost predicate TurnsIn(setup: Setup, window: nat, p: Plane, y: int, x: int, q: Plane, y2: int, x2: int, t: nat) {
    && IsTurned(Centred(p, y, x), Centred(q, y2, x2), t)
    && CodeTurns(FixedCode(setup, window, SampleSums(p, window, y, x)), FixedCode(setup, window, SampleSums(q, window, y2, x2)), t)
    && CodeTurns(AdaptiveCode(setup, SampleSums(p, window, y, x)), AdaptiveCode(setup, SampleSums(q, window, y2, x2)), t)
  }

  lemma FixedOfTurned(setup: Setup, nb: Plane, turned: Plane, set_: nat, window: nat, c: nat, d: nat, t: nat)
    requires t < 4 && IsTurned(nb, turned, t) && CodeTurns(c, d, t)
    ensures FixedByCode(setup, turned, set_, window, d) == FixedByCode(setup, nb, set_, window, c)
  {
    FilterOfTurned(nb, turned, Diamond13, t, d % 4, FixedFilter(setup, set_, window, c / 4));
    XorUndoes(c % 4, t);
    assert turned(0, 0) == nb(0, 0);
  }

  lemma AdaptiveOfTurned(setup: Setup, a: Adaptive, nb: Plane, turned: Plane, c: nat, d: nat, t: nat, e: nat -> int, g: nat -> int)
    requires t < 4 && IsTurned(nb, turned, t) && CodeTurns(c, d, t)
    requires ReadsFixed(a.kind) ==> e(0) == g(0) && e(1) == g(1)
    ensures AdaptiveByCode(setup, a, turned, d, e) == AdaptiveByCode(setup, a, nb, c, g)
  {
    FilterTypeSumOfTurned(a.kind, nb, turned, a.filters(c / 4), t, d % 4, e, g);
    XorUndoes(c % 4, t);
    assert turned(0, 0) == nb(0, 0);
  }

  lemma FixedResultOfTurned(setup: Setup, p: Plane, y: int, x: int, q: Plane, y2: int, x2: int, t: nat, set_: nat, window: nat)
    requires t < 4 && TurnsIn(setup, window, p, y, x, q, y2, x2, t)
    ensures FixedResult(setup, q, set_, window, y2, x2) == FixedResult(setup, p, set_, window, y, x)
  {
    FixedOfTurned(setup, Centred(p, y, x), Centred(q, y2, x2), set_, window,
                  FixedCode(setup, window, SampleSums(p, window, y, x)), FixedCode(setup, window, SampleSums(q, window, y2, x2)), t);
  }

  lemma AdaptiveResultOfTurned(setup: Setup, a: Adaptive, p: Plane, y: int, x: int, q: Plane, y2: int, x2: int, t: nat, set_: nat)
    requires t < 4 && a.classifier == 0 && TurnsIn(setup, 1, p, y, x, q, y2, x2, t)
    requires ReadsFixed(a.kind) ==> TurnsIn(setup, 0, p, y, x, q, y2, x2, t)
    ensures AdaptiveResult(setup, a, q, set_, y2, x2) == AdaptiveResult(setup, a, p, set_, y, x)
  {
    if ReadsFixed(a.kind) {
      FixedResultOfTurned(setup, p, y, x, q, y2, x2, t, set_, 0);
      FixedResultOfTurned(setup, p, y, x, q, y2, x2, t, set_, 1);
    }
    AdaptiveOfTurned(setup, a, Centred(p, y, x), Centred(q, y2, x2),
                     AdaptiveCode(setup, SampleSums(p, 1, y, x)), AdaptiveCode(setup, SampleSums(q, 1, y2, x2)), t,
                     (k: nat) => FixedResult(setup, q, set_, k, y2, x2), (k: nat) => FixedResult(setup, p, set_, k, y, x));
  }

  // The sums of a window tell horizontal from vertical, or one diagonal from the other.
  ghost predicate Upright(s: Sums) {
    s.v != s.h
  }

  ghost predicate Slanted(s: Sums) {
    s.d0 != s.d1
  }

  lemma SampleSumsOfTransposed(p: Plane, q: Plane, window: nat, y: int, x: int)
    requires IsTransposed(p, q)
    ensures SampleSums(q, window, x, y) == TransposedSums(SampleSums(p, window, y, x))
    ensures NonNegative(SampleSums(p, window, y, x))
  {
    BlockSumsAreNonNegative(p, window, BlockOf(y), BlockOf(x));
    BlockSumsOfTransposed(p, q, window, BlockOf(y), BlockOf(x));
  }

  lemma SampleSumsOfFlipped(p: Plane, q: Plane, h: int, window: nat, y: int, y2: int, x: int)
    requires IsFlipped(p, q, h) && h % 2 == 0 && y + y2 == h - 1
    ensures SampleSums(q, window, y2, x) == FlippedSums(SampleSums(p, window, y, x))
    ensures NonNegative(SampleSums(p, window, y, x))
  {
    BlockSumsAreNonNegative(p, window, BlockOf(y), BlockOf(x));
    BlockOfFlipped(h, y, y2);
    BlockSumsOfFlipped(p, q, h, window, BlockOf(y), BlockOf(y2), BlockOf(x));
  }

  lemma CodesOfTransposed(setup: Setup, window: nat, s: Sums)
    requires NonNegative(s) && Upright(s)
    ensures CodeTurns(FixedCode(setup, window, s), FixedCode(setup, window, TransposedSums(s)), 1)
    ensures CodeTurns(AdaptiveCode(setup, s), AdaptiveCode(setup, TransposedSums(s)), 1)
  {
    CodeOfTransposed(s, WindowHalf(window), FixedKind, setup.bits);
    CodeOfTransposed(s, 5, AdaptiveKind, setup.bits);
  }

  lemma CodesOfFlipped(setup: Setup, window: nat, s: Sums)
    requires NonNegative(s) && Slanted(s)
    ensures CodeTurns(FixedCode(setup, window, s), FixedCode(setup, window, FlippedSums(s)), 2)
    ensures CodeTurns(AdaptiveCode(setup, s), AdaptiveCode(setup, FlippedSums(s)), 2)
  {
    CodeOfFlipped(s, WindowHalf(window), FixedKind, setup.bits);
    CodeOfFlipped(s, 5, AdaptiveKind, setup.bits);
  }

  lemma BlockOfFlipped(h: int, y: int, y2: int)
    requires h % 2 == 0 && y + y2 == h - 1
    ensures BlockOf(y) + BlockOf(y2) == h - 2
  {
  }

  // The sums of a window at a sample tell the directions apart.
  ghost predicate UprightIn(p: Plane, window: nat, y: int, x: int) {
    Upright(SampleSums(p, window, y, x))
  }

  ghost predicate SlantedIn(p: Plane, window: nat, y: int, x: int) {
    Slanted(SampleSums(p, window, y, x))
  }

  // So do the sums that an adaptive filter depends on: the wide ones, and the narrow ones where it reads the
  // fixed results.
  ghost predicate UprightFor(a: Adaptive, p: Plane, y: int, x: int) {
    UprightIn(p, 1, y, x) && (ReadsFixed(a.kind) ==> UprightIn(p, 0, y, x))
  }

  ghost predicate SlantedFor(a: Adaptive, p: Plane, y: int, x: int) {
    SlantedIn(p, 1, y, x) && (ReadsFixed(a.kind) ==> SlantedIn(p, 0, y, x))
  }

  lemma TransposedTurns(setup: Setup, window: nat, p: Plane, q: Plane, y: int, x: int)
    requires IsTransposed(p, q) && UprightIn(p, window, y, x)
    ensures TurnsIn(setup, window, p, y, x, q, x, y, 1)
  {
    CentreOfTransposed(p, q, y, x);
    SampleSumsOfTransposed(p, q, window, y, x);
    CodesOfTransposed(setup, window, SampleSums(p, window, y, x));
  }

  lemma FlippedTurns(setup: Setup, window: nat, p: Plane, q: Plane, h: int, y: int, y2: int, x: int)
    requires IsFlipped(p, q, h) && h % 2 == 0 && y + y2 == h - 1 && SlantedIn(p, window, y, x)
    ensures TurnsIn(setup, window, p, y, x, q, y2, x, 2)
  {
    CentreOfFlipped(p, q, h, y, y2, x);
    SampleSumsOfFlipped(p, q, h, window, y, y2, x);
    CodesOfFlipped(setup, window, SampleSums(p, window, y, x));
  }

  lemma TransposedFixed(setup: Setup, p: Plane, q: Plane, set_: nat, window: nat, y: int, x: int)
    requires IsTransposed(p, q) && UprightIn(p, window, y, x)
    ensures FixedResult(setup, q, set_, window, x, y) == FixedResult(setup, p, set_, window, y, x)
  {
    TransposedTurns(setup, window, p, q, y, x);
    FixedResultOfTurned(setup, p, y, x, q, x, y, 1, set_, window);
  }

  lemma FlippedFixed(setup: Setup, p: Plane, q: Plane, h: int, set_: nat, window: nat, y: int, y2: int, x: int)
    requires IsFlipped(p, q, h) && h % 2 == 0 && y + y2 == h - 1 && SlantedIn(p, window, y, x)
    ensures FixedResult(setup, q, set_, window, y2, x) == FixedResult(setup, p, set_, window, y, x)
  {
    FlippedTurns(setup, window, p, q, h, y, y2, x);
    FixedResultOfTurned(setup, p, y, x, q, y2, x, 2, set_, window);
  }

  // Filtering the transposed picture gives the transposed result: through the fixed filter of a window where that
  // window tells the directions apart, and through any adaptive filter of the direction classifier where the
  // windows it depends on do.
  lemma TranspositionCommutes(setup: Setup, a: Adaptive, p: Plane, q: Plane, set_: nat, y: int, x: int)
    requires IsTransposed(p, q) && a.classifier == 0
    ensures forall window: nat :: UprightIn(p, window, y, x) ==> FixedResult(setup, q, set_, window, x, y) == FixedResult(setup, p, set_, window, y, x)
    ensures UprightFor(a, p, y, x) ==> AdaptiveResult(setup, a, q, set_, x, y) == AdaptiveResult(setup, a, p, set_, y, x)
  {
    forall window: nat | UprightIn(p, window, y, x)
      ensures FixedResult(setup, q, set_, window, x, y) == FixedResult(setup, p, set_, window, y, x)
    {
      TransposedFixed(setup, p, q, set_, window, y, x);
    }
    if UprightFor(a, p, y, x) {
      TransposedTurns(setup, 1, p, q, y, x);
      if ReadsFixed(a.kind) {
        TransposedTurns(setup, 0, p, q, y, x);
      }
      AdaptiveResultOfTurned(setup, a, p, y, x, q, x, y, 1, set_);
    }
  }

  // Filtering a picture upside down gives the result upside down: row y2 is the image of row y.
  lemma FlippingCommutes(setup: Setup, a: Adaptive, p: Plane, q: Plane, h: int, set_: nat, y: int, y2: int, x: int)
    requires IsFlipped(p, q, h) && h % 2 == 0 && y + y2 == h - 1 && a.classifier == 0
    ensures forall window: nat :: SlantedIn(p, window, y, x) ==> FixedResult(setup, q, set_, window, y2, x) == FixedResult(setup, p, set_, window, y, x)
    ensures SlantedFor(a, p, y, x) ==> AdaptiveResult(setup, a, q, set_, y2, x) == AdaptiveResult(setup, a, p, set_, y, x)
  {
    forall window: nat | SlantedIn(p, window, y, x)
      ensures FixedResult(setup, q, set_, window, y2, x) == FixedResult(setup, p, set_, window, y, x)
    {
      FlippedFixed(setup, p, q, h, set_, window, y, y2, x);
    }
    if SlantedFor(a, p, y, x) {
      FlippedTurns(setup, 1, p, q, h, y, y2, x);
      if ReadsFixed(a.kind) {
        FlippedTurns(setup, 0, p, q, h, y, y2, x);
      }
      AdaptiveResultOfTurned(setup, a, p, y, x, q, y2, x, 2, set_);
    }
  }

  // The same for the pictures as they are given, border replication included.
  lemma PaddedTransposition(setup: Setup, a: Adaptive, p: Plane, h: int, w: int, set_: nat, y: int, x: int)
    requires h > 0 && w > 0 && a.classifier == 0 && UprightFor(a, Padded(p, h, w), y, x)
    ensures AdaptiveResult(setup, a, Padded(Transposed(p), w, h), set_, x, y) == AdaptiveResult(setup, a, Padded(p, h, w), set_, y, x)
  {
    PaddingCommutes(p, h, w);
    TranspositionCommutes(setup, a, Padded(p, h, w), Padded(Transposed(p), w, h), set_, y, x);
  }

  lemma PaddedFlipping(setup: Setup, a: Adaptive, p: Plane, h: int, w: int, set_: nat, y: int, y2: int, x: int)
    requires h > 0 && w > 0 && h % 2 == 0 && y + y2 == h - 1 && a.classifier == 0 && SlantedFor(a, Padded(p, h, w), y, x)
    ensures AdaptiveResult(setup, a, Padded(Flipped(p, h), h, w), set_, y2, x) == AdaptiveResult(setup, a, Padded(p, h, w), set_, y, x)
  {
    PaddingCommutes(p, h, w);
    FlippingCommutes(setup, a, Padded(p, h, w), Padded(Flipped(p, h), h, w), h, set_, y, y2, x);
  }
}
