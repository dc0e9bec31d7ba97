/**
 What the pipeline reads: the result at a sample depends on the samples at most six rows
 and columns away from its 2x2 block, and moving a picture by an even distance moves the
 results with it.
 */
module AlfLocality {
  import opened AlfPicture
  import opened AlfLaplacian
  import opened AlfClassifier
  import opened AlfTaps
  import opened AlfPipeline

  /* ----- Filters ----- */

  lemma TapTermIsLocal(nb: Plane, mb: Plane, shape: Shape, t: nat, f: Filter, k: nat)
    requires k < NumTaps(shape) && AgreeOn(nb, mb, -6, 7, -6, 7)
    ensures TapTerm(nb, shape, t, f, k) == TapTerm(mb, shape, t, f, k)
  {
    TapIsListed(shape, k);
    var y, x := TapRow(Radius(shape), k), TapCol(Radius(shape), k);
    PairTermIsLocal(nb, mb, y, x, -y, -x, f.clip(Order(shape, t, k)));
  }

  lemma PairTermIsLocal(nb: Plane, mb: Plane, y: int, x: int, y2: int, x2: int, clip: int)
    requires AgreeOn(nb, mb, -6, 7, -6, 7) && -6 <= y <= 6 && -6 <= x <= 6 && y2 == -y && x2 == -x
    ensures PairTerm(nb, y, x, clip) == PairTerm(mb, y, x, clip)
  {
    assert nb(0, 0) == mb(0, 0) && nb(y, x) == mb(y, x) && nb(y2, x2) == mb(y2, x2);
  }

  lemma {:induction false} TapSumIsLocal(nb: Plane, mb: Plane, shape: Shape, t: nat, f: Filter, n: nat)
    requires n <= NumTaps(shape) && AgreeOn(nb, mb, -6, 7, -6, 7)
    ensures TapSum(nb, shape, t, f, n) == TapSum(mb, shape, t, f, n)
    decreases n, f
  {
    if n > 0 {
      TapSumIsLocal(nb, mb, shape, t, f, n - 1);
      TapTermIsLocal(nb, mb, shape, t, f, n - 1);
    }
  }

  // No filter reads farther than six samples.
  lemma FilterIsLocal(nb: Plane, mb: Plane, shape: Shape, t: nat, f: Filter)
    requires AgreeOn(nb, mb, -6, 7, -6, 7)
    ensures FilterSum(nb, shape, t, f) == FilterSum(mb, shape, t, f)
  {
    TapSumIsLocal(nb, mb, shape, t, f, NumTaps(shape));
  }

  lemma FilterTypeSumIsLocal(kind: FilterType, nb: Plane, mb: Plane, f: Filter, t: nat, e: nat -> int, g: nat -> int)
    requires AgreeOn(nb, mb, -6, 7, -6, 7) && e(0) == g(0) && e(1) == g(1)
    ensures FilterTypeSum(kind, nb, f, t, e) == FilterTypeSum(kind, mb, f, t, g)
  {
    assert nb(0, 0) == mb(0, 0);
    FilterIsLocal(nb, mb, Diamond5, t, f);
    FilterIsLocal(nb, mb, Diamond7, t, f);
    FilterIsLocal(nb, mb, Diamond9, t, f);
  }

  lemma FixedByCodeIsLocal(setup: Setup, nb: Plane, mb: Plane, set_: nat, window: nat, code: nat)
    requires AgreeOn(nb, mb, -6, 7, -6, 7)
    ensures FixedByCode(setup, nb, set_, window, code) == FixedByCode(setup, mb, set_, window, code)
  {
    assert nb(0, 0) == mb(0, 0);
    FilterIsLocal(nb, mb, Diamond13, code % 4, FixedFilter(setup, set_, window, code / 4));
  }

  lemma AdaptiveByCodeIsLocal(setup: Setup, a: Adaptive, nb: Plane, mb: Plane, code: int, e: nat -> int, g: nat -> int)
    requires AgreeOn(nb, mb, -6, 7, -6, 7) && e(0) == g(0) && e(1) == g(1)
    ensures AdaptiveByCode(setup, a, nb, code, e) == AdaptiveByCode(setup, a, mb, code, g)
  {
    assert nb(0, 0) == mb(0, 0);
    FilterTypeSumIsLocal(a.kind, nb, mb, a.filters(Natural(code / 4)), code % 4, e, g);
  }

  /* ----- Samples that see the same ----- */

  // Sample (y, x) of p and sample (y2, x2) of q have equal sums, equal 2x2 blocks and equal
  // surroundings, as far as the pipeline looks.
  ghost predicate SeesTheSame(p: Plane, y: int, x: int, q: Plane, y2: int, x2: int) {
    && AgreeOn(Centred(p, y, x), Centred(q, y2, x2), -6, 7, -6, 7)
    && SampleSums(p, 0, y, x) == SampleSums(q, 0, y2, x2)
    && SampleSums(p, 1, y, x) == SampleSums(q, 1, y2, x2)
    && BlockTotal(p, BlockOf(y), BlockOf(x)) == BlockTotal(q, BlockOf(y2), BlockOf(x2))
  }

  // The samples of a 2x2 block together.
  function BlockTotal(p: Plane, y: int, x: int): int {
    p(y, x) + p(y, x + 1) + p(y + 1, x) + p(y + 1, x + 1)
  }

  lemma BandCodeFromTotal(setup: Setup, p: Plane, y: int, x: int)
    ensures BandCode(setup, p, y, x) == 4 * (BlockTotal(p, y, x) * 25 / Pow2(setup.bits + 2))
  {
  }

  lemma SameFixedResult(setup: Setup, p: Plane, y: int, x: int, q: Plane, y2: int, x2: int, set_: nat, window: nat)
    requires SeesTheSame(p, y, x, q, y2, x2) && window < 2
    ensures FixedResult(setup, p, set_, window, y, x) == FixedResult(setup, q, set_, window, y2, x2)
  {
    FixedByCodeIsLocal(setup, Centred(p, y, x), Centred(q, y2, x2), set_, window, FixedCode(setup, window, SampleSums(p, window, y, x)));
  }

  lemma SameSampleCode(setup: Setup, classifier: nat, p: Plane, y: int, x: int, q: Plane, y2: int, x2: int)
    requires SeesTheSame(p, y, x, q, y2, x2)
    ensures SampleCode(setup, classifier, p, y, x) == SampleCode(setup, classifier, q, y2, x2)
  {
    BandCodeFromTotal(setup, p, BlockOf(y), BlockOf(x));
    BandCodeFromTotal(setup, q, BlockOf(y2), BlockOf(x2));
  }

  lemma SameAdaptiveResult(setup: Setup, a: Adaptive, p: Plane, y: int, x: int, q: Plane, y2: int, x2: int, set_: nat)
    requires SeesTheSame(p, y, x, q, y2, x2)
    ensures AdaptiveResult(setup, a, p, set_, y, x) == AdaptiveResult(setup, a, q, set_, y2, x2)
  {
    SameFixedResult(setup, p, y, x, q, y2, x2, set_, 0);
    SameFixedResult(setup, p, y, x, q, y2, x2, set_, 1);
    SameSampleCode(setup, a.classifier, p, y, x, q, y2, x2);
    AdaptiveByCodeIsLocal(setup, a, Centred(p, y, x), Centred(q, y2, x2), SampleCode(setup, a.classifier, p, y, x),
                          (k: nat) => FixedResult(setup, p, set_, k, y, x), (k: nat) => FixedResult(setup, q, set_, k, y2, x2));
  }

  /* ----- Locality ----- */

  lemma BlockSumsAreLocal(p: Plane, q: Plane, window: nat, y: int, x: int)
    requires AgreeOn(p, q, y - 6, y + 8, x - 6, x + 8)
    ensures BlockSums(p, window, y, x) == BlockSums(q, window, y, x)
  {
    forall d | d in {VER, HOR, DIAG0, DIAG1}
      ensures WindowSum(LaplacianPlane(p, d), y - 1, x - 1, 4, 4) == WindowSum(LaplacianPlane(q, d), y - 1, x - 1, 4, 4)
      ensures WindowSum(LaplacianPlane(p, d), y - 5, x - 5, 12, 12) == WindowSum(LaplacianPlane(q, d), y - 5, x - 5, 12, 12)
    {
      LaplacianWindowIsLocal(p, q, d, y - 1, x - 1, 4, 4);
      LaplacianWindowIsLocal(p, q, d, y - 5, x - 5, 12, 12);
    }
  }

  lemma AgreeOnLess(p: Plane, q: Plane, y0: int, y1: int, x0: int, x1: int, v0: int, v1: int, u0: int, u1: int)
    requires AgreeOn(p, q, y0, y1, x0, x1) && y0 <= v0 && v1 <= y1 && x0 <= u0 && u1 <= x1
    ensures AgreeOn(p, q, v0, v1, u0, u1)
  {
  }

  lemma CentredAgree(p: Plane, q: Plane, y: int, x: int)
    requires AgreeOn(p, q, y - 6, y + 7, x - 6, x + 7)
    ensures AgreeOn(Centred(p, y, x), Centred(q, y, x), -6, 7, -6, 7)
  {
    forall dy, dx | -6 <= dy < 7 && -6 <= dx < 7
      ensures Centred(p, y, x)(dy, dx) == Centred(q, y, x)(dy, dx)
    {
      var v, u := y + dy, x + dx;
      assert p(v, u) == q(v, u);
    }
  }

  lemma BlockTotalIsLocal(p: Plane, q: Plane, y: int, x: int, v: int, u: int)
    requires AgreeOn(p, q, y, y + 2, x, x + 2) && v == y + 1 && u == x + 1
    ensures BlockTotal(p, y, x) == BlockTotal(q, y, x)
  {
    assert p(y, x) == q(y, x) && p(y, u) == q(y, u) && p(v, x) == q(v, x) && p(v, u) == q(v, u);
  }

  // Pictures that agree up to six samples around a block have the same results in the block.
  lemma ResultIsLocal(p: Plane, q: Plane, y: int, x: int, v: int, u: int)
    requires v == BlockOf(y) && u == BlockOf(x) && AgreeOn(p, q, v - 6, v + 8, u - 6, u + 8)
    ensures SeesTheSame(p, y, x, q, y, x)
  {
    AgreeOnLess(p, q, v - 6, v + 8, u - 6, u + 8, y - 6, y + 7, x - 6, x + 7);
    CentredAgree(p, q, y, x);
    BlockSumsAreLocal(p, q, 0, v, u);
    BlockSumsAreLocal(p, q, 1, v, u);
    BlockTotalIsLocal(p, q, v, u, v + 1, u + 1);
  }

  /* ----- Translation ----- */

  // q is p moved by a rows and b columns.
  ghost predicate IsMoved(p: Plane, q: Plane, a: int, b: int) {
    forall y, x :: q(y, x) == p(y + a, x + b)
  }

  lemma MovedSample(p: Plane, q: Plane, a: int, b: int, y: int, x: int, y2: int, x2: int)
    requires IsMoved(p, q, a, b) && y2 == y + a && x2 == x + b
    ensures q(y, x) == p(y2, x2)
  {
  }

  lemma LaplacianOfMoved(p: Plane, q: Plane, d: nat, a: int, b: int)
    requires IsMoved(p, q, a, b)
    ensures IsMoved(LaplacianPlane(p, d), LaplacianPlane(q, d), a, b)
  {
    forall y, x
      ensures LaplacianPlane(q, d)(y, x) == LaplacianPlane(p, d)(y + a, x + b)
    {
      LaplacianAtMoved(p, q, d, a, b, y, x, y + a, x + b);
    }
  }

  lemma LaplacianAtMoved(p: Plane, q: Plane, d: nat, a: int, b: int, y: int, x: int, y2: int, x2: int)
    requires IsMoved(p, q, a, b) && y2 == y + a && x2 == x + b
    ensures Laplacian(q, d, y, x) == Laplacian(p, d, y2, x2)
  {
    MovedSample(p, q, a, b, y, x, y2, x2);
    MovedSample(p, q, a, b, y, x - 1, y2, x2 - 1);
    MovedSample(p, q, a, b, y, x + 1, y2, x2 + 1);
    MovedSample(p, q, a, b, y - 1, x, y2 - 1, x2);
    MovedSample(p, q, a, b, y + 1, x, y2 + 1, x2);
    MovedSample(p, q, a, b, y - 1, x - 1, y2 - 1, x2 - 1);
    MovedSample(p, q, a, b, y + 1, x + 1, y2 + 1, x2 + 1);
    MovedSample(p, q, a, b, y - 1, x + 1, y2 - 1, x2 + 1);
    MovedSample(p, q, a, b, y + 1, x - 1, y2 + 1, x2 - 1);
  }

  lemma {:induction false} MovedRowSum(f: Plane, g: Plane, a: int, b: int, y: int, x: int, y2: int, x2: int, n: nat)
    requires IsMoved(f, g, a, b) && y2 == y + a && x2 == x + b
    ensures RowSum(g, y, x, n) == RowSum(f, y2, x2, n)
    decreases n
  {
    if n > 0 {
      MovedRowSum(f, g, a, b, y, x, y2, x2, n - 1);
      MovedSample(f, g, a, b, y, x + n - 1, y2, x2 + n - 1);
    }
  }

  lemma {:induction false} MovedWindowSum(f: Plane, g: Plane, a: int, b: int, y: int, x: int, y2: int, x2: int, m: nat, n: nat)
    requires IsMoved(f, g, a, b) && y2 == y + a && x2 == x + b
    ensures WindowSum(g, y, x, m, n) == WindowSum(f, y2, x2, m, n)
    decreases m
  {
    if m > 0 {
      MovedWindowSum(f, g, a, b, y, x, y2, x2, m - 1, n);
      MovedRowSum(f, g, a, b, y + m - 1, x, y2 + m - 1, x2, n);
    }
  }

  lemma MovedWindowSums(p: Plane, q: Plane, a: int, b: int, y: int, x: int, y2: int, x2: int, n: nat)
    requires IsMoved(p, q, a, b) && y2 == y + a && x2 == x + b
    ensures WindowSums(Laplacians(q), y, x, n, n) == WindowSums(Laplacians(p), y2, x2, n, n)
  {
    forall d | d in {VER, HOR, DIAG0, DIAG1}
      ensures WindowSum(LaplacianPlane(q, d), y, x, n, n) == WindowSum(LaplacianPlane(p, d), y2, x2, n, n)
    {
      LaplacianOfMoved(p, q, d, a, b);
      MovedWindowSum(LaplacianPlane(p, d), LaplacianPlane(q, d), a, b, y, x, y2, x2, n, n);
    }
  }

  lemma MovedBlockSums(p: Plane, q: Plane, a: int, b: int, window: nat, y: int, x: int, y2: int, x2: int)
    requires IsMoved(p, q, a, b) && y2 == y + a && x2 == x + b
    ensures BlockSums(q, window, y, x) == BlockSums(p, window, y2, x2)
  {
    if window == 0 {
      MovedWindowSums(p, q, a, b, y - 1, x - 1, y2 - 1, x2 - 1, 4);
    } else {
      MovedWindowSums(p, q, a, b, y - 5, x - 5, y2 - 5, x2 - 5, 12);
    }
  }

  lemma MovedBlockTotal(p: Plane, q: Plane, a: int, b: int, y: int, x: int, y2: int, x2: int)
    requires IsMoved(p, q, a, b) && y2 == y + a && x2 == x + b
    ensures BlockTotal(q, y, x) == BlockTotal(p, y2, x2)
  {
    MovedSample(p, q, a, b, y, x, y2, x2);
    MovedSample(p, q, a, b, y, x + 1, y2, x2 + 1);
    MovedSample(p, q, a, b, y + 1, x, y2 + 1, x2);
    MovedSample(p, q, a, b, y + 1, x + 1, y2 + 1, x2 + 1);
  }

  lemma MovedCentre(p: Plane, q: Plane, a: int, b: int, y: int, x: int, y2: int, x2: int)
    requires IsMoved(p, q, a, b) && y2 == y + a && x2 == x + b
    ensures AgreeOn(Centred(q, y, x), Centred(p, y2, x2), -6, 7, -6, 7)
  {
    forall dy, dx | -6 <= dy < 7 && -6 <= dx < 7
      ensures Centred(q, y, x)(dy, dx) == Centred(p, y2, x2)(dy, dx)
    {
      MovedSample(p, q, a, b, y + dy, x + dx, y2 + dy, x2 + dx);
    }
  }

  lemma BlockOfMoved(y: int, a: int)
    requires a % 2 == 0
    ensures BlockOf(y + a) == BlockOf(y) + a
  {
  }

  // Moving a picture by even distances moves its 2x2 blocks, and with them the results.
  lemma ResultMoves(p: Plane, q: Plane, a: int, b: int, y: int, x: int, y2: int, x2: int)
    requires IsMoved(p, q, a, b) && a % 2 == 0 && b % 2 == 0 && y2 == y + a && x2 == x + b
    ensures SeesTheSame(q, y, x, p, y2, x2)
  {
    BlockOfMoved(y, a);
    BlockOfMoved(x, b);
    MovedCentre(p, q, a, b, y, x, y2, x2);
    MovedBlockSums(p, q, a, b, 0, BlockOf(y), BlockOf(x), BlockOf(y2), BlockOf(x2));
    MovedBlockSums(p, q, a, b, 1, BlockOf(y), BlockOf(x), BlockOf(y2), BlockOf(x2));
    MovedBlockTotal(p, q, a, b, BlockOf(y), BlockOf(x), BlockOf(y2), BlockOf(x2));
  }
}
