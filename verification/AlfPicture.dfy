/**
 Samples, one-sample Laplacians and the direct window sums that the adaptive
 loop filter's in-place accumulation has to reproduce.  A plane is a total
 function from (row, column) to an integer; a picture is a plane of samples, and
 border replication of a picture is again a picture.
 */
module AlfPicture {

  type Plane = (int, int) -> int

  // The order of the source's Direction enumeration.
  const HOR: nat := 0
  const VER: nat := 1
  const DIAG0: nat := 2
  const DIAG1: nat := 3

  function Abs(x: int): nat {
    if x < 0 then -x else x
  }

  function Clamp(lo: int, hi: int, x: int): int {
    if x < lo then lo else if x > hi then hi else x
  }

  // |2 p - a - b| for the two opposite neighbours a, b along direction d.
  function Laplacian(p: Plane, d: nat, y: int, x: int): nat {
    if d == HOR then Abs(2 * p(y, x) - p(y, x - 1) - p(y, x + 1))
    else if d == VER then Abs(2 * p(y, x) - p(y - 1, x) - p(y + 1, x))
    else if d == DIAG0 then Abs(2 * p(y, x) - p(y - 1, x - 1) - p(y + 1, x + 1))
    else Abs(2 * p(y, x) - p(y - 1, x + 1) - p(y + 1, x - 1))
  }

  function LaplacianPlane(p: Plane, d: nat): Plane {
    (y, x) => Laplacian(p, d, y, x)
  }

  // Columns x .. x+n-1 of row y.
  function RowSum(f: Plane, y: int, x: int, n: nat): int
    decreases n, x
  {
    if n == 0 then 0 else RowSum(f, y, x, n - 1) + f(y, x + n - 1)
  }

  // The m-by-n window whose top-left element is (y, x).
  function WindowSum(f: Plane, y: int, x: int, m: nat, n: nat): int
    decreases m, y
  {
    if m == 0 then 0 else WindowSum(f, y, x, m - 1, n) + RowSum(f, y + m - 1, x, n)
  }

  lemma {:induction false} RowSumSplit(f: Plane, y: int, x: int, a: nat, b: nat)
    ensures RowSum(f, y, x, a + b) == RowSum(f, y, x, a) + RowSum(f, y, x + a, b)
    decreases b
  {
    if b > 0 {
      RowSumSplit(f, y, x, a, b - 1);
    }
  }

  lemma {:induction false} WindowSplitCols(f: Plane, y: int, x: int, m: nat, a: nat, b: nat)
    ensures WindowSum(f, y, x, m, a + b) == WindowSum(f, y, x, m, a) + WindowSum(f, y, x + a, m, b)
    decreases m
  {
    if m > 0 {
      WindowSplitCols(f, y, x, m - 1, a, b);
      RowSumSplit(f, y + m - 1, x, a, b);
    }
  }

  lemma {:induction false} WindowSplitRows(f: Plane, y: int, x: int, a: nat, b: nat, n: nat)
    ensures WindowSum(f, y, x, a + b, n) == WindowSum(f, y, x, a, n) + WindowSum(f, y + a, x, b, n)
    decreases b
  {
    if b > 0 {
      WindowSplitRows(f, y, x, a, b - 1, n);
    }
  }

  lemma {:induction false} WindowSumOfEqualPlanes(f: Plane, g: Plane, y: int, x: int, m: nat, n: nat)
    requires forall i, j :: y <= i < y + m && x <= j < x + n ==> f(i, j) == g(i, j)
    ensures WindowSum(f, y, x, m, n) == WindowSum(g, y, x, m, n)
    decreases m
  {
    if m > 0 {
      WindowSumOfEqualPlanes(f, g, y, x, m - 1, n);
      RowSumOfEqualPlanes(f, g, y + m - 1, x, n);
    }
  }

  lemma {:induction false} RowSumOfEqualPlanes(f: Plane, g: Plane, y: int, x: int, n: nat)
    requires forall j :: x <= j < x + n ==> f(y, j) == g(y, j)
    ensures RowSum(f, y, x, n) == RowSum(g, y, x, n)
    decreases n
  {
    if n > 0 {
      RowSumOfEqualPlanes(f, g, y, x, n - 1);
    }
  }

  /* ----- Symmetries ----- */

  function Transposed(p: Plane): Plane {
    (y, x) => p(x, y)
  }

  // Upside down in a picture of h rows.
  function Flipped(p: Plane, h: int): Plane {
    (y, x) => p(h - 1 - y, x)
  }

  // Border replication of an h-by-w picture.
  function Padded(p: Plane, h: int, w: int): Plane {
    (y, x) => p(Clamp(0, h - 1, y), Clamp(0, w - 1, x))
  }

  ghost predicate IsTransposed(p: Plane, q: Plane) {
    forall y, x :: q(y, x) == p(x, y)
  }

  ghost predicate IsFlipped(p: Plane, q: Plane, h: int) {
    forall y, x :: q(y, x) == p(h - 1 - y, x)
  }

  function TransposedDir(d: nat): nat {
    if d == HOR then VER else if d == VER then HOR else d
  }

  function FlippedDir(d: nat): nat {
    if d == DIAG0 then DIAG1 else if d == DIAG1 then DIAG0 else d
  }

  lemma LaplacianOfTransposed(p: Plane, q: Plane, d: nat)
    requires d < 4 && IsTransposed(p, q)
    ensures IsTransposed(LaplacianPlane(p, TransposedDir(d)), LaplacianPlane(q, d))
  {
  }

  lemma LaplacianOfFlipped(p: Plane, q: Plane, h: int, d: nat)
    requires d < 4 && IsFlipped(p, q, h)
    ensures IsFlipped(LaplacianPlane(p, FlippedDir(d)), LaplacianPlane(q, d), h)
  {
  }

  // A window one column wide, read downwards, is a row of the transposed plane.
  lemma {:induction false} TransposedColumn(f: Plane, g: Plane, y: int, x: int, m: nat)
    requires IsTransposed(f, g)
    ensures WindowSum(g, y, x, m, 1) == RowSum(f, x, y, m)
    decreases m
  {
    if m > 0 {
      TransposedColumn(f, g, y, x, m - 1);
      assert RowSum(g, y + m - 1, x, 0) == 0;
    }
  }

  lemma {:induction false} TransposedWindowSum(f: Plane, g: Plane, y: int, x: int, m: nat, n: nat)
    requires IsTransposed(f, g)
    ensures WindowSum(g, y, x, m, n) == WindowSum(f, x, y, n, m)
    decreases n
  {
    if n == 0 {
      EmptyWindow(g, y, x, m);
    } else {
      TransposedWindowSum(f, g, y, x, m, n - 1);
      WindowSplitCols(g, y, x, m, n - 1, 1);
      TransposedColumn(f, g, y, x + n - 1, m);
    }
  }

  lemma {:induction false} EmptyWindow(f: Plane, y: int, x: int, m: nat)
    ensures WindowSum(f, y, x, m, 0) == 0
    decreases m
  {
    if m > 0 {
      EmptyWindow(f, y, x, m - 1);
    }
  }

  lemma {:induction false} FlippedWindowSum(f: Plane, g: Plane, h: int, y: int, x: int, m: nat, n: nat)
    requires IsFlipped(f, g, h)
    ensures WindowSum(g, y, x, m, n) == WindowSum(f, h - y - m, x, m, n)
    decreases m
  {
    if m > 0 {
      FlippedWindowSum(f, g, h, y, x, m - 1, n);
      FlippedRowSum(f, g, h, y + m - 1, x, n);
      WindowSplitRows(f, h - y - m, x, 1, m - 1, n);
      assert WindowSum(f, h - y - m, x, 0, n) == 0;
    }
  }

  lemma {:induction false} FlippedRowSum(f: Plane, g: Plane, h: int, y: int, x: int, n: nat)
    requires IsFlipped(f, g, h)
    ensures RowSum(g, y, x, n) == RowSum(f, h - 1 - y, x, n)
    decreases n
  {
    if n > 0 {
      FlippedRowSum(f, g, h, y, x, n - 1);
    }
  }

  lemma PaddingCommutes(p: Plane, h: int, w: int)
    requires h > 0 && w > 0
    ensures IsTransposed(Padded(p, h, w), Padded(Transposed(p), w, h))
    ensures IsFlipped(Padded(p, h, w), Padded(Flipped(p, h), h, w), h)
  {
    forall y, x
      ensures Padded(Flipped(p, h), h, w)(y, x) == Padded(p, h, w)(h - 1 - y, x)
    {
      assert h - 1 - Clamp(0, h - 1, y) == Clamp(0, h - 1, h - 1 - y);
    }
  }

  /* ----- Locality ----- */

  // The planes agree on rows y0 .. y1-1 and columns x0 .. x1-1.
  ghost predicate AgreeOn(p: Plane, q: Plane, y0: int, y1: int, x0: int, x1: int) {
    forall y, x :: y0 <= y < y1 && x0 <= x < x1 ==> p(y, x) == q(y, x)
  }

  // A window of Laplacians reads one sample beyond the window on each side and no more.
  lemma LaplacianWindowIsLocal(p: Plane, q: Plane, d: nat, y: int, x: int, m: nat, n: nat)
    requires AgreeOn(p, q, y - 1, y + m + 1, x - 1, x + n + 1)
    ensures WindowSum(LaplacianPlane(p, d), y, x, m, n) == WindowSum(LaplacianPlane(q, d), y, x, m, n)
  {
    WindowSumOfEqualPlanes(LaplacianPlane(p, d), LaplacianPlane(q, d), y, x, m, n);
  }

  /* ----- Size ----- */

  ghost predicate InRange(f: Plane, max: nat) {
    forall y, x :: 0 <= f(y, x) <= max
  }

  lemma LaplacianInRange(p: Plane, d: nat, max: nat)
    requires InRange(p, max)
    ensures InRange(LaplacianPlane(p, d), 2 * max)
  {
  }

  lemma {:induction false} RowSumBound(f: Plane, y: int, x: int, n: nat, max: nat)
    requires InRange(f, max)
    ensures 0 <= RowSum(f, y, x, n) <= n * max
    decreases n
  {
    if n > 0 {
      RowSumBound(f, y, x, n - 1, max);
      assert n * max == (n - 1) * max + max;
    }
  }

  lemma {:induction false} WindowSumBound(f: Plane, y: int, x: int, m: nat, n: nat, max: nat)
    requires InRange(f, max)
    ensures 0 <= WindowSum(f, y, x, m, n) <= m * (n * max)
    decreases m
  {
    if m > 0 {
      WindowSumBound(f, y, x, m - 1, n, max);
      RowSumBound(f, y + m - 1, x, n, max);
      assert m * (n * max) == (m - 1) * (n * max) + n * max;
    }
  }
}
