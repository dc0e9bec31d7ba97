/**
 The clipped non-linear filters: the taps of the four diamonds, the four coefficient
 orders of each as the source tabulates them, and what the orders mean.
 */
module AlfTaps {
  import opened AlfPicture

  datatype Shape = Diamond5 | Diamond7 | Diamond9 | Diamond13

  function Radius(shape: Shape): nat {
    match shape
    case Diamond5 => 2
    case Diamond7 => 3
    case Diamond9 => 4
    case Diamond13 => 6
  }

  function NumTaps(shape: Shape): nat {
    match shape
    case Diamond5 => 6
    case Diamond7 => 12
    case Diamond9 => 20
    case Diamond13 => 42
  }

  // Squares, for the few rows there are.
  function Square(q: int): nat {
    if q == 1 then 1 else if q == 2 then 4 else if q == 3 then 9 else if q == 4 then 16
    else if q == 5 then 25 else if q == 6 then 36 else 0
  }

  // Each filter adds its taps up row by row, from the single tap of the farthest row to
  // the row of the centre: rows before row q of a diamond hold q * q taps.
  function RowOf(k: nat): nat {
    if k < 1 then 0 else if k < 4 then 1 else if k < 9 then 2 else if k < 16 then 3 else if k < 25 then 4 else 5
  }

  // Tap k pairs the neighbours at (TapRow, TapCol) and at (-TapRow, -TapCol).
  function TapRow(r: nat, k: nat): int {
    if k < Square(r) then r - RowOf(k) else 0
  }

  function TapCol(r: nat, k: nat): int {
    if k < Square(r) then RowOf(k) - (k - Square(RowOf(k))) else r - (k - Square(r))
  }

  /* Place k of a reordered coefficient list holds the coefficient with this number.  The
     centre coefficient, which no filter multiplies, stays where it is and is not listed. */

  function Order5By1(k: nat): nat {
    match k
    case 0 => 4 case 1 => 1 case 2 => 5 case 3 => 3 case 4 => 0 case 5 => 2
    case _ => k
  }

  function Order5By2(k: nat): nat {
    match k
    case 0 => 0 case 1 => 3 case 2 => 2 case 3 => 1 case 4 => 4 case 5 => 5
    case _ => k
  }

  function Order5By3(k: nat): nat {
    match k
    case 0 => 4 case 1 => 3 case 2 => 5 case 3 => 1 case 4 => 0 case 5 => 2
    case _ => k
  }

  function Order7By1(k: nat): nat {
    match k
    case 0 => 9 case 1 => 4 case 2 => 10 case 3 => 8 case 4 => 1 case 5 => 5 case 6 => 11 case 7 => 7
    case 8 => 3 case 9 => 0 case 10 => 2 case 11 => 6
    case _ => k
  }

  function Order7By2(k: nat): nat {
    match k
    case 0 => 0 case 1 => 3 case 2 => 2 case 3 => 1 case 4 => 8 case 5 => 7 case 6 => 6 case 7 => 5
    case 8 => 4 case 9 => 9 case 10 => 10 case 11 => 11
    case _ => k
  }

  function Order7By3(k: nat): nat {
    match k
    case 0 => 9 case 1 => 8 case 2 => 10 case 3 => 4 case 4 => 3 case 5 => 7 case 6 => 11 case 7 => 5
    case 8 => 1 case 9 => 0 case 10 => 2 case 11 => 6
    case _ => k
  }

  function Order9By1(k: nat): nat {
    match k
    case 0 => 16 case 1 => 9 case 2 => 17 case 3 => 15 case 4 => 4 case 5 => 10 case 6 => 18 case 7 => 14
    case 8 => 8 case 9 => 1 case 10 => 5 case 11 => 11 case 12 => 19 case 13 => 13 case 14 => 7 case 15 => 3
    case 16 => 0 case 17 => 2 case 18 => 6 case 19 => 12
    case _ => k
  }

  function Order9By2(k: nat): nat {
    match k
    case 0 => 0 case 1 => 3 case 2 => 2 case 3 => 1 case 4 => 8 case 5 => 7 case 6 => 6 case 7 => 5
    case 8 => 4 case 9 => 15 case 10 => 14 case 11 => 13 case 12 => 12 case 13 => 11 case 14 => 10 case 15 => 9
    case 16 => 16 case 17 => 17 case 18 => 18 case 19 => 19
    case _ => k
  }

  function Order9By3(k: nat): nat {
    match k
    case 0 => 16 case 1 => 15 case 2 => 17 case 3 => 9 case 4 => 8 case 5 => 14 case 6 => 18 case 7 => 10
    case 8 => 4 case 9 => 3 case 10 => 7 case 11 => 13 case 12 => 19 case 13 => 11 case 14 => 5 case 15 => 1
    case 16 => 0 case 17 => 2 case 18 => 6 case 19 => 12
    case _ => k
  }

  function Order13By1(k: nat): nat {
    match k
    case 0 => 36 case 1 => 25 case 2 => 37 case 3 => 35 case 4 => 16 case 5 => 26 case 6 => 38 case 7 => 34
    case 8 => 24 case 9 => 9 case 10 => 17 case 11 => 27 case 12 => 39 case 13 => 33 case 14 => 23 case 15 => 15
    case 16 => 4 case 17 => 10 case 18 => 18 case 19 => 28 case 20 => 40 case 21 => 32 case 22 => 22 case 23 => 14
    case 24 => 8 case 25 => 1 case 26 => 5 case 27 => 11 case 28 => 19 case 29 => 29 case 30 => 41 case 31 => 31
    case 32 => 21 case 33 => 13 case 34 => 7 case 35 => 3 case 36 => 0 case 37 => 2 case 38 => 6 case 39 => 12
    case 40 => 20 case 41 => 30
    case _ => k
  }

  function Order13By2(k: nat): nat {
    match k
    case 0 => 0 case 1 => 3 case 2 => 2 case 3 => 1 case 4 => 8 case 5 => 7 case 6 => 6 case 7 => 5
    case 8 => 4 case 9 => 15 case 10 => 14 case 11 => 13 case 12 => 12 case 13 => 11 case 14 => 10 case 15 => 9
    case 16 => 24 case 17 => 23 case 18 => 22 case 19 => 21 case 20 => 20 case 21 => 19 case 22 => 18 case 23 => 17
    case 24 => 16 case 25 => 35 case 26 => 34 case 27 => 33 case 28 => 32 case 29 => 31 case 30 => 30 case 31 => 29
    case 32 => 28 case 33 => 27 case 34 => 26 case 35 => 25 case 36 => 36 case 37 => 37 case 38 => 38 case 39 => 39
    case 40 => 40 case 41 => 41
    case _ => k
  }

  function Order13By3(k: nat): nat {
    match k
    case 0 => 36 case 1 => 35 case 2 => 37 case 3 => 25 case 4 => 24 case 5 => 34 case 6 => 38 case 7 => 26
    case 8 => 16 case 9 => 15 case 10 => 23 case 11 => 33 case 12 => 39 case 13 => 27 case 14 => 17 case 15 => 9
    case 16 => 8 case 17 => 14 case 18 => 22 case 19 => 32 case 20 => 40 case 21 => 28 case 22 => 18 case 23 => 10
    case 24 => 4 case 25 => 3 case 26 => 7 case 27 => 13 case 28 => 21 case 29 => 31 case 30 => 41 case 31 => 29
    case 32 => 19 case 33 => 11 case 34 => 5 case 35 => 1 case 36 => 0 case 37 => 2 case 38 => 6 case 39 => 12
    case 40 => 20 case 41 => 30
    case _ => k
  }

  // The coefficient order of each transpose index.
  function Order(shape: Shape, t: nat, k: nat): nat {
    if t == 0 then k else
    match shape
    case Diamond5 => if t == 1 then Order5By1(k) else if t == 2 then Order5By2(k) else Order5By3(k)
    case Diamond7 => if t == 1 then Order7By1(k) else if t == 2 then Order7By2(k) else Order7By3(k)
    case Diamond9 => if t == 1 then Order9By1(k) else if t == 2 then Order9By2(k) else Order9By3(k)
    case Diamond13 => if t == 1 then Order13By1(k) else if t == 2 then Order13By2(k) else Order13By3(k)
  }

  /* ----- Orders are geometry ----- */

  // The transformation of the plane behind each transpose index: transposition for 1,
  // upside down for 2, both for 3.
  function TurnRow(t: nat, dy: int, dx: int): int {
    if t == 0 then dy else if t == 1 then dx else if t == 2 then -dy else -dx
  }

  function TurnCol(t: nat, dy: int, dx: int): int {
    if t == 0 then dx else if t == 1 then dy else if t == 2 then dx else dy
  }

  // Where the diamond of radius r lists the pair of (dy, dx).
  function Index(r: nat, dy: int, dx: int): int {
    if dy > 0 then Square(r - dy) + (r - dy) - dx
    else if dy < 0 then Square(r + dy) + (r + dy) + dx
    else if dx > 0 then Square(r) + r - dx
    else Square(r) + r + dx
  }

  predicate SamePair(dy: int, dx: int, ey: int, ex: int) {
    (dy == ey && dx == ex) || (dy == -ey && dx == -ex)
  }

  predicate InDiamond(r: nat, dy: int, dx: int) {
    0 < Abs(dy) + Abs(dx) <= r
  }

  // Every pair of the diamond is listed once.
  lemma TapIsListed(shape: Shape, k: nat)
    requires k < NumTaps(shape)
    ensures var r := Radius(shape);
            InDiamond(r, TapRow(r, k), TapCol(r, k)) && Index(r, TapRow(r, k), TapCol(r, k)) == k
  {
  }

  lemma PairIsListed(shape: Shape, dy: int, dx: int)
    requires InDiamond(Radius(shape), dy, dx)
    ensures var r := Radius(shape); var k := Index(r, dy, dx);
            0 <= k < NumTaps(shape) && SamePair(TapRow(r, k), TapCol(r, k), dy, dx)
  {
    match shape
    case Diamond5 =>
    case Diamond7 =>
    case Diamond9 =>
    case Diamond13 =>
  }

  lemma Order5By1IsGeometry(k: nat)
    requires k < 6
    ensures Order5By1(k) == Index(2, TapCol(2, k), TapRow(2, k))
  {
  }

  lemma Order5By2IsGeometry(k: nat)
    requires k < 6
    ensures Order5By2(k) == Index(2, -TapRow(2, k), TapCol(2, k))
  {
  }

  lemma Order5By3IsGeometry(k: nat)
    requires k < 6
    ensures Order5By3(k) == Index(2, -TapCol(2, k), TapRow(2, k))
  {
  }

  lemma Order7By1IsGeometry(k: nat)
    requires k < 12
    ensures Order7By1(k) == Index(3, TapCol(3, k), TapRow(3, k))
  {
  }

  lemma Order7By2IsGeometry(k: nat)
    requires k < 12
    ensures Order7By2(k) == Index(3, -TapRow(3, k), TapCol(3, k))
  {
  }

  lemma Order7By3IsGeometry(k: nat)
    requires k < 12
    ensures Order7By3(k) == Index(3, -TapCol(3, k), TapRow(3, k))
  {
  }

  lemma Order9By1IsGeometry(k: nat)
    requires k < 20
    ensures Order9By1(k) == Index(4, TapCol(4, k), TapRow(4, k))
  {
  }

  lemma Order9By2IsGeometry(k: nat)
    requires k < 20
    ensures Order9By2(k) == Index(4, -TapRow(4, k), TapCol(4, k))
  {
  }

  lemma Order9By3IsGeometry(k: nat)
    requires k < 20
    ensures Order9By3(k) == Index(4, -TapCol(4, k), TapRow(4, k))
  {
  }

  lemma Order13By1IsGeometry(k: nat)
    requires k < 42
    ensures Order13By1(k) == Index(6, TapCol(6, k), TapRow(6, k))
  {
  }

  lemma Order13By2IsGeometry(k: nat)
    requires k < 42
    ensures Order13By2(k) == Index(6, -TapRow(6, k), TapCol(6, k))
  {
  }

  lemma Order13By3IsGeometry(k: nat)
    requires k < 42
    ensures Order13By3(k) == Index(6, -TapCol(6, k), TapRow(6, k))
  {
  }

  // Coefficient order t lists each tap's coefficient where the turned tap is listed.
  lemma OrderIsGeometry(shape: Shape, t: nat, k: nat)
    requires t < 4 && k < NumTaps(shape)
    ensures var r := Radius(shape); var y, x := TapRow(r, k), TapCol(r, k);
            Order(shape, t, k) == Index(r, TurnRow(t, y, x), TurnCol(t, y, x))
  {
    TapIsListed(shape, k);
    match shape
    case Diamond5 => Order5By1IsGeometry(k); Order5By2IsGeometry(k); Order5By3IsGeometry(k);
    case Diamond7 => Order7By1IsGeometry(k); Order7By2IsGeometry(k); Order7By3IsGeometry(k);
    case Diamond9 => Order9By1IsGeometry(k); Order9By2IsGeometry(k); Order9By3IsGeometry(k);
    case Diamond13 => Order13By1IsGeometry(k); Order13By2IsGeometry(k); Order13By3IsGeometry(k);
  }

  // Exclusive or of two transpose indices.
  function Xor(t: nat, u: nat): nat {
    if t == 0 then u else if u == 0 then t else if t == u then 0 else Abs(6 - t - u)
  }

  // The tap at which order t looks up place k is the turned tap k.
  lemma OrderTurnsTheTap(shape: Shape, t: nat, k: nat)
    requires t < 4 && k < NumTaps(shape)
    ensures var r := Radius(shape); var j := Order(shape, t, k);
            && j < NumTaps(shape)
            && SamePair(TapRow(r, j), TapCol(r, j), TurnRow(t, TapRow(r, k), TapCol(r, k)), TurnCol(t, TapRow(r, k), TapCol(r, k)))
  {
    var r := Radius(shape);
    TapIsListed(shape, k);
    OrderIsGeometry(shape, t, k);
    PairIsListed(shape, TurnRow(t, TapRow(r, k), TapCol(r, k)), TurnCol(t, TapRow(r, k), TapCol(r, k)));
  }

  // The four orders compose like the bits of their indices: each undoes itself, and they
  // form a Klein four-group.
  lemma OrdersCompose(shape: Shape, t: nat, u: nat, k: nat)
    requires t < 4 && u < 4 && k < NumTaps(shape)
    ensures Order(shape, u, k) < NumTaps(shape)
    ensures Order(shape, t, Order(shape, u, k)) == Order(shape, Xor(t, u), k)
  {
    var r, j := Radius(shape), Order(shape, u, k);
    var y, x := TapRow(r, k), TapCol(r, k);
    OrderTurnsTheTap(shape, u, k);
    OrderIsGeometry(shape, t, j);
    OrderIsGeometry(shape, Xor(t, u), k);
    TurnsCompose(t, u, y, x, TapRow(r, j), TapCol(r, j));
    IndexOfSamePair(r, TurnRow(t, TapRow(r, j), TapCol(r, j)), TurnCol(t, TapRow(r, j), TapCol(r, j)),
                    TurnRow(Xor(t, u), y, x), TurnCol(Xor(t, u), y, x));
  }

  lemma TurnsCompose(t: nat, u: nat, y: int, x: int, ey: int, ex: int)
    requires t < 4 && u < 4
    requires SamePair(ey, ex, TurnRow(u, y, x), TurnCol(u, y, x))
    ensures SamePair(TurnRow(t, ey, ex), TurnCol(t, ey, ex), TurnRow(Xor(t, u), y, x), TurnCol(Xor(t, u), y, x))
  {
  }

  lemma IndexOfSamePair(r: nat, dy: int, dx: int, ey: int, ex: int)
    requires SamePair(dy, dx, ey, ex)
    ensures Index(r, dy, dx) == Index(r, ey, ex)
  {
  }

  /* ----- Filtering ----- */

  // The clipping of two samples against the one being filtered.
  function ClipAlf(clip: int, ref: int, val0: int, val1: int): int {
    Clamp(-clip, clip, val0 - ref) + Clamp(-clip, clip, val1 - ref)
  }

  // The clipping of one sample.
  function ClipAlfOne(clip: int, ref: int, val: int): int {
    Clamp(-clip, clip, val - ref)
  }

  // The picture as seen from sample (y, x).
  function Centred(p: Plane, y: int, x: int): Plane {
    (dy, dx) => p(y + dy, x + dx)
  }

  function PairTerm(nb: Plane, dy: int, dx: int, clip: int): int {
    ClipAlf(clip, nb(0, 0), nb(dy, dx), nb(-dy, -dx))
  }

  // Coefficients and clipping values of one filter, by number.
  datatype Filter = Filter(coef: nat -> int, clip: nat -> int)

  function TapTerm(nb: Plane, shape: Shape, t: nat, f: Filter, k: nat): int {
    f.coef(Order(shape, t, k)) * PairTerm(nb, TapRow(Radius(shape), k), TapCol(Radius(shape), k), f.clip(Order(shape, t, k)))
  }

  // The first n taps of the neighbourhood nb, coefficients taken in order t.
  function TapSum(nb: Plane, shape: Shape, t: nat, f: Filter, n: nat): int
    decreases n, f
  {
    if n == 0 then 0 else TapSum(nb, shape, t, f, n - 1) + TapTerm(nb, shape, t, f, n - 1)
  }

  function FilterSum(nb: Plane, shape: Shape, t: nat, f: Filter): int {
    TapSum(nb, shape, t, f, NumTaps(shape))
  }

  /* ----- Reordering a sum ----- */

  function Sum(f: nat -> int, s: seq<nat>): int {
    if s == [] then 0 else Sum(f, s[..|s| - 1]) + f(s[|s| - 1])
  }

  // s and r send each number below n to another and undo one another.
  ghost predicate Inverse(s: seq<nat>, r: seq<nat>) {
    && |s| == |r|
    && (forall k :: 0 <= k < |s| ==> s[k] < |s| && r[s[k]] == k)
    && (forall k :: 0 <= k < |s| ==> r[k] < |s| && s[r[k]] == k)
  }

  function UpTo(n: nat): (s: seq<nat>)
    ensures |s| == n && forall k :: 0 <= k < n ==> s[k] == k
  {
    seq(n, k => k)
  }

  lemma {:induction false} SumWithReplacement(f: nat -> int, s: seq<nat>, i: nat, v: nat)
    requires i < |s|
    ensures Sum(f, s[i := v]) == Sum(f, s) - f(s[i]) + f(v)
    decreases |s|
  {
    var n := |s| - 1;
    if i == n {
      assert s[i := v][..n] == s[..n];
    } else {
      assert s[i := v][..n] == s[..n][i := v];
      SumWithReplacement(f, s[..n], i, v);
    }
  }

  lemma {:induction false} SumIsReordered(f: nat -> int, s: seq<nat>, r: seq<nat>)
    requires Inverse(s, r)
    ensures Sum(f, s) == Sum(f, UpTo(|s|))
    decreases |s|
  {
    if s != [] {
      var n := |s| - 1;
      var i, v := r[n], s[n];
      var s', r' := s[i := v][..n], r[v := i][..n];
      assert Inverse(s', r');
      SumIsReordered(f, s', r');
      assert UpTo(n + 1)[..n] == UpTo(n);
      SumWithReplacement(f, s, i, v);
      assert Sum(f, s[i := v]) == Sum(f, s') + f(v);
    }
  }

  lemma {:induction false} TapSumIsSum(nb: Plane, shape: Shape, t: nat, f: Filter, n: nat, g: nat -> int)
    requires forall k :: 0 <= k < n ==> g(k) == TapTerm(nb, shape, t, f, k)
    ensures TapSum(nb, shape, t, f, n) == Sum(g, UpTo(n))
    decreases n
  {
    if n > 0 {
      TapSumIsSum(nb, shape, t, f, n - 1, g);
      assert UpTo(n)[..n - 1] == UpTo(n - 1);
    }
  }

  /* ----- Geometry of the orders ----- */

  // The neighbourhood q looks like p after turn t.
  ghost predicate IsTurned(p: Plane, q: Plane, t: nat) {
    forall dy, dx :: q(dy, dx) == p(TurnRow(t, dy, dx), TurnCol(t, dy, dx))
  }

  lemma PairOfTurned(p: Plane, q: Plane, t: nat, y: int, x: int, ey: int, ex: int, clip: int)
    requires t < 4 && IsTurned(p, q, t)
    requires SamePair(ey, ex, TurnRow(t, y, x), TurnCol(t, y, x))
    ensures PairTerm(q, y, x, clip) == PairTerm(p, ey, ex, clip)
  {
    assert q(0, 0) == p(0, 0);
    assert q(y, x) == p(TurnRow(t, y, x), TurnCol(t, y, x));
    assert q(-y, -x) == p(-TurnRow(t, y, x), -TurnCol(t, y, x));
  }

  lemma TermOfTurned(p: Plane, q: Plane, shape: Shape, t: nat, u: nat, f: Filter, k: nat)
    requires t < 4 && u < 4 && k < NumTaps(shape) && IsTurned(p, q, t)
    ensures TapTerm(q, shape, u, f, k) == TapTerm(p, shape, Xor(u, t), f, Order(shape, t, k))
  {
    var r, j, m := Radius(shape), Order(shape, t, k), Order(shape, u, k);
    assert m == Order(shape, Xor(u, t), j) by {
      OrdersCompose(shape, Xor(u, t), t, k);
      XorUndoes(u, t);
    }
    assert PairTerm(q, TapRow(r, k), TapCol(r, k), f.clip(m)) == PairTerm(p, TapRow(r, j), TapCol(r, j), f.clip(m)) by {
      OrderTurnsTheTap(shape, t, k);
      PairOfTurned(p, q, t, TapRow(r, k), TapCol(r, k), TapRow(r, j), TapCol(r, j), f.clip(m));
    }
  }

  lemma XorUndoes(u: nat, t: nat)
    requires u < 4 && t < 4
    ensures Xor(Xor(u, t), t) == u && Xor(t, t) == 0 && Xor(u, t) < 4
  {
  }

  lemma OrderSequence(shape: Shape, t: nat) returns (s: seq<nat>)
    requires t < 4
    ensures |s| == NumTaps(shape) && Inverse(s, s)
    ensures forall k :: 0 <= k < |s| ==> s[k] == Order(shape, t, k)
  {
    s := seq(NumTaps(shape), (k: nat) => Order(shape, t, k));
    forall k | 0 <= k < |s|
      ensures s[k] < |s| && s[s[k]] == k
    {
      OrdersCompose(shape, t, t, k);
      XorUndoes(t, t);
    }
  }

  lemma SumOfReordered(g: nat -> int, h: nat -> int, s: seq<nat>)
    requires Inverse(s, s) && forall k :: 0 <= k < |s| ==> h(k) == g(s[k])
    ensures Sum(h, UpTo(|s|)) == Sum(g, UpTo(|s|))
  {
    SumThrough(g, h, s, |s|);
    assert s[..|s|] == s;
    SumIsReordered(g, s, s);
  }

  lemma {:induction false} SumThrough(g: nat -> int, h: nat -> int, s: seq<nat>, n: nat)
    requires n <= |s| && forall k :: 0 <= k < n ==> h(k) == g(s[k])
    ensures Sum(h, UpTo(n)) == Sum(g, s[..n])
    decreases n
  {
    if n > 0 {
      SumThrough(g, h, s, n - 1);
      assert UpTo(n)[..n - 1] == UpTo(n - 1) && s[..n][..n - 1] == s[..n - 1];
    }
  }

  // Filtering a turned neighbourhood with index u is filtering the neighbourhood itself
  // with u exclusive-or t: a coefficient order means a transformation of the picture.
  lemma FilterOfTurned(p: Plane, q: Plane, shape: Shape, t: nat, u: nat, f: Filter)
    requires t < 4 && u < 4 && IsTurned(p, q, t)
    ensures FilterSum(q, shape, u, f) == FilterSum(p, shape, Xor(u, t), f)
  {
    var n := NumTaps(shape);
    var g := (k: nat) => TapTerm(p, shape, Xor(u, t), f, k);
    var h := (k: nat) => TapTerm(q, shape, u, f, k);
    var s := OrderSequence(shape, t);
    forall k | 0 <= k < n
      ensures h(k) == g(s[k])
    {
      TermOfTurned(p, q, shape, t, u, f, k);
    }
    SumOfReordered(g, h, s);
    TapSumIsSum(q, shape, u, f, n, h);
    TapSumIsSum(p, shape, Xor(u, t), f, n, g);
  }

  // Filtering with transpose index t is filtering the turned neighbourhood untransposed.
  lemma TransposeIsGeometry(p: Plane, q: Plane, shape: Shape, t: nat, f: Filter)
    requires t < 4 && IsTurned(p, q, t)
    ensures FilterSum(p, shape, t, f) == FilterSum(q, shape, 0, f)
  {
    FilterOfTurned(p, q, shape, t, 0, f);
  }
}
