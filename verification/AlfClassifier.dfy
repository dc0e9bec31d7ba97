/**
 The direction and activity classifier: from four window sums to a class index and
 a transpose index, packed into one code.
 */
module AlfClassifier {
  import opened AlfPicture
  import opened AlfLaplacian

  const NUM_DIR_FIX: nat := 7
  const NUM_ACT_FIX: nat := 16
  const MAX_NUM_ALF_CLASSES: nat := 25

  function Pow2(n: nat): (r: nat)
    ensures r > 0
  {
    if n == 0 then 1 else 2 * Pow2(n - 1)
  }

  function Min(a: int, b: int): int {
    if a < b then a else b
  }

  function Max(a: int, b: int): int {
    if a < b then b else a
  }

  // Which of six ratio thresholds hi : lo exceeds.
  function EdgeStrength(hi: int, lo: int): nat {
    if hi > 8 * lo then 6
    else if hi * 2 > 9 * lo then 5
    else if hi > 3 * lo then 4
    else if hi > 2 * lo then 3
    else if hi * 2 > 3 * lo then 2
    else if hi * 4 > 5 * lo then 1
    else 0
  }

  // The triangular table the constructor fills; entries above the diagonal stay zero.
  function MappingDir(i: nat, j: nat): nat {
    if j <= i then i * (i + 1) / 2 + j else 0
  }

  method InitMappingDir(mappingDir: array2<int>)
    requires mappingDir.Length0 == mappingDir.Length1 == NUM_DIR_FIX
    modifies mappingDir
    ensures forall i, j :: 0 <= i < NUM_DIR_FIX && 0 <= j < NUM_DIR_FIX ==> mappingDir[i, j] == MappingDir(i, j)
  {
    forall i, j | 0 <= i < NUM_DIR_FIX && 0 <= j < NUM_DIR_FIX {
      mappingDir[i, j] := 0;
    }
    var ind := 0;
    for i := 0 to NUM_DIR_FIX
      invariant ind == i * (i + 1) / 2
      invariant forall r, c :: 0 <= r < NUM_DIR_FIX && 0 <= c < NUM_DIR_FIX ==>
        mappingDir[r, c] == if r < i then MappingDir(r, c) else 0
    {
      for j := 0 to i + 1
        invariant ind == i * (i + 1) / 2 + j
        invariant forall r, c :: 0 <= r < NUM_DIR_FIX && 0 <= c < NUM_DIR_FIX ==>
          mappingDir[r, c] == if r < i || (r == i && c < j) then MappingDir(r, c) else 0
      {
        mappingDir[i, j] := ind;
        ind := ind + 1;
      }
      assert (i + 1) * (i + 2) == i * (i + 1) + 2 * (i + 1);
    }
  }

  // The sixteen activity levels of the fixed filters' classifier, by first index of each run.
  function Activity16(t: int): nat {
    if t < 4 then if t < 0 then 0 else t
    else if t < 6 then 4 else if t < 8 then 5 else if t < 12 then 6 else if t < 16 then 7
    else if t < 24 then 8 else if t < 32 then 9 else if t < 48 then 10 else if t < 64 then 11
    else if t < 96 then 12 else if t < 128 then 13 else if t < 192 then 14 else 15
  }

  // The five activity levels of the adaptive filters' classifier.
  function Activity5(t: int): nat {
    if t < 1 then 0 else if t < 2 then 1 else if t < 7 then 2 else if t < 15 then 3 else 4
  }

  // The normaliser of a window of the given half size.
  function Multiplier(dirWindSize: nat): nat {
    if dirWindSize == 1 then 1407 else 156
  }

  /* ----- One block ----- */

  function HvDirection(s: Sums): nat {
    if s.v > s.h then 1 else 3
  }

  function DiagDirection(s: Sums): nat {
    if s.d0 > s.d1 then 0 else 2
  }

  predicate DiagonalIsMain(s: Sums) {
    Max(s.d0, s.d1) * Min(s.v, s.h) > Min(s.d0, s.d1) * Max(s.v, s.h)
  }

  function MainDirection(s: Sums): nat {
    if DiagonalIsMain(s) then DiagDirection(s) else HvDirection(s)
  }

  function SecondaryDirection(s: Sums): nat {
    if DiagonalIsMain(s) then HvDirection(s) else DiagDirection(s)
  }

  // Five directions, from the strength of the main one.
  function Direction5(s: Sums): nat {
    var hi := if DiagonalIsMain(s) then Max(s.d0, s.d1) else Max(s.v, s.h);
    var lo := if DiagonalIsMain(s) then Min(s.d0, s.d1) else Min(s.v, s.h);
    var strength := if hi * 2 > 9 * lo then 2 else if hi > 2 * lo then 1 else 0;
    if strength == 0 then 0 else MainDirection(s) % 2 * 2 + strength
  }

  // Fifty-six directions, from both strengths.
  function Direction56(s: Sums): nat {
    var hv := EdgeStrength(Max(s.v, s.h), Min(s.v, s.h));
    var d := EdgeStrength(Max(s.d0, s.d1), Min(s.d0, s.d1));
    if Max(s.v, s.h) * Min(s.d0, s.d1) > Min(s.v, s.h) * Max(s.d0, s.d1)
    then MappingDir(hv, d)
    else 28 + MappingDir(d, hv)
  }

  const TRANSPOSE_TABLE: seq<nat> := [0, 1, 0, 2, 2, 3, 1, 3]

  function TransposeIdx(s: Sums): nat {
    TRANSPOSE_TABLE[MainDirection(s) * 2 + SecondaryDirection(s) / 2]
  }

  datatype Kind = FixedKind | AdaptiveKind

  // The class of a block: 7 * 8 * 16 classes for the fixed filters, 5 * 5 for the adaptive ones.
  function ClassIdx(s: Sums, dirWindSize: nat, kind: Kind, bits: nat): nat
    requires s.v >= 0 && s.h >= 0
  {
    var scaled := Multiplier(dirWindSize) * (s.v + s.h);
    match kind
    case FixedKind => NUM_DIR_FIX * (NUM_DIR_FIX + 1) * Activity16(scaled / Pow2(5 + bits)) + Direction56(s)
    case AdaptiveKind => 5 * Activity5(scaled * 3 / Pow2(9 + bits)) + Direction5(s)
  }

  function ClassCode(s: Sums, dirWindSize: nat, kind: Kind, bits: nat): nat
    requires s.v >= 0 && s.h >= 0
  {
    4 * ClassIdx(s, dirWindSize, kind, bits) + TransposeIdx(s)
  }

  function NumClasses(kind: Kind): nat {
    if kind.FixedKind? then NUM_DIR_FIX * (NUM_DIR_FIX + 1) * NUM_ACT_FIX else MAX_NUM_ALF_CLASSES
  }

  ghost predicate NonNegative(s: Sums) {
    s.v >= 0 && s.h >= 0 && s.d0 >= 0 && s.d1 >= 0
  }

  /* ----- Thresholds are monotone ----- */

  // A ratio a : b at least c : d passes every threshold m : n that c : d passes.
  lemma ThresholdMonotone(a: int, b: int, c: int, d: int, n: int, m: int)
    requires a >= b >= 0 && c >= d >= 0 && a > 0 && n > 0 && m > 0
    requires a * d >= c * b
    requires c * n > m * d
    ensures a * n > m * b
  {
    if b > 0 {
      assert c * b > 0;
      assert d > 0;
      assert (c * n) * b > (m * d) * b;
      assert (a * d) * n >= (c * b) * n;
      assert (c * b) * n == (c * n) * b && (a * d) * n == (a * n) * d && (m * d) * b == (m * b) * d;
      assert (a * n - m * b) * d > 0;
    }
  }

  lemma ThresholdsMonotone(a: int, b: int, c: int, d: int)
    requires a >= b >= 0 && c >= d >= 0 && a > 0
    requires a * d >= c * b
    ensures c > 8 * d ==> a > 8 * b
    ensures c * 2 > 9 * d ==> a * 2 > 9 * b
    ensures c > 3 * d ==> a > 3 * b
    ensures c > 2 * d ==> a > 2 * b
    ensures c * 2 > 3 * d ==> a * 2 > 3 * b
    ensures c * 4 > 5 * d ==> a * 4 > 5 * b
  {
    if c > 8 * d { ThresholdMonotone(a, b, c, d, 1, 8); }
    if c * 2 > 9 * d { ThresholdMonotone(a, b, c, d, 2, 9); }
    if c > 3 * d { ThresholdMonotone(a, b, c, d, 1, 3); }
    if c > 2 * d { ThresholdMonotone(a, b, c, d, 1, 2); }
    if c * 2 > 3 * d { ThresholdMonotone(a, b, c, d, 2, 3); }
    if c * 4 > 5 * d { ThresholdMonotone(a, b, c, d, 4, 5); }
  }

  lemma EdgeStrengthMonotone(a: int, b: int, c: int, d: int)
    requires a >= b >= 0 && c >= d >= 0 && a > 0
    requires a * d >= c * b
    ensures EdgeStrength(a, b) >= EdgeStrength(c, d)
  {
    ThresholdsMonotone(a, b, c, d);
  }

  // The table is read on or below its diagonal, except exactly when both diagonal sums
  // are zero while the horizontal and vertical ones differ enough to have a strength.
  lemma LookupIsTriangular(s: Sums)
    requires NonNegative(s)
    ensures var hv, d := EdgeStrength(Max(s.v, s.h), Min(s.v, s.h)), EdgeStrength(Max(s.d0, s.d1), Min(s.d0, s.d1));
            if Max(s.v, s.h) * Min(s.d0, s.d1) > Min(s.v, s.h) * Max(s.d0, s.d1) then hv >= d
            else d < hv <==> s.d0 == 0 && s.d1 == 0 && hv > 0
  {
    var hv1, hv0, d1, d0 := Max(s.v, s.h), Min(s.v, s.h), Max(s.d0, s.d1), Min(s.d0, s.d1);
    if hv1 * d0 > hv0 * d1 {
      assert hv1 > 0;
      EdgeStrengthMonotone(hv1, hv0, d1, d0);
    } else if d1 > 0 {
      EdgeStrengthMonotone(d1, d0, hv1, hv0);
    }
  }

  // The triangular table numbers the pairs i >= j without gaps or collisions.
  lemma MappingIsABijection(i: nat, j: nat, k: nat, l: nat)
    requires j <= i < NUM_DIR_FIX && l <= k < NUM_DIR_FIX
    ensures MappingDir(i, j) < 28
    ensures MappingDir(i, j) == MappingDir(k, l) <==> i == k && j == l
  {
    if i < k {
      assert k * (k + 1) / 2 >= (i + 1) * (i + 2) / 2 by { assert k * (k + 1) >= (i + 1) * (i + 2); }
      assert (i + 1) * (i + 2) == i * (i + 1) + 2 * (i + 1);
    } else if k < i {
      assert i * (i + 1) / 2 >= (k + 1) * (k + 2) / 2 by { assert i * (i + 1) >= (k + 1) * (k + 2); }
      assert (k + 1) * (k + 2) == k * (k + 1) + 2 * (k + 1);
    }
    assert i * (i + 1) <= 42;
  }

  lemma DirectionBounds(s: Sums)
    requires NonNegative(s)
    ensures Direction56(s) < 56
    ensures Direction5(s) < 5
  {
    LookupIsTriangular(s);
    var hv := EdgeStrength(Max(s.v, s.h), Min(s.v, s.h));
    var d := EdgeStrength(Max(s.d0, s.d1), Min(s.d0, s.d1));
    if d <= hv { MappingIsABijection(hv, d, hv, d); }
    if hv <= d { MappingIsABijection(d, hv, d, hv); }
  }

  // Every class is in range, the packed code fits a signed 16-bit integer, and unpacking
  // by a right shift of two and a mask of three returns the class and the transpose index.
  lemma CodeInRange(s: Sums, dirWindSize: nat, kind: Kind, bits: nat)
    requires NonNegative(s)
    ensures ClassIdx(s, dirWindSize, kind, bits) < NumClasses(kind)
    ensures TransposeIdx(s) < 4
    ensures ClassCode(s, dirWindSize, kind, bits) < 32768
    ensures ClassCode(s, dirWindSize, kind, bits) / 4 == ClassIdx(s, dirWindSize, kind, bits)
    ensures ClassCode(s, dirWindSize, kind, bits) % 4 == TransposeIdx(s)
  {
    DirectionBounds(s);
    TransposeBits(s);
  }

  /* ----- Symmetry ----- */

  // Whichever pair of directions is the main one, the index has one bit for each pair.
  lemma TransposeBits(s: Sums)
    ensures TransposeIdx(s) == (if s.v > s.h then 0 else 1) + (if s.d0 > s.d1 then 0 else 2)
  {
  }

  // The sums of the transposed picture, and of the picture upside down.
  function TransposedSums(s: Sums): Sums {
    Sums(s.h, s.v, s.d0, s.d1)
  }

  function FlippedSums(s: Sums): Sums {
    Sums(s.v, s.h, s.d1, s.d0)
  }

  function Toggle(t: nat, bit: nat): nat
    requires bit > 0
  {
    if t / bit % 2 == 0 then t + bit else t - bit
  }

  // The directions depend on each pair of sums only through its maximum and minimum, and
  // on which pair is the main one.
  lemma DirectionIsSymmetric(s: Sums, t: Sums)
    requires Max(s.v, s.h) == Max(t.v, t.h) && Min(s.v, s.h) == Min(t.v, t.h)
    requires Max(s.d0, s.d1) == Max(t.d0, t.d1) && Min(s.d0, s.d1) == Min(t.d0, t.d1)
    ensures Direction56(s) == Direction56(t)
    ensures Direction5(s) == Direction5(t)
  {
    assert DiagonalIsMain(s) == DiagonalIsMain(t);
    assert MainDirection(s) % 2 == MainDirection(t) % 2;
  }

  // The class survives both symmetries; transposition toggles bit 0 of the transpose
  // index exactly when the vertical and horizontal sums differ, and turning the picture
  // upside down toggles bit 1 exactly when the two diagonal sums differ.
  lemma ClassIsSymmetric(s: Sums, dirWindSize: nat, kind: Kind, bits: nat)
    requires NonNegative(s)
    ensures ClassIdx(TransposedSums(s), dirWindSize, kind, bits) == ClassIdx(s, dirWindSize, kind, bits)
    ensures ClassIdx(FlippedSums(s), dirWindSize, kind, bits) == ClassIdx(s, dirWindSize, kind, bits)
    ensures TransposeIdx(TransposedSums(s)) == Toggle(TransposeIdx(s), 1) <==> s.v != s.h
    ensures TransposeIdx(FlippedSums(s)) == Toggle(TransposeIdx(s), 2) <==> s.d0 != s.d1
    ensures s.v == s.h ==> TransposeIdx(TransposedSums(s)) == TransposeIdx(s)
    ensures s.d0 == s.d1 ==> TransposeIdx(FlippedSums(s)) == TransposeIdx(s)
  {
    DirectionIsSymmetric(TransposedSums(s), s);
    DirectionIsSymmetric(FlippedSums(s), s);
    TransposeIsToggled(s);
  }

  lemma TransposeIsToggled(s: Sums)
    ensures TransposeIdx(TransposedSums(s)) == Toggle(TransposeIdx(s), 1) <==> s.v != s.h
    ensures TransposeIdx(FlippedSums(s)) == Toggle(TransposeIdx(s), 2) <==> s.d0 != s.d1
    ensures s.v == s.h ==> TransposeIdx(TransposedSums(s)) == TransposeIdx(s)
    ensures s.d0 == s.d1 ==> TransposeIdx(FlippedSums(s)) == TransposeIdx(s)
  {
    TransposeBits(s);
    TransposeBits(TransposedSums(s));
    TransposeBits(FlippedSums(s));
  }
}
