/**
 Whether a unit with its picture order count moved still reads as it did: the patch does not look at the bytes
 that prevent the emulation of start codes, and may make one needed or leave one that is not.
 */
module ParcatPayload {
  import opened Multiples
  import opened ParcatField
  import opened ParcatFilter
  import opened ParcatHeaders
  import opened ParcatNal

  // Two units that agree in all bytes but two.
  ghost predicate AgreeBut(a: seq<Byte>, b: seq<Byte>, p: nat) {
    |a| == |b| && p + 1 < |a| && forall i :: 0 <= i < |a| && i != p && i != p + 1 ==> b[i] == a[i]
  }

  // Where the patched bytes take part, two zero bytes are followed by a small one in both or in neither.
  ghost predicate KeepsTriples(a: seq<Byte>, b: seq<Byte>, p: nat) {
    forall k: nat :: p <= k + 2 && k <= p + 1 ==> (Triple(a, k, 3) <==> Triple(b, k, 3))
  }

  lemma OtherTriplesStay(a: seq<Byte>, b: seq<Byte>, p: nat, k: nat)
    requires AgreeBut(a, b, p) && (k + 2 < p || k > p + 1)
    ensures forall limit: nat :: Triple(a, k, limit) <==> Triple(b, k, limit)
  {
  }

  lemma TriplePrevents(s: seq<Byte>, k: nat)
    requires Converts(s)
    ensures Triple(s, k, 3) <==> Prevents(s, k + 2)
  {
    if Triple(s, k, 3) {
      assert !Triple(s, k, 2);
    }
  }

  ghost predicate SamePreventions(a: seq<Byte>, b: seq<Byte>) {
    forall i: nat :: Prevents(a, i) <==> Prevents(b, i)
  }

  // A unit to be moved: it converts, and no preventing byte comes before the end of the patched bytes.
  ghost predicate Movable(nal: seq<Byte>, p: nat) {
    p + 1 < |nal| && Converts(nal) && PlainUpTo(nal, p + 1)
  }

  /* ----- Kept triples keep the payload ----- */

  lemma TripleIsOld(a: seq<Byte>, b: seq<Byte>, p: nat, k: nat)
    requires Movable(a, p) && AgreeBut(a, b, p) && KeepsTriples(a, b, p)
    ensures Triple(b, k, 3) <==> Triple(a, k, 3)
    ensures Triple(b, k, 3) ==> b[k + 2] == 3 && k + 2 > p + 1
  {
    if k + 2 < p || k > p + 1 {
      OtherTriplesStay(a, b, p, k);
    }
    if Triple(a, k, 3) {
      TriplePrevents(a, k);
    }
  }

  lemma KeptConverts(a: seq<Byte>, b: seq<Byte>, p: nat)
    requires Movable(a, p) && AgreeBut(a, b, p) && KeepsTriples(a, b, p) && b[|b| - 1] != 0
    ensures Converts(b) && SamePreventions(a, b)
  {
    forall k: nat
      ensures !Triple(b, k, 2)
    {
      TripleIsOld(a, b, p, k);
    }
    forall i: nat
      ensures Prevents(a, i) <==> Prevents(b, i)
    {
      if i >= 2 {
        TripleIsOld(a, b, p, i - 2);
        TriplePrevents(a, i - 2);
        assert Prevents(b, i) <==> Triple(b, i - 2, 3) && b[i] == 3;
      }
    }
  }

  // The payloads differ where the units do.
  lemma {:induction false} KeptPayload(a: seq<Byte>, b: seq<Byte>, p: nat, n: nat)
    requires AgreeBut(a, b, p) && PlainUpTo(a, p + 1) && SamePreventions(a, b) && p + 2 <= n <= |a|
    ensures |Rbsp(a, n)| >= p + 2 && Rbsp(b, n) == Rbsp(a, n)[p := b[p]][p + 1 := b[p + 1]]
    decreases n
  {
    if n == p + 2 {
      RbspOfPlain(a, n);
      RbspOfPlain(b, n);
    } else {
      KeptPayload(a, b, p, n - 1);
      assert Prevents(a, n - 1) <==> Prevents(b, n - 1);
    }
  }

  /* ----- A payload that is kept keeps the triples ----- */

  lemma {:induction false} MorePreventionsAreShorter(a: seq<Byte>, b: seq<Byte>, n: nat)
    requires n <= |a| == |b| && forall i: nat :: i < n && Prevents(a, i) ==> Prevents(b, i)
    ensures |Rbsp(b, n)| <= |Rbsp(a, n)|
    ensures (exists i: nat :: i < n && Prevents(b, i) && !Prevents(a, i)) ==> |Rbsp(b, n)| < |Rbsp(a, n)|
  {
    if n > 0 {
      MorePreventionsAreShorter(a, b, n - 1);
    }
  }

  // Where one preventing byte appears and another is lost, they are three or two bytes apart.
  lemma AppearAndVanish(a: seq<Byte>, b: seq<Byte>, p: nat, i: nat, j: nat)
    requires Movable(a, p) && AgreeBut(a, b, p)
    requires Prevents(b, i) && !Prevents(a, i) && Prevents(a, j) && !Prevents(b, j)
    ensures j == p + 3 && b[p + 2] == 0 && (i == p || i == p + 1)
  {
    assert p <= i <= p + 3 && p + 2 <= j <= p + 3;
    assert i >= 2 ==> !Triple(a, i - 2, 2);
    assert p >= 1 ==> !Triple(a, p - 1, 2);
  }

  lemma SecondDiffers(b: seq<Byte>, p: nat)
    requires p + 2 < |b| && Prevents(b, p + 1) && b[p + 2] == 0 && forall i: nat :: i < p + 1 ==> !Prevents(b, i)
    ensures |Rbsp(b, |b|)| > p + 1 && Rbsp(b, |b|)[p + 1] == 0
  {
    RbspOfPlain(b, p + 1);
    assert Rbsp(b, p + 3) == b[..p + 1] + [0];
    RbspGrows(b, p + 3, |b|);
    assert Rbsp(b, |b|)[..p + 2][p + 1] == 0;
  }

  lemma FirstDiffers(b: seq<Byte>, p: nat)
    requires p + 2 < |b| && Prevents(b, p) && b[p + 2] == 0 && forall i: nat :: i < p ==> !Prevents(b, i)
    ensures |Rbsp(b, |b|)| > p + 1 && Rbsp(b, |b|)[p] == b[p + 1] && Rbsp(b, |b|)[p + 1] == 0
  {
    RbspOfPlain(b, p);
    assert Rbsp(b, p + 1) == b[..p] && !Prevents(b, p + 1) && !Prevents(b, p + 2);
    assert Rbsp(b, p + 3) == b[..p] + [b[p + 1]] + [0];
    RbspGrows(b, p + 3, |b|);
    assert Rbsp(b, |b|)[..p + 2] == b[..p] + [b[p + 1]] + [0];
    assert Rbsp(b, |b|)[..p + 2][p] == b[p + 1] && Rbsp(b, |b|)[..p + 2][p + 1] == 0;
  }

  // The payload of the changed unit is that of the unit, with the same two bytes changed.
  ghost predicate PayloadKept(a: seq<Byte>, b: seq<Byte>, p: nat)
    requires |a| == |b|
  {
    var r := Rbsp(a, |a|);
    p + 1 < |r| && p + 1 < |b| && Rbsp(b, |b|) == r[p := b[p]][p + 1 := b[p + 1]]
  }

  lemma NoneBefore(a: seq<Byte>, b: seq<Byte>, p: nat)
    requires PlainUpTo(a, p + 1) && AgreeBut(a, b, p)
    ensures forall i: nat :: i < p ==> !Prevents(b, i)
  {
    forall i: nat | i < p
      ensures !Prevents(b, i)
    {
      assert !Prevents(a, i);
    }
  }

  lemma NotBoth(a: seq<Byte>, b: seq<Byte>, p: nat, i: nat, j: nat)
    requires Movable(a, p) && AgreeBut(a, b, p) && PayloadKept(a, b, p)
    requires Prevents(b, i) && !Prevents(a, i)
    ensures Prevents(a, j) ==> Prevents(b, j)
  {
    if Prevents(a, j) && !Prevents(b, j) {
      AppearAndVanish(a, b, p, i, j);
      NoneBefore(a, b, p);
      if i == p {
        FirstDiffers(b, p);
      } else {
        SecondDiffers(b, p);
      }
    }
  }

  lemma KeptPayloadKeepsPreventions(a: seq<Byte>, b: seq<Byte>, p: nat)
    requires Movable(a, p) && AgreeBut(a, b, p) && PayloadKept(a, b, p)
    ensures SamePreventions(a, b)
  {
    assert |Rbsp(b, |b|)| == |Rbsp(a, |a|)|;
    if i: nat :| Prevents(b, i) && !Prevents(a, i) {
      forall j: nat | Prevents(a, j)
        ensures Prevents(b, j)
      {
        NotBoth(a, b, p, i, j);
      }
      MorePreventionsAreShorter(a, b, |a|);
    } else {
      MorePreventionsAreShorter(b, a, |a|);
    }
  }

  // Whatever two bytes are changed: the unit converts, to the payload with the two bytes changed, exactly if no
  // triple comes or goes and the last byte is not zero.
  lemma ChangedPayload(a: seq<Byte>, b: seq<Byte>, p: nat)
    requires Movable(a, p) && AgreeBut(a, b, p)
    ensures Converts(b) && PayloadKept(a, b, p) <==> KeepsTriples(a, b, p) && b[|b| - 1] != 0
  {
    if KeepsTriples(a, b, p) && b[|b| - 1] != 0 {
      KeptConverts(a, b, p);
      KeptPayload(a, b, p, |a|);
    }
    if Converts(b) && PayloadKept(a, b, p) {
      KeptPayloadKeepsPreventions(a, b, p);
      forall k: nat
        ensures Triple(a, k, 3) <==> Triple(b, k, 3)
      {
        TriplePrevents(a, k);
        TriplePrevents(b, k);
      }
    }
  }

  /* ----- The moved count ----- */

  lemma PatchedBytes(nal: seq<Byte>, offset: nat, value: nat, r: seq<Byte>)
    requires var p := offset / 8; p + 1 < |nal| && p + 1 < |r| && r[p] == nal[p] && r[p + 1] == nal[p + 1] && value < 256
    ensures var p, m := offset / 8, Patched(nal, offset, value);
      AgreeBut(nal, m, p) && Patched(r, offset, value) == r[p := m[p]][p + 1 := m[p + 1]]
  {
  }

  lemma PlainStartAt(nal: seq<Byte>, p: nat)
    requires p + 1 < |nal| && PlainUpTo(nal, p + 1)
    ensures var r := Rbsp(nal, |nal|); p + 1 < |r| && r[p] == nal[p] && r[p + 1] == nal[p + 1]
  {
    PlainStart(nal, p + 2);
  }

  lemma {:induction false} SamePlaces(a: seq<Byte>, b: seq<Byte>, n: nat)
    requires n <= |a| == |b| && SamePreventions(a, b)
    ensures Preventions(a, n) == Preventions(b, n)
  {
    if n > 0 {
      SamePlaces(a, b, n - 1);
      assert Prevents(a, n - 1) <==> Prevents(b, n - 1);
    }
  }

  lemma MovableAt(nal: seq<Byte>, k: nat, st: Stored, offset: nat)
    requires ParseUnit(nal, k, st) == CountAt(offset) && SmallNumbers(k, st) && offset / 8 + 1 < |nal|
    ensures Movable(nal, offset / 8)
  {
    CountLiesInPayload(nal, k, st, offset);
  }

  // The unit with its count changed converts to the payload with its count changed.
  ghost predicate MovesPayload(nal: seq<Byte>, offset: nat, value: nat)
    requires offset / 8 + 1 < |nal| && value < 256
  {
    var rbsp := Rbsp(nal, |nal|);
    offset / 8 + 1 < |rbsp| && Convert(Patched(nal, offset, value)) == Payload(Patched(rbsp, offset, value), Preventions(nal, |nal|))
  }

  lemma PatchedPayload(nal: seq<Byte>, offset: nat, value: nat, m: seq<Byte>)
    requires Movable(nal, offset / 8) && value < 256 && m == Patched(nal, offset, value)
    ensures MovesPayload(nal, offset, value) <==> KeepsTriples(nal, m, offset / 8) && m[|m| - 1] != 0
  {
    var p, r := offset / 8, Rbsp(nal, |nal|);
    PlainStartAt(nal, p);
    PatchedBytes(nal, offset, value, r);
    ChangedPayload(nal, m, p);
    if KeepsTriples(nal, m, p) && m[|m| - 1] != 0 {
      KeptConverts(nal, m, p);
      SamePlaces(nal, m, |nal|);
    }
  }

  /* ----- The header of a moved unit ----- */

  lemma {:induction false} TrimmedKeeps(rbsp: seq<Byte>, j: nat)
    requires j < |rbsp| && rbsp[j] != 0
    ensures j < |Trimmed(rbsp)|
    decreases |rbsp|
  {
    if rbsp[|rbsp| - 1] == 0 {
      TrimmedKeeps(rbsp[..|rbsp| - 1], j);
    }
  }

  // Two payloads whose first n bits are the same.
  ghost predicate SameBits(s: seq<Byte>, t: seq<Byte>, n: nat) {
    n <= 8 * |s| && n <= 8 * |t| && forall i: nat :: i < n ==> Bit(s, i) == Bit(t, i)
  }

  lemma {:induction false} StopBitIsSame(s: seq<Byte>, t: seq<Byte>, n: nat, pos: nat)
    requires SameBits(s, t, n) && pos <= 8 * |s| && StopBit(s, pos) < n
    ensures pos <= 8 * |t| && StopBit(t, pos) == StopBit(s, pos)
    decreases n - pos
  {
    assert Bit(s, pos) == Bit(t, pos);
    if Bit(s, pos) != 1 {
      StopBitIsSame(s, t, n, pos + 1);
    }
  }

  lemma {:induction false} BitsAreSame(s: seq<Byte>, t: seq<Byte>, n: nat, pos: nat, m: nat)
    requires SameBits(s, t, n) && pos + m <= n
    ensures BitsAt(s, pos, m) == BitsAt(t, pos, m)
    decreases m
  {
    if m > 0 {
      BitsAreSame(s, t, n, pos, m - 1);
    }
  }

  lemma FlagsAreSame(s: seq<Byte>, t: seq<Byte>, n: nat, pos: nat)
    requires SameBits(s, t, n) && pos <= n && FlagsEnd(s, pos).Code? && FlagsEnd(s, pos).next <= n
    ensures FlagsEnd(t, pos) == FlagsEnd(s, pos)
  {
    assert Bit(s, pos) == Bit(t, pos);
    var inter := pos + 2 + Bit(s, pos);
    assert Bit(s, inter) == Bit(t, inter);
  }

  lemma CodeIsSame(s: seq<Byte>, t: seq<Byte>, n: nat, from: nat)
    requires SameBits(s, t, n) && from <= n && Uvlc(s, from).Code? && Uvlc(s, from).next == n
    ensures Uvlc(t, from) == Uvlc(s, from)
  {
    var e := StopBit(s, from);
    StopBitIsSame(s, t, n, from);
    BitsAreSame(s, t, n, e + 1, e - from);
  }

  // What is read up to a bit depends on the bits before it.
  lemma ReadingIsSame(s: seq<Byte>, t: seq<Byte>, n: nat, pos: nat)
    requires SameBits(s, t, n) && pos <= n && UpToPoc(s, pos).Code? && UpToPoc(s, pos).next == n
    ensures UpToPoc(t, pos) == UpToPoc(s, pos)
  {
    FlagsAreSame(s, t, n, pos);
    CodeIsSame(s, t, n, FlagsEnd(s, pos).next);
  }

  // The bits before the field are those of the word's high part.
  lemma HighIsTop(a: Byte, b: Byte, o: nat)
    requires 0 < o < 8
    ensures var byte: int := a; High(Word(a, b), Scale(o)) == byte / Scale(o)
  {
    match o
    case 1 => case 2 => case 3 => case 4 => case 5 => case 6 => case _ =>
  }

  lemma TopBitIsSame(a: Byte, b: Byte, o: nat, j: nat)
    requires j < o < 8
    requires var x: int, y: int := a, b; x / Scale(o) == y / Scale(o)
    ensures var x: int, y: int := a, b; x / Weight(j) % 2 == y / Weight(j) % 2
  {
    var x: int, y: int := a, b;
    var times := Weight(j) / Scale(o);
    assert times * Scale(o) == Weight(j) && times > 0 by { WeightIsMultiple(o, j); }
    QuotientOfQuotient(x, Scale(o), times);
    QuotientOfQuotient(y, Scale(o), times);
  }

  lemma WeightIsMultiple(o: nat, j: nat)
    requires j < o < 8
    ensures Weight(j) / Scale(o) > 0 && Weight(j) / Scale(o) * Scale(o) == Weight(j)
  {
    match o
    case 1 => case 2 => case 3 => case 4 => case 5 => case 6 => case _ =>
  }

  lemma QuotientOfQuotient(x: int, d: nat, times: nat)
    requires x >= 0 && d > 0 && times > 0
    ensures times * d > 0 && x / (times * d) == x / d / times
  {
    var q := x / d;
    var p := q / times;
    assert q == p * times + q % times && x == q * d + x % d;
    assert times * d > 0;
    assert x == p * (times * d) + (q % times * d + x % d) by {
      assert (p * times + q % times) * d == p * (times * d) + q % times * d;
    }
    assert q % times * d + x % d < times * d by {
      ProductIsMonotone(q % times + 1, times, d);
      assert (q % times + 1) * d == q % times * d + d;
    }
    QuotientIs(p, times * d, q % times * d + x % d);
  }

  lemma BitStays(r: seq<Byte>, offset: nat, value: nat, i: nat)
    requires offset / 8 + 1 < |r| && value < 256 && i < offset
    ensures Bit(Patched(r, offset, value), i) == Bit(r, i)
  {
    var m, p := Patched(r, offset, value), offset / 8;
    if i / 8 == p {
      PatchKeepsNeighbours(r, offset, value);
      ScaleOfRest(offset);
      HighIsTop(r[p], r[p + 1], offset % 8);
      HighIsTop(m[p], m[p + 1], offset % 8);
      TopBitIsSame(m[p], r[p], offset % 8, i % 8);
    }
  }

  lemma ScaleOfRest(offset: nat)
    ensures Scale(offset % 8) == Scale(offset)
  {
  }

  // A changed unit whose payload would be cut off before the changed bytes is the same unit.
  lemma PayloadReaches(a: seq<Byte>, b: seq<Byte>, p: nat)
    requires Movable(a, p) && AgreeBut(a, b, p) && KeepsTriples(a, b, p) && b[|b| - 1] != 0 && b != a
    ensures p < |PayloadOf(b)|
  {
    var r := Rbsp(b, |b|);
    KeptConverts(a, b, p);
    KeptPayload(a, b, p, |a|);
    KeptIsPlain(a, b, p);
    PlainStartAt(b, p);
    if r[p] != 0 {
      TrimmedKeeps(r, p);
    } else if r[p + 1] != 0 {
      TrimmedKeeps(r, p + 1);
    } else {
      ThirdIsKept(a, b, p);
      TrimmedKeeps(r, p + 2);
    }
  }

  lemma KeptIsPlain(a: seq<Byte>, b: seq<Byte>, p: nat)
    requires PlainUpTo(a, p + 1) && SamePreventions(a, b)
    ensures PlainUpTo(b, p + 1)
  {
  }

  lemma ThirdIsKept(a: seq<Byte>, b: seq<Byte>, p: nat)
    requires Movable(a, p) && AgreeBut(a, b, p) && KeepsTriples(a, b, p) && b[|b| - 1] != 0 && b != a
    requires Converts(b) && PlainUpTo(b, p + 1) && b[p] == b[p + 1] == 0
    ensures p + 2 < |Rbsp(b, |b|)| && Rbsp(b, |b|)[p + 2] != 0
  {
    assert !Triple(b, p, 2);
    if Prevents(b, p + 2) {
      NoneIsNew(a, b, p);
    } else {
      PlainStart(b, p + 3);
    }
  }

  lemma NoneIsNew(a: seq<Byte>, b: seq<Byte>, p: nat)
    requires AgreeBut(a, b, p) && KeepsTriples(a, b, p) && b[p] == b[p + 1] == 0 && Prevents(b, p + 2)
    ensures a == b
  {
    assert Triple(b, p, 3) && Triple(a, p, 3);
  }

  lemma PayloadBits(nal: seq<Byte>, n: nat)
    requires nal != [] && n <= 8 * |PayloadOf(nal)|
    ensures SameBits(PayloadOf(nal), Rbsp(nal, |nal|), n)
  {
    forall i: nat | i < n
      ensures i < 8 * |Rbsp(nal, |nal|)| && Bit(PayloadOf(nal), i) == Bit(Rbsp(nal, |nal|), i)
    {
      PayloadStart(nal, i / 8);
    }
  }

  lemma BitsBefore(nal: seq<Byte>, offset: nat, value: nat, m: seq<Byte>)
    requires offset / 8 + 1 < |nal| && offset / 8 + 1 < |Rbsp(nal, |nal|)| && value < 256 && |m| == |nal|
    requires Rbsp(m, |m|) == Patched(Rbsp(nal, |nal|), offset, value)
    requires offset <= 8 * |PayloadOf(nal)| && offset <= 8 * |PayloadOf(m)|
    ensures SameBits(PayloadOf(nal), PayloadOf(m), offset)
  {
    PayloadBits(nal, offset);
    PayloadBits(m, offset);
    forall i: nat | i < offset
      ensures Bit(PayloadOf(nal), i) == Bit(PayloadOf(m), i)
    {
      BitStays(Rbsp(nal, |nal|), offset, value, i);
    }
  }

  // Two units of the same kind whose payloads have the same bits up to the count.
  lemma SameCount(nal: seq<Byte>, m: seq<Byte>, k: nat, st: Stored, offset: nat)
    requires ParseUnit(nal, k, st) == CountAt(offset) && CountIn(nal, offset) && offset > 16 && Earlier(Preventions(nal, |nal|), offset) == 0
    requires |m| == |nal| && m[0] == nal[0] && m[1] == nal[1] && Converts(m) && Preventions(m, |m|) == Preventions(nal, |nal|)
    requires SameBits(PayloadOf(nal), PayloadOf(m), offset) && |PayloadOf(m)| > 2
    ensures ParseUnit(m, k, st) == CountAt(offset)
  {
    assert TypeOf(m) == TypeOf(nal);
    assert Bit(PayloadOf(nal), 16) == Bit(PayloadOf(m), 16);
    ReadingIsSame(PayloadOf(nal), PayloadOf(m), offset, if TypeOf(nal) == PH then 16 else 17);
  }

  // The moved unit is read as the unit is: its count lies at the same place.
  lemma MovedHeader(nal: seq<Byte>, k: nat, st: Stored, offset: nat, value: nat)
    requires ParseUnit(nal, k, st) == CountAt(offset) && SmallNumbers(k, st)
    requires offset / 8 + 1 < |nal| && value < 256 && MovesPayload(nal, offset, value)
    ensures ParseUnit(Patched(nal, offset, value), k, st) == CountAt(offset)
  {
    var m, p := Patched(nal, offset, value), offset / 8;
    if m != nal {
      CountLiesInPayload(nal, k, st, offset);
      NoneBeforeCount(nal, offset);
      PlainStartAt(nal, p);
      PatchedBytes(nal, offset, value, Rbsp(nal, |nal|));
      PatchedPayload(nal, offset, value, m);
      PayloadReaches(nal, m, p);
      CountFits(nal, offset);
      BitsBefore(nal, offset, value, m);
      SameCount(nal, m, k, st, offset);
    }
  }

  lemma CountFits(nal: seq<Byte>, offset: nat)
    requires CountIn(nal, offset)
    ensures offset <= 8 * |PayloadOf(nal)|
  {
  }

  // The moved unit reads as before, but for the count.
  ghost predicate ReadsMoved(nal: seq<Byte>, k: nat, st: Stored, offset: nat, value: nat)
    requires offset / 8 + 1 < |nal| && value < 256
  {
    MovesPayload(nal, offset, value) && ParseUnit(Patched(nal, offset, value), k, st) == CountAt(offset)
  }

  // A unit whose count is changed converts to the payload with the count changed and nothing else, and its header is
  // read as before, if and only if at the patched bytes no two zero bytes before a small one come or go, and the last
  // byte is not zero.
  lemma MovedPayload(nal: seq<Byte>, k: nat, st: Stored, offset: nat, value: nat)
    requires ParseUnit(nal, k, st) == CountAt(offset) && SmallNumbers(k, st)
    requires offset / 8 + 1 < |nal| && value < 256
    ensures var m := Patched(nal, offset, value);
      ReadsMoved(nal, k, st, offset, value) <==> KeepsTriples(nal, m, offset / 8) && m[|m| - 1] != 0
  {
    MovableAt(nal, k, st, offset);
    PatchedPayload(nal, offset, value, Patched(nal, offset, value));
    if MovesPayload(nal, offset, value) {
      MovedHeader(nal, k, st, offset, value);
    }
  }

  /* ----- Headers that can be read ----- */

  lemma ThirdByte(nal: seq<Byte>)
    requires |nal| >= 3 && nal[1] != 0 && nal[2] != 0
    ensures |PayloadOf(nal)| > 2 && PayloadOf(nal)[2] == nal[2]
  {
    PlainStart(nal, 3);
    TrimmedKeeps(Rbsp(nal, |nal|), 2);
    PayloadStart(nal, 2);
  }

  // Three flags that are not set, and the number 0.
  lemma NumberZero(p: seq<Byte>, pos: nat)
    requires pos + 4 <= 8 * |p| && Bit(p, pos) == Bit(p, pos + 1) == Bit(p, pos + 2) == 0 && Bit(p, pos + 3) == 1
    ensures UpToPoc(p, pos) == Code(0, pos + 4)
  {
    assert FlagsEnd(p, pos) == Code(0, pos + 3);
    assert StopBit(p, pos + 3) == pos + 3;
  }

  lemma NoEarlier(nal: seq<Byte>, next: nat)
    requires |nal| >= 3 && nal[1] != 0 && nal[2] != 0 && next <= 30
    ensures Earlier(Preventions(nal, |nal|), next) == 0
  {
    PlainBefore(nal, next);
  }

  lemma BitsOfHeader(p: seq<Byte>)
    requires |p| > 2 && 16 <= p[2] < 32
    ensures Bit(p, 16) == Bit(p, 17) == Bit(p, 18) == 0 && Bit(p, 19) == 1
  {
  }

  lemma BitsOfSlice(p: seq<Byte>)
    requires |p| > 2 && 136 <= p[2] < 144
    ensures Bit(p, 16) == 1 && Bit(p, 17) == Bit(p, 18) == Bit(p, 19) == 0 && Bit(p, 20) == 1
  {
  }

  // A picture header of the base layer with those flags and that number.
  lemma HeaderIsRead(nal: seq<Byte>, k: nat, st: Stored)
    requires |nal| >= 3 && Converts(nal) && nal[0] == 0 && nal[1] == 152 && 16 <= nal[2] < 32 && st.pps(k, 0)
    ensures ParseUnit(nal, k, st) == CountAt(20)
  {
    ThirdByte(nal);
    BitsOfHeader(PayloadOf(nal));
    NumberZero(PayloadOf(nal), 16);
    NoEarlier(nal, 20);
  }

  // A slice that holds such a picture header.
  lemma SliceIsRead(nal: seq<Byte>, k: nat, st: Stored)
    requires |nal| >= 3 && Converts(nal) && nal[0] == 0 && nal[1] == 1 && 136 <= nal[2] < 144 && st.pps(k, 0)
    ensures ParseUnit(nal, k, st) == CountAt(21)
  {
    ThirdByte(nal);
    BitsOfSlice(PayloadOf(nal));
    NumberZero(PayloadOf(nal), 17);
    NoEarlier(nal, 21);
  }

  // A picture header whose count is zero, before a byte that prevents a start code: moved by one, that byte is
  // left as one of the payload.
  const PREVENTED: seq<Byte> := [0, 152, 16, 0, 0, 3, 1]

  lemma PreventedConverts()
    ensures Converts(PREVENTED)
  {
    var nal := PREVENTED;
    assert nal[1] == 152 && nal[2] == 16 && nal[5] == 3;
    forall k: nat
      ensures !Triple(nal, k, 2)
    {
    }
  }

  lemma CountOfPrevented()
    ensures Field(PREVENTED, 20) == 0 && Patched(PREVENTED, 20, 1) == [0, 152, 16, 16, 0, 3, 1]
  {
    assert WordAt(PREVENTED, 20) == 4096;
    assert NewWord(4096, 16, 1) == 4112;
  }

  lemma PreventingByteIsLeft(k: nat, st: Stored)
    requires SmallNumbers(k, st) && st.pps(k, 0)
    ensures ParseUnit(PREVENTED, k, st) == CountAt(20) && Field(PREVENTED, 20) == 0
    ensures !MovesPayload(PREVENTED, 20, 1)
  {
    PreventedConverts();
    HeaderIsRead(PREVENTED, k, st);
    CountOfPrevented();
    MovableAt(PREVENTED, k, st, 20);
    PatchedPayload(PREVENTED, 20, 1, Patched(PREVENTED, 20, 1));
    assert Triple(PREVENTED, 3, 3) && !Triple(Patched(PREVENTED, 20, 1), 3, 3);
  }
}
