/**
 What the bitstream concatenator reads of a NAL unit: the payload without the bytes that prevent the emulation of
 start codes, and the bits of the headers up to the picture order count.
 */
module ParcatHeaders {
  import opened ParcatField
  import opened ParcatFilter
  import opened ParcatNal

  const STSA: nat := 1
  const SPS: nat := 15
  const PPS: nat := 16

  /* ----- The payload ----- */

  // Two zero bytes and a third that is no larger than a limit.
  predicate Triple(s: seq<Byte>, k: nat, limit: nat) {
    k + 2 < |s| && s[k] == 0 && s[k + 1] == 0 && s[k + 2] <= limit
  }

  // A byte that is there only to keep the two zero bytes before it from being read as a start code.
  predicate Prevents(nal: seq<Byte>, i: nat) {
    2 <= i < |nal| && nal[i - 2] == 0 && nal[i - 1] == 0 && nal[i] == 3
  }

  // The first n bytes hold nothing that the conversion throws at.
  ghost predicate ConvertsUpTo(nal: seq<Byte>, n: nat)
    requires n <= |nal|
  {
    && (forall k: nat :: k + 2 < n ==> !Triple(nal, k, 2))
    && (forall i: nat :: i + 1 < n && Prevents(nal, i) ==> nal[i + 1] <= 3)
  }

  // The conversion does not throw: nothing looks like a start code, what follows a preventing byte is small, and
  // the last byte is not zero.
  ghost predicate Converts(nal: seq<Byte>) {
    ConvertsUpTo(nal, |nal|) && (nal != [] ==> nal[|nal| - 1] != 0)
  }

  // The first n bytes without the preventing ones.
  function Rbsp(nal: seq<Byte>, n: nat): (r: seq<Byte>)
    requires n <= |nal|
    ensures |r| <= n
  {
    if n == 0 then [] else Rbsp(nal, n - 1) + if Prevents(nal, n - 1) then [] else [nal[n - 1]]
  }

  // Where the preventing bytes are.
  function Preventions(nal: seq<Byte>, n: nat): seq<nat>
    requires n <= |nal|
  {
    if n == 0 then [] else Preventions(nal, n - 1) + if Prevents(nal, n - 1) then [n - 1] else []
  }

  // Zero words behind the payload of a slice are dropped.
  function Trimmed(rbsp: seq<Byte>): (r: seq<Byte>)
    ensures |r| <= |rbsp| && r == rbsp[..|r|] && (r != [] ==> r[|r| - 1] != 0)
  {
    if rbsp != [] && rbsp[|rbsp| - 1] == 0 then Trimmed(rbsp[..|rbsp| - 1]) else rbsp
  }

  datatype Conversion = Payload(rbsp: seq<Byte>, removed: seq<nat>) | Rejected

  ghost function Convert(nal: seq<Byte>): Conversion {
    if Converts(nal) then Payload(Rbsp(nal, |nal|), Preventions(nal, |nal|)) else Rejected
  }

  ghost function ConvertAs(nal: seq<Byte>, isVclNalUnit: bool): Conversion {
    var r := Convert(nal);
    if r.Payload? && isVclNalUnit then r.(rbsp := Trimmed(r.rbsp)) else r
  }

  // How many zero bytes come right before, none of them before a preventing byte.
  ghost predicate ZerosBefore(nal: seq<Byte>, n: nat, zeroCount: nat)
    requires n <= |nal|
  {
    && zeroCount <= 2 && zeroCount <= n
    && (zeroCount >= 1 <==> n >= 1 && nal[n - 1] == 0)
    && (zeroCount == 2 <==> n >= 2 && nal[n - 2] == 0 && nal[n - 1] == 0)
  }

  // The state of the conversion: what was written in place, and what is still to be read.
  ghost predicate Converting(nal: seq<Byte>, buf: seq<Byte>, itRead: nat, itWrite: nat, removed: seq<nat>, zeroCount: nat) {
    && itWrite <= itRead <= |buf| == |nal|
    && buf[..itWrite] == Rbsp(nal, itRead) && buf[itRead..] == nal[itRead..]
    && removed == Preventions(nal, itRead)
    && ConvertsUpTo(nal, itRead) && ZerosBefore(nal, itRead, zeroCount)
  }

  // The end of the payload moves back over zero bytes.
  method CutZeros(buf: seq<Byte>, size: nat) returns (itWrite: nat)
    requires size <= |buf|
    ensures itWrite <= size && buf[..itWrite] == Trimmed(buf[..size])
  {
    itWrite := size;
    while itWrite > 0 && buf[itWrite - 1] == 0
      invariant itWrite <= size && Trimmed(buf[..itWrite]) == Trimmed(buf[..size])
    {
      assert buf[..itWrite][..itWrite - 1] == buf[..itWrite - 1];
      itWrite := itWrite - 1;
    }
  }

  // The bytes are moved together in place.
  method MoveTogether(nal: seq<Byte>) returns (thrown: bool, buf: seq<Byte>, itWrite: nat, removed: seq<nat>)
    ensures thrown <==> !Converts(nal)
    ensures !thrown ==> itWrite <= |buf| && buf[..itWrite] == Rbsp(nal, |nal|) && removed == Preventions(nal, |nal|)
  {
    var itRead, pos, zeroCount := 0, 0, 0;
    thrown, buf, itWrite, removed := false, nal, 0, [];
    assert buf[0..] == nal[0..] && buf[..0] == [];
    while itRead < |buf|
      invariant Converting(nal, buf, itRead, itWrite, removed, zeroCount) && pos == itRead
      invariant itRead > 0 ==> !Prevents(nal, itRead - 1)
      decreases |nal| - itRead
    {
      AtRead(nal, buf, itRead, itWrite, removed, zeroCount);
      if zeroCount >= 2 && buf[itRead] < 3 {
        thrown := true;
        return;
      }
      if zeroCount == 2 && buf[itRead] == 3 {
        Removed(nal, buf, itRead, itWrite, removed, zeroCount);
        removed := removed + [pos];
        pos, itRead, zeroCount := pos + 1, itRead + 1, 0;
        if itRead == |buf| {
          break;
        }
        AtRead(nal, buf, itRead, itWrite, removed, zeroCount);
        if buf[itRead] > 3 {
          TooLarge(nal, itRead - 1);
          thrown := true;
          return;
        }
      }
      Written(nal, buf, itRead, itWrite, removed, zeroCount);
      zeroCount := if buf[itRead] == 0 then zeroCount + 1 else 0;
      buf := buf[itWrite := buf[itRead]];
      itRead, itWrite, pos := itRead + 1, itWrite + 1, pos + 1;
    }
    ReadToEnd(nal, buf, itWrite, removed, zeroCount);
    thrown := zeroCount != 0;
  }

  // What is left of a unit, without the zero bytes behind the payload of a slice.
  method ConvertPayloadToRBSP(nal: seq<Byte>, isVclNalUnit: bool) returns (r: Conversion)
    ensures r == ConvertAs(nal, isVclNalUnit)
  {
    var thrown, buf, itWrite, removed := MoveTogether(nal);
    if thrown {
      return Rejected;
    }
    if isVclNalUnit {
      itWrite := CutZeros(buf, itWrite);
    }
    r := Payload(buf[..itWrite], removed);
  }

  lemma ReadToEnd(nal: seq<Byte>, buf: seq<Byte>, itWrite: nat, removed: seq<nat>, zeroCount: nat)
    requires Converting(nal, buf, |nal|, itWrite, removed, zeroCount)
    ensures Converts(nal) <==> zeroCount == 0
    ensures buf[..itWrite] == Rbsp(nal, |nal|) && removed == Preventions(nal, |nal|)
  {
  }

  lemma TooLarge(nal: seq<Byte>, i: nat)
    requires Prevents(nal, i) && i + 1 < |nal| && nal[i + 1] > 3
    ensures !Converts(nal)
  {
  }

  lemma AtRead(nal: seq<Byte>, buf: seq<Byte>, itRead: nat, itWrite: nat, removed: seq<nat>, zeroCount: nat)
    requires Converting(nal, buf, itRead, itWrite, removed, zeroCount) && itRead < |nal|
    ensures buf[itRead] == nal[itRead]
    ensures zeroCount == 2 && nal[itRead] < 3 ==> Triple(nal, itRead - 2, 2)
    ensures zeroCount == 2 && nal[itRead] == 3 <==> Prevents(nal, itRead)
  {
    assert buf[itRead..][0] == nal[itRead..][0];
  }

  lemma Removed(nal: seq<Byte>, buf: seq<Byte>, itRead: nat, itWrite: nat, removed: seq<nat>, zeroCount: nat)
    requires Converting(nal, buf, itRead, itWrite, removed, zeroCount) && itRead < |nal| && Prevents(nal, itRead)
    ensures Converting(nal, buf, itRead + 1, itWrite, removed + [itRead], 0)
  {
    assert buf[itRead + 1..] == nal[itRead + 1..] by {
      assert buf[itRead..][1..] == nal[itRead..][1..];
    }
    assert itRead > 0 ==> !Prevents(nal, itRead - 1);
  }

  lemma Written(nal: seq<Byte>, buf: seq<Byte>, itRead: nat, itWrite: nat, removed: seq<nat>, zeroCount: nat)
    requires Converting(nal, buf, itRead, itWrite, removed, zeroCount) && itRead < |nal| && !Prevents(nal, itRead)
    requires !(zeroCount == 2 && nal[itRead] < 3)
    requires itRead > 0 && Prevents(nal, itRead - 1) ==> nal[itRead] <= 3
    ensures buf[itRead] == nal[itRead]
    ensures Converting(nal, buf[itWrite := buf[itRead]], itRead + 1, itWrite + 1, removed, if nal[itRead] == 0 then zeroCount + 1 else 0)
  {
    AtRead(nal, buf, itRead, itWrite, removed, zeroCount);
    var now := buf[itWrite := buf[itRead]];
    assert now[..itWrite + 1] == buf[..itWrite] + [nal[itRead]];
    assert now[itRead + 1..] == buf[itRead..][1..];
    assert nal[itRead + 1..] == nal[itRead..][1..];
  }

  /* ----- Bits ----- */

  function Weight(i: nat): nat {
    match i
    case 0 => 128 case 1 => 64 case 2 => 32 case 3 => 16 case 4 => 8 case 5 => 4 case 6 => 2 case _ => 1
  }

  // A bit, the highest of each byte first.
  function Bit(s: seq<Byte>, i: nat): (b: nat)
    requires i < 8 * |s|
    ensures b <= 1
  {
    var byte: int := s[i / 8];
    byte / Weight(i % 8) % 2
  }

  // The first bit from a position on that is set, or the end.
  function StopBit(s: seq<Byte>, pos: nat): (e: nat)
    requires pos <= 8 * |s|
    ensures pos <= e <= 8 * |s|
    decreases 8 * |s| - pos
  {
    if pos == 8 * |s| || Bit(s, pos) == 1 then pos else StopBit(s, pos + 1)
  }

  function BitsAt(s: seq<Byte>, pos: nat, n: nat): nat
    requires pos + n <= 8 * |s|
  {
    if n == 0 then 0 else BitsAt(s, pos, n - 1) * 2 + Bit(s, pos + n - 1)
  }

  // A code read, and the position behind it; or too few bits.
  datatype Reading = Code(value: nat, next: nat) | TooShort

  // An unsigned code: as many bits behind the first one as there are zeros before it.
  function Uvlc(s: seq<Byte>, pos: nat): Reading
    requires pos <= 8 * |s|
  {
    var e := StopBit(s, pos);
    var zeros := e - pos;
    if e == 8 * |s| || zeros >= 32 || e + 1 + zeros > 8 * |s| then TooShort
    else Code(Power2(zeros) - 1 + BitsAt(s, e + 1, zeros), e + 1 + zeros)
  }

  // The flags before the picture parameter set's number: three of them, and one more behind the first two and
  // behind the third, where the first and the third ask for it.
  function FlagsEnd(s: seq<Byte>, pos: nat): Reading
    requires pos <= 8 * |s|
  {
    if pos + 2 > 8 * |s| then TooShort else
      var inter := pos + 2 + Bit(s, pos);
      if inter >= 8 * |s| then TooShort else
        var next := inter + 1 + Bit(s, inter);
        if next > 8 * |s| then TooShort else Code(0, next)
  }

  // The number of the picture parameter set, and where the picture order count starts.
  function UpToPoc(s: seq<Byte>, pos: nat): Reading
    requires pos <= 8 * |s|
  {
    var flags := FlagsEnd(s, pos);
    if flags.TooShort? then flags else Uvlc(s, flags.next)
  }

  /* ----- A unit ----- */

  // What is known from the units before the k-th: whether a picture parameter set is stored, with the sequence
  // parameter set it names; and whether the k-th, a parameter set, can be read behind its numbers.
  datatype Stored = Stored(pps: (nat, nat) -> bool, legible: nat -> bool)

  // An exception, no picture header, or the offset of the picture order count in the unit.
  datatype Parse = Throws | NoCount | CountAt(offset: nat)

  // Preventing bytes that start no later than a bit of the payload.
  function Earlier(removed: seq<nat>, bits: nat): nat {
    if removed == [] then 0
    else Earlier(removed[..|removed| - 1], bits) + if 8 * removed[|removed| - 1] <= bits then 1 else 0
  }

  function AtPoc(rbsp: seq<Byte>, removed: seq<nat>, pos: nat, k: nat, st: Stored): Parse
    requires pos <= 8 * |rbsp|
  {
    var r := UpToPoc(rbsp, pos);
    if r.TooShort? || !st.pps(k, r.value) then Throws else CountAt(r.next + 8 * Earlier(removed, r.next))
  }

  // The two bytes of the header are refused for a layer above 55, and for a step-wise access of the lowest
  // sub-layer in the base layer.
  predicate BadHeader(first: Byte, second: Byte) {
    var a: int, b: int := first, second;
    a % 64 > 55 || (a % 64 == 0 && b / 8 == STSA && b % 8 == 1)
  }

  predicate IsVcl(nal: seq<Byte>)
    requires nal != []
  {
    var first: int := nal[0];
    first / 64 % 2 == 0
  }

  function PayloadOf(nal: seq<Byte>): seq<Byte>
    requires nal != []
  {
    if IsVcl(nal) then Trimmed(Rbsp(nal, |nal|)) else Rbsp(nal, |nal|)
  }

  function TypeOf(nal: seq<Byte>): nat {
    UnitType(Unit([], nal))
  }

  function ParsePayload(nal: seq<Byte>, rbsp: seq<Byte>, removed: seq<nat>, k: nat, st: Stored): Parse
    requires |nal| >= 2
  {
    if |rbsp| < 2 || BadHeader(nal[0], nal[1]) then Throws
    else if TypeOf(nal) == SPS || TypeOf(nal) == PPS then
      (if st.legible(k) && |rbsp| >= (if TypeOf(nal) == SPS then 3 else 4) then NoCount else Throws)
    else if TypeOf(nal) == PH then AtPoc(rbsp, removed, 16, k, st)
    else if !IsSlice(Unit([], nal)) then NoCount
    else if |rbsp| == 2 then Throws
    else if Bit(rbsp, 16) == 0 then NoCount
    else AtPoc(rbsp, removed, 17, k, st)
  }

  // What the parser reads in a unit.
  ghost function ParseUnit(nal: seq<Byte>, k: nat, st: Stored): Parse {
    if |nal| < 2 || !Converts(nal) then Throws
    else ParsePayload(nal, PayloadOf(nal), Preventions(nal, |nal|), k, st)
  }

  // A unit that ends in a zero byte, or holds what looks like a start code, is thrown at.
  lemma EndsInZeroThrows(nal: seq<Byte>, k: nat, st: Stored)
    requires nal != [] && (nal[|nal| - 1] == 0 || exists i: nat :: Triple(nal, i, 2))
    ensures ParseUnit(nal, k, st) == Throws
  {
  }

  /* ----- Parameter sets ----- */

  // A sequence parameter set with its number, in four bits.
  predicate IsSps(nal: seq<Byte>, id: nat) {
    |nal| >= 2 && TypeOf(nal) == SPS && |PayloadOf(nal)| >= 3 && BitsAt(PayloadOf(nal), 16, 4) == id
  }

  // A picture parameter set with its number, in six bits; and the sequence parameter set it names, in four more.
  predicate IsPps(nal: seq<Byte>, id: nat) {
    |nal| >= 2 && TypeOf(nal) == PPS && |PayloadOf(nal)| >= 4 && BitsAt(PayloadOf(nal), 16, 6) == id
  }

  predicate Names(nal: seq<Byte>, sps: nat) {
    |nal| >= 2 && |PayloadOf(nal)| >= 4 && BitsAt(PayloadOf(nal), 22, 4) == sps
  }

  // The last picture parameter set with a number.
  ghost predicate IsLastPps(before: seq<Unit>, j: nat, id: nat) {
    j < |before| && IsPps(before[j].nal, id) && forall m: nat :: j < m < |before| ==> !IsPps(before[m].nal, id)
  }

  ghost predicate HasSps(before: seq<Unit>, id: nat) {
    exists l: nat :: l < |before| && IsSps(before[l].nal, id)
  }

  // Among the units before there is a picture parameter set with a number, and the sequence parameter set that the
  // last such one names.
  ghost predicate IsStored(before: seq<Unit>, id: nat) {
    exists j: nat, sps: nat :: IsLastPps(before, j, id) && Names(before[j].nal, sps) && HasSps(before, sps)
  }

  lemma {:induction false} BitsAreBelow(s: seq<Byte>, pos: nat, n: nat)
    requires pos + n <= 8 * |s|
    ensures BitsAt(s, pos, n) < Power2(n)
  {
    if n > 0 {
      BitsAreBelow(s, pos, n - 1);
    }
  }

  lemma StoredIsSmall(before: seq<Unit>, id: nat)
    requires IsStored(before, id)
    ensures id < 64
  {
    var j: nat, sps: nat :| IsLastPps(before, j, id) && Names(before[j].nal, sps) && HasSps(before, sps);
    BitsAreBelow(PayloadOf(before[j].nal), 16, 6);
    assert Power2(3) == 8 && Power2(6) == 8 * Power2(3);
  }

  // The headers are those that the parser reads in the bytes.
  ghost predicate ReadsAs(u: Unit, k: nat, h: Headers, st: Stored) {
    match ParseUnit(u.nal, k, st)
    case Throws => h.throws(k)
    case NoCount => !h.throws(k) && !HasPoc(u, k, h)
    case CountAt(offset) => !h.throws(k) && HasPoc(u, k, h) && h.offset(k) == offset
  }

  ghost predicate AllReadAs(units: seq<Unit>, h: Headers, st: Stored) {
    forall k: nat :: k < |units| ==> ReadsAs(units[k], k, h, st)
  }

  /* ----- Where the count is ----- */

  // The picture parameter sets stored before a unit have numbers of six bits.
  ghost predicate SmallNumbers(k: nat, st: Stored) {
    forall id: nat :: st.pps(k, id) ==> id < 64
  }

  lemma {:induction false} RbspGrows(nal: seq<Byte>, m: nat, n: nat)
    requires m <= n <= |nal|
    ensures |Rbsp(nal, m)| <= |Rbsp(nal, n)| && Rbsp(nal, n)[..|Rbsp(nal, m)|] == Rbsp(nal, m)
    decreases n
  {
    if m < n {
      RbspGrows(nal, m, n - 1);
    }
  }

  lemma {:induction false} RbspOfPlain(nal: seq<Byte>, m: nat)
    requires m <= |nal| && forall i: nat :: i < m ==> !Prevents(nal, i)
    ensures Rbsp(nal, m) == nal[..m]
    decreases m
  {
    if m > 0 {
      RbspOfPlain(nal, m - 1);
      assert nal[..m] == nal[..m - 1] + [nal[m - 1]];
    }
  }

  // Before the first preventing byte, the payload is the unit.
  lemma PlainStart(nal: seq<Byte>, m: nat)
    requires m <= |nal| && forall i: nat :: i < m ==> !Prevents(nal, i)
    ensures |Rbsp(nal, |nal|)| >= m && forall j :: 0 <= j < m ==> Rbsp(nal, |nal|)[j] == nal[j]
  {
    RbspOfPlain(nal, m);
    RbspGrows(nal, m, |nal|);
    assert forall j :: 0 <= j < m ==> Rbsp(nal, |nal|)[..m][j] == Rbsp(nal, |nal|)[j];
  }

  lemma {:induction false} StopIsSet(s: seq<Byte>, pos: nat)
    requires pos <= 8 * |s| && StopBit(s, pos) < 8 * |s|
    ensures Bit(s, StopBit(s, pos)) == 1
    decreases 8 * |s| - pos
  {
    if Bit(s, pos) != 1 {
      StopIsSet(s, pos + 1);
    }
  }

  lemma {:induction false} Power2Grows(a: nat, b: nat)
    requires a <= b
    ensures Power2(a) <= Power2(b)
  {
    if a < b {
      Power2Grows(a, b - 1);
    }
  }

  lemma SevenZerosAreMany(n: nat)
    requires Power2(n) <= 64
    ensures n <= 6
  {
    assert Power2(7) == 128 by {
      assert Power2(4) == 16;
    }
    if n > 6 {
      Power2Grows(7, n);
    }
  }

  lemma FewZeros(s: seq<Byte>, pos: nat)
    requires pos <= 8 * |s| && Uvlc(s, pos).Code? && Uvlc(s, pos).value < 64
    ensures StopBit(s, pos) - pos <= 6
  {
    SevenZerosAreMany(StopBit(s, pos) - pos);
  }

  // The set bit in a short number, and the bytes it and the count can lie in.
  lemma StopByte(p: seq<Byte>, pos: nat) returns (e: nat)
    requires pos <= 8 * |p| && UpToPoc(p, pos).Code? && UpToPoc(p, pos).value < 64
    ensures pos + 3 <= e <= pos + 11 && e < 8 * |p| && e < UpToPoc(p, pos).next <= e + 7
    ensures p[e / 8] != 0
  {
    var from := FlagsEnd(p, pos).next;
    e := StopBit(p, from);
    FewZeros(p, from);
    StopIsSet(p, from);
  }

  // The unit holds a count, which starts at a bit of the payload.
  ghost predicate CountIn(nal: seq<Byte>, next: nat) {
    && |nal| >= 2 && Converts(nal) && |PayloadOf(nal)| > 2
    && (TypeOf(nal) == PH || (IsSlice(Unit([], nal)) && Bit(PayloadOf(nal), 16) == 1))
    && var pos := if TypeOf(nal) == PH then 16 else 17; var r := UpToPoc(PayloadOf(nal), pos);
      r.Code? && r.value < 64 && r.next == next
  }

  lemma CountIsIn(nal: seq<Byte>, k: nat, st: Stored) returns (next: nat)
    requires ParseUnit(nal, k, st).CountAt? && SmallNumbers(k, st)
    ensures CountIn(nal, next)
    ensures ParseUnit(nal, k, st) == CountAt(next + 8 * Earlier(Preventions(nal, |nal|), next))
  {
    var p, pos := PayloadOf(nal), if TypeOf(nal) == PH then 16 else 17;
    next := UpToPoc(p, pos).next;
  }

  lemma PayloadStart(nal: seq<Byte>, j: nat)
    requires nal != [] && j < |PayloadOf(nal)|
    ensures j < |Rbsp(nal, |nal|)| && PayloadOf(nal)[j] == Rbsp(nal, |nal|)[j]
  {
  }

  lemma {:induction false} RbspIsShorter(nal: seq<Byte>, i: nat, n: nat)
    requires i < n <= |nal| && Prevents(nal, i)
    ensures |Rbsp(nal, n)| < n
    decreases n
  {
    if i < n - 1 {
      RbspIsShorter(nal, i, n - 1);
    }
  }

  // A preventing byte right behind the header is followed by a small one.
  lemma ThirdIsSmall(nal: seq<Byte>)
    requires Prevents(nal, 2) && Converts(nal) && |PayloadOf(nal)| > 2
    ensures PayloadOf(nal)[2] <= 3
  {
    RbspIsShorter(nal, 2, |nal|);
    RbspOfPlain(nal, 2);
    assert Rbsp(nal, 4) == nal[..2] + [nal[3]];
    RbspGrows(nal, 4, |nal|);
    assert Rbsp(nal, |nal|)[..3][2] == nal[3];
    PayloadStart(nal, 2);
  }

  lemma NotAtTwo(nal: seq<Byte>, next: nat)
    requires CountIn(nal, next)
    ensures !Prevents(nal, 2)
  {
    if Prevents(nal, 2) {
      ThirdIsSmall(nal);
    }
  }

  lemma NotAtThree(nal: seq<Byte>, next: nat)
    requires CountIn(nal, next)
    ensures !Prevents(nal, 3)
  {
    NotAtTwo(nal, next);
    if Prevents(nal, 3) {
      PlainStart(nal, 3);
      PayloadStart(nal, 2);
    }
  }

  lemma NotAtFour(nal: seq<Byte>, next: nat)
    requires CountIn(nal, next)
    ensures !Prevents(nal, 4)
    ensures Prevents(nal, 5) ==> next <= 30
    ensures 19 < next <= 35
  {
    NotAtTwo(nal, next);
    NotAtThree(nal, next);
    var e := StopByte(PayloadOf(nal), if TypeOf(nal) == PH then 16 else 17);
    PayloadStart(nal, e / 8);
    if Prevents(nal, 4) {
      PlainStart(nal, 4);
    } else if Prevents(nal, 5) {
      PlainStart(nal, 5);
    }
  }

  lemma EarlierMore(removed: seq<nat>, i: nat, bits: nat)
    requires Earlier(removed, bits) == 0 && 8 * i > bits
    ensures Earlier(removed + [i], bits) == 0
  {
    assert (removed + [i])[..|removed|] == removed;
  }

  lemma {:induction false} EarlierNone(nal: seq<Byte>, n: nat, bits: nat)
    requires n <= |nal| && forall i: nat :: i < n && Prevents(nal, i) ==> 8 * i > bits
    ensures Earlier(Preventions(nal, n), bits) == 0
    decreases n
  {
    if n > 0 {
      EarlierNone(nal, n - 1, bits);
      if Prevents(nal, n - 1) {
        EarlierMore(Preventions(nal, n - 1), n - 1, bits);
      } else {
        assert Preventions(nal, n - 1) + [] == Preventions(nal, n - 1);
      }
    }
  }

  // No preventing byte comes before the given one.
  ghost predicate PlainUpTo(nal: seq<Byte>, m: nat) {
    forall i: nat :: Prevents(nal, i) ==> i > m
  }

  lemma PlainBefore(nal: seq<Byte>, next: nat)
    requires !Prevents(nal, 2) && !Prevents(nal, 3) && !Prevents(nal, 4) && (Prevents(nal, 5) ==> next <= 30) && next <= 35
    ensures PlainUpTo(nal, next / 8 + 1) && Earlier(Preventions(nal, |nal|), next) == 0
  {
    forall i: nat | Prevents(nal, i)
      ensures i > next / 8 + 1 && 8 * i > next
    {
      assert i >= 5;
    }
    EarlierNone(nal, |nal|, next);
  }

  lemma NoneBeforeCount(nal: seq<Byte>, next: nat)
    requires CountIn(nal, next)
    ensures 19 < next <= 35 && PlainUpTo(nal, next / 8 + 1) && Earlier(Preventions(nal, |nal|), next) == 0
  {
    NotAtTwo(nal, next);
    NotAtThree(nal, next);
    NotAtFour(nal, next);
    PlainBefore(nal, next);
  }

  // No preventing byte ever comes before the count or inside it, so that the correction for them is never made,
  // and the count is the same in the unit and in the payload.
  lemma CountLiesInPayload(nal: seq<Byte>, k: nat, st: Stored, offset: nat)
    requires ParseUnit(nal, k, st) == CountAt(offset) && SmallNumbers(k, st)
    ensures 19 < offset <= 35 && CountIn(nal, offset) && PlainUpTo(nal, offset / 8 + 1)
    ensures offset / 8 + 1 < |nal| ==> offset / 8 + 1 < |Rbsp(nal, |nal|)| && Field(Rbsp(nal, |nal|), offset) == Field(nal, offset)
  {
    var next := CountIsIn(nal, k, st);
    NoneBeforeCount(nal, next);
    if offset / 8 + 1 < |nal| {
      PlainStart(nal, offset / 8 + 2);
    }
  }
}
