/**
 Concatenating bitstreams: the NAL units of each segment are copied with the picture order counts in their
 picture headers moved on by the pictures of the segments before, and from the second segment on the IDR
 pictures, and what precedes them, are dropped.  What the header parser reads is a parameter.
 */
module ParcatFilter {
  import opened ParcatField
  import opened ParcatNal

  const IDR_W_RADL: nat := 7
  const IDR_N_LP: nat := 8
  const RESERVED_IRAP_VCL_12: nat := 12
  const DCI: nat := 13
  const SUFFIX_APS: nat := 18
  const PH: nat := 19
  const ACCESS_UNIT_DELIMITER: nat := 20
  const SUFFIX_SEI: nat := 24

  // A NAL unit and the bytes before it, up to and with its start code.
  datatype Unit = Unit(lead: seq<Byte>, nal: seq<Byte>)

  // What the parser reads in the units of a segment: whether it throws at the k-th, whether that, a slice, holds
  // a picture header, and the bit offset of the picture order count in it.
  datatype Headers = Headers(throws: nat -> bool, inSlice: nat -> bool, offset: nat -> nat)

  function UnitType(u: Unit): nat {
    if |u.nal| < 2 then 0 else var header: int := u.nal[1]; header / 8
  }

  predicate IsIdr(u: Unit) {
    UnitType(u) == IDR_W_RADL || UnitType(u) == IDR_N_LP
  }

  // The other slices.
  predicate IsSlice(u: Unit) {
    UnitType(u) < IDR_W_RADL || IDR_N_LP < UnitType(u) <= RESERVED_IRAP_VCL_12
  }

  // Parameter sets, picture headers and delimiters.
  predicate IsParameter(u: Unit) {
    DCI <= UnitType(u) <= SUFFIX_APS || UnitType(u) == PH || UnitType(u) == ACCESS_UNIT_DELIMITER
  }

  predicate HasPoc(u: Unit, k: nat, h: Headers) {
    UnitType(u) == PH || (IsSlice(u) && h.inSlice(k))
  }

  // The unit holds its header, and all of the count that the parser finds behind that.
  predicate Holds(u: Unit, k: nat, h: Headers) {
    |u.nal| >= 2 && (HasPoc(u, k, h) ==> 16 <= h.offset(k) && h.offset(k) / 8 + 1 < |u.nal|)
  }

  // What the parser does not throw at is inside the unit.
  predicate InBounds(units: seq<Unit>, h: Headers) {
    forall k: nat :: k < |units| ==> h.throws(k) || Holds(units[k], k, h)
  }

  // The parser can read a unit.
  predicate IsReadable(u: Unit, k: nat, h: Headers) {
    !h.throws(k) && Holds(u, k, h)
  }

  predicate Readable(units: seq<Unit>, h: Headers) {
    forall k: nat :: k < |units| ==> IsReadable(units[k], k, h)
  }

  predicate NoThrow(h: Headers, n: nat) {
    forall k: nat :: k < n ==> !h.throws(k)
  }

  lemma ThrownAt(units: seq<Unit>, h: Headers, k: nat)
    requires k < |units| && h.throws(k)
    ensures !Readable(units, h)
  {
    assert !IsReadable(units[k], k, h);
  }

  lemma NoneThrown(units: seq<Unit>, h: Headers)
    requires InBounds(units, h) && NoThrow(h, |units|)
    ensures Readable(units, h)
  {
  }

  /* ----- Segmentation ----- */

  predicate Fits(f: Found, size: nat) {
    3 <= f.start < f.end <= size
  }

  lemma FoundFits(buf: seq<Byte>, beyond: Beyond)
    requires FindUnit(buf, beyond).len > 0
    ensures Fits(FindUnit(buf, beyond), |buf|)
    ensures var f := FindUnit(buf, beyond); buf[f.start - 3..f.start] == [0, 0, 1]
  {
    FoundUnit(buf, beyond);
  }

  function UnitAt(buf: seq<Byte>, f: Found): Unit
    requires Fits(f, |buf|)
  {
    Unit(buf[..f.start], buf[f.start..f.end])
  }

  function LeadOf(buf: seq<Byte>, beyond: Beyond): (u: Unit)
    requires FindUnit(buf, beyond).len > 0
  {
    FoundFits(buf, beyond);
    UnitAt(buf, FindUnit(buf, beyond))
  }

  function Behind(buf: seq<Byte>, beyond: Beyond): (rest: seq<Byte>)
    requires FindUnit(buf, beyond).len > 0
    ensures |rest| < |buf|
  {
    FoundFits(buf, beyond);
    buf[FindUnit(buf, beyond).end..]
  }

  // The units that repeated searches find.
  function Segmented(buf: seq<Byte>, beyond: Beyond): seq<Unit>
    decreases |buf|
  {
    if FindUnit(buf, beyond).len == 0 then []
    else [LeadOf(buf, beyond)] + Segmented(Behind(buf, beyond), beyond)
  }

  // The bytes in which nothing more is found.
  function Leftover(buf: seq<Byte>, beyond: Beyond): seq<Byte>
    decreases |buf|
  {
    if FindUnit(buf, beyond).len == 0 then buf else Leftover(Behind(buf, beyond), beyond)
  }

  function Bytes(u: Unit): seq<Byte> {
    u.lead + u.nal
  }

  function Joined(units: seq<Unit>): seq<Byte> {
    if |units| == 0 then [] else Bytes(units[0]) + Joined(units[1..])
  }

  predicate EndsInStartCode(s: seq<Byte>) {
    |s| >= 3 && s[|s| - 3..] == [0, 0, 1]
  }

  lemma UnitTakenOff(buf: seq<Byte>, beyond: Beyond)
    requires FindUnit(buf, beyond).len > 0
    ensures var u := LeadOf(buf, beyond);
      buf == Bytes(u) + Behind(buf, beyond) && EndsInStartCode(u.lead) && |u.nal| > 0
  {
    FoundFits(buf, beyond);
    TakenApart(buf, FindUnit(buf, beyond));
  }

  lemma TakenApart(buf: seq<Byte>, f: Found)
    requires Fits(f, |buf|)
    ensures buf == Bytes(UnitAt(buf, f)) + buf[f.end..]
    ensures UnitAt(buf, f).lead[f.start - 3..] == buf[f.start - 3..f.start]
  {
  }

  lemma MoreJoined(u: Unit, units: seq<Unit>)
    ensures Joined([u] + units) == Bytes(u) + Joined(units)
  {
    assert ([u] + units)[1..] == units;
  }

  lemma Regrouped(a: seq<Byte>, b: seq<Byte>, c: seq<Byte>)
    ensures a + b + c == a + (b + c)
  {
  }

  // Segmentation loses nothing: the units and the leftover make up the buffer, every unit stands behind a
  // start code, and in the leftover no further unit is found.
  lemma {:induction false} SegmentationIsLossless(buf: seq<Byte>, beyond: Beyond)
    ensures Joined(Segmented(buf, beyond)) + Leftover(buf, beyond) == buf
    ensures FindUnit(Leftover(buf, beyond), beyond).len == 0
    ensures forall u :: u in Segmented(buf, beyond) ==> EndsInStartCode(u.lead) && |u.nal| > 0
    decreases |buf|
  {
    if FindUnit(buf, beyond).len > 0 {
      UnitTakenOff(buf, beyond);
      var u, rest := LeadOf(buf, beyond), Behind(buf, beyond);
      SegmentationIsLossless(rest, beyond);
      MoreJoined(u, Segmented(rest, beyond));
      Regrouped(Bytes(u), Joined(Segmented(rest, beyond)), Leftover(rest, beyond));
    }
  }

  /* ----- One unit ----- */

  // The unit with its picture order count moved on.
  function Moved(u: Unit, k: nat, h: Headers, pocBase: int, lastIdrPoc: int): (r: Unit)
    ensures r.lead == u.lead && |r.nal| == |u.nal|
  {
    if HasPoc(u, k, h) && h.offset(k) / 8 + 1 < |u.nal| then
      u.(nal := Patched(u.nal, h.offset(k), NewField(Field(u.nal, h.offset(k)), pocBase, lastIdrPoc)))
    else u
  }

  datatype State = State(out: seq<Byte>, cnt: int, idrFound: bool, skipSei: bool, afterPh: bool)

  const START: State := State([], 0, false, false, false)

  function CountAfter(s: State, u: Unit, k: nat, h: Headers): int {
    var cnt := if IsIdr(u) && s.afterPh then s.cnt - 1 else s.cnt;
    if HasPoc(u, k, h) then cnt + 1 else cnt
  }

  predicate Drops(u: Unit, idx: nat, idrFound: bool, skipSei: bool) {
    (idx > 1 && IsIdr(u)) || (idx > 1 && !idrFound && IsParameter(u)) || (UnitType(u) == SUFFIX_SEI && skipSei)
  }

  function Step(s: State, u: Unit, k: nat, h: Headers, idx: nat, pocBase: int, lastIdrPoc: int): State {
    var idr := idx > 1 && IsIdr(u);
    var idrFound, skipSei := s.idrFound || idr, s.skipSei || idr;
    var out := if Drops(u, idx, idrFound, skipSei) then s.out else s.out + Bytes(Moved(u, k, h, pocBase, lastIdrPoc));
    State(out, CountAfter(s, u, k, h), idrFound, skipSei && UnitType(u) != SUFFIX_SEI,
          UnitType(u) == PH || (s.afterPh && !IsIdr(u)))
  }

  // The state after the first n units.
  function After(units: seq<Unit>, n: nat, h: Headers, idx: nat, pocBase: int, lastIdrPoc: int): State
    requires n <= |units|
  {
    if n == 0 then START
    else Step(After(units, n - 1, h, idx, pocBase, lastIdrPoc), units[n - 1], n - 1, h, idx, pocBase, lastIdrPoc)
  }

  // The count in a unit, patched in place.
  method MovePoc(nal: seq<Byte>, offset: nat, pocBase: int, lastIdrPoc: int) returns (r: seq<Byte>)
    requires offset / 8 + 1 < |nal|
    ensures r == Patched(nal, offset, NewField(Field(nal, offset), pocBase, lastIdrPoc))
  {
    var data := WordAt(nal, offset);
    var scale := Scale(offset);
    var value := NewField(Middle(data, scale), pocBase, lastIdrPoc);
    FieldFits(data, offset, value);
    data := NewWord(data, scale, value);
    WordSplits(data);
    r := nal[offset / 8 := data / 256][offset / 8 + 1 := data % 256];
  }

  // One unit is looked at: an exception, or the counters and flags, and what is written.
  method FilterUnit(s: State, u: Unit, k: nat, h: Headers, idx: nat, pocBase: int, lastIdrPoc: int) returns (thrown: bool, r: State)
    requires h.throws(k) || Holds(u, k, h)
    ensures thrown <==> h.throws(k)
    ensures !thrown ==> r == Step(s, u, k, h, idx, pocBase, lastIdrPoc)
  {
    thrown, r := h.throws(k), s;
    if thrown {
      return;
    }
    var out, cnt, idrFound, skipSei, afterPh := s.out, s.cnt, s.idrFound, s.skipSei, s.afterPh;
    var nal := u.nal;
    if IsIdr(u) {
      if afterPh {
        cnt := cnt - 1;
      }
      afterPh := false;
    }
    if UnitType(u) == PH || IsSlice(u) {
      var changePoc := h.inSlice(k);
      if UnitType(u) == PH {
        changePoc := true;
        afterPh := true;
      }
      if changePoc {
        nal := MovePoc(nal, h.offset(k), pocBase, lastIdrPoc);
        cnt := cnt + 1;
      }
    }
    if idx > 1 && IsIdr(u) {
      skipSei := true;
      idrFound := true;
    }
    if !((idx > 1 && IsIdr(u)) || (idx > 1 && !idrFound && IsParameter(u)) || (UnitType(u) == SUFFIX_SEI && skipSei)) {
      out := out + (u.lead + nal);
    }
    if UnitType(u) == SUFFIX_SEI && skipSei {
      skipSei := false;
    }
    r := State(out, cnt, idrFound, skipSei, afterPh);
  }

  // What is left to segment, from the n-th unit on.
  ghost predicate Ahead(units: seq<Unit>, n: nat, rest: seq<Byte>, beyond: Beyond) {
    n <= |units| && units[n..] == Segmented(rest, beyond)
  }

  lemma NextUnit(units: seq<Unit>, n: nat, rest: seq<Byte>, beyond: Beyond)
    requires Ahead(units, n, rest, beyond) && FindUnit(rest, beyond).len > 0
    ensures n < |units| && units[n] == LeadOf(rest, beyond) && Ahead(units, n + 1, Behind(rest, beyond), beyond)
  {
    assert units[n] == units[n..][0];
    assert units[n + 1..] == units[n..][1..];
  }

  // A slice of the end of a buffer is a slice of the buffer.
  lemma SliceOfEnd(v: seq<Byte>, p: nat, i: nat, j: nat)
    requires p <= |v| && i <= j <= |v| - p
    ensures v[p..][i..j] == v[p + i..p + j]
  {
  }

  // A unit found at a position.
  lemma SlicesAt(v: seq<Byte>, p: nat, sz: nat, f: Found)
    requires p + sz == |v| && Fits(f, sz)
    ensures Unit(v[p..p + f.start], v[p + f.start..p + f.end]) == UnitAt(v[p..p + sz], f)
    ensures v[p + f.end..p + sz] == v[p..p + sz][f.end..]
  {
    assert v[p..p + sz] == v[p..];
    SliceOfEnd(v, p, 0, f.start);
    SliceOfEnd(v, p, f.start, f.end);
    SliceOfEnd(v, p, f.end, sz);
  }

  // A position in the buffer, the bytes behind it, what was found there, and how many units came before.
  datatype Cursor = Cursor(p: nat, sz: nat, rest: seq<Byte>, found: Found, k: nat)

  ghost predicate Position(units: seq<Unit>, v: seq<Byte>, beyond: Beyond, c: Cursor) {
    && c.p + c.sz == |v| && c.rest == v[c.p..c.p + c.sz]
    && c.found == FindUnit(c.rest, beyond) && Ahead(units, c.k, c.rest, beyond)
  }

  lemma UnitReached(units: seq<Unit>, v: seq<Byte>, beyond: Beyond, p: nat, sz: nat, rest: seq<Byte>, f: Found, k: nat)
    requires Position(units, v, beyond, Cursor(p, sz, rest, f, k)) && f.len > 0
    ensures Fits(f, sz) && p + sz == |v| && k < |units|
    ensures units[k] == Unit(v[p..p + f.start], v[p + f.start..p + f.end])
    ensures v[p + f.end..p + sz] == rest[f.end..] && Ahead(units, k + 1, rest[f.end..], beyond)
  {
    NextUnit(units, k, rest, beyond);
    FoundFits(rest, beyond);
    SlicesAt(v, p, sz, f);
  }

  // Behind the unit found, the rest of the buffer is ahead.
  lemma NextPosition(units: seq<Unit>, v: seq<Byte>, beyond: Beyond, p: nat, sz: nat, rest: seq<Byte>, k: nat)
    requires p + sz == |v| && rest == v[p..p + sz] && Ahead(units, k, rest, beyond)
    ensures Position(units, v, beyond, Cursor(p, sz, rest, FindUnit(rest, beyond), k)) && k <= |units|
  {
  }

  lemma FirstPosition(v: seq<Byte>, beyond: Beyond)
    ensures Position(Segmented(v, beyond), v, beyond, Cursor(0, |v|, v, FindUnit(v, beyond), 0))
  {
  }

  lemma NothingAhead(units: seq<Unit>, n: nat, rest: seq<Byte>, beyond: Beyond)
    requires Ahead(units, n, rest, beyond) && FindUnit(rest, beyond).len == 0
    ensures n == |units|
  {
  }

  // The n-th unit is looked at.
  method FilterNth(ghost units: seq<Unit>, s: State, u: Unit, k: nat, h: Headers, idx: nat, pocBase: int, lastIdrPoc: int)
    returns (thrown: bool, r: State)
    requires InBounds(units, h) && k < |units| && u == units[k]
    requires s == After(units, k, h, idx, pocBase, lastIdrPoc) && NoThrow(h, k)
    ensures thrown ==> !Readable(units, h)
    ensures !thrown ==> r == After(units, k + 1, h, idx, pocBase, lastIdrPoc) && NoThrow(h, k + 1)
  {
    thrown, r := FilterUnit(s, u, k, h, idx, pocBase, lastIdrPoc);
    if thrown {
      ThrownAt(units, h, k);
    }
  }

  // The unit found is taken, and the next one is searched for.
  method TakeUnit(ghost units: seq<Unit>, v: seq<Byte>, beyond: Beyond, c: Cursor) returns (u: Unit, next: Cursor)
    requires Position(units, v, beyond, c) && c.found.len > 0
    ensures c.k < |units| && u == units[c.k]
    ensures Position(units, v, beyond, next) && next.k == c.k + 1 && next.sz < c.sz
  {
    var p: nat, sz: nat, f, k: nat := c.p, c.sz, c.found, c.k;
    UnitReached(units, v, beyond, p, sz, c.rest, f, k);
    u := Unit(v[p..p + f.start], v[p + f.start..p + f.end]);
    var rest := v[p + f.end..p + sz];
    p, sz, k := p + f.end, sz - f.end, k + 1;
    var found := FindNalUnit(rest, beyond);
    NextPosition(units, v, beyond, p, sz, rest, k);
    next := Cursor(p, sz, rest, found, k);
  }

  // The whole segment, unless the parser throws: the position and the bytes behind it always add up to the
  // end of the buffer.
  method FilterSegment(v: seq<Byte>, beyond: Beyond, h: Headers, idx: nat, pocBase: int, lastIdrPoc: int)
    returns (thrown: bool, out: seq<Byte>, newBase: int)
    requires InBounds(Segmented(v, beyond), h)
    ensures thrown <==> !Readable(Segmented(v, beyond), h)
    ensures var s := After(Segmented(v, beyond), |Segmented(v, beyond)|, h, idx, pocBase, lastIdrPoc);
      !thrown ==> out == s.out && newBase == pocBase + s.cnt
  {
    ghost var units := Segmented(v, beyond);
    FirstPosition(v, beyond);
    var f := FindNalUnit(v, beyond);
    var s, c := START, Cursor(0, |v|, v, f, 0);
    while c.found.len > 0
      invariant Position(units, v, beyond, c) && c.k <= |units|
      invariant s == After(units, c.k, h, idx, pocBase, lastIdrPoc) && NoThrow(h, c.k)
      decreases c.sz
    {
      var u, next := TakeUnit(units, v, beyond, c);
      thrown, s := FilterNth(units, s, u, c.k, h, idx, pocBase, lastIdrPoc);
      c := next;
      if thrown {
        return true, [], pocBase;
      }
    }
    NothingAhead(units, c.k, c.rest, beyond);
    NoneThrown(units, h);
    thrown, out, newBase := false, s.out, pocBase + s.cnt;
  }
}
