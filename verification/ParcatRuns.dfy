/**
 What concatenation does to whole segments and to lists of them: which units come out, which bits of them
 change, and by how much the picture order counts move.
 */
module ParcatRuns {
  import opened ParcatField
  import opened ParcatFilter
  import opened ParcatNal

  /* ----- Which units are dropped ----- */

  predicate IdrBefore(units: seq<Unit>, n: nat)
    requires n <= |units|
  {
    exists j: nat :: j < n && IsIdr(units[j])
  }

  predicate NoSei(units: seq<Unit>, from: nat, to: nat)
    requires to <= |units|
  {
    forall l :: from < l < to ==> UnitType(units[l]) != SUFFIX_SEI
  }

  // An IDR picture came, and no suffix message since.
  predicate SeiPending(units: seq<Unit>, n: nat)
    requires n <= |units|
  {
    exists j: nat :: j < n && IsIdr(units[j]) && NoSei(units, j, n)
  }

  predicate NoIdr(units: seq<Unit>, from: nat, to: nat)
    requires to <= |units|
  {
    forall l :: from < l < to ==> !IsIdr(units[l])
  }

  // A picture header came, and no IDR slice since.
  predicate PhPending(units: seq<Unit>, n: nat)
    requires n <= |units|
  {
    exists j: nat :: j < n && UnitType(units[j]) == PH && NoIdr(units, j, n)
  }

  // From the second segment on: the IDR pictures, the parameter sets, picture headers and delimiters before
  // the first of them, and the first suffix message behind each.
  predicate Dropped(units: seq<Unit>, i: nat, idx: nat)
    requires i < |units|
  {
    idx > 1 && (IsIdr(units[i]) || (IsParameter(units[i]) && !IdrBefore(units, i))
                || (UnitType(units[i]) == SUFFIX_SEI && SeiPending(units, i)))
  }

  lemma SeiPendingNext(units: seq<Unit>, n: nat)
    requires n < |units|
    ensures SeiPending(units, n + 1) <==> (SeiPending(units, n) || IsIdr(units[n])) && UnitType(units[n]) != SUFFIX_SEI
  {
    if SeiPending(units, n + 1) {
      var j: nat :| j < n + 1 && IsIdr(units[j]) && NoSei(units, j, n + 1);
      assert j < n ==> NoSei(units, j, n);
    }
    if SeiPending(units, n) && UnitType(units[n]) != SUFFIX_SEI {
      var j: nat :| j < n && IsIdr(units[j]) && NoSei(units, j, n);
      assert NoSei(units, j, n + 1);
    }
    if IsIdr(units[n]) {
      assert NoSei(units, n, n + 1);
    }
  }

  lemma PhPendingNext(units: seq<Unit>, n: nat)
    requires n < |units|
    ensures PhPending(units, n + 1) <==> UnitType(units[n]) == PH || (PhPending(units, n) && !IsIdr(units[n]))
  {
    if PhPending(units, n + 1) {
      var j: nat :| j < n + 1 && UnitType(units[j]) == PH && NoIdr(units, j, n + 1);
      assert j < n ==> NoIdr(units, j, n);
    }
    if PhPending(units, n) && !IsIdr(units[n]) {
      var j: nat :| j < n && UnitType(units[j]) == PH && NoIdr(units, j, n);
      assert NoIdr(units, j, n + 1);
    }
    if UnitType(units[n]) == PH {
      assert NoIdr(units, n, n + 1);
    }
  }

  lemma IdrBeforeNext(units: seq<Unit>, n: nat)
    requires n < |units|
    ensures IdrBefore(units, n + 1) <==> IdrBefore(units, n) || IsIdr(units[n])
  {
  }

  // What the flags say before the n-th unit.
  ghost predicate FlagsSay(units: seq<Unit>, n: nat, idx: nat, s: State)
    requires n <= |units|
  {
    && s.idrFound == (idx > 1 && IdrBefore(units, n))
    && s.skipSei == (idx > 1 && SeiPending(units, n))
    && s.afterPh == PhPending(units, n)
  }

  lemma FlagsNext(units: seq<Unit>, n: nat, next: nat, s: State, h: Headers, idx: nat, pocBase: int, lastIdrPoc: int)
    requires next == n + 1 <= |units| && FlagsSay(units, n, idx, s)
    ensures FlagsSay(units, next, idx, Step(s, units[n], n, h, idx, pocBase, lastIdrPoc))
  {
    IdrBeforeNext(units, n);
    SeiPendingNext(units, n);
    PhPendingNext(units, n);
  }

  lemma FlagsStart(units: seq<Unit>, idx: nat)
    ensures FlagsSay(units, 0, idx, START)
  {
  }

  // The flags say what their names say.
  lemma {:induction false} FlagsAre(units: seq<Unit>, n: nat, h: Headers, idx: nat, pocBase: int, lastIdrPoc: int)
    requires n <= |units|
    ensures FlagsSay(units, n, idx, After(units, n, h, idx, pocBase, lastIdrPoc))
    decreases n
  {
    if n == 0 {
      FlagsStart(units, idx);
    } else {
      FlagsAre(units, n - 1, h, idx, pocBase, lastIdrPoc);
      FlagsNext(units, n - 1, n, After(units, n - 1, h, idx, pocBase, lastIdrPoc), h, idx, pocBase, lastIdrPoc);
    }
  }

  /* ----- What comes out ----- */

  function MovedUnits(units: seq<Unit>, n: nat, h: Headers, pocBase: int, lastIdrPoc: int): (r: seq<Unit>)
    requires n <= |units|
    ensures |r| == n && forall i :: 0 <= i < n ==> r[i] == Moved(units[i], i, h, pocBase, lastIdrPoc)
  {
    if n == 0 then []
    else MovedUnits(units, n - 1, h, pocBase, lastIdrPoc) + [Moved(units[n - 1], n - 1, h, pocBase, lastIdrPoc)]
  }

  // The units that are not dropped, moved.
  function Kept(units: seq<Unit>, n: nat, h: Headers, idx: nat, pocBase: int, lastIdrPoc: int): seq<Unit>
    requires n <= |units|
  {
    if n == 0 then []
    else
      var before := Kept(units, n - 1, h, idx, pocBase, lastIdrPoc);
      if Dropped(units, n - 1, idx) then before else before + [Moved(units[n - 1], n - 1, h, pocBase, lastIdrPoc)]
  }

  lemma {:induction false} JoinedSnoc(units: seq<Unit>, u: Unit)
    ensures Joined(units + [u]) == Joined(units) + Bytes(u)
  {
    if |units| == 0 {
      MoreJoined(u, []);
    } else {
      JoinedSnoc(units[1..], u);
      assert units + [u] == [units[0]] + (units[1..] + [u]);
      MoreJoined(units[0], units[1..] + [u]);
    }
  }

  // What the flags decide is what the place in the segment decides.
  lemma DropsIsDropped(units: seq<Unit>, n: nat, idx: nat, idrFound: bool, skipSei: bool)
    requires n < |units| && idrFound == (idx > 1 && IdrBefore(units, n)) && skipSei == (idx > 1 && SeiPending(units, n))
    ensures var idr := idx > 1 && IsIdr(units[n]);
      Drops(units[n], idx, idrFound || idr, skipSei || idr) <==> Dropped(units, n, idx)
  {
  }

  lemma StepKeeps(units: seq<Unit>, n: nat, s: State, h: Headers, idx: nat, pocBase: int, lastIdrPoc: int)
    requires n < |units| && FlagsSay(units, n, idx, s)
    ensures Step(s, units[n], n, h, idx, pocBase, lastIdrPoc).out
         == if Dropped(units, n, idx) then s.out else s.out + Bytes(Moved(units[n], n, h, pocBase, lastIdrPoc))
  {
    DropsIsDropped(units, n, idx, s.idrFound, s.skipSei);
  }

  // The output is made of the units that are not dropped, in their order.
  lemma {:induction false} OutputIsKept(units: seq<Unit>, n: nat, h: Headers, idx: nat, pocBase: int, lastIdrPoc: int)
    requires n <= |units|
    ensures After(units, n, h, idx, pocBase, lastIdrPoc).out == Joined(Kept(units, n, h, idx, pocBase, lastIdrPoc))
    decreases n
  {
    if n > 0 {
      OutputIsKept(units, n - 1, h, idx, pocBase, lastIdrPoc);
      FlagsAre(units, n - 1, h, idx, pocBase, lastIdrPoc);
      StepKeeps(units, n - 1, After(units, n - 1, h, idx, pocBase, lastIdrPoc), h, idx, pocBase, lastIdrPoc);
      JoinedSnoc(Kept(units, n - 1, h, idx, pocBase, lastIdrPoc), Moved(units[n - 1], n - 1, h, pocBase, lastIdrPoc));
    }
  }

  // In the first segment nothing is dropped.
  lemma {:induction false} FirstKeepsAll(units: seq<Unit>, n: nat, h: Headers, idx: nat, pocBase: int, lastIdrPoc: int)
    requires n <= |units| && idx <= 1
    ensures Kept(units, n, h, idx, pocBase, lastIdrPoc) == MovedUnits(units, n, h, pocBase, lastIdrPoc)
  {
    if n > 0 {
      FirstKeepsAll(units, n - 1, h, idx, pocBase, lastIdrPoc);
    }
  }

  // Moving a unit changes the eight bits of the count, by the base, and nothing else.
  lemma UnitOnlyMoves(u: Unit, k: nat, h: Headers, pocBase: int, lastIdrPoc: int)
    requires IsReadable(u, k, h)
    ensures var r := Moved(u, k, h, pocBase, lastIdrPoc);
      && r.lead == u.lead && UnitType(r) == UnitType(u)
      && (!HasPoc(u, k, h) ==> r == u)
      && (HasPoc(u, k, h) ==> OnlyFieldChanges(u.nal, r.nal, h.offset(k), NewField(Field(u.nal, h.offset(k)), pocBase, lastIdrPoc)))
  {
    if HasPoc(u, k, h) {
      PatchKeepsNeighbours(u.nal, h.offset(k), NewField(Field(u.nal, h.offset(k)), pocBase, lastIdrPoc));
    }
  }

  // Two units that agree in all bits but the eight at an offset, which are given for the second.
  ghost predicate OnlyFieldChanges(a: seq<Byte>, b: seq<Byte>, offset: nat, value: nat) {
    && |a| == |b| && offset / 8 + 1 < |a|
    && (forall i :: 0 <= i < |a| && i != offset / 8 && i != offset / 8 + 1 ==> b[i] == a[i])
    && Field(b, offset) == value
    && High(WordAt(b, offset), Scale(offset)) == High(WordAt(a, offset), Scale(offset))
    && Low(WordAt(b, offset), Scale(offset)) == Low(WordAt(a, offset), Scale(offset))
  }

  lemma {:induction false} JoinedTellsApart(a: seq<Unit>, b: seq<Unit>)
    requires |a| == |b| && Joined(a) == Joined(b)
    requires forall i :: 0 <= i < |a| ==> |a[i].lead| == |b[i].lead| && |a[i].nal| == |b[i].nal|
    ensures a == b
  {
    if |a| > 0 {
      SameStartsSameRests(Bytes(a[0]), Joined(a[1..]), Bytes(b[0]), Joined(b[1..]));
      SameStartsSameRests(a[0].lead, a[0].nal, b[0].lead, b[0].nal);
      JoinedTellsApart(a[1..], b[1..]);
      assert a == [a[0]] + a[1..] && b == [b[0]] + b[1..];
    }
  }

  lemma SameStartsSameRests(a: seq<Byte>, c: seq<Byte>, b: seq<Byte>, d: seq<Byte>)
    requires a + c == b + d && |a| == |b|
    ensures a == b && c == d
  {
    assert a == (a + c)[..|a|] && b == (b + d)[..|b|];
    assert c == (a + c)[|a|..] && d == (b + d)[|b|..];
  }

  // No count moves: the base is a multiple of 256, or there is no count.
  predicate NothingMoves(units: seq<Unit>, h: Headers, pocBase: int, lastIdrPoc: int) {
    (pocBase - lastIdrPoc) % 256 == 0 || forall k: nat :: k < |units| ==> !HasPoc(units[k], k, h)
  }

  lemma SameField(f: nat, pocBase: int, lastIdrPoc: int)
    requires f < 256
    ensures NewField(f, pocBase, lastIdrPoc) == f <==> (pocBase - lastIdrPoc) % 256 == 0
  {
  }

  lemma UnitStays(u: Unit, k: nat, h: Headers, pocBase: int, lastIdrPoc: int)
    requires IsReadable(u, k, h)
    ensures Moved(u, k, h, pocBase, lastIdrPoc) == u <==> !HasPoc(u, k, h) || (pocBase - lastIdrPoc) % 256 == 0
  {
    if HasPoc(u, k, h) {
      SameField(Field(u.nal, h.offset(k)), pocBase, lastIdrPoc);
      UnitOnlyMoves(u, k, h, pocBase, lastIdrPoc);
      PatchOfSame(u.nal, h.offset(k));
    }
  }

  lemma UnitsStay(units: seq<Unit>, h: Headers, pocBase: int, lastIdrPoc: int)
    requires Readable(units, h)
    ensures MovedUnits(units, |units|, h, pocBase, lastIdrPoc) == units <==> NothingMoves(units, h, pocBase, lastIdrPoc)
  {
    forall k: nat | k < |units|
      ensures Moved(units[k], k, h, pocBase, lastIdrPoc) == units[k]
              <==> !HasPoc(units[k], k, h) || (pocBase - lastIdrPoc) % 256 == 0
    {
      UnitStays(units[k], k, h, pocBase, lastIdrPoc);
    }
  }

  lemma SameEnds(a: seq<Byte>, b: seq<Byte>, c: seq<Byte>)
    ensures a + c == b + c <==> a == b
  {
    if a + c == b + c {
      assert |a + c| == |a| + |c| && |b + c| == |b| + |c|;
      SameStartsSameRests(a, c, b, c);
    }
  }

  lemma MovedIsSameIff(units: seq<Unit>, h: Headers, pocBase: int, lastIdrPoc: int)
    requires Readable(units, h)
    ensures Joined(MovedUnits(units, |units|, h, pocBase, lastIdrPoc)) == Joined(units) <==> NothingMoves(units, h, pocBase, lastIdrPoc)
  {
    var moved := MovedUnits(units, |units|, h, pocBase, lastIdrPoc);
    UnitsStay(units, h, pocBase, lastIdrPoc);
    if Joined(moved) == Joined(units) {
      JoinedTellsApart(moved, units);
    }
  }

  lemma FirstSegmentIsMoved(units: seq<Unit>, h: Headers, pocBase: int, lastIdrPoc: int)
    ensures After(units, |units|, h, 1, pocBase, lastIdrPoc).out == Joined(MovedUnits(units, |units|, h, pocBase, lastIdrPoc))
  {
    OutputIsKept(units, |units|, h, 1, pocBase, lastIdrPoc);
    FirstKeepsAll(units, |units|, h, 1, pocBase, lastIdrPoc);
  }

  // The first segment comes out as the units of the consumed input, moved; and byte for byte as the consumed
  // input exactly when no count moves.
  lemma FirstSegmentIsLossless(v: seq<Byte>, beyond: Beyond, h: Headers, pocBase: int, lastIdrPoc: int)
    requires Readable(Segmented(v, beyond), h)
    ensures var units, out := Segmented(v, beyond), After(Segmented(v, beyond), |Segmented(v, beyond)|, h, 1, pocBase, lastIdrPoc).out;
      && Joined(units) + Leftover(v, beyond) == v
      && out == Joined(MovedUnits(units, |units|, h, pocBase, lastIdrPoc))
      && (out + Leftover(v, beyond) == v <==> NothingMoves(units, h, pocBase, lastIdrPoc))
  {
    var units := Segmented(v, beyond);
    SegmentationIsLossless(v, beyond);
    FirstSegmentIsMoved(units, h, pocBase, lastIdrPoc);
    MovedIsSameIff(units, h, pocBase, lastIdrPoc);
    SameEnds(Joined(MovedUnits(units, |units|, h, pocBase, lastIdrPoc)), Joined(units), Leftover(v, beyond));
  }

  // From the second segment on no IDR picture is left.
  lemma {:induction false} LaterSegmentsHaveNoIdr(units: seq<Unit>, n: nat, h: Headers, idx: nat, pocBase: int, lastIdrPoc: int)
    requires n <= |units| && idx > 1 && Readable(units, h)
    ensures forall u :: u in Kept(units, n, h, idx, pocBase, lastIdrPoc) ==> !IsIdr(u)
  {
    if n > 0 {
      LaterSegmentsHaveNoIdr(units, n - 1, h, idx, pocBase, lastIdrPoc);
      UnitOnlyMoves(units[n - 1], n - 1, h, pocBase, lastIdrPoc);
    }
  }

  /* ----- How much is counted ----- */

  // One for each count, less one for each IDR slice with a picture header of its own.
  function Pictures(units: seq<Unit>, n: nat, h: Headers): int
    requires n <= |units|
  {
    if n == 0 then 0
    else Pictures(units, n - 1, h) + (if HasPoc(units[n - 1], n - 1, h) then 1 else 0)
         - if IsIdr(units[n - 1]) && PhPending(units, n - 1) then 1 else 0
  }

  // What is counted depends neither on the segment's place nor on what was counted before, and is not negative.
  lemma {:induction false} CountIsPictures(units: seq<Unit>, n: nat, h: Headers, idx: nat, pocBase: int, lastIdrPoc: int)
    requires n <= |units|
    ensures After(units, n, h, idx, pocBase, lastIdrPoc).cnt == Pictures(units, n, h)
    ensures Pictures(units, n, h) >= if PhPending(units, n) then 1 else 0
  {
    if n > 0 {
      CountIsPictures(units, n - 1, h, idx, pocBase, lastIdrPoc);
      FlagsAre(units, n - 1, h, idx, pocBase, lastIdrPoc);
      PhPendingNext(units, n - 1);
    }
  }

  /* ----- Lists of segments ----- */

  datatype Segment = Segment(data: seq<Byte>, beyond: Beyond, h: Headers)

  function UnitsOf(s: Segment): seq<Unit> {
    Segmented(s.data, s.beyond)
  }

  predicate AllInBounds(segs: seq<Segment>) {
    forall i :: 0 <= i < |segs| ==> InBounds(UnitsOf(segs[i]), segs[i].h)
  }

  // The parser throws at none of the first n segments.
  predicate ReadableUpTo(segs: seq<Segment>, n: nat)
    requires n <= |segs|
  {
    forall i :: 0 <= i < n ==> Readable(UnitsOf(segs[i]), segs[i].h)
  }

  predicate AllReadable(segs: seq<Segment>) {
    ReadableUpTo(segs, |segs|)
  }

  // The pictures counted in the first n segments.
  function PicturesBefore(segs: seq<Segment>, n: nat): int
    requires n <= |segs|
  {
    if n == 0 then 0
    else PicturesBefore(segs, n - 1) + Pictures(UnitsOf(segs[n - 1]), |UnitsOf(segs[n - 1])|, segs[n - 1].h)
  }

  // What each segment leaves, with its counts moved by the pictures of the segments before.
  function OutputOf(segs: seq<Segment>, n: nat): seq<Unit>
    requires n < |segs|
  {
    var units := UnitsOf(segs[n]);
    Kept(units, |units|, segs[n].h, n + 1, PicturesBefore(segs, n), 0)
  }

  function AllOutput(segs: seq<Segment>, n: nat): seq<Byte>
    requires n <= |segs|
  {
    if n == 0 then [] else AllOutput(segs, n - 1) + Joined(OutputOf(segs, n - 1))
  }

  lemma SegmentGives(segs: seq<Segment>, n: nat, base: int)
    requires n < |segs| && base == PicturesBefore(segs, n)
    ensures var units := UnitsOf(segs[n]);
      && After(units, |units|, segs[n].h, n + 1, base, 0).out == Joined(OutputOf(segs, n))
      && base + After(units, |units|, segs[n].h, n + 1, base, 0).cnt == PicturesBefore(segs, n + 1)
  {
    var units := UnitsOf(segs[n]);
    OutputIsKept(units, |units|, segs[n].h, n + 1, base, 0);
    CountIsPictures(units, |units|, segs[n].h, n + 1, base, 0);
  }

  method ConcatenateNext(segs: seq<Segment>, n: nat, pocBase: int) returns (thrown: bool, out: seq<Byte>, newBase: int)
    requires AllInBounds(segs) && n < |segs| && ReadableUpTo(segs, n) && pocBase == PicturesBefore(segs, n)
    ensures thrown <==> !Readable(UnitsOf(segs[n]), segs[n].h)
    ensures !thrown ==> out == Joined(OutputOf(segs, n)) && newBase == PicturesBefore(segs, n + 1) && ReadableUpTo(segs, n + 1)
  {
    thrown, out, newBase := FilterSegment(segs[n].data, segs[n].beyond, segs[n].h, n + 1, pocBase, 0);
    SegmentGives(segs, n, pocBase);
  }

  // The loop over the input files, which are counted from one.  An exception ends it; what the files before leave
  // has been handed to the writer by then.
  method Concatenate(segs: seq<Segment>) returns (written: nat, out: seq<Byte>, pocBase: int)
    requires AllInBounds(segs)
    ensures written <= |segs| && ReadableUpTo(segs, written)
    ensures written < |segs| ==> !Readable(UnitsOf(segs[written]), segs[written].h)
    ensures out == AllOutput(segs, written)
    ensures pocBase == PicturesBefore(segs, written)
  {
    pocBase, out, written := 0, [], 0;
    while written < |segs|
      invariant written <= |segs| && ReadableUpTo(segs, written)
      invariant pocBase == PicturesBefore(segs, written)
      invariant out == AllOutput(segs, written)
    {
      var thrown, v, newBase := ConcatenateNext(segs, written, pocBase);
      if thrown {
        return;
      }
      out, pocBase, written := out + v, newBase, written + 1;
    }
  }

  // In the list of segments, a count that is written is the count that was read plus the pictures of the
  // segments before, modulo 256, and the bits around it are kept.
  lemma CountsMoveByPicturesBefore(segs: seq<Segment>, n: nat, k: nat)
    requires n < |segs| && AllReadable(segs) && k < |UnitsOf(segs[n])|
    requires HasPoc(UnitsOf(segs[n])[k], k, segs[n].h)
    ensures PicturesBefore(segs, n) >= 0
    ensures var u, offset := UnitsOf(segs[n])[k], segs[n].h.offset(k); var r := Moved(u, k, segs[n].h, PicturesBefore(segs, n), 0);
      && offset / 8 + 1 < |u.nal|
      && OnlyFieldChanges(u.nal, r.nal, offset, (Field(u.nal, offset) + PicturesBefore(segs, n)) % 256)
  {
    PicturesAreNotNegative(segs, n);
    CountMoves(UnitsOf(segs[n])[k], k, segs[n].h, PicturesBefore(segs, n));
  }

  lemma CountMoves(u: Unit, k: nat, h: Headers, base: int)
    requires IsReadable(u, k, h) && HasPoc(u, k, h)
    ensures OnlyFieldChanges(u.nal, Moved(u, k, h, base, 0).nal, h.offset(k), (Field(u.nal, h.offset(k)) + base) % 256)
  {
    UnitOnlyMoves(u, k, h, base, 0);
    MovedFromZero(Field(u.nal, h.offset(k)), base);
  }

  lemma MovedFromZero(f: nat, base: int)
    requires f < 256
    ensures NewField(f, base, 0) == (f + base) % 256
  {
  }

  lemma {:induction false} PicturesAreNotNegative(segs: seq<Segment>, n: nat)
    requires n <= |segs|
    ensures PicturesBefore(segs, n) >= 0
  {
    if n > 0 {
      PicturesAreNotNegative(segs, n - 1);
      CountIsPictures(UnitsOf(segs[n - 1]), |UnitsOf(segs[n - 1])|, segs[n - 1].h, n, 0, 0);
    }
  }
}
