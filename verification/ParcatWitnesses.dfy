/**
 Bitstreams whose concatenation, searched again, does not fall apart into the units it was made of.
 */
module ParcatWitnesses {
  import opened ParcatField
  import opened ParcatFilter
  import opened ParcatHeaders
  import opened ParcatNal
  import opened ParcatPayload
  import opened ParcatRuns
  import opened ParcatSplits

  // Slices with picture headers: counts 1 and 255, and for the parameter set 0.
  const FIRST: Unit := Unit([0, 0, 1], [0, 1, 136, 8, 128])
  const SECOND: Unit := Unit([0, 0, 1], [0, 1, 143, 248, 0, 1, 9, 9])

  // The end of a sequence, and an IDR picture.
  const END: Unit := Unit([0, 0, 1], [0, 169])
  const IDR: Unit := Unit([0, 0, 1], [0, 65, 128])

  const SLICES: Headers := Headers(k => false, k => true, k => 21)

  // A file of the given units.
  function File(units: seq<Unit>, beyond: Beyond): Segment {
    Segment(Joined(units), beyond, SLICES)
  }

  // Units behind short start codes, without anything like a start code, the last one long enough to be found.
  ghost predicate GoodUnit(u: Unit) {
    u.lead == [0, 0, 1] && |u.nal| >= 2 && Converts(u.nal)
  }

  ghost predicate GoodFile(units: seq<Unit>) {
    units != [] && (forall i :: 0 <= i < |units| ==> GoodUnit(units[i])) && |units[|units| - 1].nal| >= 3
  }

  lemma GoodIsProper(u: Unit)
    requires GoodUnit(u)
    ensures Proper(u)
  {
    assert u.lead[0..] == [0, 0, 1];
  }

  // A unit that converts stays whole before anything that may stand behind it.
  lemma ConvertedIsWhole(nal: seq<Byte>, rest: seq<Byte>, last: bool)
    requires nal != [] && Converts(nal) && Follows(rest) && last == (rest == [])
    ensures StaysWhole(nal, rest)
  {
    forall k: nat | LooksAt(|nal|, k, last)
      ensures !Mark(nal + ZerosBehind(last), k)
    {
      LegibleHasNoMark(nal, nal, k, last);
    }
    WholeWithZeros(nal, rest, last);
  }

  lemma GoodFileIsProper(units: seq<Unit>)
    requires GoodFile(units)
    ensures AllProper(units)
  {
    forall i | 0 <= i < |units|
      ensures Proper(units[i])
    {
      assert GoodUnit(units[i]);
      GoodIsProper(units[i]);
    }
  }

  lemma GoodMore(units: seq<Unit>)
    requires GoodFile(units)
    ensures GoodUnit(units[0]) && (|units| == 1 ==> |units[0].nal| >= 3) && (|units| > 1 ==> GoodFile(units[1..]))
  {
    if |units| > 1 {
      forall i | 0 <= i < |units[1..]|
        ensures GoodUnit(units[1..][i])
      {
        assert GoodUnit(units[i + 1]);
      }
    }
  }

  lemma {:induction false} GoodFileIsWhole(units: seq<Unit>)
    requires GoodFile(units)
    ensures AllWhole(units)
    decreases |units|
  {
    var u, more := units[0], units[1..];
    GoodMore(units);
    if more == [] {
      ConvertedIsWhole(u.nal, [], true);
    } else {
      GoodFileIsWhole(more);
      GoodFileIsProper(more);
      JoinedFollows(more);
      ConvertedIsWhole(u.nal, Joined(more), false);
    }
  }

  lemma GoodFileIsFound(units: seq<Unit>, beyond: Beyond)
    requires GoodFile(units)
    ensures UnitsOf(File(units, beyond)) == units && Mark(File(units, beyond).data, 0)
  {
    GoodFileIsWhole(units);
    GoodFileIsProper(units);
    JoinedFollows(units);
    UnitsSplit(units, beyond);
  }

  lemma NoZerosConvert(nal: seq<Byte>)
    requires nal != [] && nal[|nal| - 1] != 0 && forall k: nat :: k + 1 < |nal| && nal[k] == 0 ==> nal[k + 1] != 0
    ensures Converts(nal)
  {
    forall k: nat
      ensures !Triple(nal, k, 2)
    {
      assert k + 1 < |nal| && nal[k] == 0 ==> nal[k + 1] != 0;
    }
    forall i: nat | i >= 2
      ensures !Prevents(nal, i)
    {
      assert i - 2 + 1 < |nal| && nal[i - 2] == 0 ==> nal[i - 2 + 1] != 0;
    }
  }

  lemma UnitsAreGood()
    ensures GoodUnit(FIRST) && GoodUnit(SECOND) && GoodUnit(END) && GoodUnit(IDR)
  {
    NoZerosConvert(FIRST.nal);
    NoZerosConvert(SECOND.nal);
    NoZerosConvert(END.nal);
    NoZerosConvert(IDR.nal);
  }

  lemma SliceIsReadAs(u: Unit, k: nat, st: Stored)
    requires (u == FIRST || u == SECOND) && st.pps(k, 0)
    ensures ReadsAs(u, k, SLICES, st) && IsReadable(u, k, SLICES)
  {
    UnitsAreGood();
    SliceIsRead(u.nal, k, st);
  }

  lemma OtherIsReadAs(u: Unit, k: nat, st: Stored)
    requires u == END || u == IDR
    ensures ReadsAs(u, k, SLICES, st) && IsReadable(u, k, SLICES)
  {
    UnitsAreGood();
    TwoBytesLeft(u.nal);
    assert TypeOf(u.nal) == 21 || TypeOf(u.nal) == 8;
  }

  lemma TwoBytesLeft(nal: seq<Byte>)
    requires |nal| >= 2 && nal[1] != 0
    ensures |PayloadOf(nal)| >= 2
  {
    PlainStart(nal, 2);
    TrimmedKeeps(Rbsp(nal, |nal|), 1);
  }

  /* ----- Parameter sets ----- */

  // A sequence parameter set, and the picture parameter set 0 that names it.
  ghost predicate AreSets(sps: Unit, pps: Unit) {
    && GoodUnit(sps) && !BadHeader(sps.nal[0], sps.nal[1]) && GoodUnit(pps) && !BadHeader(pps.nal[0], pps.nal[1])
    && IsPps(pps.nal, 0) && exists id: nat :: IsSps(sps.nal, id) && Names(pps.nal, id)
  }

  lemma SetsAreReadAs(sps: Unit, pps: Unit, k: nat, st: Stored)
    requires AreSets(sps, pps) && st.legible(k)
    ensures ReadsAs(sps, k, SLICES, st) && IsReadable(sps, k, SLICES)
    ensures ReadsAs(pps, k, SLICES, st) && IsReadable(pps, k, SLICES)
  {
  }

  lemma SetsAreStored(sps: Unit, pps: Unit, before: seq<Unit>)
    requires AreSets(sps, pps) && (before == [sps, pps] || before == [sps, pps, FIRST])
    ensures IsStored(before, 0)
  {
    var id: nat :| IsSps(sps.nal, id) && Names(pps.nal, id);
    assert before[0] == sps && before[1] == pps;
    assert IsLastPps(before, 1, 0) && HasSps(before, id);
  }

  // The smallest ones.
  const SPS_ZERO: Unit := Unit([0, 0, 1], [0, 121, 1])
  const PPS_ZERO: Unit := Unit([0, 0, 1], [0, 129, 0, 1])

  lemma {:induction false} ZeroBits(s: seq<Byte>, pos: nat, n: nat)
    requires pos + n <= 8 * |s| && forall i: nat :: pos <= i < pos + n ==> Bit(s, i) == 0
    ensures BitsAt(s, pos, n) == 0
  {
    if n > 0 {
      ZeroBits(s, pos, n - 1);
    }
  }

  lemma PlainPayload(nal: seq<Byte>)
    requires nal != [] && nal[|nal| - 1] != 0 && forall i: nat :: !Prevents(nal, i)
    ensures PayloadOf(nal) == nal
  {
    RbspOfPlain(nal, |nal|);
    assert nal[..|nal|] == nal;
  }

  lemma SmallestSps()
    ensures GoodUnit(SPS_ZERO) && IsSps(SPS_ZERO.nal, 0)
  {
    NoZerosConvert(SPS_ZERO.nal);
    PlainPayload(SPS_ZERO.nal);
    ZeroBits(SPS_ZERO.nal, 16, 4);
  }

  lemma ZeroByte(s: seq<Byte>, j: nat)
    requires j < |s| && s[j] == 0
    ensures forall i: nat :: 8 * j <= i < 8 * j + 8 ==> Bit(s, i) == 0
  {
  }

  lemma SmallestPps()
    ensures GoodUnit(PPS_ZERO) && IsPps(PPS_ZERO.nal, 0) && Names(PPS_ZERO.nal, 0)
  {
    var nal := PPS_ZERO.nal;
    NoZerosConvert(nal);
    PlainPayload(nal);
    ZeroByte(nal, 2);
    ZeroBits(nal, 16, 6);
    assert Bit(nal, 24) == Bit(nal, 25) == 0;
    ZeroBits(nal, 22, 4);
  }

  lemma SmallestAreSets()
    ensures AreSets(SPS_ZERO, PPS_ZERO)
  {
    SmallestSps();
    SmallestPps();
  }

  /* ----- Two files ----- */

  // A file that is read as the given units, each of them readable.
  ghost predicate IsFile(seg: Segment, units: seq<Unit>, h: Headers, st: Stored) {
    && UnitsOf(seg) == units && seg.h == h && Mark(seg.data, 0)
    && Readable(units, h) && AllReadAs(units, h, st)
  }

  lemma FilesStart(a: Segment, b: Segment, one: seq<Unit>, units: seq<Unit>, h: Headers, st: nat -> Stored)
    requires IsFile(a, one, h, st(0)) && IsFile(b, units, h, st(1))
    ensures AllStart([a, b])
  {
  }

  lemma FilesAreRead(segs: seq<Segment>, one: seq<Unit>, units: seq<Unit>, h: Headers, st: nat -> Stored)
    requires |segs| == 2 && IsFile(segs[0], one, h, st(0)) && IsFile(segs[1], units, h, st(1))
    ensures AllRead(segs, st)
  {
    forall i: nat | i < |segs|
      ensures AllReadAs(UnitsOf(segs[i]), segs[i].h, st(i))
    {
      assert i == 0 || i == 1;
    }
  }

  // What is last of two files is last of the second.
  lemma LastOfTwo(segs: seq<Segment>, kept: seq<Source>)
    requires |segs| == 2 && kept == SourcesOf(segs, 1) && kept != []
    ensures var sources := AllSources(segs); sources != [] && sources[|sources| - 1] == kept[|kept| - 1]
  {
    assert SourceLists(segs, 2)[1] == kept;
  }

  lemma UnsafeLast(sources: seq<Source>, s: Source)
    requires sources != [] && sources[|sources| - 1] == s && !Safe(s, true)
    ensures !AllSafe(sources)
  {
    var i := |sources| - 1;
    assert !Safe(sources[i], i + 1 == |sources|);
  }

  // The second of two files comes behind as many pictures as the first one has.
  lemma SecondSources(segs: seq<Segment>, one: seq<Unit>, units: seq<Unit>, h: Headers, base: int)
    requires |segs| == 2 && UnitsOf(segs[0]) == one && UnitsOf(segs[1]) == units && segs[0].h == segs[1].h == h
    requires base == Pictures(one, |one|, h)
    ensures SourcesOf(segs, 1) == KeptSources(units, |units|, h, 2, base)
  {
    assert PicturesBefore(segs, 1) == PicturesBefore(segs, 0) + Pictures(one, |one|, h);
  }

  // The files of a concatenation are read one after the other, and its units are not found again.
  ghost predicate DoesNotSplit(segs: seq<Segment>, legible: (nat, nat) -> bool, beyond: Beyond) {
    && AllStart(segs) && AllRead(segs, ParameterSets(segs, legible))
    && Segmented(AllOutput(segs, |segs|), beyond) != AllUnits(segs)
  }

  lemma FallsApart(segs: seq<Segment>, one: seq<Unit>, units: seq<Unit>, h: Headers, base: int, kept: seq<Source>,
                   legible: (nat, nat) -> bool, beyond: Beyond)
    requires |segs| == 2 && AllStart(segs) && base == Pictures(one, |one|, h)
    requires var st := ParameterSets(segs, legible); IsFile(segs[0], one, h, st(0)) && IsFile(segs[1], units, h, st(1))
    requires kept == KeptSources(units, |units|, h, 2, base) && kept != [] && !Safe(kept[|kept| - 1], true)
    ensures DoesNotSplit(segs, legible, beyond)
  {
    var st := ParameterSets(segs, legible);
    FilesAreRead(segs, one, units, h, st);
    SecondSources(segs, one, units, h, base);
    LastOfTwo(segs, kept);
    UnsafeLast(AllSources(segs), kept[|kept| - 1]);
    ConcatenationSplits(segs, beyond, st);
  }

  /* ----- A count that makes an end mark ----- */

  lemma SecondMoves()
    ensures MovedSource(Source(SECOND, 0, SLICES, 1)).nal == [0, 1, 136, 0, 0, 1, 9, 9]
  {
    assert WordAt(SECOND.nal, 21) == 36856 && Field(SECOND.nal, 21) == 255;
    assert NewField(255, 1, 0) == 0 && NewWord(36856, 8, 0) == 34816;
  }

  lemma SecondIsNotSafe()
    ensures !Safe(Source(SECOND, 0, SLICES, 1), true)
  {
    SecondMoves();
    var m := MovedSource(Source(SECOND, 0, SLICES, 1)).nal;
    assert m + [] == m && LooksAt(|m|, 3, true) && Mark(m, 3);
  }

  lemma SecondIsKept()
    ensures KeptSources([SECOND], 1, SLICES, 2, 1) == [Source(SECOND, 0, SLICES, 1)]
  {
  }

  lemma OnePicture(sps: Unit, pps: Unit)
    requires AreSets(sps, pps)
    ensures Pictures([sps, pps, FIRST], 3, SLICES) == 1
  {
    var units := [sps, pps, FIRST];
    assert Pictures(units, 1, SLICES) == 0 && Pictures(units, 2, SLICES) == 0;
  }

  lemma ThreeAreRead(a: Unit, b: Unit, c: Unit, h: Headers, st: Stored)
    requires ReadsAs(a, 0, h, st) && ReadsAs(b, 1, h, st) && ReadsAs(c, 2, h, st)
    requires IsReadable(a, 0, h) && IsReadable(b, 1, h) && IsReadable(c, 2, h)
    ensures Readable([a, b, c], h) && AllReadAs([a, b, c], h, st)
  {
    var units := [a, b, c];
    forall k: nat | k < 3
      ensures ReadsAs(units[k], k, h, st) && IsReadable(units[k], k, h)
    {
      assert units[k] == if k == 0 then a else if k == 1 then b else c;
    }
  }

  lemma ThreeAreGood(a: Unit, b: Unit, c: Unit)
    requires GoodUnit(a) && GoodUnit(b) && GoodUnit(c) && |c.nal| >= 3
    ensures GoodFile([a, b, c])
  {
  }

  lemma FirstIsGood(sps: Unit, pps: Unit)
    requires AreSets(sps, pps)
    ensures GoodFile([sps, pps, FIRST])
  {
    UnitsAreGood();
    ThreeAreGood(sps, pps, FIRST);
  }

  lemma FirstFile(sps: Unit, pps: Unit, beyond: Beyond, st: Stored)
    requires AreSets(sps, pps) && st.legible(0) && st.legible(1) && st.pps(2, 0)
    ensures IsFile(File([sps, pps, FIRST], beyond), [sps, pps, FIRST], SLICES, st)
  {
    FirstIsGood(sps, pps);
    GoodFileIsFound([sps, pps, FIRST], beyond);
    SetsAreReadAs(sps, pps, 0, st);
    SetsAreReadAs(sps, pps, 1, st);
    SliceIsReadAs(FIRST, 2, st);
    ThreeAreRead(sps, pps, FIRST, SLICES, st);
  }

  lemma SecondFile(beyond: Beyond, st: Stored)
    requires st.pps(0, 0)
    ensures IsFile(File([SECOND], beyond), [SECOND], SLICES, st)
  {
    UnitsAreGood();
    GoodFileIsFound([SECOND], beyond);
    SliceIsReadAs(SECOND, 0, st);
  }

  lemma BothAreBefore(segs: seq<Segment>, sps: Unit, pps: Unit)
    requires |segs| == 2 && UnitsOf(segs[0]) == [sps, pps, FIRST]
    ensures ReadBefore(segs, 0, 2) == [sps, pps] && ReadBefore(segs, 1, 0) == [sps, pps, FIRST]
  {
    assert UnitsBefore(segs, 0) == [] && UnitsBefore(segs, 1) == UnitsOf(segs[0]);
    assert [sps, pps, FIRST][..2] == [sps, pps];
  }

  lemma BothStore(segs: seq<Segment>, sps: Unit, pps: Unit, legible: (nat, nat) -> bool)
    requires |segs| == 2 && UnitsOf(segs[0]) == [sps, pps, FIRST] && AreSets(sps, pps)
    ensures ParameterSets(segs, legible)(0).pps(2, 0) && ParameterSets(segs, legible)(1).pps(0, 0)
  {
    BothAreBefore(segs, sps, pps);
    SetsAreStored(sps, pps, ReadBefore(segs, 0, 2));
    SetsAreStored(sps, pps, ReadBefore(segs, 1, 0));
    SetsAre(segs, legible, 0, 2, 0);
    SetsAre(segs, legible, 1, 0, 0);
  }

  // Behind any two parameter sets that can be read, a count of 255 is moved by the one picture before: the stream
  // falls apart elsewhere.
  lemma MovedCountMakesAMark(sps: Unit, pps: Unit, legible: (nat, nat) -> bool, beyond: Beyond)
    requires AreSets(sps, pps) && legible(0, 0) && legible(0, 1)
    ensures DoesNotSplit([File([sps, pps, FIRST], beyond), File([SECOND], beyond)], legible, beyond)
  {
    var one, units := [sps, pps, FIRST], [SECOND];
    var a, b := File(one, beyond), File(units, beyond);
    var segs := [a, b];
    var st := ParameterSets(segs, legible);
    FirstIsGood(sps, pps);
    GoodFileIsFound(one, beyond);
    BothStore(segs, sps, pps, legible);
    SetsAre(segs, legible, 0, 0, 0);
    SetsAre(segs, legible, 0, 1, 0);
    FirstFile(sps, pps, beyond, st(0));
    SecondFile(beyond, st(1));
    OnePicture(sps, pps);
    SecondIsKept();
    SecondIsNotSafe();
    FilesStart(a, b, one, units, SLICES, st);
    FallsApart(segs, one, units, SLICES, 1, [Source(SECOND, 0, SLICES, 1)], legible, beyond);
  }

  // There are such parameter sets.
  lemma SmallestFilesDoNotSplit(beyond: Beyond)
    ensures DoesNotSplit([File([SPS_ZERO, PPS_ZERO, FIRST], beyond), File([SECOND], beyond)], (n, k) => true, beyond)
  {
    SmallestAreSets();
    MovedCountMakesAMark(SPS_ZERO, PPS_ZERO, (n, k) => true, beyond);
  }

  /* ----- A unit that is too short to be last ----- */

  lemma EndIsKept()
    ensures KeptSources([END, IDR], 2, SLICES, 2, 0) == [Source(END, 0, SLICES, 0)]
  {
    assert KeptSources([END, IDR], 1, SLICES, 2, 0) == [Source(END, 0, SLICES, 0)];
  }

  lemma IdrFile(beyond: Beyond, st: Stored)
    ensures IsFile(File([IDR], beyond), [IDR], SLICES, st) && Pictures([IDR], 1, SLICES) == 0
  {
    UnitsAreGood();
    GoodFileIsFound([IDR], beyond);
    OtherIsReadAs(IDR, 0, st);
  }

  lemma EndFile(beyond: Beyond, st: Stored)
    ensures IsFile(File([END, IDR], beyond), [END, IDR], SLICES, st)
  {
    UnitsAreGood();
    GoodFileIsFound([END, IDR], beyond);
    OtherIsReadAs(END, 0, st);
    OtherIsReadAs(IDR, 1, st);
  }

  // An end of sequence that is last because the IDR picture behind it is dropped: it is not found again.
  lemma ShortUnitIsLost(legible: (nat, nat) -> bool, beyond: Beyond)
    ensures DoesNotSplit([File([IDR], beyond), File([END, IDR], beyond)], legible, beyond)
  {
    var one, units := [IDR], [END, IDR];
    var a, b := File(one, beyond), File(units, beyond);
    var segs := [a, b];
    var st := ParameterSets(segs, legible);
    IdrFile(beyond, st(0));
    EndFile(beyond, st(1));
    EndIsKept();
    FilesStart(a, b, one, units, SLICES, st);
    FallsApart(segs, one, units, SLICES, 0, [Source(END, 0, SLICES, 0)], legible, beyond);
  }
}
