/**
 Whether the concatenated stream, searched again, falls apart into the units it was made of: a patched byte may
 form the end mark of a unit with its neighbours, and a short unit may come last.
 */
module ParcatSplits {
  import opened ParcatField
  import opened ParcatFilter
  import opened ParcatHeaders
  import opened ParcatNal
  import opened ParcatPayload
  import opened ParcatRuns

  // Three bytes that end a unit.
  predicate Mark(s: seq<Byte>, k: nat) {
    Triple(s, k, 1)
  }

  // No end mark starts in the NAL unit, where the search for its end looks.
  predicate StaysWhole(nal: seq<Byte>, rest: seq<Byte>) {
    forall k: nat :: k < |nal| && k + 3 < |nal| + |rest| ==> !Mark(nal + rest, k)
  }

  // Every unit stays whole before the next, and the last one is long enough to be found.
  predicate AllWhole(units: seq<Unit>) {
    units == []
    || (StaysWhole(units[0].nal, Joined(units[1..])) && (|units| == 1 ==> |units[0].nal| >= 3) && AllWhole(units[1..]))
  }

  predicate CodeAt(s: seq<Byte>, k: nat) {
    k + 4 <= |s| && s[k] == 0 && s[k + 1] == 0 && (s[k + 2] == 1 || (s[k + 2] == 0 && s[k + 3] == 1))
  }

  // No start code but at the very end.
  predicate FirstCode(lead: seq<Byte>) {
    forall k: nat :: k + 4 < |lead| ==> !CodeAt(lead, k)
  }

  // Bytes that start where a unit may end, and hold one start code, at their end.
  predicate Proper(u: Unit) {
    EndsInStartCode(u.lead) && Mark(u.lead, 0) && |u.nal| >= 2 && FirstCode(u.lead)
  }

  predicate AllProper(units: seq<Unit>) {
    forall i :: 0 <= i < |units| ==> Proper(units[i])
  }

  /* ----- One unit ----- */

  lemma MarkIsThree(buf: seq<Byte>, beyond: Beyond, k: nat)
    requires k + 3 <= |buf|
    ensures Mark(buf, k) <==> Three(buf, beyond, k, 0) || Three(buf, beyond, k, 1)
  {
  }

  lemma {:induction false} StartReached(buf: seq<Byte>, beyond: Beyond, j: nat, i: nat)
    requires j <= i && (j < i ==> i + 4 < |buf|) && StartCode(buf, beyond, i)
    requires forall k: nat :: j <= k < i ==> !StartCode(buf, beyond, k)
    ensures FindStart(buf, beyond, j) == i
    decreases i - j
  {
    if j < i {
      StartReached(buf, beyond, j + 1, i);
    }
  }

  lemma {:induction false} EndReached(buf: seq<Byte>, beyond: Beyond, i: nat, e: nat)
    requires i <= e && e + 3 <= |buf| && (e + 3 < |buf| ==> Mark(buf, e))
    requires forall k: nat :: i <= k < e ==> !Mark(buf, k)
    ensures FindEnd(buf, beyond, i) == e
    decreases e - i
  {
    if i + 3 < |buf| {
      MarkIsThree(buf, beyond, i);
    }
    if i < e {
      EndReached(buf, beyond, i + 1, e);
    }
  }

  // The start code that ends the lead is the one that is found.
  lemma LeadIsFound(buf: seq<Byte>, beyond: Beyond, lead: seq<Byte>)
    requires EndsInStartCode(lead) && FirstCode(lead) && |lead| + 2 <= |buf| && buf[..|lead|] == lead
    ensures var i := FindStart(buf, beyond, 0); i >= 0 && |lead| == i + if Three(buf, beyond, i, 1) then 3 else 4
  {
    var n := |lead|;
    assert forall k :: 0 <= k < n ==> buf[..n][k] == buf[k];
    assert lead[n - 3..][0] == lead[n - 3] && lead[n - 3..][1] == lead[n - 2] && lead[n - 3..][2] == lead[n - 1];
    var i := if n >= 4 && lead[n - 4] == 0 then n - 4 else n - 3;
    forall k: nat | k < i
      ensures !StartCode(buf, beyond, k)
    {
      if k + 4 < n {
        assert !CodeAt(lead, k);
      }
    }
    StartReached(buf, beyond, 0, i);
  }

  // No end mark starts where the search for the end of a unit looks.
  ghost predicate NoMark(buf: seq<Byte>, start: nat, end: nat) {
    forall k: nat :: start <= k < end && k + 3 < |buf| ==> !Mark(buf, k)
  }

  // The end of a unit is found exactly if no mark comes before, and a unit at the end of the buffer has three bytes.
  lemma EndIsFound(buf: seq<Byte>, beyond: Beyond, start: nat, end: nat)
    requires start + 2 <= end <= |buf| && (end < |buf| ==> end + 3 < |buf| && Mark(buf, end))
    ensures var e := EndOf(buf, FindEnd(buf, beyond, start));
      && (e == end <==> NoMark(buf, start, end) && (end == |buf| ==> end >= start + 3))
      && e <= end
  {
    var d, e := FindEnd(buf, beyond, start), if end < |buf| then end else |buf| - 3;
    EndIsEnd(buf, beyond, start);
    forall k: nat | start <= k < d
      ensures !Mark(buf, k)
    {
      MarkIsThree(buf, beyond, k);
    }
    if start <= e && NoMark(buf, start, end) {
      EndReached(buf, beyond, start, e);
    }
  }

  lemma NoMarkIsWhole(lead: seq<Byte>, nal: seq<Byte>, rest: seq<Byte>)
    ensures NoMark(lead + (nal + rest), |lead|, |lead| + |nal|) <==> StaysWhole(nal, rest)
  {
    var s, buf := nal + rest, lead + (nal + rest);
    forall k: nat
      ensures Mark(s, k) <==> Mark(buf, |lead| + k)
    {
    }
    if StaysWhole(nal, rest) {
      forall k: nat | |lead| <= k < |lead| + |nal| && k + 3 < |buf|
        ensures !Mark(buf, k)
      {
        assert Mark(s, k - |lead|) <==> Mark(buf, |lead| + (k - |lead|));
      }
    }
  }

  // What may stand behind a unit: nothing, or the next lead and unit.
  ghost predicate Follows(rest: seq<Byte>) {
    rest == [] || (|rest| > 3 && Mark(rest, 0))
  }

  lemma WhereFound(u: Unit, rest: seq<Byte>, beyond: Beyond, buf: seq<Byte>)
    requires Proper(u) && Follows(rest) && buf == u.lead + (u.nal + rest)
    ensures var f, end := FindUnit(buf, beyond), |u.lead| + |u.nal|;
      && f.start == |u.lead| && f.len == (if f.end > f.start then f.end - f.start else 0) && f.end <= end
      && (f.end == end <==> StaysWhole(u.nal, rest) && (rest == [] ==> |u.nal| >= 3))
  {
    assert buf[..|u.lead|] == u.lead;
    LeadIsFound(buf, beyond, u.lead);
    MarkBehind(u, rest, buf);
    EndIsFound(buf, beyond, |u.lead|, |u.lead| + |u.nal|);
    EndIsEnd(buf, beyond, |u.lead|);
    NoMarkIsWhole(u.lead, u.nal, rest);
  }

  lemma Apart(u: Unit, rest: seq<Byte>, buf: seq<Byte>, f: Found)
    requires Fits(f, |buf|) && buf == u.lead + (u.nal + rest) && f.start == |u.lead|
    ensures |UnitAt(buf, f).nal| == f.end - f.start
    ensures f.end == |u.lead| + |u.nal| ==> UnitAt(buf, f) == u && buf[f.end..] == rest
  {
  }

  // A unit in front of others is found as it is, or cut short, or not at all.
  lemma UnitIsFound(u: Unit, rest: seq<Byte>, beyond: Beyond, buf: seq<Byte>)
    requires Proper(u) && Follows(rest) && buf == u.lead + (u.nal + rest)
    ensures var f := FindUnit(buf, beyond);
      if StaysWhole(u.nal, rest) && (rest == [] ==> |u.nal| >= 3)
      then f.len > 0 && LeadOf(buf, beyond) == u && Behind(buf, beyond) == rest
      else f.len == 0 || |LeadOf(buf, beyond).nal| < |u.nal|
  {
    WhereFound(u, rest, beyond, buf);
    if FindUnit(buf, beyond).len > 0 {
      FoundFits(buf, beyond);
      Apart(u, rest, buf, FindUnit(buf, beyond));
    }
  }

  lemma MarkBehind(u: Unit, rest: seq<Byte>, buf: seq<Byte>)
    requires buf == u.lead + (u.nal + rest)
    ensures Mark(rest, 0) <==> Mark(buf, |u.lead| + |u.nal|)
  {
  }

  /* ----- All units ----- */

  lemma ConsIsSame<T>(a: T, s: seq<T>, t: seq<T>)
    ensures [a] + s == [a] + t <==> s == t
  {
    assert ([a] + s)[1..] == s && ([a] + t)[1..] == t;
  }

  lemma FirstSplits(u: Unit, rest: seq<Byte>, others: seq<Unit>, beyond: Beyond, buf: seq<Byte>)
    requires Proper(u) && Follows(rest) && buf == u.lead + (u.nal + rest)
    ensures Segmented(buf, beyond) == [u] + others
            <==> StaysWhole(u.nal, rest) && (rest == [] ==> |u.nal| >= 3) && Segmented(rest, beyond) == others
  {
    UnitIsFound(u, rest, beyond, buf);
    if FindUnit(buf, beyond).len > 0 {
      assert Segmented(buf, beyond) == [LeadOf(buf, beyond)] + Segmented(Behind(buf, beyond), beyond);
      assert Segmented(buf, beyond)[0] == LeadOf(buf, beyond) && ([u] + others)[0] == u;
      ConsIsSame(u, Segmented(rest, beyond), others);
    }
  }

  lemma JoinedFollows(units: seq<Unit>)
    requires AllProper(units)
    ensures Follows(Joined(units)) && (Joined(units) == [] <==> units == [])
  {
    if units != [] {
      assert Proper(units[0]);
      var s := Joined(units);
      assert s[0] == units[0].lead[0] && s[1] == units[0].lead[1] && s[2] == units[0].lead[2];
    }
  }

  // Units put together fall apart into themselves exactly if all stay whole.
  lemma {:induction false} UnitsSplit(units: seq<Unit>, beyond: Beyond)
    requires AllProper(units)
    ensures Segmented(Joined(units), beyond) == units <==> AllWhole(units)
    decreases |units|
  {
    if units == [] {
      NothingInFive([], beyond);
    } else {
      var u, rest := units[0], Joined(units[1..]);
      assert Proper(u) && AllProper(units[1..]);
      UnitsSplit(units[1..], beyond);
      JoinedFollows(units[1..]);
      Regrouped(u.lead, u.nal, rest);
      FirstSplits(u, rest, units[1..], beyond, Joined(units));
      assert units == [u] + units[1..];
    }
  }

  /* ----- The concatenated stream ----- */

  lemma SameCode(buf: seq<Byte>, n: nat, beyond: Beyond, k: nat)
    requires n <= |buf| && k + 4 <= n
    ensures StartCode(buf, beyond, k) <==> CodeAt(buf[..n], k)
  {
  }

  // A unit found in a buffer that starts like one is proper, and the next one starts where it ends.
  lemma FoundIsProper(buf: seq<Byte>, beyond: Beyond)
    requires FindUnit(buf, beyond).len > 0 && Mark(buf, 0) && |LeadOf(buf, beyond).nal| >= 2
    ensures Proper(LeadOf(buf, beyond))
  {
    FoundUnit(buf, beyond);
    UnitTakenOff(buf, beyond);
    var f, lead := FindUnit(buf, beyond), LeadOf(buf, beyond).lead;
    forall k: nat | k + 4 < |lead|
      ensures !CodeAt(lead, k)
    {
      SameCode(buf, f.start, beyond, k);
    }
  }

  lemma NextStarts(buf: seq<Byte>, beyond: Beyond)
    requires FindUnit(buf, beyond).len > 0
    ensures Behind(buf, beyond) == [] || Mark(Behind(buf, beyond), 0)
  {
    FoundUnit(buf, beyond);
    var f := FindUnit(buf, beyond);
    if f.end < |buf| {
      MarkIsThree(buf, beyond, f.end);
    }
  }

  lemma ProperBoth(a: seq<Unit>, b: seq<Unit>)
    requires AllProper(a) && AllProper(b)
    ensures AllProper(a + b)
  {
  }

  ghost predicate AllLong(units: seq<Unit>) {
    forall i :: 0 <= i < |units| ==> |units[i].nal| >= 2
  }

  lemma LongMore(u: Unit, more: seq<Unit>)
    requires AllLong([u] + more)
    ensures |u.nal| >= 2 && AllLong(more)
  {
    var units := [u] + more;
    assert units[0] == u;
    forall i | 0 <= i < |more|
      ensures |more[i].nal| >= 2
    {
      assert units[i + 1] == more[i];
    }
  }

  // What the first unit leaves to show for the others.
  lemma FirstIsProper(buf: seq<Byte>, beyond: Beyond)
    requires FindUnit(buf, beyond).len > 0 && Mark(buf, 0) && AllLong(Segmented(buf, beyond))
    ensures var u, rest := LeadOf(buf, beyond), Behind(buf, beyond);
      && Proper(u) && Segmented(buf, beyond) == [u] + Segmented(rest, beyond)
      && (rest == [] || Mark(rest, 0)) && AllLong(Segmented(rest, beyond))
  {
    LongMore(LeadOf(buf, beyond), Segmented(Behind(buf, beyond), beyond));
    NextStarts(buf, beyond);
    FoundIsProper(buf, beyond);
  }

  lemma ProperMore(u: Unit, more: seq<Unit>)
    requires Proper(u) && AllProper(more)
    ensures AllProper([u] + more)
  {
  }

  lemma {:induction false} SegmentedAreProper(buf: seq<Byte>, beyond: Beyond, units: seq<Unit>)
    requires buf == [] || Mark(buf, 0)
    requires units == Segmented(buf, beyond) && AllLong(units)
    ensures AllProper(units)
    decreases |buf|
  {
    if FindUnit(buf, beyond).len > 0 {
      FoundFits(buf, beyond);
      FirstIsProper(buf, beyond);
      var u, rest := LeadOf(buf, beyond), Behind(buf, beyond);
      var more := Segmented(rest, beyond);
      SegmentedAreProper(rest, beyond, more);
      ProperMore(u, more);
    }
  }

  lemma {:induction false} KeptAreProper(units: seq<Unit>, n: nat, h: Headers, idx: nat, pocBase: int, lastIdrPoc: int)
    requires n <= |units| && AllProper(units)
    ensures AllProper(Kept(units, n, h, idx, pocBase, lastIdrPoc))
  {
    if n > 0 {
      KeptAreProper(units, n - 1, h, idx, pocBase, lastIdrPoc);
      assert Proper(units[n - 1]);
    }
  }

  // Segments that are readable and begin with a start code, or with zero bytes before one.
  ghost predicate AllStart(segs: seq<Segment>) {
    AllReadable(segs) && forall i :: 0 <= i < |segs| ==> segs[i].data == [] || Mark(segs[i].data, 0)
  }

  // The units that each of the first n segments leaves.
  function Outputs(segs: seq<Segment>, n: nat): (r: seq<seq<Unit>>)
    requires n <= |segs|
    ensures |r| == n && forall i :: 0 <= i < n ==> r[i] == OutputOf(segs, i)
  {
    if n == 0 then [] else Outputs(segs, n - 1) + [OutputOf(segs, n - 1)]
  }

  function Flat<T>(lists: seq<seq<T>>): seq<T> {
    if lists == [] then [] else Flat(lists[..|lists| - 1]) + lists[|lists| - 1]
  }

  // All units that the segments leave.
  function AllUnits(segs: seq<Segment>): seq<Unit> {
    Flat(Outputs(segs, |segs|))
  }

  lemma {:induction false} JoinedOfBoth(a: seq<Unit>, b: seq<Unit>)
    ensures Joined(a + b) == Joined(a) + Joined(b)
    decreases |a|
  {
    if a == [] {
      assert a + b == b;
    } else {
      JoinedOfBoth(a[1..], b);
      assert a + b == [a[0]] + (a[1..] + b);
      MoreJoined(a[0], a[1..] + b);
      Regrouped(Bytes(a[0]), Joined(a[1..]), Joined(b));
    }
  }

  lemma OutputIsProper(segs: seq<Segment>, n: nat)
    requires n < |segs| && AllStart(segs)
    ensures AllProper(OutputOf(segs, n))
  {
    var units := UnitsOf(segs[n]);
    forall i: nat | i < |units|
      ensures |units[i].nal| >= 2
    {
      assert IsReadable(units[i], i, segs[n].h);
    }
    SegmentedAreProper(segs[n].data, segs[n].beyond, units);
    KeptAreProper(units, |units|, segs[n].h, n + 1, PicturesBefore(segs, n), 0);
  }

  ghost predicate ListsAreProper(lists: seq<seq<Unit>>) {
    forall i :: 0 <= i < |lists| ==> AllProper(lists[i])
  }

  lemma {:induction false} FlatIsProper(lists: seq<seq<Unit>>)
    requires ListsAreProper(lists)
    ensures AllProper(Flat(lists))
    decreases |lists|
  {
    if lists != [] {
      FlatIsProper(lists[..|lists| - 1]);
      ProperBoth(Flat(lists[..|lists| - 1]), lists[|lists| - 1]);
    }
  }

  lemma FlatMore(lists: seq<seq<Unit>>, more: seq<Unit>, out: seq<Byte>)
    requires out == Joined(Flat(lists))
    ensures out + Joined(more) == Joined(Flat(lists + [more]))
  {
    assert (lists + [more])[..|lists|] == lists;
    JoinedOfBoth(Flat(lists), more);
  }

  lemma {:induction false} OutputIsFlat(segs: seq<Segment>, n: nat)
    requires n <= |segs|
    ensures AllOutput(segs, n) == Joined(Flat(Outputs(segs, n)))
  {
    if n > 0 {
      OutputIsFlat(segs, n - 1);
      FlatMore(Outputs(segs, n - 1), OutputOf(segs, n - 1), AllOutput(segs, n - 1));
    }
  }

  lemma OutputsAreProper(segs: seq<Segment>)
    requires AllStart(segs)
    ensures ListsAreProper(Outputs(segs, |segs|))
  {
    var lists := Outputs(segs, |segs|);
    forall i | 0 <= i < |lists|
      ensures AllProper(lists[i])
    {
      OutputIsProper(segs, i);
    }
  }

  /* ----- The units as they were found ----- */

  // A unit that is kept, as it was found, with its place in its segment and the pictures before that segment.
  datatype Source = Source(u: Unit, k: nat, h: Headers, base: int)

  function MovedSource(s: Source): (r: Unit)
    ensures |r.nal| == |s.u.nal|
  {
    Moved(s.u, s.k, s.h, s.base, 0)
  }

  function MovedSources(sources: seq<Source>): (r: seq<Unit>)
    ensures |r| == |sources| && forall i :: 0 <= i < |r| ==> r[i] == MovedSource(sources[i])
  {
    seq(|sources|, i requires 0 <= i < |sources| => MovedSource(sources[i]))
  }

  // The units of a segment that are kept.
  function KeptSources(units: seq<Unit>, n: nat, h: Headers, idx: nat, base: int): seq<Source>
    requires n <= |units|
  {
    if n == 0 then []
    else
      var before := KeptSources(units, n - 1, h, idx, base);
      if Dropped(units, n - 1, idx) then before else before + [Source(units[n - 1], n - 1, h, base)]
  }

  function SourcesOf(segs: seq<Segment>, n: nat): seq<Source>
    requires n < |segs|
  {
    KeptSources(UnitsOf(segs[n]), |UnitsOf(segs[n])|, segs[n].h, n + 1, PicturesBefore(segs, n))
  }

  function SourceLists(segs: seq<Segment>, n: nat): (r: seq<seq<Source>>)
    requires n <= |segs|
    ensures |r| == n && forall i :: 0 <= i < n ==> r[i] == SourcesOf(segs, i)
  {
    if n == 0 then [] else SourceLists(segs, n - 1) + [SourcesOf(segs, n - 1)]
  }

  // All units of the segments that are kept, as they were found.
  function AllSources(segs: seq<Segment>): seq<Source> {
    Flat(SourceLists(segs, |segs|))
  }

  lemma MovedMore(a: seq<Source>, s: Source)
    ensures MovedSources(a + [s]) == MovedSources(a) + [MovedSource(s)]
  {
  }

  lemma MovedBoth(a: seq<Source>, b: seq<Source>)
    ensures MovedSources(a + b) == MovedSources(a) + MovedSources(b)
  {
  }

  lemma {:induction false} KeptAreMoved(units: seq<Unit>, n: nat, h: Headers, idx: nat, base: int)
    requires n <= |units|
    ensures Kept(units, n, h, idx, base, 0) == MovedSources(KeptSources(units, n, h, idx, base))
    decreases n
  {
    if n > 0 {
      KeptAreMoved(units, n - 1, h, idx, base);
      MovedMore(KeptSources(units, n - 1, h, idx, base), Source(units[n - 1], n - 1, h, base));
    }
  }

  lemma OutputIsMoved(segs: seq<Segment>, n: nat)
    requires n < |segs|
    ensures OutputOf(segs, n) == MovedSources(SourcesOf(segs, n))
  {
    KeptAreMoved(UnitsOf(segs[n]), |UnitsOf(segs[n])|, segs[n].h, n + 1, PicturesBefore(segs, n));
  }

  ghost predicate ListsAreMoved(outputs: seq<seq<Unit>>, lists: seq<seq<Source>>) {
    |outputs| == |lists| && forall i :: 0 <= i < |lists| ==> outputs[i] == MovedSources(lists[i])
  }

  lemma {:induction false} FlatIsMoved(outputs: seq<seq<Unit>>, lists: seq<seq<Source>>)
    requires ListsAreMoved(outputs, lists)
    ensures Flat(outputs) == MovedSources(Flat(lists))
    decreases |lists|
  {
    if lists != [] {
      var n := |lists| - 1;
      FlatIsMoved(outputs[..n], lists[..n]);
      MovedBoth(Flat(lists[..n]), lists[n]);
    }
  }

  lemma UnitsAreMoved(segs: seq<Segment>)
    ensures AllUnits(segs) == MovedSources(AllSources(segs))
  {
    var outputs, lists := Outputs(segs, |segs|), SourceLists(segs, |segs|);
    forall i | 0 <= i < |lists|
      ensures outputs[i] == MovedSources(lists[i])
    {
      OutputIsMoved(segs, i);
    }
    FlatIsMoved(outputs, lists);
  }

  // A unit that the parser reads.
  ghost predicate Legible(s: Source) {
    IsReadable(s.u, s.k, s.h) && Converts(s.u.nal)
  }

  ghost predicate AllLegible(sources: seq<Source>) {
    forall i :: 0 <= i < |sources| ==> Legible(sources[i])
  }

  // The headers of all segments are what the parser reads in their bytes, with the parameter sets given.
  ghost predicate AllRead(segs: seq<Segment>, st: nat -> Stored) {
    forall i: nat :: i < |segs| ==> AllReadAs(UnitsOf(segs[i]), segs[i].h, st(i))
  }

  // The units of the first n files.
  function UnitsBefore(segs: seq<Segment>, n: nat): seq<Unit>
    requires n <= |segs|
  {
    if n == 0 then [] else UnitsBefore(segs, n - 1) + UnitsOf(segs[n - 1])
  }

  // What has been read when the k-th unit of a file is reached: the files before, and the units before it.
  function ReadBefore(segs: seq<Segment>, n: nat, k: nat): seq<Unit> {
    if n < |segs| && k <= |UnitsOf(segs[n])| then UnitsBefore(segs, n) + UnitsOf(segs[n])[..k] else []
  }

  // The parameter sets stored: none at the start, and those of one file are still there in the next.
  ghost function StoredIn(segs: seq<Segment>, legible: (nat, nat) -> bool, n: nat): Stored {
    Stored((k: nat, id: nat) => IsStored(ReadBefore(segs, n, k), id), (k: nat) => legible(n, k))
  }

  ghost function ParameterSets(segs: seq<Segment>, legible: (nat, nat) -> bool): nat -> Stored {
    (n: nat) => StoredIn(segs, legible, n)
  }

  lemma SetsAre(segs: seq<Segment>, legible: (nat, nat) -> bool, n: nat, k: nat, id: nat)
    ensures var st := ParameterSets(segs, legible)(n);
      (st.pps(k, id) <==> IsStored(ReadBefore(segs, n, k), id)) && st.legible(k) == legible(n, k)
  {
  }

  // The parameter sets of a run have small numbers.
  lemma StoredAreSmall(segs: seq<Segment>, legible: (nat, nat) -> bool, n: nat, k: nat)
    ensures SmallNumbers(k, ParameterSets(segs, legible)(n))
  {
    forall id: nat | IsStored(ReadBefore(segs, n, k), id)
      ensures id < 64
    {
      StoredIsSmall(ReadBefore(segs, n, k), id);
    }
  }

  // In files that are read one after the other, every count lies behind at most 35 bits, no preventing byte comes
  // before it or inside it, and in the unit it is what it is in the payload.
  lemma CountsAreInPayload(segs: seq<Segment>, legible: (nat, nat) -> bool, n: nat, k: nat)
    requires AllRead(segs, ParameterSets(segs, legible)) && n < |segs| && k < |UnitsOf(segs[n])|
    requires IsReadable(UnitsOf(segs[n])[k], k, segs[n].h) && HasPoc(UnitsOf(segs[n])[k], k, segs[n].h)
    ensures var nal, offset := UnitsOf(segs[n])[k].nal, segs[n].h.offset(k);
      && 19 < offset <= 35 && PlainUpTo(nal, offset / 8 + 1)
      && offset / 8 + 1 < |Rbsp(nal, |nal|)| && Field(Rbsp(nal, |nal|), offset) == Field(nal, offset)
  {
    var u, st := UnitsOf(segs[n])[k], ParameterSets(segs, legible)(n);
    StoredAreSmall(segs, legible, n, k);
    assert AllReadAs(UnitsOf(segs[n]), segs[n].h, st) && ReadsAs(u, k, segs[n].h, st);
    CountLiesInPayload(u.nal, k, st, segs[n].h.offset(k));
  }

  ghost predicate IsFrom(s: Source, units: seq<Unit>, h: Headers, base: int) {
    s.k < |units| && s.u == units[s.k] && s.h == h && s.base == base
  }

  ghost predicate AllFrom(sources: seq<Source>, units: seq<Unit>, h: Headers, base: int) {
    forall i :: 0 <= i < |sources| ==> IsFrom(sources[i], units, h, base)
  }

  lemma {:induction false} KeptAreFrom(units: seq<Unit>, n: nat, h: Headers, idx: nat, base: int)
    requires n <= |units|
    ensures AllFrom(KeptSources(units, n, h, idx, base), units, h, base)
    decreases n
  {
    if n > 0 {
      KeptAreFrom(units, n - 1, h, idx, base);
    }
  }

  lemma LegibleFrom(sources: seq<Source>, units: seq<Unit>, h: Headers, base: int, st: Stored)
    requires AllFrom(sources, units, h, base) && AllReadAs(units, h, st) && Readable(units, h)
    ensures AllLegible(sources)
  {
    forall i | 0 <= i < |sources|
      ensures Legible(sources[i])
    {
      var s := sources[i];
      assert IsFrom(s, units, h, base) && ReadsAs(units[s.k], s.k, h, st) && IsReadable(units[s.k], s.k, h);
    }
  }

  lemma SourcesAreLegible(segs: seq<Segment>, n: nat, st: nat -> Stored)
    requires n < |segs| && AllReadable(segs) && AllRead(segs, st)
    ensures AllLegible(SourcesOf(segs, n))
  {
    KeptAreFrom(UnitsOf(segs[n]), |UnitsOf(segs[n])|, segs[n].h, n + 1, PicturesBefore(segs, n));
    LegibleFrom(SourcesOf(segs, n), UnitsOf(segs[n]), segs[n].h, PicturesBefore(segs, n), st(n));
  }

  ghost predicate ListsAreLegible(lists: seq<seq<Source>>) {
    forall i :: 0 <= i < |lists| ==> AllLegible(lists[i])
  }

  lemma LegibleBoth(a: seq<Source>, b: seq<Source>)
    requires AllLegible(a) && AllLegible(b)
    ensures AllLegible(a + b)
  {
  }

  lemma {:induction false} FlatIsLegible(lists: seq<seq<Source>>)
    requires ListsAreLegible(lists)
    ensures AllLegible(Flat(lists))
    decreases |lists|
  {
    if lists != [] {
      FlatIsLegible(lists[..|lists| - 1]);
      LegibleBoth(Flat(lists[..|lists| - 1]), lists[|lists| - 1]);
    }
  }

  lemma ListsAreRead(segs: seq<Segment>, st: nat -> Stored)
    requires AllReadable(segs) && AllRead(segs, st)
    ensures ListsAreLegible(SourceLists(segs, |segs|))
  {
    var lists := SourceLists(segs, |segs|);
    forall i | 0 <= i < |lists|
      ensures AllLegible(lists[i])
    {
      SourcesAreLegible(segs, i, st);
    }
  }

  /* ----- Safe units ----- */

  // What every unit but the last has behind it.
  function ZerosBehind(last: bool): seq<Byte> {
    if last then [] else [0, 0]
  }

  // Where the search for the end of a unit looks, with two zero bytes behind a unit that is not the last.
  predicate LooksAt(size: nat, k: nat, last: bool) {
    k < size && (last ==> k + 3 < size)
  }

  // The moved count makes no end mark with the bytes around it.
  ghost predicate CountIsClear(s: Source, last: bool) {
    var p, m := s.h.offset(s.k) / 8, MovedSource(s).nal;
    forall k: nat :: p <= k + 2 && k <= p + 1 && LooksAt(|m|, k, last) ==> !Mark(m + ZerosBehind(last), k)
  }

  ghost predicate Safe(s: Source, last: bool) {
    (HasPoc(s.u, s.k, s.h) ==> CountIsClear(s, last)) && (last ==> |s.u.nal| >= 3)
  }

  ghost predicate AllSafe(sources: seq<Source>) {
    forall i :: 0 <= i < |sources| ==> Safe(sources[i], i + 1 == |sources|)
  }

  // A unit as it was found has no end mark, and none with zero bytes behind it.
  lemma LegibleHasNoMark(nal: seq<Byte>, m: seq<Byte>, k: nat, last: bool)
    requires nal != [] && Converts(nal) && |m| == |nal| && LooksAt(|m|, k, last)
    requires forall i :: k <= i <= k + 2 && i < |m| ==> m[i] == nal[i]
    ensures !Mark(m + ZerosBehind(last), k)
  {
    assert !Triple(nal, k, 2);
  }

  // No end mark starts in the bytes, alone or with the zero bytes behind them.
  ghost predicate Clear(m: seq<Byte>, last: bool) {
    forall k: nat :: LooksAt(|m|, k, last) ==> !Mark(m + ZerosBehind(last), k)
  }

  lemma ClearIsWhole(s: Source, last: bool)
    requires Legible(s)
    ensures (HasPoc(s.u, s.k, s.h) ==> CountIsClear(s, last)) <==> Clear(MovedSource(s).nal, last)
  {
    var m, p, nal := MovedSource(s).nal, s.h.offset(s.k) / 8, s.u.nal;
    forall k: nat | LooksAt(|m|, k, last) && !(HasPoc(s.u, s.k, s.h) && p <= k + 2 && k <= p + 1)
      ensures !Mark(m + ZerosBehind(last), k)
    {
      LegibleHasNoMark(nal, m, k, last);
    }
  }

  lemma WholeWithZeros(m: seq<Byte>, rest: seq<Byte>, last: bool)
    requires Follows(rest) && last == (rest == [])
    ensures StaysWhole(m, rest) <==> Clear(m, last)
  {
    forall k: nat | LooksAt(|m|, k, last)
      ensures k + 3 < |m| + |rest| && (Mark(m + rest, k) <==> Mark(m + ZerosBehind(last), k))
    {
      assert rest != [] ==> rest[0] == 0 && rest[1] == 0;
    }
    if Clear(m, last) {
      forall k: nat | k < |m| && k + 3 < |m| + |rest|
        ensures !Mark(m + rest, k)
      {
        assert LooksAt(|m|, k, last);
      }
    }
  }

  lemma SafeIsWhole(s: Source, rest: seq<Byte>, last: bool)
    requires Legible(s) && Follows(rest) && last == (rest == [])
    ensures Safe(s, last) <==> StaysWhole(MovedSource(s).nal, rest) && (last ==> |MovedSource(s).nal| >= 3)
  {
    ClearIsWhole(s, last);
    WholeWithZeros(MovedSource(s).nal, rest, last);
  }

  lemma SafeMore(sources: seq<Source>)
    requires sources != []
    ensures AllSafe(sources) <==> Safe(sources[0], |sources| == 1) && AllSafe(sources[1..])
  {
    var more := sources[1..];
    if Safe(sources[0], |sources| == 1) && AllSafe(more) {
      forall i | 0 <= i < |sources|
        ensures Safe(sources[i], i + 1 == |sources|)
      {
        assert i > 0 ==> Safe(more[i - 1], i - 1 + 1 == |more|);
      }
    }
    if AllSafe(sources) {
      forall i | 0 <= i < |more|
        ensures Safe(more[i], i + 1 == |more|)
      {
        assert Safe(sources[i + 1], i + 1 + 1 == |sources|);
      }
    }
  }

  lemma {:induction false} AllSafeIsWhole(sources: seq<Source>)
    requires AllLegible(sources) && AllProper(MovedSources(sources))
    ensures AllSafe(sources) <==> AllWhole(MovedSources(sources))
    decreases |sources|
  {
    if sources != [] {
      var units, more := MovedSources(sources), sources[1..];
      assert units[1..] == MovedSources(more) && units[0] == MovedSource(sources[0]);
      assert AllProper(units[1..]);
      AllSafeIsWhole(more);
      JoinedFollows(units[1..]);
      assert Legible(sources[0]);
      SafeIsWhole(sources[0], Joined(units[1..]), |sources| == 1);
      SafeMore(sources);
    }
  }

  // The concatenated stream, searched again, gives exactly the units kept, with their counts moved, if and only
  // if no count makes an end mark when the pictures before are added, and the last unit has three bytes.
  lemma ConcatenationSplits(segs: seq<Segment>, beyond: Beyond, st: nat -> Stored)
    requires AllStart(segs) && AllRead(segs, st)
    ensures Segmented(AllOutput(segs, |segs|), beyond) == AllUnits(segs) <==> AllSafe(AllSources(segs))
  {
    OutputsAreProper(segs);
    FlatIsProper(Outputs(segs, |segs|));
    OutputIsFlat(segs, |segs|);
    UnitsSplit(AllUnits(segs), beyond);
    ListsAreRead(segs, st);
    FlatIsLegible(SourceLists(segs, |segs|));
    UnitsAreMoved(segs);
    AllSafeIsWhole(AllSources(segs));
  }
}
