/**
 Writing NAL units with start codes and parsing them back, for one stream and for several streams
 merged in turns.
 */
module AnnexBRoundTrip {
  import opened AnnexB

  function Zeros(n: nat): (s: seq<Byte>)
    ensures |s| == n && forall i :: 0 <= i < n ==> s[i] == 0
  {
    if n == 0 then [] else Zeros(n - 1) + [0]
  }

  /* ----- Conservation ----- */

  // The bytes behind a start code, counted or left.
  lemma CountsAfterStart(lead: nat, zero: nat, u: seq<Byte>)
    ensures var r := AfterStart(lead, zero, u); var n := Total(r.stats) - lead - zero - 3;
      && 0 <= n && n + |r.rest| <= |u|
      && (n + |r.rest| < |u| ==> n + |r.rest| + 1 == |u| && r.eof && u[n] != 0)
  {
    var v := u[|Body(u)|..];
    var k := Skipped(v);
    SkippedAreZeros(v);
    if k < |v| && !AtStart(v[k..]) {
      assert u[|Body(u)| + k] == v[k];
    }
  }

  // Behind k bytes counted before, every byte of t is counted or left, but for one that is not zero.
  ghost predicate Accounts(t: seq<Byte>, k: nat, r: Parsed) {
    var n := Total(r.stats) - k;
    && 0 <= n && n + |r.rest| <= |t|
    && (n + |r.rest| < |t| ==> n + |r.rest| + 1 == |t| && r.eof && t[n] != 0)
  }

  // The bytes behind the zero bytes of a call, counted or left.
  lemma CountsAfterZeros(k: nat, t: seq<Byte>)
    requires AtStart(t) || t == [] || t[0] != 0
    ensures Accounts(t, k, AfterZeros(k, t))
  {
    if AtStart(t) {
      var zero := if AtPrefix(t) then 0 else 1;
      CountsFromStart(k, zero, t);
      assert AfterZeros(k, t) == AfterStart(k, zero, t[zero + 3..]);
    }
  }

  lemma CountsFromStart(k: nat, zero: nat, t: seq<Byte>)
    requires zero + 3 <= |t|
    ensures Accounts(t, k, AfterStart(k, zero, t[zero + 3..]))
  {
    var u, r := t[zero + 3..], AfterStart(k, zero, t[zero + 3..]);
    CountsAfterStart(k, zero, u);
    var n := Total(r.stats) - k;
    if n + |r.rest| < |t| {
      assert t[n] == u[n - (zero + 3)];
    }
  }

  // Every byte is counted or left, but for one byte that is not zero where a zero or a start code was due.
  lemma Conserves(s: seq<Byte>)
    ensures var r := Parse(s); var n := Total(r.stats);
      && n + |r.rest| <= |s|
      && (n + |r.rest| < |s| ==> n + |r.rest| + 1 == |s| && r.eof && s[n] != 0)
  {
    var k := Skipped(s);
    SkippedAreZeros(s);
    CountsAfterZeros(k, s[k..]);
    var n := Total(Parse(s).stats);
    assert n < |s| ==> s[n] == s[k..][n - k];
  }

  lemma StartSplits(t: seq<Byte>)
    requires AtStart(t)
    ensures var zero := if AtPrefix(t) then 0 else 1; t == Zeros(zero) + ([0, 0, 1] + t[zero + 3..])
  {
    if AtPrefix(t) {
      assert t == t[..3] + t[3..];
      assert Zeros(0) == [];
    } else {
      assert t == t[..4] + t[4..];
      assert Zeros(1) == [0];
    }
  }

  lemma SkipSplits(s: seq<Byte>)
    ensures s == Zeros(Skipped(s)) + s[Skipped(s)..]
  {
    var k := Skipped(s);
    SkippedAreZeros(s);
    assert s == s[..k] + s[k..];
  }

  lemma UnitApart(lead: nat, zero: nat, u: seq<Byte>)
    requires !AfterStart(lead, zero, u).eof
    ensures var r := AfterStart(lead, zero, u);
      u == r.nal + (Zeros(r.stats.trailingZero8Bits) + r.rest) && AtStart(r.rest)
  {
    var v := u[|Body(u)|..];
    assert u == Body(u) + v;
    SkipSplits(v);
  }

  lemma CodedUnitApart(k: nat, t: seq<Byte>)
    requires !AfterZeros(k, t).eof
    ensures var r := AfterZeros(k, t);
      t == Zeros(r.stats.zeroByte) + ([0, 0, 1] + (r.nal + (Zeros(r.stats.trailingZero8Bits) + r.rest))) && AtStart(r.rest)
  {
    var zero := if AtPrefix(t) then 0 else 1;
    StartSplits(t);
    UnitApart(k, zero, t[zero + 3..]);
  }

  // A call that ends well has taken the queue apart without losing anything.
  lemma TakesApart(s: seq<Byte>)
    requires !Parse(s).eof
    ensures var r := Parse(s);
      && s == Zeros(r.stats.leadingZero8Bits) + (Zeros(r.stats.zeroByte) + ([0, 0, 1] + (r.nal + (Zeros(r.stats.trailingZero8Bits) + r.rest))))
      && AtStart(r.rest)
  {
    SkipSplits(s);
    CodedUnitApart(Skipped(s), s[Skipped(s)..]);
  }

  lemma {:induction false} SkippedAreZeros(s: seq<Byte>)
    ensures var k := Skipped(s); s[..k] == Zeros(k) && (AtStart(s[k..]) || k == |s| || s[k] != 0)
    decreases |s|
  {
    if !AtStart(s) && s != [] && s[0] == 0 {
      SkippedAreZeros(s[1..]);
      var k := Skipped(s[1..]);
      assert s[..k + 1] == [s[0]] + s[1..][..k];
      assert s[k + 1..] == s[1..][k..];
    }
  }

  /* ----- Writing ----- */

  // A NAL unit and the zero bytes written before its start code's last byte.
  datatype Coded = Coded(zeros: nat, nal: seq<Byte>)

  function Write(c: Coded): seq<Byte> {
    Zeros(c.zeros) + [1] + c.nal
  }

  function WriteAll(list: seq<Coded>): seq<Byte> {
    if list == [] then [] else Write(list[0]) + WriteAll(list[1..])
  }

  // No three bytes of the NAL unit look like a start code or the end of a NAL unit.
  predicate Whole(nal: seq<Byte>) {
    forall i :: 0 <= i < |nal| - 2 ==> !(nal[i] == 0 && nal[i + 1] == 0 && nal[i + 2] <= 2)
  }

  predicate Clean(nal: seq<Byte>) {
    Whole(nal) && (nal == [] || nal[|nal| - 1] != 0)
  }

  // What may be written: at least two zero bytes before each unit, and no unit that could run into
  // the zero bytes of the next.
  predicate Writable(list: seq<Coded>) {
    forall i :: 0 <= i < |list| ==> list[i].zeros >= 2 && Whole(list[i].nal) && (i < |list| - 1 ==> Clean(list[i].nal))
  }

  lemma {:induction false} ZerosBeforeOne(n: nat, more: seq<Byte>)
    requires n >= 2
    ensures var s := Zeros(n) + [1] + more; var k := if n > 3 then n - 3 else 0;
      Skipped(s) == k && s[k..] == Zeros(n - k) + [1] + more && AtStart(s[k..]) && (AtPrefix(s[k..]) <==> n == 2)
    decreases n
  {
    var s := Zeros(n) + [1] + more;
    if n > 3 {
      assert s[1..] == Zeros(n - 1) + [1] + more;
      assert s[2] == 0 && s[3] == 0;
      assert !AtStart(s) by { assert s[..3] == [0, 0, 0]; assert s[..4] == [0, 0, 0, 0]; }
      ZerosBeforeOne(n - 1, more);
      assert s[1..][n - 4..] == s[n - 3..];
    } else if n == 3 {
      assert s[..4] == [0, 0, 0, 1];
      assert s[..3] == [0, 0, 0];
    } else {
      assert s[..3] == [0, 0, 1];
    }
  }

  // What may follow a NAL unit: nothing, or the zero bytes of the next.
  predicate Closes(tail: seq<Byte>) {
    tail == [] || (|tail| >= 3 && tail[0] == 0 && tail[1] == 0 && tail[2] <= 1)
  }

  lemma EndsBodyMeans(s: seq<Byte>)
    ensures EndsBody(s) <==> |s| >= 3 && s[0] == 0 && s[1] == 0 && s[2] <= 2
  {
    SmallWords(s);
  }

  lemma WholeTail(nal: seq<Byte>)
    requires Whole(nal) && nal != []
    ensures Whole(nal[1..])
  {
    var rest := nal[1..];
    forall i | 0 <= i < |rest| - 2
      ensures !(rest[i] == 0 && rest[i + 1] == 0 && rest[i + 2] <= 2)
    {
      assert !(nal[i + 1] == 0 && nal[i + 2] == 0 && nal[i + 3] <= 2);
    }
  }

  // The parser takes the NAL unit, all of it and no more.
  lemma {:induction false} BodyOfUnit(nal: seq<Byte>, tail: seq<Byte>)
    requires Whole(nal) && Closes(tail) && (tail != [] ==> Clean(nal))
    ensures Body(nal + tail) == nal
    decreases |nal|
  {
    var s := nal + tail;
    EndsBodyMeans(s);
    if nal == [] {
      assert s == tail;
    } else {
      var rest := nal[1..];
      assert s[1..] == rest + tail;
      assert !EndsBody(s);
      WholeTail(nal);
      BodyOfUnit(rest, tail);
    }
  }

  /* ----- One unit round ----- */

  // The zero bytes that stay in the queue when a call stops before them.
  function AtMostThree(n: nat): nat {
    if n > 3 then 3 else n
  }

  // A tail of written units: nothing, or zero bytes and a start code's last byte.
  predicate IsTail(tail: seq<Byte>, zeros: nat, more: seq<Byte>) {
    tail == [] || (zeros >= 2 && tail == Zeros(zeros) + [1] + more)
  }

  lemma TailCloses(tail: seq<Byte>, zeros: nat, more: seq<Byte>)
    requires IsTail(tail, zeros, more)
    ensures Closes(tail)
  {
    if tail != [] {
      assert zeros > 2 ==> tail[2] == Zeros(zeros)[2];
    }
  }

  lemma EmptySkip()
    ensures Skipped([]) == 0 && !AtStart([])
  {
  }

  lemma WrittenSkips(c: Coded, k: nat, tail: seq<Byte>)
    requires c.zeros >= 2 && k == if c.zeros > 3 then c.zeros - 3 else 0
    ensures Parse(Write(c) + tail) == AfterZeros(k, Zeros(c.zeros - k) + [1] + (c.nal + tail))
  {
    Regrouped(Zeros(c.zeros) + [1], c.nal, tail);
    ZerosBeforeOne(c.zeros, c.nal + tail);
  }

  // One written unit, at the head of a queue, comes back in one call, which says how many zero bytes
  // to write again and leaves the next unit behind at most three zero bytes.
  lemma UnitComesBack(c: Coded, tail: seq<Byte>, zeros: nat, more: seq<Byte>)
    requires c.zeros >= 2 && Whole(c.nal) && IsTail(tail, zeros, more) && (tail != [] ==> Clean(c.nal))
    ensures var r := Parse(Write(c) + tail);
      && r.nal == c.nal
      && r.stats.leadingZero8Bits + r.stats.zeroByte + r.stats.startCodePrefix - 1 == c.zeros
      && r.eof == r.failed == (tail == [])
      && r.rest == if tail == [] then [] else Zeros(AtMostThree(zeros)) + [1] + more
  {
    var k := if c.zeros > 3 then c.zeros - 3 else 0;
    WrittenSkips(c, k, tail);
    UnitBehindZeros(c, k, tail, zeros, more);
  }

  // Two or three zero bytes and a one are a start code, with or without its zero byte.
  lemma CodeTaken(k: nat, zeros: nat, more: seq<Byte>)
    requires 2 <= zeros <= 3
    ensures AfterZeros(k, Zeros(zeros) + [1] + more) == AfterStart(k, zeros - 2, more)
  {
    var t := Zeros(zeros) + [1] + more;
    ZerosBeforeOne(zeros, more);
    assert t[0..] == t && t[zeros + 1..] == more;
  }

  lemma BodyTaken(lead: nat, zero: nat, nal: seq<Byte>, tail: seq<Byte>)
    requires Whole(nal) && Closes(tail) && (tail != [] ==> Clean(nal))
    ensures AfterStart(lead, zero, nal + tail) == AfterBody(nal, lead, zero, tail)
  {
    BodyOfUnit(nal, tail);
    assert (nal + tail)[|nal|..] == tail;
  }

  lemma TailLeft(lead: nat, zero: nat, nal: seq<Byte>, tail: seq<Byte>, zeros: nat, more: seq<Byte>)
    requires IsTail(tail, zeros, more)
    ensures var r := AfterBody(nal, lead, zero, tail);
      && r.eof == r.failed == (tail == [])
      && r.rest == if tail == [] then [] else Zeros(AtMostThree(zeros)) + [1] + more
  {
    if tail == [] {
      EmptySkip();
    } else {
      ZerosBeforeOne(zeros, more);
    }
  }

  lemma UnitBehindZeros(c: Coded, k: nat, tail: seq<Byte>, zeros: nat, more: seq<Byte>)
    requires c.zeros >= 2 && Whole(c.nal) && IsTail(tail, zeros, more) && (tail != [] ==> Clean(c.nal))
    requires k == if c.zeros > 3 then c.zeros - 3 else 0
    ensures var r := AfterZeros(k, Zeros(c.zeros - k) + [1] + (c.nal + tail));
      && r.nal == c.nal
      && r.stats.leadingZero8Bits + r.stats.zeroByte + r.stats.startCodePrefix - 1 == c.zeros
      && r.eof == r.failed == (tail == [])
      && r.rest == if tail == [] then [] else Zeros(AtMostThree(zeros)) + [1] + more
  {
    var zero := c.zeros - k - 2;
    CodeTaken(k, c.zeros - k, c.nal + tail);
    TailCloses(tail, zeros, more);
    BodyTaken(k, zero, c.nal, tail);
    TailLeft(k, zero, c.nal, tail, zeros, more);
  }

  /* ----- Streams of calls ----- */

  lemma CallShrinks(s: seq<Byte>)
    ensures !Parse(s).failed ==> |Parse(s).rest| < |s|
  {
    var k := Skipped(s);
    var t := s[k..];
    if AtStart(t) {
      CountsAfterZeros(k, t);
    }
  }

  // Calls are made until the stream has been read past its end.
  function Calls(s: seq<Byte>): (calls: seq<Parsed>)
    ensures calls != []
    decreases |s|
  {
    CallShrinks(s);
    var r := Parse(s);
    if r.failed then [r] else [r] + Calls(r.rest)
  }

  function Nals(calls: seq<Parsed>): seq<seq<Byte>> {
    if calls == [] then [] else [calls[0].nal] + Nals(calls[1..])
  }

  function CodedNals(list: seq<Coded>): seq<seq<Byte>> {
    if list == [] then [] else [list[0].nal] + CodedNals(list[1..])
  }

  // The next unit of a queue, behind at most three zero bytes.
  function Trimmed(list: seq<Coded>): seq<Coded>
    requires list != []
  {
    [Coded(AtMostThree(list[0].zeros), list[0].nal)] + list[1..]
  }

  lemma TrimmedIsWritable(list: seq<Coded>)
    requires Writable(list) && |list| > 1
    ensures Writable(Trimmed(list[1..])) && CodedNals(Trimmed(list[1..])) == CodedNals(list[1..])
  {
    var trimmed := Trimmed(list[1..]);
    forall i | 0 <= i < |trimmed|
      ensures trimmed[i].zeros >= 2 && Whole(trimmed[i].nal) && (i < |trimmed| - 1 ==> Clean(trimmed[i].nal))
    {
      assert i > 0 ==> trimmed[i] == list[i + 1];
    }
    assert trimmed[1..] == list[1..][1..];
  }

  // The first unit of several comes back, and leaves the others behind at most three zero bytes.
  lemma FirstComesBack(list: seq<Coded>)
    requires Writable(list) && |list| > 1
    ensures var r := Parse(WriteAll(list));
      r.nal == list[0].nal && !r.eof && !r.failed && r.rest == WriteAll(Trimmed(list[1..]))
  {
    var c, tail, d := list[0], WriteAll(list[1..]), list[1];
    TailOf(list[1..]);
    assert Clean(c.nal);
    UnitComesBack(c, tail, d.zeros, d.nal + WriteAll(list[1..][1..]));
    TailOf(Trimmed(list[1..]));
    assert Trimmed(list[1..])[1..] == list[1..][1..];
  }

  lemma OnlyComesBack(list: seq<Coded>)
    requires Writable(list) && |list| == 1
    ensures var r := Parse(WriteAll(list)); r.nal == list[0].nal && r.eof && r.failed && r.rest == []
  {
    assert list[1..] == [];
    UnitComesBack(list[0], [], 0, []);
  }

  // Parsing undoes writing: the calls return exactly the units written, in order, and only the last
  // one meets the end of the stream, with nothing left.
  lemma {:induction false} RoundTrip(list: seq<Coded>)
    requires list != [] && Writable(list)
    ensures var calls := Calls(WriteAll(list));
      && Nals(calls) == CodedNals(list)
      && (forall i :: 0 <= i < |calls| ==> (calls[i].eof <==> i == |calls| - 1))
      && calls[|calls| - 1].rest == []
    decreases |list|
  {
    var s := WriteAll(list);
    if |list| == 1 {
      OnlyComesBack(list);
      assert list[1..] == [];
      LastCall(s);
    } else {
      var more := Trimmed(list[1..]);
      FirstComesBack(list);
      TrimmedIsWritable(list);
      RoundTrip(more);
      FirstCall(s, WriteAll(more));
    }
  }

  lemma TailOf(list: seq<Coded>)
    requires list != []
    ensures WriteAll(list) == Zeros(list[0].zeros) + [1] + (list[0].nal + WriteAll(list[1..]))
  {
    Regrouped(Zeros(list[0].zeros) + [1], list[0].nal, WriteAll(list[1..]));
  }

  lemma LastCall(s: seq<Byte>)
    requires Parse(s).failed
    ensures Calls(s) == [Parse(s)] && Nals(Calls(s)) == [Parse(s).nal]
  {
    assert [Parse(s)][1..] == [];
  }

  lemma FirstCall(s: seq<Byte>, rest: seq<Byte>)
    requires !Parse(s).failed && Parse(s).rest == rest
    ensures Calls(s) == [Parse(s)] + Calls(rest) && Nals(Calls(s)) == [Parse(s).nal] + Nals(Calls(rest))
  {
    CallShrinks(s);
    assert ([Parse(s)] + Calls(rest))[1..] == Calls(rest);
  }

  /* ----- When the round trip fails ----- */

  lemma {:induction false} BodyStopsBefore(nal: seq<Byte>, tail: seq<Byte>)
    requires EndsBody(tail)
    ensures |Body(nal + tail)| <= |nal|
    decreases |nal|
  {
    if nal == [] {
      assert nal + tail == tail;
    } else {
      assert (nal + tail)[1..] == nal[1..] + tail;
      BodyStopsBefore(nal[1..], tail);
    }
  }

  lemma UncleanUnitIsCut(c: Coded, tail: seq<Byte>, zeros: nat, more: seq<Byte>)
    requires c.zeros >= 2 && IsTail(tail, zeros, more) && tail != [] && !Clean(c.nal)
    ensures Parse(Write(c) + tail).nal != c.nal
  {
    var k := if c.zeros > 3 then c.zeros - 3 else 0;
    var t := Zeros(c.zeros - k) + [1] + (c.nal + tail);
    WrittenSkips(c, k, tail);
    ZerosBeforeOne(c.zeros - k, c.nal + tail);
    assert t[0..] == t;
    assert t[c.zeros - k + 1..] == c.nal + tail;
    TailCloses(tail, zeros, more);
    EndsBodyMeans(tail);
    BodyStopsBefore(c.nal, tail);
    BodyIsWhole(c.nal + tail);
  }

  // The first unit returned never looks like a start code inside.
  lemma FirstUnitIsWhole(s: seq<Byte>)
    ensures Whole(Parse(s).nal)
  {
    CallIsWritable(s);
  }

  // The units of a list but its first come back exactly if they are writable, whatever the first one is.
  lemma LaterUnits(list: seq<Coded>, c: Coded, trimmed: seq<Coded>)
    requires |list| > 1 && c == list[0] && trimmed == Trimmed(list[1..])
    requires c.zeros >= 2 && Clean(c.nal) && list[1].zeros >= 2
    ensures Calls(WriteAll(list)) == [Parse(WriteAll(list))] + Calls(WriteAll(trimmed))
    ensures Parse(WriteAll(list)).nal == c.nal
    ensures Nals(Calls(WriteAll(list))) == [c.nal] + Nals(Calls(WriteAll(trimmed)))
  {
    var d, tail := list[1], WriteAll(list[1..]);
    var more := d.nal + WriteAll(list[1..][1..]);
    TailOf(list[1..]);
    UnitComesBack(c, tail, d.zeros, more);
    TailOf(trimmed);
    assert trimmed[1..] == list[1..][1..];
    FirstCall(Write(c) + tail, WriteAll(trimmed));
  }

  // Unit i of a list, as Writable asks for it.
  predicate WritableAt(list: seq<Coded>, i: nat)
    requires i < |list|
  {
    list[i].zeros >= 2 && Whole(list[i].nal) && (i < |list| - 1 ==> Clean(list[i].nal))
  }

  lemma TrimmedAt(list: seq<Coded>, trimmed: seq<Coded>, i: nat)
    requires |list| > 1 && trimmed == Trimmed(list[1..]) && i + 1 < |list|
    ensures |trimmed| == |list| - 1 && trimmed[i].nal == list[i + 1].nal
    ensures trimmed[i].zeros >= 2 <==> list[i + 1].zeros >= 2
    ensures WritableAt(trimmed, i) <==> WritableAt(list, i + 1)
  {
    assert list[1..][i] == list[i + 1];
    assert i > 0 ==> trimmed[i] == list[1..][i];
  }

  lemma WritableFromTrimmed(list: seq<Coded>, trimmed: seq<Coded>)
    requires |list| > 1 && trimmed == Trimmed(list[1..]) && list[0].zeros >= 2 && Clean(list[0].nal) && Writable(trimmed)
    ensures Writable(list)
  {
    forall i | 0 <= i < |list|
      ensures list[i].zeros >= 2 && Whole(list[i].nal) && (i < |list| - 1 ==> Clean(list[i].nal))
    {
      if i > 0 {
        TrimmedAt(list, trimmed, i - 1);
        assert WritableAt(trimmed, i - 1);
        assert WritableAt(list, i);
      }
    }
  }

  lemma TrimmedWritableIff(list: seq<Coded>, trimmed: seq<Coded>)
    requires |list| > 1 && trimmed == Trimmed(list[1..]) && Clean(list[0].nal)
    requires forall i :: 0 <= i < |list| ==> list[i].zeros >= 2
    ensures Writable(trimmed) <==> Writable(list)
    ensures CodedNals(list) == [list[0].nal] + CodedNals(trimmed)
    ensures forall i :: 0 <= i < |trimmed| ==> trimmed[i].zeros >= 2
  {
    assert trimmed[1..] == list[1..][1..];
    forall i | 0 <= i < |trimmed|
      ensures trimmed[i].zeros >= 2
    {
      TrimmedAt(list, trimmed, i);
    }
    if Writable(trimmed) {
      WritableFromTrimmed(list, trimmed);
    } else if Writable(list) {
      TrimmedIsWritable(list);
    }
  }

  lemma SameAfterFirst(a: seq<Byte>, s: seq<seq<Byte>>, t: seq<seq<Byte>>)
    ensures [a] + s == [a] + t <==> s == t
  {
    assert ([a] + s)[1..] == s && ([a] + t)[1..] == t;
  }

  // Units behind two zero bytes or more come back if and only if none looks like a start code inside and none but
  // the last ends in zero.
  lemma {:induction false} RoundTripExactly(list: seq<Coded>)
    requires list != [] && forall i :: 0 <= i < |list| ==> list[i].zeros >= 2
    ensures Nals(Calls(WriteAll(list))) == CodedNals(list) <==> Writable(list)
    decreases |list|
  {
    var c, tail := list[0], WriteAll(list[1..]);
    FirstNal(Write(c) + tail);
    FirstUnitIsWhole(Write(c) + tail);
    if Writable(list) {
      RoundTrip(list);
    } else if |list| == 1 || !Whole(c.nal) {
      assert CodedNals(list)[0] == c.nal;
    } else if Clean(c.nal) {
      var trimmed := Trimmed(list[1..]);
      LaterUnits(list, c, trimmed);
      TrimmedWritableIff(list, trimmed);
      RoundTripExactly(trimmed);
      SameAfterFirst(c.nal, Nals(Calls(WriteAll(trimmed))), CodedNals(trimmed));
    } else {
      var d := list[1];
      TailOf(list[1..]);
      UncleanUnitIsCut(c, tail, d.zeros, d.nal + WriteAll(list[1..][1..]));
      assert CodedNals(list)[0] == c.nal;
    }
  }

  lemma FirstNal(s: seq<Byte>)
    ensures Nals(Calls(s)) != [] && Nals(Calls(s))[0] == Parse(s).nal
  {
    CallShrinks(s);
  }

  // A unit that ends in zero, before another one: other units come back.
  lemma ZeroDoesNotComeBack()
    ensures var list := [Coded(2, [9, 0]), Coded(2, [9])]; Nals(Calls(WriteAll(list))) != CodedNals(list)
  {
    var list := [Coded(2, [9, 0]), Coded(2, [9])];
    assert !Clean(list[0].nal);
    RoundTripExactly(list);
  }

  /* ----- Parsing and writing again ----- */

  // The zero bytes to write before the start code's last byte.
  function NumZeros(stats: Stats): nat
    requires stats.startCodePrefix > 0
  {
    stats.leadingZero8Bits + stats.zeroByte + stats.startCodePrefix - 1
  }

  lemma {:induction false} BodyIsWhole(u: seq<Byte>)
    ensures Whole(Body(u)) && (|Body(u)| < |u| ==> Clean(Body(u)))
    decreases |u|
  {
    EndsBodyMeans(u);
    if u != [] && !EndsBody(u) {
      var rest := u[1..];
      BodyIsWhole(rest);
      var body := Body(rest);
      assert Body(u) == [u[0]] + body;
      forall i | 0 <= i < |Body(u)| - 2
        ensures !(Body(u)[i] == 0 && Body(u)[i + 1] == 0 && Body(u)[i + 2] <= 2)
      {
        if i > 0 {
          assert !(body[i - 1] == 0 && body[i] == 0 && body[i + 1] <= 2);
        } else {
          assert Body(u)[1] == rest[0] && Body(u)[2] == rest[1];
        }
      }
      if body == [] && rest != [] {
        EndsBodyMeans(rest);
        assert Body(u)[0] == u[0] && u[1] == rest[0] && u[2] == rest[1];
      }
    }
  }

  // What a call returns can be written again, and before other units unless the stream has ended.
  lemma CallIsWritable(s: seq<Byte>)
    ensures var r := Parse(s); r.nal != [] ==>
      r.stats.startCodePrefix == 3 && Whole(r.nal) && (!r.failed ==> Clean(r.nal))
  {
    var t := s[Skipped(s)..];
    if AtStart(t) {
      var u := t[(if AtPrefix(t) then 0 else 1) + 3..];
      BodyIsWhole(u);
      EmptySkip();
    }
  }

  ghost predicate IsCall(r: Parsed) {
    exists s :: r == Parse(s)
  }

  // The units of the calls that are written: all but the empty ones.
  function Rewritten(calls: seq<Parsed>): seq<Coded> {
    if calls == [] then [] else
      var r, before := calls[|calls| - 1], Rewritten(calls[..|calls| - 1]);
      if r.nal == [] || r.stats.startCodePrefix == 0 then before else before + [Coded(NumZeros(r.stats), r.nal)]
  }

  // The NAL units returned, without the empty ones.
  function NonEmptyNals(calls: seq<Parsed>): seq<seq<Byte>> {
    if calls == [] then [] else
      var nal, before := calls[|calls| - 1].nal, NonEmptyNals(calls[..|calls| - 1]);
      if nal == [] then before else before + [nal]
  }

  // Calls whose units can be written one after the other.
  ghost predicate Rewritable(calls: seq<Parsed>) {
    forall i :: 0 <= i < |calls| ==> IsCall(calls[i]) && (i < |calls| - 1 ==> Clean(calls[i].nal))
  }

  lemma CodedNalsOfMore(list: seq<Coded>, c: Coded)
    ensures CodedNals(list + [c]) == CodedNals(list) + [c.nal]
  {
    if list == [] {
      assert [c][1..] == [];
    } else {
      assert (list + [c])[1..] == list[1..] + [c];
    }
  }

  lemma {:induction false} RewrittenIsWritable(calls: seq<Parsed>)
    requires Rewritable(calls)
    ensures Writable(Rewritten(calls)) && CodedNals(Rewritten(calls)) == NonEmptyNals(calls)
    ensures (forall i :: 0 <= i < |calls| ==> Clean(calls[i].nal)) ==> forall i :: 0 <= i < |Rewritten(calls)| ==> Clean(Rewritten(calls)[i].nal)
    decreases |calls|
  {
    if calls != [] {
      var n := |calls| - 1;
      var r, before := calls[n], Rewritten(calls[..n]);
      RewrittenIsWritable(calls[..n]);
      if r.nal != [] {
        var s :| r == Parse(s);
        CallIsWritable(s);
        CodedNalsOfMore(before, Coded(NumZeros(r.stats), r.nal));
        AppendedIsWritable(before, Coded(NumZeros(r.stats), r.nal));
      }
    }
  }

  lemma AppendedIsWritable(list: seq<Coded>, c: Coded)
    requires Writable(list) && c.zeros >= 2 && Whole(c.nal)
    requires forall i :: 0 <= i < |list| ==> Clean(list[i].nal)
    ensures Writable(list + [c])
  {
  }

  lemma {:induction false} CallsAreRewritable(s: seq<Byte>)
    ensures Rewritable(Calls(s))
    decreases |s|
  {
    var r := Parse(s);
    CallIsWritable(s);
    if !r.failed {
      CallShrinks(s);
      CallsAreRewritable(r.rest);
      var later := Calls(r.rest);
      forall i | 0 <= i < |later| + 1
        ensures IsCall(([r] + later)[i]) && (i < |later| ==> Clean(([r] + later)[i].nal))
      {
        assert i > 0 ==> ([r] + later)[i] == later[i - 1];
      }
    }
  }

  // Parsing any stream and writing its units again keeps every unit that is not empty, in order.
  lemma RewritingKeepsNals(s: seq<Byte>)
    ensures var list := Rewritten(Calls(s));
      && CodedNals(list) == NonEmptyNals(Calls(s))
      && (list != [] ==> Nals(Calls(WriteAll(list))) == NonEmptyNals(Calls(s)))
  {
    CallsAreRewritable(s);
    RewrittenIsWritable(Calls(s));
    if Rewritten(Calls(s)) != [] {
      RoundTrip(Rewritten(Calls(s)));
    }
  }

  /* ----- Merging in turns ----- */

  // Turn k of every stream that has that many calls.
  function Turn(streams: seq<seq<Parsed>>, k: nat): seq<Parsed> {
    if streams == [] then [] else
      var last := streams[|streams| - 1];
      Turn(streams[..|streams| - 1], k) + if k < |last| then [last[k]] else []
  }

  // The first k turns.
  function Turns(streams: seq<seq<Parsed>>, k: nat): seq<Parsed> {
    if k == 0 then [] else Turns(streams, k - 1) + Turn(streams, k - 1)
  }

  function Longest(streams: seq<seq<Parsed>>): nat {
    if streams == [] then 0 else
      var rest, n := Longest(streams[..|streams| - 1]), |streams[|streams| - 1]|;
      if n > rest then n else rest
  }

  // All calls of all streams, in turns.
  function InTurns(streams: seq<seq<Parsed>>): seq<Parsed> {
    Turns(streams, Longest(streams))
  }

  lemma {:induction false} WriteAllOfMore(list: seq<Coded>, c: Coded)
    ensures WriteAll(list + [c]) == WriteAll(list) + Write(c)
    decreases |list|
  {
    if list == [] {
      assert [c][1..] == [];
    } else {
      assert (list + [c])[1..] == list[1..] + [c];
      WriteAllOfMore(list[1..], c);
      Regrouped(Write(list[0]), WriteAll(list[1..]), Write(c));
    }
  }

  // The bytes written for a list of calls.
  function Output(calls: seq<Parsed>): seq<Byte> {
    WriteAll(Rewritten(calls))
  }

  lemma OutputOfMore(calls: seq<Parsed>, r: Parsed)
    ensures Output(calls + [r]) == Output(calls) + if r.nal == [] || r.stats.startCodePrefix == 0 then [] else Write(Coded(NumZeros(r.stats), r.nal))
  {
    assert (calls + [r])[..|calls|] == calls;
    if !(r.nal == [] || r.stats.startCodePrefix == 0) {
      WriteAllOfMore(Rewritten(calls), Coded(NumZeros(r.stats), r.nal));
    }
  }

  // One NAL unit behind the zero bytes that its stream had before it.
  method WriteNalUnit(nal: seq<Byte>, stats: Stats, out: seq<Byte>) returns (r: seq<Byte>)
    requires stats.startCodePrefix > 0
    ensures r == out + Write(Coded(NumZeros(stats), nal))
  {
    var numZeros := stats.leadingZero8Bits + stats.zeroByte + stats.startCodePrefix - 1;
    r := out;
    for i := 0 to numZeros
      invariant r == out + Zeros(i)
    {
      r := r + [0];
    }
    r := r + [1];
    r := r + nal;
    assert out + Zeros(numZeros) + [1] + nal == out + (Zeros(numZeros) + [1] + nal);
  }
}
