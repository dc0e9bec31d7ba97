/**
 The byte stream format of Annex B of Rec. ITU-T H.266: a reader with four bytes of look-ahead
 over an input stream, the NAL unit parser on top of it, and the writing of start codes.
 The reader refines a plain byte queue, the parser is a function of that queue, and parsing
 undoes writing.
 */
module AnnexB {
  import opened Multiples

  type Byte = x: int | 0 <= x < 256

  datatype Option<T> = None | Some(value: T)

  /* ----- Words of bytes ----- */

  function Pow256(n: nat): (r: nat)
    ensures r > 0
  {
    if n == 0 then 1 else 256 * Pow256(n - 1)
  }

  // The bytes read as one big-endian word.
  function Word(s: seq<Byte>): nat {
    if s == [] then 0 else Word(s[..|s| - 1]) * 256 + s[|s| - 1]
  }

  // The n low bytes of a word, the first one most significant.
  function Bytes(w: nat, n: nat): (s: seq<Byte>)
    ensures |s| == n
  {
    if n == 0 then [] else Bytes(w / 256, n - 1) + [w % 256]
  }

  lemma {:induction false} WordBound(s: seq<Byte>)
    ensures Word(s) < Pow256(|s|)
  {
    if s != [] {
      WordBound(s[..|s| - 1]);
    }
  }

  lemma {:induction false} BytesOfWord(s: seq<Byte>)
    ensures Bytes(Word(s), |s|) == s
  {
    if s != [] {
      var n := |s| - 1;
      BytesOfWord(s[..n]);
      assert Word(s) / 256 == Word(s[..n]) && Word(s) % 256 == s[n];
      assert s == s[..n] + [s[n]];
    }
  }

  lemma {:induction false} WordOfBytes(w: nat, n: nat)
    requires w < Pow256(n)
    ensures Word(Bytes(w, n)) == w
  {
    if n > 0 {
      WordOfBytes(w / 256, n - 1);
      assert Bytes(w, n)[..n - 1] == Bytes(w / 256, n - 1);
    }
  }

  lemma OneMoreByte(l: nat, p: nat, t: nat, b: nat)
    ensures (l * p + t) * 256 + b == l * (256 * p) + (t * 256 + b)
  {
    assert l * (256 * p) == 256 * (l * p);
  }

  lemma SlicesOfLead(s: seq<Byte>, k: nat)
    requires 0 < k <= |s|
    ensures var n := |s| - 1; s[..n][..n - (k - 1)] == s[..|s| - k] && s[..n][n - (k - 1)..] == s[|s| - k..][..k - 1]
  {
  }

  // A word is its leading bytes, shifted, and its last k bytes.
  lemma {:induction false} WordSplit(s: seq<Byte>, k: nat)
    requires k <= |s|
    ensures Word(s) == Word(s[..|s| - k]) * Pow256(k) + Word(s[|s| - k..])
    decreases k
  {
    if k == 0 {
      assert s[..|s|] == s;
    } else {
      var n := |s| - 1;
      WordSplit(s[..n], k - 1);
      SlicesOfLead(s, k);
      OneMoreByte(Word(s[..|s| - k]), Pow256(k - 1), Word(s[|s| - k..][..k - 1]), s[n]);
    }
  }

  // Shifting out the k low bytes drops the last k bytes.
  lemma ShiftTakes(s: seq<Byte>, k: nat)
    requires k <= |s|
    ensures Word(s) / Pow256(k) == Word(s[..|s| - k])
  {
    WordSplit(s, k);
    WordBound(s[|s| - k..]);
    QuotientIs(Word(s[..|s| - k]), Pow256(k), Word(s[|s| - k..]));
  }

  // Shifting in one byte appends it; with fewer than four bytes nothing is shifted out.
  lemma ShiftedIn(w: nat, n: nat, b: Byte)
    requires n < 4 && w < Pow256(n)
    ensures var v := w * 256 % 0x1_0000_0000 + b;
      v < Pow256(n + 1) && Bytes(v, n + 1) == Bytes(w, n) + [b]
  {
    FourBytesAtMost(n + 1);
    ByteIn(w, b);
    ShiftFits(w, Pow256(n));
    assert Pow256(n + 1) == 256 * Pow256(n);
  }

  lemma ByteIn(w: nat, value: int)
    requires 0 <= value < 256
    ensures (w * 256 + value) / 256 == w && (w * 256 + value) % 256 == value
  {
  }

  // What is below the limit stays below it, shifted, and is not cut off by 32 bits.
  lemma ShiftFits(w: nat, limit: nat)
    requires w < limit && 256 * limit <= 0x1_0000_0000
    ensures w * 256 % 0x1_0000_0000 == w * 256 && w * 256 + 255 < 256 * limit
  {
  }

  // Taking out the top byte leaves the others.
  lemma ShiftedOut(w: nat, n: nat)
    requires n > 0 && w < Pow256(n)
    ensures var k := n - 1; var v := w - w / Pow256(k) % 256 * Pow256(k);
      && w / Pow256(k) % 256 == Bytes(w, n)[0]
      && 0 <= v < Pow256(k) && Bytes(v, k) == Bytes(w, n)[1..]
  {
    var s := Bytes(w, n);
    WordOfBytes(w, n);
    TopByte(s);
    BytesOfWord(s[1..]);
    WordBound(s[1..]);
  }

  // A word of fewer than four bytes and one more, in 32-bit arithmetic.
  lemma NextByte(s: seq<Byte>, i: nat)
    requires i < 4 && i < |s|
    ensures Word(s[..i]) * 256 % 0x1_0000_0000 + s[i] == Word(s[..i + 1])
  {
    WordBound(s[..i]);
    FourBytesAtMost(i + 1);
    assert s[..i + 1][..i] == s[..i];
  }

  // Shifting out the low bytes leaves the word of the first n.
  lemma TopBytes(w: nat, k: nat, n: nat)
    requires n <= k && w < Pow256(k)
    ensures w / Pow256(k - n) == Word(Bytes(w, k)[..n])
  {
    WordOfBytes(w, k);
    ShiftTakes(Bytes(w, k), k - n);
  }

  lemma FirstBytes(a: seq<Byte>, b: seq<Byte>, n: nat)
    requires n <= |a|
    ensures (a + b)[..n] == a[..n]
  {
  }

  /* ----- The reader ----- */

  // The input stream: reading at its end fails, consumes nothing and leaves a mark.
  class Input {
    var rest: seq<Byte>
    var failed: bool

    constructor (bytes: seq<Byte>)
      ensures rest == bytes && !failed
    {
      rest, failed := bytes, false;
    }

    method Get() returns (r: Option<Byte>)
      modifies this
      ensures old(rest) == [] ==> r == None && rest == [] && failed
      ensures old(rest) != [] ==> r == Some(old(rest)[0]) && rest == old(rest)[1..] && failed == old(failed)
    {
      if rest == [] {
        failed := true;
        r := None;
      } else {
        r, rest := Some(rest[0]), rest[1..];
      }
    }
  }

  class SingleLayerStream {
    var numFutureBytes: nat
    var futureBytes: nat

    ghost predicate Valid()
      reads this
    {
      numFutureBytes <= 4 && futureBytes < Pow256(numFutureBytes)
    }

    // The bytes looked ahead at, in order.
    ghost function Ahead(): seq<Byte>
      reads this
    {
      Bytes(futureBytes, numFutureBytes)
    }

    // The queue: everything not consumed yet.
    ghost function Unread(input: Input): seq<Byte>
      reads this, input
    {
      Ahead() + input.rest
    }

    constructor ()
      ensures Valid() && Ahead() == []
    {
      numFutureBytes, futureBytes := 0, 0;
    }

    // One byte moves from the input into the look-ahead, in 32-bit arithmetic.
    method Fetch(input: Input) returns (ok: bool)
      requires Valid() && numFutureBytes < 4
      modifies this, input
      ensures Valid() && Unread(input) == old(Unread(input))
      ensures ok <==> old(input.rest) != []
      ensures ok ==> numFutureBytes == old(numFutureBytes) + 1 && input.failed == old(input.failed)
      ensures !ok ==> numFutureBytes == old(numFutureBytes) && input.rest == [] && input.failed
    {
      var r := input.Get();
      ok := r.Some?;
      if ok {
        ghost var s := Ahead();
        ShiftedIn(futureBytes, numFutureBytes, r.value);
        futureBytes := futureBytes * 256 % 0x1_0000_0000 + r.value;
        numFutureBytes := numFutureBytes + 1;
        assert s + old(input.rest) == s + [r.value] + input.rest;
      }
    }

    // Whether the queue ends within the next n bytes; the queue itself does not change.
    method EofBeforeNBytes(n: nat, input: Input) returns (eof: bool)
      requires Valid() && n <= 4
      modifies this, input
      ensures Valid() && Unread(input) == old(Unread(input))
      ensures eof <==> |Unread(input)| < n
      ensures !eof ==> numFutureBytes >= n && input.failed == old(input.failed)
      ensures eof ==> input.failed && input.rest == []
    {
      if numFutureBytes >= n {
        return false;
      }
      var m := n - numFutureBytes;
      for i := 0 to m
        invariant Valid() && Unread(input) == old(Unread(input))
        invariant numFutureBytes + (m - i) == n
        invariant input.failed == old(input.failed)
      {
        var ok := Fetch(input);
        if !ok {
          return true;
        }
      }
      return false;
    }

    // The next n bytes as a word, left in the queue.  Past the end any word may come back.
    method PeekBytes(n: nat, input: Input) returns (w: nat)
      requires Valid() && n <= 4
      modifies this, input
      ensures Valid() && Unread(input) == old(Unread(input))
      ensures n <= |Unread(input)| ==> w == Word(Unread(input)[..n]) && input.failed == old(input.failed)
      ensures n > |Unread(input)| ==> input.failed && input.rest == []
    {
      var eof := EofBeforeNBytes(n, input);
      if eof {
        w := *;
      } else {
        w := futureBytes / Pow256(numFutureBytes - n);
        TopBytes(futureBytes, numFutureBytes, n);
        FirstBytes(Ahead(), input.rest, n);
      }
    }

    method ReadByte(input: Input) returns (r: Option<Byte>)
      requires Valid()
      modifies this, input
      ensures Valid()
      ensures old(Unread(input)) == [] ==> r == None && Unread(input) == [] && input.failed
      ensures old(Unread(input)) != [] ==> r == Some(old(Unread(input))[0]) && Unread(input) == old(Unread(input))[1..] && input.failed == old(input.failed)
    {
      if numFutureBytes == 0 {
        r := input.Get();
        return;
      }
      ghost var s := Ahead();
      ShiftedOut(futureBytes, numFutureBytes);
      numFutureBytes := numFutureBytes - 1;
      var wanted := futureBytes / Pow256(numFutureBytes) % 256;
      futureBytes := futureBytes - futureBytes / Pow256(numFutureBytes) % 256 * Pow256(numFutureBytes);
      r := Some(wanted);
      assert s + input.rest == [s[0]] + (s[1..] + input.rest);
    }

    // The next n bytes as a word, consumed; at the end everything left is consumed and lost.
    method ReadBytes(n: nat, input: Input) returns (r: Option<nat>)
      requires Valid() && n <= 4
      modifies this, input
      ensures Valid()
      ensures |old(Unread(input))| >= n ==>
        r == Some(Word(old(Unread(input))[..n])) && Unread(input) == old(Unread(input))[n..] && input.failed == old(input.failed)
      ensures |old(Unread(input))| < n ==> r == None && Unread(input) == [] && input.failed
    {
      ghost var s := Unread(input);
      var val := 0;
      for i := 0 to n
        invariant Valid() && i <= |s| && Unread(input) == s[i..] && val == Word(s[..i])
        invariant input.failed == old(input.failed)
      {
        var b := ReadByte(input);
        if b.None? {
          return None;
        }
        assert s[i..][1..] == s[i + 1..];
        NextByte(s, i);
        val := val * 256 % 0x1_0000_0000 + b.value;
      }
      r := Some(val);
    }
  }

  lemma FourBytesAtMost(n: nat)
    requires n <= 4
    ensures Pow256(n) <= 0x1_0000_0000
    ensures Pow256(4) == 0x1_0000_0000
  {
    assert Pow256(1) == 256 && Pow256(2) == 65536 && Pow256(3) == 16777216 && Pow256(4) == 0x1_0000_0000;
  }

  lemma TopOf(w: nat, p: nat, top: nat, low: nat)
    requires w == top * p + low && low < p && top < 256
    ensures w / p % 256 == top && w - top * p == low
  {
    QuotientIs(top, p, low);
  }

  // The first byte of the queue is the top byte of the word.
  lemma TopByte(s: seq<Byte>)
    requires s != []
    ensures var k := |s| - 1; Word(s) / Pow256(k) % 256 == s[0] && Word(s) - s[0] * Pow256(k) == Word(s[1..])
  {
    WordSplit(s, |s| - 1);
    WordBound(s[1..]);
    assert Word(s[..1]) == s[0] by {
      assert s[..1] == [s[0]] && [s[0]][..0] == [];
    }
    TopOf(Word(s), Pow256(|s| - 1), s[0], Word(s[1..]));
  }

  /* ----- What the parser computes, on the queue ----- */

  // Bytes of each kind, as the parser counts them.
  datatype Stats = Stats(leadingZero8Bits: nat, zeroByte: nat, startCodePrefix: nat, numBytesInNalUnit: nat, trailingZero8Bits: nat)

  function Total(stats: Stats): nat {
    stats.leadingZero8Bits + stats.zeroByte + stats.startCodePrefix + stats.numBytesInNalUnit + stats.trailingZero8Bits
  }

  // One call: the NAL unit, the counters, the bytes left, whether an exception ended the call, and
  // whether the input was read past its end.
  datatype Parsed = Parsed(nal: seq<Byte>, stats: Stats, rest: seq<Byte>, eof: bool, failed: bool)

  predicate AtPrefix(s: seq<Byte>) {
    |s| >= 3 && s[..3] == [0, 0, 1]
  }

  // A start code, with or without its zero byte, is next.
  predicate AtStart(s: seq<Byte>) {
    AtPrefix(s) || (|s| >= 4 && s[..4] == [0, 0, 0, 1])
  }

  // The zero bytes before a start code, or before the byte or the end that is met instead.
  function Skipped(s: seq<Byte>): (n: nat)
    ensures n <= |s|
  {
    if AtStart(s) || s == [] || s[0] != 0 then 0 else 1 + Skipped(s[1..])
  }

  // What is left when the bytes skipped end in no start code: a byte that is not zero is consumed.
  function Rejected(s: seq<Byte>): seq<Byte> {
    if s == [] then [] else s[1..]
  }

  // What is left after skipping.
  function AfterSkip(s: seq<Byte>): seq<Byte> {
    var w := s[Skipped(s)..];
    if AtStart(w) then w else Rejected(w)
  }

  predicate EndsBody(s: seq<Byte>) {
    |s| >= 3 && Word(s[..3]) <= 2
  }

  function Body(s: seq<Byte>): (body: seq<Byte>)
    ensures |body| <= |s| && body == s[..|body|]
  {
    if s == [] || EndsBody(s) then [] else [s[0]] + Body(s[1..])
  }

  function AfterBody(body: seq<Byte>, lead: nat, zero: nat, v: seq<Byte>): Parsed {
    var k := if v == [] then 0 else Skipped(v);
    var w := v[k..];
    Parsed(body, Stats(lead, zero, 3, |body|, k), if AtStart(w) then w else Rejected(w), !AtStart(w), !AtStart(w) && |w| < 4)
  }

  function AfterStart(lead: nat, zero: nat, u: seq<Byte>): Parsed {
    AfterBody(Body(u), lead, zero, u[|Body(u)|..])
  }

  function AfterZeros(lead: nat, t: seq<Byte>): Parsed {
    if !AtStart(t) then Parsed([], Stats(lead, 0, 0, 0, 0), Rejected(t), true, |t| < 4) else
      var zero := if AtPrefix(t) then 0 else 1;
      AfterStart(lead, zero, t[zero + 3..])
  }

  function Parse(s: seq<Byte>): Parsed {
    AfterZeros(Skipped(s), s[Skipped(s)..])
  }

  lemma SmallWords(s: seq<Byte>)
    ensures |s| >= 3 ==> (Word(s[..3]) == 1 <==> s[..3] == [0, 0, 1]) && (Word(s[..3]) <= 2 <==> s[0] == 0 && s[1] == 0 && s[2] <= 2)
    ensures |s| >= 4 ==> (Word(s[..4]) == 1 <==> s[..4] == [0, 0, 0, 1])
  {
    if |s| >= 3 {
      ThreeBytes(s[0], s[1], s[2]);
      assert s[..3] == [s[0], s[1], s[2]];
    }
    if |s| >= 4 {
      FourBytes(s[0], s[1], s[2], s[3]);
      assert s[..4] == [s[0], s[1], s[2], s[3]];
    }
  }

  lemma ThreeBytes(a: Byte, b: Byte, c: Byte)
    ensures Word([a, b, c]) == a * 65536 + b * 256 + c
  {
    assert [a, b, c][..2] == [a, b] && [a, b][..1] == [a] && [a][..0] == [];
    assert Word([a]) == a && Word([a, b]) == a * 256 + b;
  }

  lemma FourBytes(a: Byte, b: Byte, c: Byte, d: Byte)
    ensures Word([a, b, c, d]) == a * 16777216 + b * 65536 + c * 256 + d
  {
    ThreeBytes(a, b, c);
    assert [a, b, c, d][..3] == [a, b, c];
  }

  /* ----- The parser ----- */

  // Whether a start code is next, looking three and then four bytes ahead.
  method StartCodeIsNext(bs: SingleLayerStream, input: Input) returns (at: bool)
    requires bs.Valid()
    modifies bs, input
    ensures bs.Valid() && bs.Unread(input) == old(bs.Unread(input))
    ensures at <==> AtStart(bs.Unread(input))
    ensures input.failed == (old(input.failed) || (|bs.Unread(input)| < 4 && !at))
  {
    SmallWords(bs.Unread(input));
    var eof := bs.EofBeforeNBytes(3, input);
    if !eof {
      var w := bs.PeekBytes(3, input);
      if w == 0x000001 {
        return true;
      }
    }
    eof := bs.EofBeforeNBytes(4, input);
    if !eof {
      var w := bs.PeekBytes(4, input);
      return w == 0x00000001;
    }
    return false;
  }

  // Zero bytes are counted and dropped until a start code is next; any other byte, or the end, throws.
  method SkipZeros(bs: SingleLayerStream, input: Input) returns (n: nat, thrown: bool)
    requires bs.Valid()
    modifies bs, input
    ensures bs.Valid()
    ensures var s := old(bs.Unread(input)); n == Skipped(s) && (thrown <==> !AtStart(s[n..]))
    ensures bs.Unread(input) == AfterSkip(old(bs.Unread(input)))
    ensures input.failed == (old(input.failed) || (thrown && |old(bs.Unread(input))| - n < 4))
  {
    ghost var s := bs.Unread(input);
    n, thrown := 0, false;
    while true
      invariant bs.Valid() && n <= |s| && bs.Unread(input) == s[n..] && Skipped(s) == n + Skipped(s[n..])
      invariant input.failed == old(input.failed) || (input.failed && |s| - n < 3)
      decreases |s| - n
    {
      var at := StartCodeIsNext(bs, input);
      if at {
        return;
      }
      var b := bs.ReadByte(input);
      if b != Some(0) {
        thrown := true;
        return;
      }
      n := n + 1;
    }
  }

  // Whether three bytes at most 00 00 02 are next.
  method BodyEndIsNext(bs: SingleLayerStream, input: Input) returns (at: bool)
    requires bs.Valid()
    modifies bs, input
    ensures bs.Valid() && bs.Unread(input) == old(bs.Unread(input))
    ensures at <==> EndsBody(bs.Unread(input))
    ensures input.failed == old(input.failed) || (input.failed && |bs.Unread(input)| < 3)
  {
    var eof := bs.EofBeforeNBytes(3, input);
    if eof {
      return false;
    }
    var w := bs.PeekBytes(3, input);
    at := w <= 2;
  }

  // The bytes of the NAL unit; meeting the end of the stream throws.
  method ReadBody(bs: SingleLayerStream, input: Input) returns (nal: seq<Byte>, thrown: bool)
    requires bs.Valid()
    modifies bs, input
    ensures bs.Valid()
    ensures var s := old(bs.Unread(input)); nal == Body(s) && bs.Unread(input) == s[|nal|..] && (thrown <==> |nal| == |s|)
    ensures input.failed == (old(input.failed) || thrown)
  {
    ghost var s, u := bs.Unread(input), bs.Unread(input);
    nal, thrown := [], false;
    while true
      invariant bs.Valid() && bs.Unread(input) == u && s == nal + u && Body(s) == nal + Body(u)
      invariant input.failed == old(input.failed) || (input.failed && |u| < 3)
      decreases |u|
    {
      var at := BodyEndIsNext(bs, input);
      if at {
        return;
      }
      var b := bs.ReadByte(input);
      if b.None? {
        thrown := true;
        return;
      }
      BodyGrows(nal, u);
      nal, u := nal + [b.value], u[1..];
    }
  }

  lemma BodyGrows(nal: seq<Byte>, u: seq<Byte>)
    requires u != [] && !EndsBody(u)
    ensures nal + u == nal + [u[0]] + u[1..] && nal + Body(u) == nal + [u[0]] + Body(u[1..])
  {
    var h := [u[0]];
    assert u == h + u[1..];
    Regrouped(nal, h, u[1..]);
    Regrouped(nal, h, Body(u[1..]));
  }

  lemma Regrouped(a: seq<Byte>, b: seq<Byte>, c: seq<Byte>)
    ensures a + (b + c) == a + b + c
  {
  }

  // The start code that is next, with its zero byte if it has one.
  method ReadStartCode(bs: SingleLayerStream, input: Input, ghost lead: nat) returns (zero: nat)
    requires bs.Valid() && AtStart(bs.Unread(input))
    modifies bs, input
    ensures bs.Valid() && input.failed == old(input.failed)
    ensures AfterZeros(lead, old(bs.Unread(input))) == AfterStart(lead, zero, bs.Unread(input))
  {
    ghost var t := bs.Unread(input);
    SmallWords(t);
    var w := bs.PeekBytes(3, input);
    zero := 0;
    if w != 0x000001 {
      var zeroByte := bs.ReadByte(input);
      assert zeroByte == Some(0);
      zero := 1;
    }
    assert t[zero..][..3] == [0, 0, 1];
    SmallWords(t[zero..]);
    var prefix := bs.ReadBytes(3, input);
    assert prefix == Some(0x000001) && bs.Unread(input) == t[zero + 3..];
  }

  // The NAL unit behind a start code, and the zero bytes behind the unit.
  method ReadUnit(bs: SingleLayerStream, input: Input, stats: Stats) returns (eof: bool, nal: seq<Byte>, after: Stats)
    requires bs.Valid() && !input.failed && stats.startCodePrefix == 3 && stats.numBytesInNalUnit == stats.trailingZero8Bits == 0
    modifies bs, input
    ensures bs.Valid()
    ensures Parsed(nal, after, bs.Unread(input), eof, input.failed)
         == AfterStart(stats.leadingZero8Bits, stats.zeroByte, old(bs.Unread(input)))
  {
    var thrown;
    nal, thrown := ReadBody(bs, input);
    after := stats.(numBytesInNalUnit := |nal|);
    eof := true;
    if !thrown {
      var trail;
      trail, eof := SkipZeros(bs, input);
      after := after.(trailingZero8Bits := trail);
    }
  }

  // The start code that is next, and all behind it.
  method ReadCodedUnit(bs: SingleLayerStream, input: Input, lead: nat) returns (eof: bool, nal: seq<Byte>, stats: Stats)
    requires bs.Valid() && !input.failed && AtStart(bs.Unread(input))
    modifies bs, input
    ensures bs.Valid()
    ensures Parsed(nal, stats, bs.Unread(input), eof, input.failed) == AfterZeros(lead, old(bs.Unread(input)))
  {
    var zero := ReadStartCode(bs, input, lead);
    eof, nal, stats := ReadUnit(bs, input, Stats(lead, zero, 3, 0, 0));
  }

  // One NAL unit; an exception inside is an early return.
  method ByteStreamNalUnit(bs: SingleLayerStream, input: Input) returns (eof: bool, nal: seq<Byte>, stats: Stats)
    requires bs.Valid() && !input.failed
    modifies bs, input
    ensures bs.Valid()
    ensures Parsed(nal, stats, bs.Unread(input), eof, input.failed) == Parse(old(bs.Unread(input)))
  {
    eof, nal := true, [];
    var lead, thrown := SkipZeros(bs, input);
    stats := Stats(lead, 0, 0, 0, 0);
    if !thrown {
      eof, nal, stats := ReadCodedUnit(bs, input, lead);
    }
  }
}
