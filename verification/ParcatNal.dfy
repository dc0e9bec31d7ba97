/**
 The search for NAL units in a byte buffer, as the bitstream concatenator makes it: it may look at up to
 four bytes beyond a buffer that holds fewer than four, and what it finds does not depend on them.
 */
module ParcatNal {

  type Byte = x: int | 0 <= x < 256

  // The bytes behind the buffer, which are none of ours.
  type Beyond = nat -> Byte

  function At(buf: seq<Byte>, beyond: Beyond, i: nat): Byte {
    if i < |buf| then buf[i] else beyond(i - |buf|)
  }

  // Three bytes: two zeros and a given third.
  predicate Three(buf: seq<Byte>, beyond: Beyond, i: nat, third: Byte) {
    At(buf, beyond, i) == 0 && At(buf, beyond, i + 1) == 0 && At(buf, beyond, i + 2) == third
  }

  predicate StartCode(buf: seq<Byte>, beyond: Beyond, i: nat) {
    Three(buf, beyond, i, 1) || (Three(buf, beyond, i, 0) && At(buf, beyond, i + 3) == 1)
  }

  // The first start code from i on, or -1.
  function FindStart(buf: seq<Byte>, beyond: Beyond, i: nat): (r: int)
    ensures r == -1 || r >= i
    decreases |buf| - i
  {
    if StartCode(buf, beyond, i) then i else if i + 1 + 4 >= |buf| then -1 else FindStart(buf, beyond, i + 1)
  }

  // Where the search for the end of a NAL unit stops.
  function FindEnd(buf: seq<Byte>, beyond: Beyond, i: nat): (r: nat)
    ensures r >= i
    decreases |buf| - i
  {
    if i + 3 < |buf| && !Three(buf, beyond, i, 0) && !Three(buf, beyond, i, 1) then FindEnd(buf, beyond, i + 1) else i
  }

  // What the search returns: the length, or zero, and the bounds.
  datatype Found = Found(len: nat, start: nat, end: nat)

  function EndOf(buf: seq<Byte>, i: nat): nat {
    if i + 3 == |buf| then |buf| else i
  }

  function FindUnit(buf: seq<Byte>, beyond: Beyond): Found {
    var i := FindStart(buf, beyond, 0);
    if i < 0 then Found(0, 0, 0) else
      var start := i + if Three(buf, beyond, i, 1) then 3 else 4;
      var end := EndOf(buf, FindEnd(buf, beyond, start));
      Found(end - start, start, end)
  }

  method FindNalUnit(buf: seq<Byte>, beyond: Beyond) returns (r: Found)
    ensures r == FindUnit(buf, beyond)
  {
    var i := 0;
    while !StartCode(buf, beyond, i)
      invariant FindStart(buf, beyond, 0) == FindStart(buf, beyond, i)
      decreases |buf| - i
    {
      i := i + 1;
      if i + 4 >= |buf| {
        return Found(0, 0, 0);
      }
    }
    if !Three(buf, beyond, i, 1) {
      i := i + 1;
    }
    i := i + 3;
    var start := i;
    while i + 3 < |buf| && !Three(buf, beyond, i, 0) && !Three(buf, beyond, i, 1)
      invariant i >= start && FindEnd(buf, beyond, start) == FindEnd(buf, beyond, i)
      decreases |buf| - i
    {
      i := i + 1;
    }
    var end := EndOf(buf, i);
    r := Found(end - start, start, end);
  }

  /* ----- What is found ----- */

  lemma {:induction false} StartIsStartCode(buf: seq<Byte>, beyond: Beyond, i: nat)
    requires FindStart(buf, beyond, i) >= 0
    ensures StartCode(buf, beyond, FindStart(buf, beyond, i))
    ensures i + 4 <= |buf| ==> FindStart(buf, beyond, i) + 4 <= |buf|
    ensures forall k :: i <= k < FindStart(buf, beyond, i) ==> !StartCode(buf, beyond, k)
    decreases |buf| - i
  {
    if !StartCode(buf, beyond, i) {
      StartIsStartCode(buf, beyond, i + 1);
    }
  }

  lemma {:induction false} EndIsEnd(buf: seq<Byte>, beyond: Beyond, i: nat)
    ensures var e := FindEnd(buf, beyond, i);
      && (i + 3 <= |buf| ==> e + 3 <= |buf|)
      && (i + 3 > |buf| ==> e == i)
      && (e + 3 < |buf| ==> Three(buf, beyond, e, 0) || Three(buf, beyond, e, 1))
      && forall k :: i <= k < e ==> k + 3 < |buf| && !Three(buf, beyond, k, 0) && !Three(buf, beyond, k, 1)
    decreases |buf| - i
  {
    if i + 3 < |buf| && !Three(buf, beyond, i, 0) && !Three(buf, beyond, i, 1) {
      EndIsEnd(buf, beyond, i + 1);
    }
  }

  // A unit found lies in the buffer, right behind a start code that is the first one, and ends at the end of
  // the buffer or before three bytes 00 00 00 or 00 00 01, the first behind the start code.
  lemma FoundUnit(buf: seq<Byte>, beyond: Beyond)
    requires FindUnit(buf, beyond).len > 0
    ensures var f := FindUnit(buf, beyond);
      && 3 <= f.start < f.end <= |buf| && f.len == f.end - f.start
      && buf[f.start - 3..f.start] == [0, 0, 1]
      && (forall k :: 0 <= k < f.start - 4 ==> !StartCode(buf, beyond, k))
      && (f.end < |buf| ==> f.end + 3 < |buf| && (Three(buf, beyond, f.end, 0) || Three(buf, beyond, f.end, 1)))
      && (forall k :: f.start <= k < f.end && k + 3 < |buf| ==> !Three(buf, beyond, k, 0) && !Three(buf, beyond, k, 1))
  {
    var i := FindStart(buf, beyond, 0);
    StartIsStartCode(buf, beyond, 0);
    var start := i + if Three(buf, beyond, i, 1) then 3 else 4;
    EndIsEnd(buf, beyond, start);
  }

  lemma {:induction false} SameStart(buf: seq<Byte>, b: Beyond, c: Beyond, i: nat)
    requires i + 4 <= |buf|
    ensures FindStart(buf, b, i) == FindStart(buf, c, i)
    decreases |buf| - i
  {
    assert StartCode(buf, b, i) <==> StartCode(buf, c, i);
    if i + 1 + 4 < |buf| {
      SameStart(buf, b, c, i + 1);
    }
  }

  lemma {:induction false} SameEnd(buf: seq<Byte>, b: Beyond, c: Beyond, i: nat)
    ensures FindEnd(buf, b, i) == FindEnd(buf, c, i)
    decreases |buf| - i
  {
    if i + 3 < |buf| {
      SameEnd(buf, b, c, i + 1);
    }
  }

  // The bytes beyond the buffer do not matter; in fewer than six bytes nothing is ever found.
  lemma BeyondDoesNotMatter(buf: seq<Byte>, b: Beyond, c: Beyond)
    ensures FindUnit(buf, b).len == FindUnit(buf, c).len
    ensures |buf| >= 4 ==> FindUnit(buf, b) == FindUnit(buf, c)
    ensures |buf| < 6 ==> FindUnit(buf, b).len == 0
  {
    if |buf| >= 4 {
      SameStart(buf, b, c, 0);
      var i := FindStart(buf, b, 0);
      if i >= 0 {
        StartIsStartCode(buf, b, 0);
        assert Three(buf, b, i, 1) <==> Three(buf, c, i, 1);
        SameEnd(buf, b, c, i + if Three(buf, b, i, 1) then 3 else 4);
      }
    }
    if |buf| < 6 {
      NothingInFive(buf, b);
      NothingInFive(buf, c);
    }
  }

  lemma NothingInFive(buf: seq<Byte>, b: Beyond)
    requires |buf| < 6
    ensures FindUnit(buf, b).len == 0
  {
    var i := FindStart(buf, b, 0);
    if i >= 0 {
      EndIsEnd(buf, b, i + if Three(buf, b, i, 1) then 3 else 4);
    }
  }
}
