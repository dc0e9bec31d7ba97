/**
 What a merged stream holds: whether parsing it again returns the units of all streams in turns.
 */
module MergedStream {
  import opened AnnexB
  import opened AnnexBRoundTrip
  import opened StreamMerge

  /* ----- One unit ----- */

  // The unit type is overwritten too, and kept only where it is a quarter of the layer's number by chance.
  lemma TypeIsKeptIff(nal: seq<Byte>, i: nat)
    requires |nal| >= 2 && i < 126
    ensures TypeOf(nal[1 := LayerByte(i)]) == TypeOf(nal) <==> TypeOf(nal) == (LayerId(i) + 1) / 4
  {
    TypeOfLayer(LayerId(i) + 1);
  }

  lemma TypeOfLayer(n: nat)
    requires n < 128
    ensures n * 2 % 256 / 8 == n / 4
  {
    assert n * 2 % 256 == n * 2;
  }

  // A slice of type 1 in layer 0 comes out as one of type 0.
  lemma TypeIsLost()
    ensures TypeOf([0, 9, 128]) == 1 && TypeOf([0, 9, 128][1 := LayerByte(0)]) == 0
  {
  }

  lemma WholeWithByte(nal: seq<Byte>, b: Byte)
    requires Whole(nal) && |nal| >= 2 && b != 0
    ensures Whole(nal[1 := b]) && (Clean(nal[1 := b]) <==> Clean(nal) || |nal| == 2)
  {
    var p := nal[1 := b];
    forall j | 0 <= j < |p| - 2
      ensures !(p[j] == 0 && p[j + 1] == 0 && p[j + 2] <= 2)
    {
      assert j >= 2 ==> p[j] == nal[j] && p[j + 1] == nal[j + 1] && p[j + 2] == nal[j + 2];
    }
  }

  // Overwriting the second byte makes no unit look like a start code, and none end in zero.
  lemma LayeredStaysWhole(s: seq<Byte>, i: nat, vps: NewVps)
    requires Parse(s).nal != [] && TypeOf(Parse(s).nal) != VPS && i < 126
    ensures var r, l := Parse(s), Layered(Parse(s), i, vps);
      && l.nal != [] && l.stats.startCodePrefix == 3 && Whole(l.nal)
      && (Clean(l.nal) <==> Clean(r.nal) || |r.nal| == 2)
      && (!r.failed ==> Clean(l.nal))
  {
    CallIsWritable(s);
    if |Parse(s).nal| >= 2 {
      WholeWithByte(Parse(s).nal, LayerByte(i));
    }
  }

  predicate EndsInZero(nal: seq<Byte>) {
    nal != [] && nal[|nal| - 1] == 0
  }

  // A call that is not the last of its stream leaves no unit that ends in zero.
  lemma OnlyLastEndsInZero(s: seq<Byte>, i: nat, vps: NewVps)
    requires Parse(s).nal != [] && TypeOf(Parse(s).nal) != VPS && i < 126
    ensures EndsInZero(Layered(Parse(s), i, vps).nal) ==> Parse(s).failed && EndsInZero(Parse(s).nal)
  {
    LayeredStaysWhole(s, i, vps);
    CallIsWritable(s);
    WholeEndsInZero(Parse(s).nal);
    WholeEndsInZero(Layered(Parse(s), i, vps).nal);
  }

  lemma WholeEndsInZero(nal: seq<Byte>)
    requires Whole(nal) && nal != []
    ensures EndsInZero(nal) <==> !Clean(nal)
  {
  }

  /* ----- Calls in turns ----- */

  // What a call leaves to write.
  ghost predicate Written(r: Parsed) {
    r.nal != [] ==> r.stats.startCodePrefix == 3
  }

  ghost predicate AllWritten(calls: seq<Parsed>) {
    forall i :: 0 <= i < |calls| ==> Written(calls[i])
  }

  lemma {:induction false} RewrittenUnits(calls: seq<Parsed>)
    requires AllWritten(calls)
    ensures CodedNals(Rewritten(calls)) == NonEmptyNals(calls)
    ensures forall i :: 0 <= i < |Rewritten(calls)| ==> Rewritten(calls)[i].zeros >= 2
    decreases |calls|
  {
    if calls != [] {
      var n := |calls| - 1;
      RewrittenUnits(calls[..n]);
      assert Written(calls[n]);
      if calls[n].nal != [] {
        CodedNalsOfMore(Rewritten(calls[..n]), Coded(NumZeros(calls[n].stats), calls[n].nal));
      }
    }
  }

  // Parsing the output of any calls returns their units if and only if there is one, none looks like a start code
  // inside, and none but the last ends in zero.
  lemma OutputKeepsNalsIff(calls: seq<Parsed>)
    requires AllWritten(calls)
    ensures Nals(Calls(Output(calls))) == NonEmptyNals(calls) <==> Rewritten(calls) != [] && Writable(Rewritten(calls))
  {
    RewrittenUnits(calls);
    if Rewritten(calls) == [] {
      FirstNal(Output(calls));
    } else {
      RoundTripExactly(Rewritten(calls));
    }
  }

  // A unit that is not the last one that is not empty is followed by zero bytes, and may not end in one.
  ghost predicate NoneAfter(calls: seq<Parsed>, m: nat) {
    forall n :: m < n < |calls| ==> calls[n].nal == []
  }

  ghost predicate Sound(calls: seq<Parsed>, m: nat)
    requires m < |calls|
  {
    calls[m].nal != [] ==> Whole(calls[m].nal) && (Clean(calls[m].nal) || NoneAfter(calls, m))
  }

  ghost predicate AllSound(calls: seq<Parsed>) {
    forall m: nat :: m < |calls| ==> Sound(calls, m)
  }

  ghost predicate AllClean(calls: seq<Parsed>) {
    forall m: nat :: m < |calls| ==> calls[m].nal != [] ==> Clean(calls[m].nal)
  }

  ghost predicate CleanList(list: seq<Coded>) {
    forall i :: 0 <= i < |list| ==> list[i].zeros >= 2 && Clean(list[i].nal)
  }

  lemma WritableMore(list: seq<Coded>, c: Coded)
    requires c.zeros >= 2
    ensures Writable(list + [c]) <==> CleanList(list) && Whole(c.nal)
    ensures CleanList(list + [c]) <==> CleanList(list) && Clean(c.nal)
  {
    var all := list + [c];
    assert all[|list|] == c;
    if Writable(all) {
      forall i | 0 <= i < |list|
        ensures list[i].zeros >= 2 && Clean(list[i].nal)
      {
        assert all[i] == list[i];
      }
    }
    if CleanList(all) {
      forall i | 0 <= i < |list|
        ensures list[i].zeros >= 2 && Clean(list[i].nal)
      {
        assert all[i] == list[i];
      }
    }
  }

  lemma SoundBefore(calls: seq<Parsed>, r: Parsed, m: nat)
    requires m < |calls|
    ensures (calls + [r])[m] == calls[m]
    ensures Sound(calls + [r], m) <==> if r.nal == [] then Sound(calls, m) else calls[m].nal != [] ==> Clean(calls[m].nal)
  {
    NoneAfterMore(calls, r, m);
  }

  lemma SoundMore(calls: seq<Parsed>, r: Parsed)
    ensures AllSound(calls + [r]) <==> if r.nal == [] then AllSound(calls) else AllClean(calls) && Whole(r.nal)
    ensures AllClean(calls + [r]) <==> AllClean(calls) && (r.nal != [] ==> Clean(r.nal))
  {
    var all, n := calls + [r], |calls|;
    assert all[n] == r && NoneAfter(all, n);
    forall m: nat | m < n
      ensures all[m] == calls[m]
      ensures Sound(all, m) <==> if r.nal == [] then Sound(calls, m) else calls[m].nal != [] ==> Clean(calls[m].nal)
    {
      SoundBefore(calls, r, m);
    }
    if AllSound(all) {
      assert Sound(all, n);
      forall m: nat | m < n
        ensures Sound(all, m)
      {
      }
    }
  }

  lemma NoneAfterMore(calls: seq<Parsed>, r: Parsed, m: nat)
    requires m < |calls|
    ensures NoneAfter(calls + [r], m) <==> NoneAfter(calls, m) && r.nal == []
  {
    var all := calls + [r];
    assert all[|calls|] == r;
    forall n | m < n < |calls|
      ensures all[n] == calls[n]
    {
    }
  }

  lemma {:induction false} WritableIff(calls: seq<Parsed>)
    requires AllWritten(calls)
    ensures Writable(Rewritten(calls)) <==> AllSound(calls)
    ensures CleanList(Rewritten(calls)) <==> AllClean(calls)
    ensures Rewritten(calls) == [] <==> forall m: nat :: m < |calls| ==> calls[m].nal == []
    decreases |calls|
  {
    if calls != [] {
      var n := |calls| - 1;
      var before, r := calls[..n], calls[n];
      WritableIff(before);
      assert Written(r) && calls == before + [r];
      SoundMore(before, r);
      if r.nal != [] {
        WritableMore(Rewritten(before), Coded(NumZeros(r.stats), r.nal));
      }
    }
  }

  /* ----- Where a call is among all calls in turns ----- */

  function Index(streams: seq<seq<Parsed>>, i: nat, k: nat): nat
    requires i <= |streams|
  {
    |Turns(streams, k)| + |Turn(streams[..i], k)|
  }

  lemma {:induction false} TurnStarts(streams: seq<seq<Parsed>>, i: nat, k: nat)
    requires i <= |streams|
    ensures Turn(streams[..i], k) <= Turn(streams, k)
    decreases |streams|
  {
    if i == |streams| {
      assert streams[..i] == streams;
    } else {
      TurnStarts(streams[..|streams| - 1], i, k);
      assert streams[..|streams| - 1][..i] == streams[..i];
    }
  }

  lemma {:induction false} TurnsStart(streams: seq<seq<Parsed>>, k: nat, n: nat)
    requires k <= n
    ensures Turns(streams, k) <= Turns(streams, n)
    decreases n
  {
    if k < n {
      TurnsStart(streams, k, n - 1);
    }
  }

  // A call is where its index says, and calls of later streams and turns come behind it.
  lemma CallIsAt(streams: seq<seq<Parsed>>, i: nat, k: nat, n: nat)
    requires i < |streams| && k < |streams[i]| && k < n
    ensures Index(streams, i, k) < |Turns(streams, n)| && Turns(streams, n)[Index(streams, i, k)] == streams[i][k]
    ensures Index(streams, i + 1, k) == Index(streams, i, k) + 1
  {
    TurnOfMore(streams, k, i);
    TurnStarts(streams, i + 1, k);
    TurnsStart(streams, k + 1, n);
    var before, turn, m := Turns(streams, k), Turn(streams, k), Index(streams, i, k);
    assert Turns(streams, k + 1) == before + turn;
    assert turn[|Turn(streams[..i], k)|] == streams[i][k];
    assert Turns(streams, n)[m] == Turns(streams, k + 1)[m];
  }

  predicate Later(j: nat, n: nat, i: nat, k: nat) {
    n > k || (n == k && j > i)
  }

  lemma LaterIsBehind(streams: seq<seq<Parsed>>, i: nat, k: nat, j: nat, n: nat)
    requires i < |streams| && k < |streams[i]| && j < |streams| && n < |streams[j]|
    ensures Index(streams, j, n) > Index(streams, i, k) <==> Later(j, n, i, k)
  {
    if Later(j, n, i, k) {
      Behind(streams, i, k, j, n);
    } else if Later(i, k, j, n) {
      Behind(streams, j, n, i, k);
    }
  }

  lemma Behind(streams: seq<seq<Parsed>>, i: nat, k: nat, j: nat, n: nat)
    requires i < |streams| && k < |streams[i]| && j < |streams| && Later(j, n, i, k)
    ensures Index(streams, j, n) > Index(streams, i, k)
  {
    CallIsAt(streams, i, k, k + 1);
    if n > k {
      TurnsStart(streams, k + 1, n);
    } else {
      TurnStarts(streams[..j], i + 1, k);
      assert streams[..j][..i + 1] == streams[..i + 1];
    }
  }

  // Every call in turns is a call of a stream.
  lemma {:induction false} CallOfTurn(streams: seq<seq<Parsed>>, k: nat, m: nat) returns (i: nat)
    requires m < |Turn(streams, k)|
    ensures i < |streams| && k < |streams[i]| && |Turn(streams[..i], k)| == m
    decreases |streams|
  {
    var n := |streams| - 1;
    if m < |Turn(streams[..n], k)| {
      i := CallOfTurn(streams[..n], k, m);
      assert streams[..n][..i] == streams[..i];
    } else {
      i := n;
    }
  }

  lemma {:induction false} CallOfTurns(streams: seq<seq<Parsed>>, n: nat, m: nat) returns (i: nat, k: nat)
    requires m < |Turns(streams, n)|
    ensures i < |streams| && k < |streams[i]| && k < n && Index(streams, i, k) == m
    decreases n
  {
    if m < |Turns(streams, n - 1)| {
      i, k := CallOfTurns(streams, n - 1, m);
    } else {
      k := n - 1;
      i := CallOfTurn(streams, k, m - |Turns(streams, k)|);
    }
  }

  /* ----- Soundness by streams ----- */

  // No unit comes after a call, in its turn or later.
  ghost predicate IsLast(streams: seq<seq<Parsed>>, i: nat, k: nat) {
    forall j: nat, n: nat :: j < |streams| && n < |streams[j]| && Later(j, n, i, k) ==> streams[j][n].nal == []
  }

  ghost predicate SoundIn(streams: seq<seq<Parsed>>, i: nat, k: nat)
    requires i < |streams| && k < |streams[i]|
  {
    var nal := streams[i][k].nal;
    nal != [] ==> Whole(nal) && (Clean(nal) || IsLast(streams, i, k))
  }

  lemma LastIsBefore(streams: seq<seq<Parsed>>, i: nat, k: nat, j: nat, n: nat)
    requires i < |streams| && k < |streams[i]| && j < |streams| && n < |streams[j]|
    requires NoneAfter(InTurns(streams), Index(streams, i, k)) && Later(j, n, i, k)
    ensures streams[j][n].nal == []
  {
    NoLongerThan(streams, j);
    CallIsAt(streams, j, n, Longest(streams));
    LaterIsBehind(streams, i, k, j, n);
  }

  lemma NoneAfterIsLast(streams: seq<seq<Parsed>>, i: nat, k: nat)
    requires i < |streams| && k < |streams[i]|
    ensures NoneAfter(InTurns(streams), Index(streams, i, k)) <==> IsLast(streams, i, k)
  {
    var calls, m := InTurns(streams), Index(streams, i, k);
    if NoneAfter(calls, m) {
      forall j: nat, n: nat | j < |streams| && n < |streams[j]| && Later(j, n, i, k)
        ensures streams[j][n].nal == []
      {
        LastIsBefore(streams, i, k, j, n);
      }
    }
    if IsLast(streams, i, k) {
      forall p | m < p < |calls|
        ensures calls[p].nal == []
      {
        var j, n := CallOfTurns(streams, Longest(streams), p);
        CallIsAt(streams, j, n, Longest(streams));
        LaterIsBehind(streams, i, k, j, n);
      }
    }
  }

  lemma SoundAtIndex(streams: seq<seq<Parsed>>, i: nat, k: nat)
    requires i < |streams| && k < |streams[i]|
    ensures Index(streams, i, k) < |InTurns(streams)| && InTurns(streams)[Index(streams, i, k)] == streams[i][k]
    ensures Sound(InTurns(streams), Index(streams, i, k)) <==> SoundIn(streams, i, k)
  {
    NoLongerThan(streams, i);
    CallIsAt(streams, i, k, Longest(streams));
    NoneAfterIsLast(streams, i, k);
  }

  ghost predicate SoundStreams(streams: seq<seq<Parsed>>) {
    forall i: nat, k: nat :: i < |streams| && k < |streams[i]| ==> SoundIn(streams, i, k)
  }

  lemma SoundByStreams(streams: seq<seq<Parsed>>)
    ensures AllSound(InTurns(streams)) <==> SoundStreams(streams)
  {
    var calls := InTurns(streams);
    if AllSound(calls) {
      forall i: nat, k: nat | i < |streams| && k < |streams[i]|
        ensures SoundIn(streams, i, k)
      {
        SoundAtIndex(streams, i, k);
      }
    }
    if SoundStreams(streams) {
      forall m: nat | m < |calls|
        ensures Sound(calls, m)
      {
        var i, k := CallOfTurns(streams, Longest(streams), m);
        SoundAtIndex(streams, i, k);
      }
    }
  }

  // There is a unit at all.
  ghost predicate AnyUnit(streams: seq<seq<Parsed>>) {
    exists i: nat, k: nat :: i < |streams| && k < |streams[i]| && streams[i][k].nal != []
  }

  lemma AnyByStreams(streams: seq<seq<Parsed>>)
    ensures AnyUnit(streams) <==> exists m: nat :: m < |InTurns(streams)| && InTurns(streams)[m].nal != []
  {
    var calls := InTurns(streams);
    if AnyUnit(streams) {
      var i: nat, k: nat :| i < |streams| && k < |streams[i]| && streams[i][k].nal != [];
      SoundAtIndex(streams, i, k);
    }
    if m: nat :| m < |calls| && calls[m].nal != [] {
      var i, k := CallOfTurns(streams, Longest(streams), m);
      SoundAtIndex(streams, i, k);
    }
  }

  // Parsing the output of streams in turns returns their units if and only if there is one, none looks like a start
  // code inside, and none but the last one ends in zero.
  lemma TurnsComeBackIff(streams: seq<seq<Parsed>>)
    requires AllWritten(InTurns(streams))
    ensures var calls := InTurns(streams);
      Nals(Calls(Output(calls))) == NonEmptyNals(calls) <==> AnyUnit(streams) && SoundStreams(streams)
  {
    OutputKeepsNalsIff(InTurns(streams));
    WritableIff(InTurns(streams));
    SoundByStreams(streams);
    AnyByStreams(streams);
  }

  /* ----- The units as they were parsed ----- */

  // The streams are parsed to their ends.
  ghost predicate AreStreams(streams: seq<seq<Parsed>>) {
    forall i :: 0 <= i < |streams| ==> IsStream(streams[i])
  }

  ghost predicate IsStream(calls: seq<Parsed>) {
    exists s :: calls == Calls(s)
  }

  lemma {:induction false} CallOfStream(s: seq<Byte>, k: nat)
    requires k < |Calls(s)|
    ensures IsCall(Calls(s)[k]) && (Calls(s)[k].failed <==> k == |Calls(s)| - 1)
    decreases |s|
  {
    CallShrinks(s);
    if k > 0 {
      CallOfStream(Parse(s).rest, k - 1);
    }
  }

  // What is written for a unit may stand where it is: a new parameter set has nothing like a start code inside, and
  // what ends in zero is last.  The byte written over the second one is not zero.
  ghost predicate Fits(streams: seq<seq<Parsed>>, i: nat, k: nat, vps: NewVps)
    requires i < |streams| && k < |streams[i]|
  {
    var nal := streams[i][k].nal;
    if TypeOf(nal) == VPS then
      var new_ := vps(LayerId(i), TemporalId(nal)); Whole(new_) && (EndsInZero(new_) ==> IsLast(streams, i, k))
    else |nal| > 2 && EndsInZero(nal) ==> IsLast(streams, i, k)
  }

  ghost predicate AllFit(streams: seq<seq<Parsed>>, vps: NewVps) {
    forall i: nat, k: nat :: i < |streams| && k < |streams[i]| ==> Fits(streams, i, k, vps)
  }

  lemma LayeredUnit(r: Parsed, i: nat, vps: NewVps)
    requires IsCall(r) && !Short(r.nal) && HasHeader(vps) && i < 126
    ensures var l := Layered(r, i, vps);
      && (l.nal == [] <==> r.nal == []) && Written(l)
      && (r.nal != [] && TypeOf(r.nal) != VPS ==> Whole(l.nal) && (Clean(l.nal) <==> !(|r.nal| > 2 && EndsInZero(r.nal))))
  {
    var s :| r == Parse(s);
    CallIsWritable(s);
    if r.nal != [] && TypeOf(r.nal) != VPS {
      LayeredStaysWhole(s, i, vps);
      WholeEndsInZero(r.nal);
    }
  }

  lemma LayeredIsLast(streams: seq<seq<Parsed>>, layered: seq<seq<Parsed>>, i: nat, k: nat)
    requires |layered| == |streams| && forall j: nat :: j < |streams| ==> |layered[j]| == |streams[j]|
    requires forall j: nat, n: nat :: j < |streams| && n < |streams[j]| ==> (layered[j][n].nal == [] <==> streams[j][n].nal == [])
    ensures IsLast(layered, i, k) <==> IsLast(streams, i, k)
  {
  }

  lemma FitsIsSound(streams: seq<seq<Parsed>>, vps: NewVps, layered: seq<seq<Parsed>>, i: nat, k: nat)
    requires i < |streams| && k < |streams[i]| && |layered| == |streams| && |layered[i]| == |streams[i]| && i < 126
    requires IsCall(streams[i][k]) && !Short(streams[i][k].nal) && HasHeader(vps)
    requires layered[i][k] == Layered(streams[i][k], i, vps) && (IsLast(layered, i, k) <==> IsLast(streams, i, k))
    ensures SoundIn(layered, i, k) <==> Fits(streams, i, k, vps)
  {
    LayeredUnit(streams[i][k], i, vps);
    if TypeOf(streams[i][k].nal) == VPS && Whole(layered[i][k].nal) {
      WholeEndsInZero(layered[i][k].nal);
    }
  }

  // Streams that are parsed to their ends and hold no unit that is too short.
  ghost predicate AreRead(streams: seq<seq<Parsed>>) {
    AreStreams(streams) && Headed(streams) && |streams| < 126
  }

  lemma UnitOfStream(streams: seq<seq<Parsed>>, i: nat, k: nat)
    requires AreRead(streams) && i < |streams| && k < |streams[i]|
    ensures IsCall(streams[i][k]) && !Short(streams[i][k].nal)
    ensures k < |streams[i]| - 1 && streams[i][k].nal != [] ==> Clean(streams[i][k].nal)
  {
    assert IsStream(streams[i]) && !ShortAt(streams, i, k);
    var s :| streams[i] == Calls(s);
    CallOfStream(s, k);
    CallIsClean(streams[i][k]);
  }

  lemma CallIsClean(r: Parsed)
    requires IsCall(r)
    ensures r.nal != [] && !r.failed ==> Clean(r.nal)
  {
    var s :| r == Parse(s);
    CallIsWritable(s);
  }

  lemma LayeredUnits(streams: seq<seq<Parsed>>, vps: NewVps)
    requires AreRead(streams) && HasHeader(vps)
    ensures var layered := LayeredStreams(streams, vps);
      forall i: nat, k: nat :: i < |streams| && k < |streams[i]| ==> (layered[i][k].nal == [] <==> streams[i][k].nal == []) && Written(layered[i][k])
  {
    forall i: nat, k: nat | i < |streams| && k < |streams[i]|
      ensures var l := Layered(streams[i][k], i, vps); (l.nal == [] <==> streams[i][k].nal == []) && Written(l)
    {
      UnitOfStream(streams, i, k);
      LayeredUnit(streams[i][k], i, vps);
    }
  }

  lemma AllFitIsSound(streams: seq<seq<Parsed>>, vps: NewVps)
    requires AreRead(streams) && HasHeader(vps)
    ensures var layered := LayeredStreams(streams, vps);
      AllWritten(InTurns(layered)) && (AnyUnit(layered) <==> AnyUnit(streams)) && (SoundStreams(layered) <==> AllFit(streams, vps))
  {
    var layered := LayeredStreams(streams, vps);
    LayeredUnits(streams, vps);
    forall m: nat | m < |InTurns(layered)|
      ensures Written(InTurns(layered)[m])
    {
      var i, k := CallOfTurns(layered, Longest(layered), m);
      SoundAtIndex(layered, i, k);
    }
    forall i: nat, k: nat | i < |streams| && k < |streams[i]|
      ensures SoundIn(layered, i, k) <==> Fits(streams, i, k, vps)
    {
      UnitOfStream(streams, i, k);
      LayeredIsLast(streams, layered, i, k);
      FitsIsSound(streams, vps, layered, i, k);
    }
  }

  // Parsing the merged stream returns the units of all streams in turns, as they were written.
  ghost predicate ComesBack(streams: seq<seq<Parsed>>, vps: NewVps) {
    var calls := InTurns(LayeredStreams(streams, vps));
    Nals(Calls(Output(calls))) == NonEmptyNals(calls)
  }

  // It does if and only if there is a unit and what is written for each may stand where it is.
  lemma MergedKeepsNals(streams: seq<seq<Parsed>>, vps: NewVps)
    requires AreRead(streams) && HasHeader(vps)
    ensures ComesBack(streams, vps) <==> AnyUnit(streams) && AllFit(streams, vps)
  {
    AllFitIsSound(streams, vps);
    TurnsComeBackIff(LayeredStreams(streams, vps));
  }

  ghost predicate NoVps(streams: seq<seq<Parsed>>) {
    forall i: nat, k: nat :: i < |streams| && k < |streams[i]| ==> TypeOf(streams[i][k].nal) != VPS
  }

  // A unit is longer than two bytes and ends in zero, and another one comes after it.
  ghost predicate RunsOnAt(streams: seq<seq<Parsed>>, i: nat, k: nat)
    requires i < |streams| && k < |streams[i]|
  {
    |streams[i][k].nal| > 2 && EndsInZero(streams[i][k].nal) && !IsLast(streams, i, k)
  }

  // The last unit of a stream does.
  ghost predicate RunsOn(streams: seq<seq<Parsed>>, i: nat) {
    i < |streams| && streams[i] != [] && RunsOnAt(streams, i, |streams[i]| - 1)
  }

  lemma OnlyLastRunsOn(streams: seq<seq<Parsed>>, vps: NewVps, i: nat, k: nat)
    requires AreRead(streams) && NoVps(streams) && i < |streams| && k < |streams[i]|
    ensures Fits(streams, i, k, vps) <==> !RunsOnAt(streams, i, k)
    ensures RunsOnAt(streams, i, k) ==> k == |streams[i]| - 1
  {
    UnitOfStream(streams, i, k);
  }

  // Without parameter sets all that can go wrong is such a last unit.
  lemma MergedWithoutVps(streams: seq<seq<Parsed>>, vps: NewVps)
    requires AreRead(streams) && NoVps(streams) && HasHeader(vps)
    ensures ComesBack(streams, vps) <==> AnyUnit(streams) && forall i: nat :: !RunsOn(streams, i)
  {
    MergedKeepsNals(streams, vps);
    OnlyLastsRunOn(streams, vps);
  }

  lemma OnlyLastsRunOn(streams: seq<seq<Parsed>>, vps: NewVps)
    requires AreRead(streams) && NoVps(streams)
    ensures AllFit(streams, vps) <==> forall i: nat :: !RunsOn(streams, i)
  {
    if AllFit(streams, vps) {
      forall i: nat | i < |streams| && streams[i] != []
        ensures !RunsOn(streams, i)
      {
        OnlyLastRunsOn(streams, vps, i, |streams[i]| - 1);
      }
    }
    if forall i: nat :: !RunsOn(streams, i) {
      forall i: nat, k: nat | i < |streams| && k < |streams[i]|
        ensures Fits(streams, i, k, vps)
      {
        OnlyLastRunsOn(streams, vps, i, k);
        assert !RunsOn(streams, i);
      }
    }
  }

  /* ----- Streams for which it goes wrong ----- */

  // A stream of one unit.
  function One(nal: seq<Byte>): seq<Byte> {
    [0, 0, 1] + nal
  }

  lemma OneIsWritten(nal: seq<Byte>)
    ensures One(nal) == WriteAll([Coded(2, nal)])
  {
    var c := Coded(2, nal);
    assert Zeros(2) + [1] == [0, 0, 1];
    assert [c][1..] == [] && Write(c) + [] == Write(c);
  }

  lemma OneIsRead(nal: seq<Byte>)
    requires nal != [] && Whole(nal)
    ensures |Calls(One(nal))| == 1 && Calls(One(nal))[0].nal == nal
  {
    var list := [Coded(2, nal)];
    OneIsWritten(nal);
    OnlyComesBack(list);
    LastCall(One(nal));
  }

  lemma OneIsStream(nal: seq<Byte>) returns (calls: seq<Parsed>)
    requires |nal| > 2 && Whole(nal)
    ensures calls == Calls(One(nal)) && IsStream(calls) && |calls| == 1 && calls[0].nal == nal
  {
    OneIsRead(nal);
    calls := Calls(One(nal));
  }

  lemma TwoAreHeaded(a: seq<Parsed>, b: seq<Parsed>)
    requires |a| == |b| == 1 && !Short(a[0].nal) && !Short(b[0].nal)
    ensures Headed([a, b])
  {
    var streams := [a, b];
    forall i: nat, k: nat | i < 2 && k < |streams[i]|
      ensures !ShortAt(streams, i, k)
    {
      assert streams[i] == if i == 0 then a else b;
    }
  }

  lemma FirstRunsOn(a: seq<Parsed>, b: seq<Parsed>)
    requires |a| == |b| == 1 && |a[0].nal| > 2 && EndsInZero(a[0].nal) && b[0].nal != []
    ensures RunsOn([a, b], 0)
  {
    var streams := [a, b];
    assert Later(1, 0, 0, 0) && streams[1][0] == b[0];
  }

  ghost predicate IsLost(streams: seq<seq<Parsed>>, vps: NewVps) {
    AreRead(streams) && NoVps(streams) && !ComesBack(streams, vps)
  }

  lemma RunsOnIsLost(streams: seq<seq<Parsed>>, vps: NewVps)
    requires AreRead(streams) && NoVps(streams) && HasHeader(vps) && RunsOn(streams, 0)
    ensures IsLost(streams, vps)
  {
    MergedWithoutVps(streams, vps);
  }

  lemma TwoAreStreams(a: seq<Parsed>, b: seq<Parsed>)
    requires IsStream(a) && IsStream(b)
    ensures AreStreams([a, b])
  {
  }

  lemma TwoHaveNoVps(a: seq<Parsed>, b: seq<Parsed>)
    requires |a| == |b| == 1 && TypeOf(a[0].nal) != VPS && TypeOf(b[0].nal) != VPS
    ensures NoVps([a, b])
  {
  }

  lemma TwoAreLost(a: seq<Parsed>, b: seq<Parsed>, vps: NewVps)
    requires IsStream(a) && IsStream(b) && |a| == |b| == 1 && |a[0].nal| > 2 && |b[0].nal| > 2 && HasHeader(vps)
    requires EndsInZero(a[0].nal) && TypeOf(a[0].nal) != VPS && TypeOf(b[0].nal) != VPS
    ensures IsLost([a, b], vps)
  {
    TwoAreStreams(a, b);
    TwoAreHeaded(a, b);
    TwoHaveNoVps(a, b);
    FirstRunsOn(a, b);
    RunsOnIsLost([a, b], vps);
  }

  // A unit that ends in zero, before another stream's: parsing the merged stream returns other units.
  lemma ZeroRunsOn(first: seq<Byte>, second: seq<Byte>, vps: NewVps)
    requires |first| > 2 && |second| > 2 && Whole(first) && Whole(second) && HasHeader(vps)
    requires EndsInZero(first) && TypeOf(first) != VPS && TypeOf(second) != VPS
    ensures IsLost([Calls(One(first)), Calls(One(second))], vps)
  {
    var a := OneIsStream(first);
    var b := OneIsStream(second);
    TwoAreLost(a, b, vps);
  }

  lemma SliceWithZeroIsLost(vps: NewVps)
    requires HasHeader(vps)
    ensures IsLost([Calls(One([0, 9, 128, 0])), Calls(One([0, 9, 128]))], vps)
  {
    ZeroRunsOn([0, 9, 128, 0], [0, 9, 128], vps);
  }

  // A stream that ends with a parameter set: its rounds never come to an end.
  lemma ParameterSetNeverEnds(k: nat)
    ensures Counted([Calls(One([0, 113, 128]))], k) > 0
  {
    var streams := [Calls(One([0, 113, 128]))];
    OneIsRead([0, 113, 128]);
    assert EndsInVps(streams[0]);
    NoneCounted(streams, k);
  }
}
