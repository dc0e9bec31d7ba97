/**
 Several streams merged in turns: one NAL unit of each stream that is still going, round after
 round, until the last stream has been read past its end.  The second byte of every unit is overwritten
 by the layer of its stream, and a video parameter set is replaced by a new one.  At a unit too short
 for its header the program ends.
 */
module StreamMerge {
  import opened AnnexB
  import opened AnnexBRoundTrip

  /* ----- What becomes of a unit ----- */

  const VPS: nat := 14

  // The new parameter set's unit, header and payload, for a layer and a temporal level.
  type NewVps = (nat, int) -> seq<Byte>

  ghost predicate HasHeader(vps: NewVps) {
    forall l, t :: |vps(l, t)| >= 2
  }

  function LayerId(i: nat): nat {
    if i < 63 then i else i + 1
  }

  function LayerByte(i: nat): Byte {
    (LayerId(i) + 1) * 2 % 256
  }

  function TypeOf(nal: seq<Byte>): nat {
    if |nal| < 2 then 0 else var header: int := nal[1]; header / 8
  }

  function TemporalId(nal: seq<Byte>): int {
    if |nal| < 2 then 0 else var header: int := nal[1]; header % 8 - 1
  }

  // What is written for the unit of a call on stream i.
  function Layered(r: Parsed, i: nat, vps: NewVps): Parsed {
    if TypeOf(r.nal) == VPS then
      var nal := vps(LayerId(i), TemporalId(r.nal));
      r.(nal := nal, stats := Stats(0, 1, 3, |nal|, 0))
    else if |r.nal| < 2 then r
    else r.(nal := r.nal[1 := LayerByte(i)])
  }

  function LayeredCalls(calls: seq<Parsed>, i: nat, vps: NewVps): (r: seq<Parsed>)
    ensures |r| == |calls| && forall k :: 0 <= k < |calls| ==> r[k] == Layered(calls[k], i, vps)
  {
    if calls == [] then [] else
      LayeredCalls(calls[..|calls| - 1], i, vps) + [Layered(calls[|calls| - 1], i, vps)]
  }

  function LayeredStreams(streams: seq<seq<Parsed>>, vps: NewVps): (r: seq<seq<Parsed>>)
    ensures |r| == |streams| && forall i :: 0 <= i < |streams| ==> r[i] == LayeredCalls(streams[i], i, vps)
  {
    if streams == [] then [] else
      LayeredStreams(streams[..|streams| - 1], vps) + [LayeredCalls(streams[|streams| - 1], |streams| - 1, vps)]
  }

  /* ----- Readers ----- */

  // Every stream has its own reader and input.
  ghost predicate Separate(readers: seq<SingleLayerStream>, inputs: seq<Input>) {
    && |readers| == |inputs|
    && (forall i, j :: 0 <= i < j < |readers| ==> readers[i] != readers[j])
    && (forall i, j :: 0 <= i < j < |inputs| ==> inputs[i] != inputs[j])
  }

  // Stream i has made k calls, out of all the calls it will make.
  ghost predicate HasMade(reader: SingleLayerStream, input: Input, calls: seq<Parsed>, k: nat)
    reads reader, input
  {
    && reader.Valid()
    && (input.failed <==> k >= |calls|)
    && (k < |calls| ==> Calls(reader.Unread(input)) == calls[k..])
  }

  lemma CallsStep(s: seq<Byte>, calls: seq<Parsed>, k: nat)
    requires k < |calls| && Calls(s) == calls[k..]
    ensures Parse(s) == calls[k] && (Parse(s).failed <==> k + 1 == |calls|)
    ensures k + 1 < |calls| ==> Calls(Parse(s).rest) == calls[k + 1..]
  {
    assert calls[k..][0] == calls[k];
    if Parse(s).failed {
      assert |calls[k..]| == 1;
    } else {
      CallShrinks(s);
      assert calls[k + 1..] == calls[k..][1..];
    }
  }

  // A new parameter set behind a four-byte start code.
  method WriteNewVps(vps: NewVps, layerId: nat, temporalId: int, out: seq<Byte>) returns (r: seq<Byte>)
    ensures r == out + Write(Coded(3, vps(layerId, temporalId)))
  {
    var nal := vps(layerId, temporalId);
    r := out + [0, 0, 0, 1] + nal;
    assert Zeros(3) == [0, 0, 0];
    assert out + [0, 0, 0, 1] + nal == out + (Zeros(3) + [1] + nal);
  }

  // A unit, as it goes to the output.
  method WriteLayered(nal: seq<Byte>, stats: Stats, i: nat, vps: NewVps, out: seq<Byte>, ghost call: Parsed) returns (r: seq<Byte>)
    requires |nal| >= 2 && stats.startCodePrefix == 3 && HasHeader(vps) && call.nal == nal && call.stats == stats
    ensures var l := Layered(call, i, vps);
      l.nal != [] && l.stats.startCodePrefix == 3 && r == out + Write(Coded(NumZeros(l.stats), l.nal))
  {
    if TypeOf(nal) == VPS {
      r := WriteNewVps(vps, LayerId(i), TemporalId(nal), out);
    } else {
      r := WriteNalUnit(nal[1 := LayerByte(i)], stats, out);
    }
  }

  // Too short for a header of two bytes, at which the reading of the header throws.
  predicate Short(nal: seq<Byte>) {
    |nal| == 1
  }

  // One call on stream i, and its unit, if it is not empty, to the output.
  method CopyUnit(reader: SingleLayerStream, input: Input, ghost calls: seq<Parsed>, ghost k: nat, i: nat, vps: NewVps,
                  out: seq<Byte>, ghost before: seq<Parsed>) returns (thrown: bool, r: seq<Byte>, isVps: bool)
    requires k < |calls| && HasMade(reader, input, calls, k) && out == Output(before) && HasHeader(vps)
    modifies reader, input
    ensures HasMade(reader, input, calls, k + 1)
    ensures thrown <==> Short(calls[k].nal)
    ensures r == if thrown then out else Output(before + [Layered(calls[k], i, vps)])
    ensures isVps <==> TypeOf(calls[k].nal) == VPS
  {
    ghost var s := reader.Unread(input);
    CallsStep(s, calls, k);
    CallIsWritable(s);
    OutputOfMore(before, Layered(calls[k], i, vps));
    var eof, nal, stats := ByteStreamNalUnit(reader, input);
    r := out;
    thrown := |nal| == 1;
    if |nal| >= 2 {
      r := WriteLayered(nal, stats, i, vps, out, calls[k]);
    }
    isVps := TypeOf(nal) == VPS;
  }

  /* ----- The count of valid streams ----- */

  // The last unit of a stream is a parameter set, whose replacement skips the count of ended streams.
  predicate EndsInVps(calls: seq<Parsed>) {
    calls != [] && TypeOf(calls[|calls| - 1].nal) == VPS
  }

  predicate Counts(calls: seq<Parsed>, k: nat) {
    k < |calls| || EndsInVps(calls)
  }

  // The streams that the counter still counts after k rounds.
  function Counted(streams: seq<seq<Parsed>>, k: nat): nat {
    if streams == [] then 0 else
      Counted(streams[..|streams| - 1], k) + if Counts(streams[|streams| - 1], k) then 1 else 0
  }

  lemma TurnOfMore(streams: seq<seq<Parsed>>, k: nat, i: nat)
    requires i < |streams|
    ensures Turn(streams[..i + 1], k) == Turn(streams[..i], k) + if k < |streams[i]| then [streams[i][k]] else []
    ensures Counted(streams[..i + 1], k) == Counted(streams[..i], k) + if Counts(streams[i], k) then 1 else 0
  {
    assert streams[..i + 1][..i] == streams[..i];
  }

  function CallsMade(i: nat, j: nat, k: nat): nat {
    if j < i then k + 1 else k
  }

  // The first i streams have made k + 1 calls and the others k, as far as they go.
  ghost predicate HaveMade(readers: seq<SingleLayerStream>, inputs: seq<Input>, streams: seq<seq<Parsed>>, i: nat, k: nat)
    requires |readers| == |inputs| == |streams|
    reads readers, inputs
  {
    forall j :: 0 <= j < |readers| ==> HasMade(readers[j], inputs[j], streams[j], CallsMade(i, j, k))
  }

  lemma TurnGrows(streams: seq<seq<Parsed>>, i: nat, k: nat, before: seq<Parsed>)
    requires i < |streams|
    ensures before + Turn(streams[..i + 1], k)
         == if k < |streams[i]| then before + Turn(streams[..i], k) + [streams[i][k]] else before + Turn(streams[..i], k)
  {
    TurnOfMore(streams, k, i);
    var turn := Turn(streams[..i], k);
    if k < |streams[i]| {
      assert before + (turn + [streams[i][k]]) == before + turn + [streams[i][k]];
    } else {
      assert turn + [] == turn;
    }
  }

  // What the counter of valid streams says after i streams of turn k.
  function StillValid(streams: seq<seq<Parsed>>, i: nat, k: nat): int
    requires i <= |streams|
  {
    Counted(streams, k) - Counted(streams[..i], k) + Counted(streams[..i], k + 1)
  }

  lemma ValidShrinks(streams: seq<seq<Parsed>>, i: nat, k: nat)
    requires i < |streams|
    ensures StillValid(streams, i + 1, k) == StillValid(streams, i, k) - (if |streams[i]| == k + 1 && !EndsInVps(streams[i]) then 1 else 0)
    ensures StillValid(streams, i, k) >= 0
  {
    TurnOfMore(streams, k, i);
    TurnOfMore(streams, k + 1, i);
    CountedOfMore(streams, k, i);
  }

  lemma {:induction false} CountedOfMore(streams: seq<seq<Parsed>>, k: nat, i: nat)
    requires i <= |streams|
    ensures Counted(streams, k) >= Counted(streams[..i], k)
  {
    if i < |streams| {
      CountedOfMore(streams[..|streams| - 1], k, i);
      assert streams[..|streams| - 1][..i] == streams[..i];
    } else {
      assert streams[..i] == streams;
    }
  }

  /* ----- Rounds ----- */

  // Stream i has a k-th unit, and it is too short.
  predicate ShortAt(streams: seq<seq<Parsed>>, i: nat, k: nat) {
    i < |streams| && k < |streams[i]| && Short(streams[i][k].nal)
  }

  // Stream i's part of turn k.
  method CopyTurn(reader: SingleLayerStream, input: Input, ghost streams: seq<seq<Parsed>>, ghost layered: seq<seq<Parsed>>, i: nat, ghost k: nat,
                  vps: NewVps, out: seq<Byte>, ghost before: seq<Parsed>, numValid: int) returns (thrown: bool, r: seq<Byte>, stillValid: int)
    requires i < |streams| && HasMade(reader, input, streams[i], k) && HasHeader(vps) && layered == LayeredStreams(streams, vps)
    requires out == Output(before + Turn(layered[..i], k)) && numValid == StillValid(streams, i, k)
    modifies reader, input
    ensures HasMade(reader, input, streams[i], k + 1)
    ensures thrown <==> ShortAt(streams, i, k)
    ensures thrown ==> r == out
    ensures !thrown ==> r == Output(before + Turn(layered[..i + 1], k)) && stillValid == StillValid(streams, i + 1, k)
  {
    TurnGrows(layered, i, k, before);
    ValidShrinks(streams, i, k);
    thrown, r, stillValid := false, out, numValid;
    if !input.failed {
      var isVps;
      thrown, r, isVps := CopyUnit(reader, input, streams[i], k, i, vps, out, before + Turn(layered[..i], k));
      if !isVps && input.failed {
        stillValid := numValid - 1;
      }
    }
  }

  // Round k after i streams: the readers, the output and the counter.
  ghost predicate RoundAt(readers: seq<SingleLayerStream>, inputs: seq<Input>, streams: seq<seq<Parsed>>, layered: seq<seq<Parsed>>,
                          i: nat, k: nat, out: seq<Byte>, before: seq<Parsed>, numValid: int)
    reads readers, inputs
  {
    && i <= |readers| == |inputs| == |streams| == |layered|
    && HaveMade(readers, inputs, streams, i, k)
    && out == Output(before + Turn(layered[..i], k))
    && numValid == StillValid(streams, i, k)
  }

  method RoundStep(readers: seq<SingleLayerStream>, inputs: seq<Input>, ghost streams: seq<seq<Parsed>>, ghost layered: seq<seq<Parsed>>,
                   i: nat, ghost k: nat, vps: NewVps, out: seq<Byte>, ghost before: seq<Parsed>, numValid: int)
    returns (thrown: bool, r: seq<Byte>, stillValid: int)
    requires Separate(readers, inputs) && i < |readers| && HasHeader(vps) && layered == LayeredStreams(streams, vps)
    requires RoundAt(readers, inputs, streams, layered, i, k, out, before, numValid)
    modifies readers[i], inputs[i]
    ensures thrown <==> ShortAt(streams, i, k)
    ensures thrown ==> r == out
    ensures !thrown ==> RoundAt(readers, inputs, streams, layered, i + 1, k, r, before, stillValid)
  {
    assert HasMade(readers[i], inputs[i], streams[i], k);
    thrown, r, stillValid := CopyTurn(readers[i], inputs[i], streams, layered, i, k, vps, out, before, numValid);
    forall j | 0 <= j < |readers|
      ensures HasMade(readers[j], inputs[j], streams[j], CallsMade(i + 1, j, k))
    {
      if j != i {
        assert unchanged(readers[j]) && unchanged(inputs[j]);
        assert CallsMade(i, j, k) == CallsMade(i + 1, j, k);
      }
    }
  }

  lemma RoundStarts(readers: seq<SingleLayerStream>, inputs: seq<Input>, streams: seq<seq<Parsed>>, layered: seq<seq<Parsed>>,
                    k: nat, out: seq<Byte>, before: seq<Parsed>, numValid: int)
    requires |readers| == |inputs| == |streams| == |layered|
    requires HaveMade(readers, inputs, streams, 0, k) && out == Output(before) && numValid == Counted(streams, k)
    ensures RoundAt(readers, inputs, streams, layered, 0, k, out, before, numValid)
  {
    assert before + Turn(layered[..0], k) == before;
  }

  lemma RoundEnds(readers: seq<SingleLayerStream>, inputs: seq<Input>, streams: seq<seq<Parsed>>, layered: seq<seq<Parsed>>,
                  k: nat, out: seq<Byte>, before: seq<Parsed>, numValid: int)
    requires RoundAt(readers, inputs, streams, layered, |readers|, k, out, before, numValid)
    ensures HaveMade(readers, inputs, streams, 0, k + 1)
    ensures out == Output(before + Turn(layered, k)) && numValid == Counted(streams, k + 1)
  {
    assert streams[..|readers|] == streams && layered[..|readers|] == layered;
  }

  // The first i streams have no unit that is too short in turn k.
  ghost predicate HeadedTurn(streams: seq<seq<Parsed>>, i: nat, k: nat) {
    forall j: nat :: j < i ==> !ShortAt(streams, j, k)
  }

  lemma HeadedTurnMore(streams: seq<seq<Parsed>>, i: nat, next: nat, k: nat)
    requires HeadedTurn(streams, i, k) && !ShortAt(streams, i, k) && next == i + 1
    ensures HeadedTurn(streams, next, k)
  {
  }

  // What a round comes to: all streams, or those before the first unit that is too short.
  ghost predicate RoundMade(readers: seq<SingleLayerStream>, inputs: seq<Input>, streams: seq<seq<Parsed>>, layered: seq<seq<Parsed>>,
                            at: nat, k: nat, out: seq<Byte>, before: seq<Parsed>, numValid: int)
    requires |readers| == |inputs| == |streams| == |layered|
    reads readers, inputs
  {
    && at <= |readers| && HeadedTurn(streams, at, k)
    && if at < |readers| then ShortAt(streams, at, k) && out == Output(before + Turn(layered[..at], k))
       else HaveMade(readers, inputs, streams, 0, k + 1) && out == Output(before + Turn(layered, k)) && numValid == Counted(streams, k + 1)
  }

  // One round over all streams.
  method MergeRound(readers: seq<SingleLayerStream>, inputs: seq<Input>, ghost streams: seq<seq<Parsed>>, ghost k: nat, vps: NewVps,
                    out: seq<Byte>, ghost before: seq<Parsed>, numValid: int) returns (at: nat, r: seq<Byte>, stillValid: int)
    requires Separate(readers, inputs) && |streams| == |readers| && HasHeader(vps)
    requires HaveMade(readers, inputs, streams, 0, k) && out == Output(before) && numValid == Counted(streams, k)
    modifies readers, inputs
    ensures RoundMade(readers, inputs, streams, LayeredStreams(streams, vps), at, k, r, before, stillValid)
  {
    at, r, stillValid := 0, out, numValid;
    ghost var layered := LayeredStreams(streams, vps);
    RoundStarts(readers, inputs, streams, layered, k, out, before, numValid);
    var thrown := false;
    while at < |readers|
      invariant at <= |readers| && HeadedTurn(streams, at, k)
      invariant RoundAt(readers, inputs, streams, layered, at, k, r, before, stillValid)
    {
      thrown, r, stillValid := RoundStep(readers, inputs, streams, layered, at, k, vps, r, before, stillValid);
      if thrown {
        break;
      }
      HeadedTurnMore(streams, at, at + 1, k);
      at := at + 1;
    }
    if !thrown {
      RoundEnds(readers, inputs, streams, layered, k, r, before, stillValid);
    }
  }

  lemma {:induction false} NoneCounted(streams: seq<seq<Parsed>>, k: nat)
    ensures Counted(streams, k) == 0 <==> k >= Longest(streams) && forall i :: 0 <= i < |streams| ==> !EndsInVps(streams[i])
  {
    if streams != [] {
      NoneCounted(streams[..|streams| - 1], k);
    }
  }

  // The rounds come to an end if and only if no stream ends with a parameter set.
  lemma MergeEndsIff(streams: seq<seq<Parsed>>)
    ensures (exists k: nat :: Counted(streams, k) == 0) <==> forall i :: 0 <= i < |streams| ==> !EndsInVps(streams[i])
  {
    if exists k: nat :: Counted(streams, k) == 0 {
      var k: nat :| Counted(streams, k) == 0;
      NoneCounted(streams, k);
    }
    NoneCounted(streams, Longest(streams));
  }

  lemma {:induction false} AllCounted(streams: seq<seq<Parsed>>)
    requires forall i :: 0 <= i < |streams| ==> streams[i] != []
    ensures Counted(streams, 0) == |streams|
  {
    if streams != [] {
      AllCounted(streams[..|streams| - 1]);
    }
  }

  lemma LayeredAsLong(streams: seq<seq<Parsed>>, vps: NewVps)
    ensures Longest(LayeredStreams(streams, vps)) == Longest(streams)
  {
    if streams != [] {
      var n := |streams| - 1;
      LayeredAsLong(streams[..n], vps);
      assert LayeredStreams(streams, vps)[..n] == LayeredStreams(streams[..n], vps);
    }
  }

  // No unit is too short in the first k turns.
  ghost predicate HeadedTurns(streams: seq<seq<Parsed>>, k: nat) {
    forall m: nat :: m < k ==> HeadedTurn(streams, |streams|, m)
  }

  // No unit of any stream is too short.
  ghost predicate Headed(streams: seq<seq<Parsed>>) {
    forall i: nat, k: nat :: !ShortAt(streams, i, k)
  }

  // The loop after some rounds, and some streams of the next one if it ended there in an exception; and whether the
  // rounds have come to an end.
  datatype Progress = Progress(made: nat, at: nat, thrown: bool, ended: bool)

  ghost predicate Merged(streams: seq<seq<Parsed>>, vps: NewVps, p: Progress, out: seq<Byte>) {
    var layered := LayeredStreams(streams, vps);
    && HeadedTurns(streams, p.made)
    && if p.thrown then ShortAt(streams, p.at, p.made) && HeadedTurn(streams, p.at, p.made) && !p.ended
         && out == Output(Turns(layered, p.made) + Turn(layered[..p.at], p.made))
       else out == Output(Turns(layered, p.made)) && (p.ended <==> Counted(streams, p.made) == 0)
  }

  // The loop between two rounds.
  ghost predicate Merging(readers: seq<SingleLayerStream>, inputs: seq<Input>, streams: seq<seq<Parsed>>, layered: seq<seq<Parsed>>,
                          made: nat, numValid: int, out: seq<Byte>)
    requires |readers| == |inputs| == |streams| == |layered|
    reads readers, inputs
  {
    && HaveMade(readers, inputs, streams, 0, made) && numValid == Counted(streams, made)
    && HeadedTurns(streams, made) && out == Output(Turns(layered, made))
  }

  lemma MergingMore(readers: seq<SingleLayerStream>, inputs: seq<Input>, streams: seq<seq<Parsed>>, layered: seq<seq<Parsed>>,
                    at: nat, made: nat, numValid: int, out: seq<Byte>)
    requires |readers| == |inputs| == |streams| == |layered| && HeadedTurns(streams, made)
    requires RoundMade(readers, inputs, streams, layered, at, made, out, Turns(layered, made), numValid) && at == |readers|
    ensures Merging(readers, inputs, streams, layered, made + 1, numValid, out)
  {
    HeadedTurnsMore(streams, made);
  }

  lemma HeadedTurnsMore(streams: seq<seq<Parsed>>, k: nat)
    requires HeadedTurns(streams, k) && HeadedTurn(streams, |streams|, k)
    ensures HeadedTurns(streams, k + 1)
  {
  }

  // The loop, for at most a given number of rounds.
  method MergeStreams(readers: seq<SingleLayerStream>, inputs: seq<Input>, ghost streams: seq<seq<Parsed>>, vps: NewVps, rounds: nat)
    returns (p: Progress, out: seq<Byte>)
    requires Separate(readers, inputs) && |streams| == |readers| && HasHeader(vps)
    requires forall i :: 0 <= i < |readers| ==> readers[i].Valid() && !inputs[i].failed && streams[i] == Calls(readers[i].Unread(inputs[i]))
    modifies readers, inputs
    ensures p.made <= rounds && (p.thrown || p.ended || p.made == rounds) && Merged(streams, vps, p, out)
  {
    var numValid, made: nat, thrown, at := |readers|, 0, false, 0;
    out := [];
    ghost var layered := LayeredStreams(streams, vps);
    AllCounted(streams);
    while numValid > 0 && made < rounds
      invariant made <= rounds && Merging(readers, inputs, streams, layered, made, numValid, out)
      decreases rounds - made
    {
      at, out, numValid := MergeRound(readers, inputs, streams, made, vps, out, Turns(layered, made), numValid);
      if at < |readers| {
        thrown := true;
        break;
      }
      MergingMore(readers, inputs, streams, layered, at, made, numValid, out);
      made := made + 1;
    }
    if thrown {
      p := Progress(made, at, true, false);
      StoppedAt(readers, inputs, streams, vps, p, numValid, out);
    } else {
      p := Progress(made, 0, false, numValid == 0);
      EndedAt(readers, inputs, streams, vps, p, numValid, out);
    }
  }

  lemma EndedAt(readers: seq<SingleLayerStream>, inputs: seq<Input>, streams: seq<seq<Parsed>>, vps: NewVps, p: Progress, numValid: int, out: seq<Byte>)
    requires |readers| == |inputs| == |streams| && !p.thrown && (p.ended <==> numValid == 0)
    requires Merging(readers, inputs, streams, LayeredStreams(streams, vps), p.made, numValid, out)
    ensures Merged(streams, vps, p, out)
  {
  }

  lemma StoppedAt(readers: seq<SingleLayerStream>, inputs: seq<Input>, streams: seq<seq<Parsed>>, vps: NewVps, p: Progress, numValid: int, out: seq<Byte>)
    requires |readers| == |inputs| == |streams| && p.thrown && !p.ended && p.at < |readers| && HeadedTurns(streams, p.made)
    requires var layered := LayeredStreams(streams, vps);
      RoundMade(readers, inputs, streams, layered, p.at, p.made, out, Turns(layered, p.made), numValid)
    ensures Merged(streams, vps, p, out)
  {
  }

  lemma HeadedToTheEnd(streams: seq<seq<Parsed>>, k: nat)
    requires HeadedTurns(streams, k) && k >= Longest(streams)
    ensures Headed(streams)
  {
    forall i: nat, m: nat
      ensures !ShortAt(streams, i, m)
    {
      if i < |streams| && m < |streams[i]| {
        NoLongerThan(streams, i);
        assert HeadedTurn(streams, |streams|, m);
      }
    }
  }

  lemma {:induction false} NoLongerThan(streams: seq<seq<Parsed>>, i: nat)
    requires i < |streams|
    ensures |streams[i]| <= Longest(streams)
    decreases |streams|
  {
    if i < |streams| - 1 {
      NoLongerThan(streams[..|streams| - 1], i);
    }
  }

  // When the loop ends, the output is all units of all streams in turns.  With rounds enough it ends in an exception
  // exactly if there is a unit that is too short, and else it does end, unless a stream ends with a parameter set.
  lemma MergedInTurns(streams: seq<seq<Parsed>>, vps: NewVps, p: Progress, rounds: nat, out: seq<Byte>)
    requires Merged(streams, vps, p, out) && p.made <= rounds && (p.thrown || p.ended || p.made == rounds)
    ensures p.ended ==> Headed(streams) && out == Output(InTurns(LayeredStreams(streams, vps)))
    ensures rounds >= Longest(streams) ==> (p.thrown <==> !Headed(streams))
    ensures rounds >= Longest(streams) ==> (p.ended <==> Headed(streams) && forall i :: 0 <= i < |streams| ==> !EndsInVps(streams[i]))
  {
    NoneCounted(streams, p.made);
    if !p.thrown && p.made >= Longest(streams) {
      HeadedToTheEnd(streams, p.made);
      LayeredAsLong(streams, vps);
      TurnsGoOn(LayeredStreams(streams, vps), p.made);
    }
  }

  lemma {:induction false} NothingLeft(streams: seq<seq<Parsed>>, k: nat)
    requires k >= Longest(streams)
    ensures Turn(streams, k) == []
    decreases |streams|
  {
    if streams != [] {
      NothingLeft(streams[..|streams| - 1], k);
    }
  }

  // Rounds beyond the longest stream add nothing.
  lemma {:induction false} TurnsGoOn(streams: seq<seq<Parsed>>, k: nat)
    requires k >= Longest(streams)
    ensures Turns(streams, k) == InTurns(streams)
    decreases k
  {
    if k > Longest(streams) {
      TurnsGoOn(streams, k - 1);
      NothingLeft(streams, k - 1);
    }
  }
}
