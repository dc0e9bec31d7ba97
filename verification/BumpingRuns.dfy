/**
 What bumping and flushing guarantee, for one call and over whole runs of the decoder.
 */
module BumpingRuns {
  import opened Bumping

  /* ----- Order ----- */

  // The last picture order count after writing pictures.
  function EndOf(out: seq<Pic>, last: int): int {
    if out == [] then last else out[|out| - 1].poc
  }

  predicate Follows(p: Pic, last: int, gdr: bool) {
    if gdr then p.poc >= last else p.poc > last
  }

  // Sorted by picture order count; no two alike unless pictures may repeat one.
  predicate Sorted(pics: seq<Pic>, gdr: bool) {
    forall i, j :: 0 <= i < j < |pics| ==> Follows(pics[j], pics[i].poc, gdr)
  }

  // In order, and after last.
  predicate InOrder(out: seq<Pic>, last: int, gdr: bool) {
    Sorted(out, gdr) && forall i :: 0 <= i < |out| ==> Follows(out[i], last, gdr)
  }

  lemma InOrderMore(out: seq<Pic>, last: int, gdr: bool, p: Pic)
    requires InOrder(out, last, gdr) && Follows(p, EndOf(out, last), gdr)
    ensures InOrder(out + [p], last, gdr) && EndOf(out + [p], last) == p.poc
  {
    if out != [] {
      var end := out[|out| - 1];
      assert Follows(end, last, gdr);
      forall i | 0 <= i < |out|
        ensures Follows(p, out[i].poc, gdr)
      {
        assert i < |out| - 1 ==> Follows(end, out[i].poc, gdr);
      }
    }
  }

  // A call writes its pictures in order of their picture order counts, after the last one written before.
  lemma {:induction false} CallWritesInOrder(pics: seq<Pic>, b: Bump, last: int, limits: Limits)
    requires InOrder(b.out, last, limits.gdr) && b.last == EndOf(b.out, last)
    ensures var r := BumpAll(pics, b, limits); InOrder(r.out, last, limits.gdr) && r.last == EndOf(r.out, last)
    decreases |pics|
  {
    if pics != [] {
      var next := BumpOne(b, pics[0], limits);
      if next.out != b.out {
        InOrderMore(b.out, last, limits.gdr, pics[0]);
      }
      CallWritesInOrder(pics[1..], next, last, limits);
    }
  }

  /* ----- What is written ----- */

  // The pictures that were needed and are no longer.
  function Changed(pics: seq<Pic>, now: seq<Pic>): seq<Pic>
    requires |pics| == |now|
  {
    if pics == [] then [] else
      var n := |pics| - 1;
      Changed(pics[..n], now[..n]) + if pics[n].needed && !now[n].needed then [pics[n]] else []
  }

  predicate Unwritten(p: Pic, q: Pic) {
    q == p || (p.needed && q == Written(p))
  }

  lemma ChangedMore(pics: seq<Pic>, now: seq<Pic>, p: Pic, q: Pic)
    requires |pics| == |now|
    ensures Changed(pics + [p], now + [q]) == Changed(pics, now) + if p.needed && !q.needed then [p] else []
  {
    assert (pics + [p])[..|pics|] == pics && (now + [q])[..|now|] == now;
  }

  // A call writes exactly the pictures that it marks as no longer needed, and changes nothing else.
  lemma {:induction false} CallWritesChanged(before: seq<Pic>, pics: seq<Pic>, b: Bump, limits: Limits)
    requires |b.done| == |before| && b.out == Changed(before, b.done)
    requires forall i :: 0 <= i < |before| ==> Unwritten(before[i], b.done[i])
    ensures var r := BumpAll(pics, b, limits); var all := before + pics;
      r.out == Changed(all, r.done) && forall i :: 0 <= i < |all| ==> Unwritten(all[i], r.done[i])
    decreases |pics|
  {
    if pics == [] {
      assert before + pics == before;
    } else {
      var p, next := pics[0], BumpOne(b, pics[0], limits);
      var q := next.done[|b.done|];
      ChangedMore(before, b.done, p, q);
      assert b.out + [] == b.out;
      CallWritesChanged(before + [p], pics[1..], next, limits);
      assert before + [p] + pics[1..] == before + pics;
    }
  }

  /* ----- Limits ----- */

  lemma {:induction false} CountsOfBoth(a: seq<Pic>, b: seq<Pic>, last: int, gdr: bool)
    ensures NumWaiting(a + b, last, gdr) == NumWaiting(a, last, gdr) + NumWaiting(b, last, gdr)
    ensures Fullness(a + b, last, gdr) == Fullness(a, last, gdr) + Fullness(b, last, gdr)
    decreases |b|
  {
    if b == [] {
      assert a + b == a;
    } else {
      assert (a + b)[..|a + b| - 1] == a + b[..|b| - 1];
      CountsOfBoth(a, b[..|b| - 1], last, gdr);
    }
  }

  lemma CountsOfOne(p: Pic, last: int, gdr: bool)
    ensures NumWaiting([p], last, gdr) == if Waits(p, last, gdr) then 1 else 0
    ensures Fullness([p], last, gdr) == if Waits(p, last, gdr) || p.referenced then 1 else 0
  {
    assert [p][..0] == [];
  }

  lemma {:induction false} NoneWait(pics: seq<Pic>, last: int, gdr: bool)
    requires forall i :: 0 <= i < |pics| ==> !Waits(pics[i], last, gdr)
    ensures NumWaiting(pics, last, gdr) == 0
    decreases |pics|
  {
    if pics != [] {
      NoneWait(pics[..|pics| - 1], last, gdr);
    }
  }

  lemma {:induction false} FewerWait(pics: seq<Pic>, last: int, last': int, gdr: bool)
    requires last <= last'
    ensures NumWaiting(pics, last', gdr) <= NumWaiting(pics, last, gdr) && Fullness(pics, last', gdr) <= Fullness(pics, last, gdr)
    decreases |pics|
  {
    if pics != [] {
      FewerWait(pics[..|pics| - 1], last, last', gdr);
    }
  }

  // The counters are no less than what the list says, and nothing waits among the pictures gone over while
  // there are too many.
  ghost predicate Careful(b: Bump, rest: seq<Pic>, limits: Limits) {
    && b.num >= NumWaiting(b.done, b.last, limits.gdr) + NumWaiting(rest, b.last, limits.gdr)
    && b.full >= Fullness(b.done, b.last, limits.gdr) + Fullness(rest, b.last, limits.gdr)
    && (TooMany(b.num, b.full, limits) ==> forall i :: 0 <= i < |b.done| ==> !Waits(b.done[i], b.last, limits.gdr))
  }

  lemma CarefulNext(b: Bump, p: Pic, rest: seq<Pic>, limits: Limits)
    requires Careful(b, [p] + rest, limits)
    ensures Careful(BumpOne(b, p, limits), rest, limits)
  {
    var gdr, next := limits.gdr, BumpOne(b, p, limits);
    CountsOfBoth([p], rest, b.last, gdr);
    CountsOfOne(p, b.last, gdr);
    CountsOfBoth(b.done, [next.done[|b.done|]], next.last, gdr);
    CountsOfOne(next.done[|b.done|], next.last, gdr);
    FewerWait(b.done, b.last, next.last, gdr);
    FewerWait(rest, b.last, next.last, gdr);
  }

  lemma {:induction false} CarefulToTheEnd(pics: seq<Pic>, b: Bump, limits: Limits)
    requires Careful(b, pics, limits)
    ensures Careful(BumpAll(pics, b, limits), [], limits)
    decreases |pics|
  {
    if pics != [] {
      assert pics == [pics[0]] + pics[1..];
      CarefulNext(b, pics[0], pics[1..], limits);
      CarefulToTheEnd(pics[1..], BumpOne(b, pics[0], limits), limits);
    }
  }

  // A call ends within both limits or with nothing left that waits, whatever the order of the list.
  lemma CallEndsWithinLimits(pics: seq<Pic>, last: int, limits: Limits)
    ensures var b := Bumped(pics, last, limits);
      var waiting, full := NumWaiting(b.done, b.last, limits.gdr), Fullness(b.done, b.last, limits.gdr);
      (waiting <= limits.numReorder && full <= limits.maxDecPicBuffering) || waiting == 0
  {
    var start := Bump([], NumWaiting(pics, last, limits.gdr), Fullness(pics, last, limits.gdr), last, []);
    CarefulToTheEnd(pics, start, limits);
    var b := BumpAll(pics, start, limits);
    if TooMany(b.num, b.full, limits) {
      NoneWait(b.done, b.last, limits.gdr);
    }
  }

  // The counters never go below zero, sorted or not, so that comparing them as unsigned numbers is harmless.
  lemma {:induction false} CountersStayNonNegative(pics: seq<Pic>, b: Bump, limits: Limits)
    requires b.num >= NumWaiting(pics, b.last, limits.gdr) && b.full >= Fullness(pics, b.last, limits.gdr)
    ensures BumpAll(pics, b, limits).num >= 0 && BumpAll(pics, b, limits).full >= 0
    decreases |pics|
  {
    if pics != [] {
      var p, rest, next := pics[0], pics[1..], BumpOne(b, pics[0], limits);
      assert pics == [p] + rest;
      CountsOfBoth([p], rest, b.last, limits.gdr);
      CountsOfOne(p, b.last, limits.gdr);
      FewerWait(rest, b.last, next.last, limits.gdr);
      CountersStayNonNegative(rest, next, limits);
    }
  }

  // Nor do they at any picture of a call.
  lemma CallCountersStayNonNegative(pics: seq<Pic>, last: int, limits: Limits, k: nat)
    requires k <= |pics|
    ensures var start := Bump([], NumWaiting(pics, last, limits.gdr), Fullness(pics, last, limits.gdr), last, []);
      BumpAll(pics[..k], start, limits).num >= 0 && BumpAll(pics[..k], start, limits).full >= 0
  {
    assert pics == pics[..k] + pics[k..];
    CountsOfBoth(pics[..k], pics[k..], last, limits.gdr);
    CountersStayNonNegative(pics[..k], Bump([], NumWaiting(pics, last, limits.gdr), Fullness(pics, last, limits.gdr), last, []), limits);
  }

  /* ----- Nothing is passed over ----- */

  // The pictures that wait when a call begins follow one another in the list.
  predicate WaitInOrder(pics: seq<Pic>, last: int, gdr: bool) {
    forall i, j :: 0 <= i < j < |pics| && Waits(pics[i], last, gdr) && Waits(pics[j], last, gdr) ==>
      Follows(pics[j], pics[i].poc, gdr)
  }

  // Picture k of the list, if it waited when the call began, has been written or waits still.
  predicate Served(p: Pic, q: Pic, last: int, now: int, gdr: bool) {
    Waits(p, last, gdr) ==> !q.needed || Waits(q, now, gdr)
  }

  // So far none has been passed over, and while there are too many, those that waited have been written.
  ghost predicate Serving(pics: seq<Pic>, last: int, b: Bump, rest: seq<Pic>, limits: Limits) {
    && |b.done| + |rest| == |pics| && pics[|b.done|..] == rest
    && (forall i :: 0 <= i < |b.done| ==> b.done[i].poc == pics[i].poc && Served(pics[i], b.done[i], last, b.last, limits.gdr))
    && (forall i :: 0 <= i < |rest| ==> (Waits(rest[i], last, limits.gdr) <==> Waits(rest[i], b.last, limits.gdr)))
    && (TooMany(b.num, b.full, limits) ==> forall i :: 0 <= i < |b.done| && Waits(pics[i], last, limits.gdr) ==> !b.done[i].needed)
  }

  lemma ServingNext(pics: seq<Pic>, last: int, b: Bump, rest: seq<Pic>, limits: Limits)
    requires Serving(pics, last, b, rest, limits) && WaitInOrder(pics, last, limits.gdr) && rest != []
    ensures Serving(pics, last, BumpOne(b, rest[0], limits), rest[1..], limits)
  {
    var gdr, next, n := limits.gdr, BumpOne(b, rest[0], limits), |b.done|;
    assert pics[n] == rest[0] && pics[n + 1..] == rest[1..];
    forall i | 0 <= i < |rest[1..]|
      ensures Waits(rest[1..][i], last, gdr) <==> Waits(rest[1..][i], next.last, gdr)
    {
      assert rest[1..][i] == rest[i + 1] == pics[n + 1 + i];
      assert Waits(pics[n], last, gdr) && Waits(pics[n + 1 + i], last, gdr) ==> Follows(pics[n + 1 + i], pics[n].poc, gdr);
    }
    forall i | 0 <= i < n
      ensures Served(pics[i], next.done[i], last, next.last, gdr)
    {
      assert next.done[i] == b.done[i];
    }
  }

  lemma {:induction false} ServingToTheEnd(pics: seq<Pic>, last: int, b: Bump, rest: seq<Pic>, limits: Limits)
    requires Serving(pics, last, b, rest, limits) && WaitInOrder(pics, last, limits.gdr)
    ensures Serving(pics, last, BumpAll(rest, b, limits), [], limits)
    decreases |rest|
  {
    if rest != [] {
      ServingNext(pics, last, b, rest, limits);
      ServingToTheEnd(pics, last, BumpOne(b, rest[0], limits), rest[1..], limits);
    }
  }

  // Every picture that waited when the call began has been written or waits still.
  ghost predicate NonePassedOver(pics: seq<Pic>, last: int, limits: Limits) {
    var b := Bumped(pics, last, limits);
    forall k :: 0 <= k < |pics| ==> Served(pics[k], b.done[k], last, b.last, limits.gdr)
  }

  lemma OrderedCallPassesNoneOver(pics: seq<Pic>, last: int, limits: Limits)
    requires WaitInOrder(pics, last, limits.gdr)
    ensures NonePassedOver(pics, last, limits)
  {
    ServingToTheEnd(pics, last, Bump([], NumWaiting(pics, last, limits.gdr), Fullness(pics, last, limits.gdr), last, []), pics, limits);
  }

  lemma {:induction false} DoneStays(pics: seq<Pic>, b: Bump, limits: Limits, k: nat)
    requires k < |b.done|
    ensures BumpAll(pics, b, limits).done[k] == b.done[k] && BumpAll(pics, b, limits).last >= b.last
    decreases |pics|
  {
    if pics != [] {
      DoneStays(pics[1..], BumpOne(b, pics[0], limits), limits, k);
    }
  }

  // A picture that does not follow what has been written does not wait when its turn comes, and stays.
  lemma {:induction false} OvertakenStays(pics: seq<Pic>, b: Bump, limits: Limits, j: nat, poc: int)
    requires j < |pics| && b.last >= poc && !Follows(pics[j], poc, limits.gdr)
    ensures var r := BumpAll(pics, b, limits); r.done[|b.done| + j] == pics[j] && r.last >= poc
    decreases |pics|
  {
    var next := BumpOne(b, pics[0], limits);
    if j == 0 {
      DoneStays(pics[1..], next, limits, |b.done|);
    } else {
      OvertakenStays(pics[1..], next, limits, j - 1, poc);
    }
  }

  // Where no reordering is allowed, a picture that does not follow an earlier one is overtaken by it.
  lemma {:induction false} Overtaken(pics: seq<Pic>, b: Bump, limits: Limits, i: nat, j: nat)
    requires i < j < |pics| && limits.numReorder == 0 && b.num >= NumWaiting(pics, b.last, limits.gdr)
    requires pics[i].needed && !Follows(pics[j], pics[i].poc, limits.gdr)
    ensures var r := BumpAll(pics, b, limits); r.done[|b.done| + j] == pics[j] && r.last >= pics[i].poc
    decreases |pics|
  {
    var p, rest, next := pics[0], pics[1..], BumpOne(b, pics[0], limits);
    assert pics == [p] + rest;
    CountsOfBoth([p], rest, b.last, limits.gdr);
    CountsOfOne(p, b.last, limits.gdr);
    if i == 0 {
      OvertakenStays(rest, next, limits, j - 1, p.poc);
    } else {
      FewerWait(rest, b.last, next.last, limits.gdr);
      Overtaken(rest, next, limits, i - 1, j - 1);
    }
  }

  lemma UnorderedCallPassesOver(pics: seq<Pic>, last: int, gdr: bool, maxDecPicBuffering: nat)
    requires !WaitInOrder(pics, last, gdr)
    ensures !NonePassedOver(pics, last, Limits(0, maxDecPicBuffering, gdr))
  {
    var i, j :| 0 <= i < j < |pics| && Waits(pics[i], last, gdr) && Waits(pics[j], last, gdr) && !Follows(pics[j], pics[i].poc, gdr);
    var limits := Limits(0, maxDecPicBuffering, gdr);
    Overtaken(pics, Bump([], NumWaiting(pics, last, gdr), Fullness(pics, last, gdr), last, []), limits, i, j);
    assert !Served(pics[j], Bumped(pics, last, limits).done[j], last, Bumped(pics, last, limits).last, gdr);
  }

  // No call passes a waiting picture over, whatever its limits, exactly if the pictures that wait when it begins
  // follow one another in the list.
  lemma NoCallPassesOverIff(pics: seq<Pic>, last: int, gdr: bool)
    ensures (forall limits: Limits :: limits.gdr == gdr ==> NonePassedOver(pics, last, limits)) <==> WaitInOrder(pics, last, gdr)
  {
    if WaitInOrder(pics, last, gdr) {
      forall limits: Limits | limits.gdr == gdr
        ensures NonePassedOver(pics, last, limits)
      {
        OrderedCallPassesNoneOver(pics, last, limits);
      }
    } else {
      UnorderedCallPassesOver(pics, last, gdr, 0);
    }
  }

  /* ----- The list as the decoder sorts it ----- */

  predicate Ascending(pics: seq<Pic>) {
    forall i, j :: 0 <= i < j < |pics| ==> pics[i].poc <= pics[j].poc
  }

  // Picture i moved forward to place k.
  function MovedTo(pics: seq<Pic>, i: nat, k: nat): (r: seq<Pic>)
    requires k <= i < |pics|
    ensures |r| == |pics|
    ensures forall m :: 0 <= m < |pics| ==> r[m] == if m < k || m > i then pics[m] else if m == k then pics[i] else pics[m - 1]
  {
    pics[..k] + [pics[i]] + pics[k..i] + pics[i + 1..]
  }

  lemma MovedKeeps(pics: seq<Pic>, i: nat, k: nat)
    requires k <= i < |pics|
    ensures multiset(MovedTo(pics, i, k)) == multiset(pics)
  {
    assert pics == pics[..k] + pics[k..i] + [pics[i]] + pics[i + 1..];
  }

  // The first i + 1 pictures ascend once the picture behind the first i ones stands where it belongs.
  ghost predicate Belongs(pics: seq<Pic>, i: nat, k: nat)
    requires k <= i < |pics|
  {
    (forall m :: 0 <= m < k ==> pics[m].poc < pics[i].poc) && (k < i ==> pics[k].poc >= pics[i].poc)
  }

  predicate AscendingTo(pics: seq<Pic>, n: nat)
    requires n <= |pics|
  {
    forall i, j :: 0 <= i < j < n ==> pics[i].poc <= pics[j].poc
  }

  lemma MovedAscends(pics: seq<Pic>, i: nat, k: nat)
    requires k <= i < |pics| && AscendingTo(pics, i) && Belongs(pics, i, k)
    ensures AscendingTo(MovedTo(pics, i, k), i + 1)
  {
    forall m | k <= m < i
      ensures pics[i].poc <= pics[m].poc
    {
      assert k < m ==> pics[k].poc <= pics[m].poc;
    }
  }

  // The decoder's sort of its picture list: each picture is moved before the first one that is not below it.
  method SortPicList(pics: seq<Pic>) returns (r: seq<Pic>)
    ensures multiset(r) == multiset(pics) && Ascending(r)
  {
    r := pics;
    var i := 1;
    while i < |r|
      invariant i >= 1 && |r| == |pics| && multiset(r) == multiset(pics) && AscendingTo(r, if i < |r| then i else |r|)
    {
      var k := 0;
      while k != i && r[k].poc < r[i].poc
        invariant k <= i && forall m :: 0 <= m < k ==> r[m].poc < r[i].poc
      {
        k := k + 1;
      }
      MovedKeeps(r, i, k);
      MovedAscends(r, i, k);
      r := MovedTo(r, i, k);
      i := i + 1;
    }
  }

  // No two pictures that wait have the same picture order count.
  predicate NoTwoAlike(pics: seq<Pic>, last: int, gdr: bool) {
    forall i, j :: 0 <= i < j < |pics| && Waits(pics[i], last, gdr) && Waits(pics[j], last, gdr) ==> pics[i].poc != pics[j].poc
  }

  // The sort before every output leaves one way to pass a picture over: another layer's picture of the same
  // picture order count, unless counts may repeat.
  lemma SortedCallPassesOverIff(pics: seq<Pic>, last: int, gdr: bool)
    requires Ascending(pics)
    ensures (forall limits: Limits :: limits.gdr == gdr ==> NonePassedOver(pics, last, limits))
            <==> gdr || NoTwoAlike(pics, last, gdr)
  {
    NoCallPassesOverIff(pics, last, gdr);
  }

  /* ----- Runs ----- */

  // The list, the last picture order count, everything written, how much of it when the last flush ended,
  // and the pictures ever decoded.
  datatype State = State(list: seq<Pic>, last: int, log: seq<Pic>, flushed: nat, seen: set<nat>)

  const INITIAL := State([], -MAX_INT, [], 0, {})

  ghost predicate DistinctIds(pics: seq<Pic>) {
    forall i, j :: 0 <= i < j < |pics| ==> pics[i].id != pics[j].id
  }

  ghost predicate Has(pics: seq<Pic>, id: nat) {
    exists i :: 0 <= i < |pics| && pics[i].id == id
  }

  // Decoding changes the list in any way, but a picture once decoded keeps its picture order count and is
  // never needed again once it is not, and a picture taken off the list does not come back.
  ghost predicate Decodes(s: State, t: State) {
    && t == s.(list := t.list, seen := t.seen) && s.seen <= t.seen && DistinctIds(t.list)
    && forall i :: 0 <= i < |t.list| ==> t.list[i].id in t.seen && (t.list[i].id in s.seen ==> IsKept(s.list, t.list[i]))
  }

  ghost predicate IsKept(list: seq<Pic>, p: Pic) {
    exists j :: 0 <= j < |list| && list[j].id == p.id && list[j].poc == p.poc && (p.needed ==> list[j].needed)
  }

  ghost predicate Writes(s: State, t: State, limits: Limits) {
    var b := Bumped(s.list, s.last, limits);
    t == s.(list := b.done, last := b.last, log := s.log + b.out)
  }

  ghost predicate Flushes(s: State, t: State, layerId: int, all: bool) {
    if s.list == [] then t == s else
      var log := s.log + Flushed(s.list, layerId, all);
      t == s.(list := Left(s.list, layerId, all), last := -MAX_INT, log := log, flushed := |log|)
  }

  ghost predicate Step(s: State, t: State, gdr: bool) {
    || Decodes(s, t)
    || (exists limits: Limits :: limits.gdr == gdr && Writes(s, t, limits))
    || (exists layerId, all :: Flushes(s, t, layerId, all))
  }

  ghost predicate IsRun(run: seq<State>, gdr: bool) {
    run != [] && run[0] == INITIAL && forall i :: 0 <= i < |run| - 1 ==> Step(run[i], run[i + 1], gdr)
  }

  // Every picture is written at most once, and never one that could still be; and what was written since the
  // last flush is in order.
  ghost predicate Good(s: State, gdr: bool) {
    && DistinctIds(s.list) && DistinctIds(s.log)
    && (forall i :: 0 <= i < |s.list| ==> s.list[i].id in s.seen)
    && (forall i :: 0 <= i < |s.log| ==> s.log[i].id in s.seen)
    && (forall i :: 0 <= i < |s.list| && s.list[i].needed ==> !Has(s.log, s.list[i].id))
    && s.flushed <= |s.log|
    && InOrder(s.log[s.flushed..], -MAX_INT, gdr) && s.last == EndOf(s.log[s.flushed..], -MAX_INT)
  }

  lemma DecodingIsGood(s: State, t: State, gdr: bool)
    requires Good(s, gdr) && Decodes(s, t)
    ensures Good(t, gdr)
  {
    forall i | 0 <= i < |t.list| && t.list[i].needed
      ensures !Has(t.log, t.list[i].id)
    {
      if t.list[i].id in s.seen {
        assert IsKept(s.list, t.list[i]);
      }
    }
  }

  ghost predicate ComesFrom(pics: seq<Pic>, p: Pic) {
    exists j :: 0 <= j < |pics| && pics[j].id == p.id && (p.needed ==> pics[j].needed)
  }

  // Pictures written at one call or flush: of the list, needed, none twice, and no longer needed after.
  ghost predicate Drawn(pics: seq<Pic>, now: seq<Pic>, out: seq<Pic>) {
    && DistinctIds(out)
    && (forall k :: 0 <= k < |out| ==> out[k] in pics && out[k].needed)
    && (forall i :: 0 <= i < |now| ==> ComesFrom(pics, now[i]))
    && (forall i :: 0 <= i < |now| && now[i].needed ==> !Has(out, now[i].id))
    && DistinctIds(now)
  }

  lemma DrawingIsGood(s: State, now: seq<Pic>, out: seq<Pic>)
    requires DistinctIds(s.list) && DistinctIds(s.log) && Drawn(s.list, now, out)
    requires forall i :: 0 <= i < |s.list| ==> s.list[i].id in s.seen
    requires forall i :: 0 <= i < |s.log| ==> s.log[i].id in s.seen
    requires forall i :: 0 <= i < |s.list| && s.list[i].needed ==> !Has(s.log, s.list[i].id)
    ensures DistinctIds(s.log + out)
    ensures forall i :: 0 <= i < |now| ==> now[i].id in s.seen
    ensures forall i :: 0 <= i < |s.log + out| ==> (s.log + out)[i].id in s.seen
    ensures forall i :: 0 <= i < |now| && now[i].needed ==> !Has(s.log + out, now[i].id)
  {
    var log := s.log + out;
    forall i, j | 0 <= i < j < |log|
      ensures log[i].id != log[j].id
    {
      if j >= |s.log| {
        var o := out[j - |s.log|];
        assert o in s.list;
        var k :| 0 <= k < |s.list| && s.list[k] == o;
        if i < |s.log| {
          assert !Has(s.log, s.list[k].id);
        }
      }
    }
    forall i | 0 <= i < |now| && now[i].needed
      ensures !Has(log, now[i].id)
    {
      var j :| 0 <= j < |s.list| && s.list[j].id == now[i].id && s.list[j].needed;
      assert !Has(s.log, s.list[j].id) && !Has(out, now[i].id);
    }
  }

  // Ascending positions in a list.
  ghost predicate Positions(pics: seq<Pic>, idx: seq<nat>) {
    (forall k :: 0 <= k < |idx| ==> idx[k] < |pics|) && (forall k, m :: 0 <= k < m < |idx| ==> idx[k] < idx[m])
  }

  // The pictures at some positions, as they were.
  ghost predicate Picks(pics: seq<Pic>, idx: seq<nat>, out: seq<Pic>) {
    Positions(pics, idx) && |out| == |idx| && forall k :: 0 <= k < |idx| ==> out[k] == pics[idx[k]]
  }

  // The pictures at some positions, perhaps no longer needed.
  ghost predicate Follow(pics: seq<Pic>, jdx: seq<nat>, now: seq<Pic>, idx: seq<nat>) {
    Positions(pics, jdx) && |now| == |jdx| && forall k :: 0 <= k < |jdx| ==>
      now[k].id == pics[jdx[k]].id && (now[k].needed ==> pics[jdx[k]].needed && jdx[k] !in idx)
  }

  lemma PickedIsDrawn(pics: seq<Pic>, idx: seq<nat>, out: seq<Pic>, jdx: seq<nat>, now: seq<Pic>)
    requires DistinctIds(pics) && Picks(pics, idx, out) && Follow(pics, jdx, now, idx)
    requires forall k :: 0 <= k < |idx| ==> pics[idx[k]].needed
    ensures Drawn(pics, now, out)
  {
    forall i, k | 0 <= i < |now| && now[i].needed && 0 <= k < |out|
      ensures out[k].id != now[i].id
    {
      assert idx[k] in idx && jdx[i] != idx[k];
      assert out[k] == pics[idx[k]] && now[i].id == pics[jdx[i]].id;
    }
    forall i | 0 <= i < |now|
      ensures ComesFrom(pics, now[i])
    {
      var j := jdx[i];
      assert pics[j].id == now[i].id;
    }
  }

  lemma PicksMore(pics: seq<Pic>, p: Pic, idx: seq<nat>, out: seq<Pic>)
    requires Picks(pics, idx, out)
    ensures Picks(pics + [p], idx, out) && Picks(pics + [p], idx + [|pics|], out + [p])
  {
  }

  lemma {:induction false} ChangedPicks(pics: seq<Pic>, now: seq<Pic>) returns (idx: seq<nat>)
    requires |pics| == |now|
    ensures Picks(pics, idx, Changed(pics, now))
    ensures forall k :: 0 <= k < |idx| ==> pics[idx[k]].needed && !now[idx[k]].needed
    decreases |pics|
  {
    idx := [];
    if pics != [] {
      var n := |pics| - 1;
      idx := ChangedPicks(pics[..n], now[..n]);
      PicksMore(pics[..n], pics[n], idx, Changed(pics[..n], now[..n]));
      assert pics == pics[..n] + [pics[n]];
      if pics[n].needed && !now[n].needed {
        idx := idx + [n];
      }
    }
  }

  lemma {:induction false} AllPositions(n: nat) returns (jdx: seq<nat>)
    ensures |jdx| == n && forall k :: 0 <= k < n ==> jdx[k] == k
    decreases n
  {
    jdx := [];
    if n > 0 {
      jdx := AllPositions(n - 1);
      jdx := jdx + [n - 1];
    }
  }

  lemma ChangedIsDrawn(pics: seq<Pic>, now: seq<Pic>)
    requires |pics| == |now| && DistinctIds(pics) && forall i :: 0 <= i < |pics| ==> Unwritten(pics[i], now[i])
    ensures Drawn(pics, now, Changed(pics, now))
  {
    var idx := ChangedPicks(pics, now);
    var jdx := AllPositions(|pics|);
    forall k | 0 <= k < |jdx| && now[k].needed
      ensures jdx[k] !in idx
    {
    }
    PickedIsDrawn(pics, idx, Changed(pics, now), jdx, now);
  }

  // The positions of the pictures that a flush writes, and of those it leaves.
  ghost predicate Chosen(pics: seq<Pic>, layerId: int, all: bool, idx: seq<nat>, jdx: seq<nat>) {
    && (forall i :: i in idx <==> 0 <= i < |pics| && OfLayer(pics[i], layerId, all) && pics[i].needed)
    && (forall i :: i in jdx <==> 0 <= i < |pics| && !OfLayer(pics[i], layerId, all))
  }

  lemma ChosenMore(pics: seq<Pic>, p: Pic, layerId: int, all: bool, idx: seq<nat>, jdx: seq<nat>)
    requires Chosen(pics, layerId, all, idx, jdx)
    ensures Chosen(pics + [p], layerId, all, if OfLayer(p, layerId, all) && p.needed then idx + [|pics|] else idx,
                   if OfLayer(p, layerId, all) then jdx else jdx + [|pics|])
  {
  }

  // What a flush writes and leaves, and the positions of both.
  ghost predicate Divides(pics: seq<Pic>, layerId: int, all: bool, idx: seq<nat>, jdx: seq<nat>, out: seq<Pic>, left: seq<Pic>) {
    Picks(pics, idx, out) && Picks(pics, jdx, left) && Chosen(pics, layerId, all, idx, jdx)
  }

  lemma DividesMore(pics: seq<Pic>, p: Pic, layerId: int, all: bool, idx: seq<nat>, jdx: seq<nat>, out: seq<Pic>, left: seq<Pic>)
    requires Divides(pics, layerId, all, idx, jdx, out, left)
    ensures if !OfLayer(p, layerId, all) then Divides(pics + [p], layerId, all, idx, jdx + [|pics|], out, left + [p])
            else if p.needed then Divides(pics + [p], layerId, all, idx + [|pics|], jdx, out + [p], left)
            else Divides(pics + [p], layerId, all, idx, jdx, out, left)
  {
    ChosenMore(pics, p, layerId, all, idx, jdx);
    PicksMore(pics, p, idx, out);
    PicksMore(pics, p, jdx, left);
  }

  // A flush writes each picture of the layer that is still needed, once and in the order of the list, and
  // leaves just the pictures of the other layers.
  lemma FlushPicks(pics: seq<Pic>, layerId: int, all: bool) returns (idx: seq<nat>, jdx: seq<nat>)
    ensures Picks(pics, idx, Flushed(pics, layerId, all)) && Picks(pics, jdx, Left(pics, layerId, all))
    ensures Chosen(pics, layerId, all, idx, jdx)
  {
    idx, jdx := Division(pics, layerId, all);
  }

  lemma {:induction false} Division(pics: seq<Pic>, layerId: int, all: bool) returns (idx: seq<nat>, jdx: seq<nat>)
    ensures Divides(pics, layerId, all, idx, jdx, Flushed(pics, layerId, all), Left(pics, layerId, all))
    decreases |pics|
  {
    idx, jdx := [], [];
    if pics != [] {
      var before, p := pics[..|pics| - 1], pics[|pics| - 1];
      idx, jdx := Division(before, layerId, all);
      DividesMore(before, p, layerId, all, idx, jdx, Flushed(before, layerId, all), Left(before, layerId, all));
      assert pics == before + [p];
      if !OfLayer(p, layerId, all) {
        jdx := jdx + [|before|];
      } else if p.needed {
        idx := idx + [|before|];
      }
    }
  }

  lemma FlushedIsDrawn(pics: seq<Pic>, layerId: int, all: bool)
    requires DistinctIds(pics)
    ensures Drawn(pics, Left(pics, layerId, all), Flushed(pics, layerId, all))
  {
    var idx, jdx := FlushPicks(pics, layerId, all);
    forall k | 0 <= k < |idx|
      ensures pics[idx[k]].needed
    {
      assert idx[k] in idx;
    }
    forall k | 0 <= k < |jdx|
      ensures jdx[k] !in idx
    {
      assert jdx[k] in jdx;
    }
    PickedIsDrawn(pics, idx, Flushed(pics, layerId, all), jdx, Left(pics, layerId, all));
  }

  function StartOf(s: State, gdr: bool): Bump {
    Bump([], NumWaiting(s.list, s.last, gdr), Fullness(s.list, s.last, gdr), s.last, [])
  }

  lemma BumpingDraws(pics: seq<Pic>, start: Bump, limits: Limits)
    requires DistinctIds(pics) && start.done == start.out == []
    ensures Drawn(pics, BumpAll(pics, start, limits).done, BumpAll(pics, start, limits).out)
  {
    var b := BumpAll(pics, start, limits);
    assert [] + pics == pics;
    CallWritesChanged([], pics, start, limits);
    ChangedIsDrawn(pics, b.done);
  }

  lemma WritingDraws(s: State, limits: Limits)
    requires DistinctIds(s.list)
    ensures Drawn(s.list, Bumped(s.list, s.last, limits).done, Bumped(s.list, s.last, limits).out)
  {
    BumpingDraws(s.list, StartOf(s, limits.gdr), limits);
  }

  lemma WritingKeepsOrder(s: State, limits: Limits, since: seq<Pic>)
    requires InOrder(since, -MAX_INT, limits.gdr) && s.last == EndOf(since, -MAX_INT)
    ensures var b := Bumped(s.list, s.last, limits);
      InOrder(since + b.out, -MAX_INT, limits.gdr) && b.last == EndOf(since + b.out, -MAX_INT)
  {
    var b := BumpAll(s.list, StartOf(s, limits.gdr), limits);
    CallWritesInOrder(s.list, StartOf(s, limits.gdr), s.last, limits);
    InOrderAppends(since, -MAX_INT, b.out, s.last, limits.gdr);
  }

  lemma WritingIsGood(s: State, t: State, limits: Limits)
    requires Good(s, limits.gdr) && Writes(s, t, limits)
    ensures Good(t, limits.gdr)
  {
    var b := Bumped(s.list, s.last, limits);
    WritingDraws(s, limits);
    DrawingIsGood(s, b.done, b.out);
    WritingKeepsOrder(s, limits, s.log[s.flushed..]);
    assert t.log[t.flushed..] == s.log[s.flushed..] + b.out;
  }

  lemma InOrderAppends(out: seq<Pic>, last: int, more: seq<Pic>, end: int, gdr: bool)
    requires InOrder(out, last, gdr) && end == EndOf(out, last) && InOrder(more, end, gdr)
    ensures InOrder(out + more, last, gdr) && EndOf(out + more, last) == EndOf(more, end)
  {
    if out != [] {
      var e := out[|out| - 1];
      forall i | 0 <= i < |out|
        ensures if gdr then out[i].poc <= e.poc else out[i].poc <= e.poc
      {
        assert i < |out| - 1 ==> Follows(e, out[i].poc, gdr);
      }
      assert Follows(e, last, gdr);
    }
  }

  lemma FlushingIsGood(s: State, t: State, layerId: int, all: bool, gdr: bool)
    requires Good(s, gdr) && Flushes(s, t, layerId, all)
    ensures Good(t, gdr)
  {
    if s.list != [] {
      FlushedIsDrawn(s.list, layerId, all);
      DrawingIsGood(s, Left(s.list, layerId, all), Flushed(s.list, layerId, all));
      assert t.log[t.flushed..] == [];
    }
  }

  // Over whole runs: no picture is written twice, and between flushes picture order counts never go back.
  lemma {:induction false} RunsAreGood(run: seq<State>, gdr: bool, k: nat)
    requires IsRun(run, gdr) && k < |run|
    ensures Good(run[k], gdr)
    decreases k
  {
    if k > 0 {
      RunsAreGood(run, gdr, k - 1);
      var s, t := run[k - 1], run[k];
      assert Step(run[k - 1], run[k - 1 + 1], gdr);
      if Decodes(s, t) {
        DecodingIsGood(s, t, gdr);
      } else if limits: Limits :| limits.gdr == gdr && Writes(s, t, limits) {
        WritingIsGood(s, t, limits);
      } else {
        var layerId, all :| Flushes(s, t, layerId, all);
        FlushingIsGood(s, t, layerId, all, gdr);
      }
    }
  }

  // A flush of all layers empties the list.
  lemma {:induction false} FullFlushEmpties(pics: seq<Pic>, layerId: int)
    ensures Left(pics, layerId, true) == []
    decreases |pics|
  {
    if pics != [] {
      FullFlushEmpties(pics[..|pics| - 1], layerId);
    }
  }

  /* ----- A picture passed over ----- */

  // Two layers' pictures of one picture order count.
  const BASE := Pic(0, 5, 0, true, false, true)
  const ENHANCEMENT := Pic(1, 5, 1, true, false, true)
  const ONE_REORDERED := Limits(1, 2, false)

  lemma CallOnBase()
    ensures Bumped([BASE], -MAX_INT, ONE_REORDERED) == Bump([BASE], 1, 1, -MAX_INT, [])
  {
    CountsOfOne(BASE, -MAX_INT, false);
    var start := Bump([], 1, 1, -MAX_INT, []);
    assert BumpOne(start, BASE, ONE_REORDERED) == Bump([BASE], 1, 1, -MAX_INT, []);
    assert BumpAll([BASE], start, ONE_REORDERED) == BumpAll([], BumpOne(start, BASE, ONE_REORDERED), ONE_REORDERED) by {
      assert [BASE][1..] == [];
    }
  }

  lemma CallOnBoth()
    ensures Bumped([BASE, ENHANCEMENT], -MAX_INT, ONE_REORDERED) == Bump([Written(BASE), ENHANCEMENT], 1, 1, 5, [BASE])
  {
    var pics := [BASE, ENHANCEMENT];
    CountsOfOne(BASE, -MAX_INT, false);
    CountsOfOne(ENHANCEMENT, -MAX_INT, false);
    CountsOfBoth([BASE], [ENHANCEMENT], -MAX_INT, false);
    assert [BASE] + [ENHANCEMENT] == pics && pics[1..] == [ENHANCEMENT] && [ENHANCEMENT][1..] == [];
    var start := Bump([], 2, 2, -MAX_INT, []);
    var next := BumpOne(start, BASE, ONE_REORDERED);
    assert next == Bump([Written(BASE)], 1, 1, 5, [BASE]);
    assert BumpAll(pics, start, ONE_REORDERED) == BumpAll([ENHANCEMENT], next, ONE_REORDERED);
    assert BumpOne(next, ENHANCEMENT, ONE_REORDERED) == next.(done := [Written(BASE), ENHANCEMENT]);
  }

  // A run that decodes the picture of each layer and makes a call behind each.
  function PassingRun(): seq<State> {
    var before, after := State([BASE], -MAX_INT, [], 0, {0}), State([BASE, ENHANCEMENT], -MAX_INT, [], 0, {0, 1});
    [INITIAL, before, before, after, State([Written(BASE), ENHANCEMENT], 5, [BASE], 0, {0, 1})]
  }

  lemma DecodesBoth()
    ensures Decodes(PassingRun()[0], PassingRun()[1]) && Decodes(PassingRun()[2], PassingRun()[3])
  {
    var s := PassingRun()[2];
    assert IsKept(s.list, BASE) by {
      assert s.list[0] == BASE;
    }
  }

  // The list is sorted, and the second call passes the second layer's picture over: it has not been written, and no
  // call will, since it waits no more.
  lemma SecondLayerIsPassedOver()
    ensures var run := PassingRun();
      && IsRun(run, false) && Writes(run[1], run[2], ONE_REORDERED) && Writes(run[3], run[4], ONE_REORDERED)
      && Ascending(run[3].list) && !NonePassedOver(run[3].list, run[3].last, ONE_REORDERED)
      && run[4].log == [BASE] && run[4].list[1] == ENHANCEMENT && !Waits(ENHANCEMENT, run[4].last, false)
  {
    var run := PassingRun();
    DecodesBoth();
    CallOnBase();
    CallOnBoth();
    assert Writes(run[1], run[2], ONE_REORDERED) && Writes(run[3], run[4], ONE_REORDERED);
    forall i | 0 <= i < |run| - 1
      ensures Step(run[i], run[i + 1], false)
    {
      assert i == 0 || i == 1 || i == 2 || i == 3;
    }
    assert !Served(ENHANCEMENT, ENHANCEMENT, -MAX_INT, 5, false);
  }
}
