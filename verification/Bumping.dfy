/**
 Decoder output: pictures waiting in the picture list are written in order of their picture order
 count whenever too many are waiting or the buffer is too full, and a flush writes all that are left.
 Pictures are frames.
 */
module Bumping {

  const MAX_INT: int := 2147483647

  // A picture of the list as the output process sees it.
  datatype Pic = Pic(id: nat, poc: int, layerId: int, needed: bool, referenced: bool, reconstructed: bool)

  // The limits of the highest temporal layer; gdr says that a picture may repeat the last picture order
  // count, as decoding refresh allows.
  datatype Limits = Limits(numReorder: nat, maxDecPicBuffering: nat, gdr: bool)

  /* ----- Counting ----- */

  predicate Waits(p: Pic, last: int, gdr: bool) {
    p.needed && if gdr then p.poc >= last else p.poc > last
  }

  function NumWaiting(pics: seq<Pic>, last: int, gdr: bool): nat {
    if pics == [] then 0 else
      NumWaiting(pics[..|pics| - 1], last, gdr) + if Waits(pics[|pics| - 1], last, gdr) then 1 else 0
  }

  // The pictures that take room: those that wait and those that are referenced.
  function Fullness(pics: seq<Pic>, last: int, gdr: bool): nat {
    if pics == [] then 0 else
      var p := pics[|pics| - 1];
      Fullness(pics[..|pics| - 1], last, gdr) + if Waits(p, last, gdr) || p.referenced then 1 else 0
  }

  predicate TooMany(num: int, full: int, limits: Limits) {
    num > limits.numReorder || full > limits.maxDecPicBuffering
  }

  /* ----- One call, as a function ----- */

  // The pictures gone over, the counters, the last picture order count written, and the pictures written.
  datatype Bump = Bump(done: seq<Pic>, num: int, full: int, last: int, out: seq<Pic>)

  function Written(p: Pic): Pic {
    p.(needed := false, reconstructed := p.reconstructed && p.referenced)
  }

  function BumpOne(b: Bump, p: Pic, limits: Limits): Bump {
    if Waits(p, b.last, limits.gdr) && TooMany(b.num, b.full, limits)
    then Bump(b.done + [Written(p)], b.num - 1, b.full - (if p.referenced then 0 else 1), p.poc, b.out + [p])
    else b.(done := b.done + [p])
  }

  function BumpAll(pics: seq<Pic>, b: Bump, limits: Limits): (r: Bump)
    ensures |r.done| == |b.done| + |pics|
    decreases |pics|
  {
    if pics == [] then b else BumpAll(pics[1..], BumpOne(b, pics[0], limits), limits)
  }

  function Bumped(pics: seq<Pic>, last: int, limits: Limits): (b: Bump)
    ensures |b.done| == |pics|
  {
    BumpAll(pics, Bump([], NumWaiting(pics, last, limits.gdr), Fullness(pics, last, limits.gdr), last, []), limits)
  }

  // The pictures of a layer, or of all layers; and what a flush writes and leaves.
  predicate OfLayer(p: Pic, layerId: int, all: bool) {
    all || p.layerId == layerId
  }

  function Flushed(pics: seq<Pic>, layerId: int, all: bool): (out: seq<Pic>)
    ensures |out| <= |pics|
  {
    if pics == [] then [] else
      var before, p := Flushed(pics[..|pics| - 1], layerId, all), pics[|pics| - 1];
      if OfLayer(p, layerId, all) && p.needed then before + [p] else before
  }

  /* ----- The decoder ----- */

  class Picture {
    const id: nat
    const poc: int
    const layerId: int
    var neededForOutput: bool
    var referenced: bool
    var reconstructed: bool

    constructor (id: nat, poc: int, layerId: int, neededForOutput: bool, referenced: bool, reconstructed: bool)
      ensures View() == Pic(id, poc, layerId, neededForOutput, referenced, reconstructed)
    {
      this.id, this.poc, this.layerId := id, poc, layerId;
      this.neededForOutput, this.referenced, this.reconstructed := neededForOutput, referenced, reconstructed;
    }

    function View(): Pic
      reads this
    {
      Pic(id, poc, layerId, neededForOutput, referenced, reconstructed)
    }
  }

  ghost function View(list: seq<Picture>): (pics: seq<Pic>)
    reads list
    ensures Shows(list, pics)
  {
    if list == [] then [] else View(list[..|list| - 1]) + [list[|list| - 1].View()]
  }

  // The pictures of the list look like this.
  ghost predicate Shows(list: seq<Picture>, pics: seq<Pic>)
    reads list
  {
    |pics| == |list| && forall i :: 0 <= i < |list| ==> list[i].View() == pics[i]
  }

  ghost predicate Distinct(list: seq<Picture>) {
    forall i, j :: 0 <= i < j < |list| ==> list[i] != list[j]
  }

  class DecApp {
    var pocLastDisplay: int
    var log: seq<Pic>

    constructor ()
      ensures pocLastDisplay == -MAX_INT && log == []
    {
      pocLastDisplay, log := -MAX_INT, [];
    }

    method CountPictures(list: seq<Picture>, gdr: bool) returns (num: nat, full: nat)
      ensures num == NumWaiting(View(list), pocLastDisplay, gdr) && full == Fullness(View(list), pocLastDisplay, gdr)
    {
      num, full := 0, 0;
      ghost var pics := View(list);
      for i := 0 to |list|
        invariant num == NumWaiting(pics[..i], pocLastDisplay, gdr) && full == Fullness(pics[..i], pocLastDisplay, gdr)
      {
        assert pics[..i + 1][..i] == pics[..i];
        if Waits(list[i].View(), pocLastDisplay, gdr) {
          num, full := num + 1, full + 1;
        } else if list[i].referenced {
          full := full + 1;
        }
      }
      assert pics[..|list|] == pics;
    }

    // Writes one picture: it is no longer needed, and not kept if it is not referenced.
    method Write(p: Picture)
      modifies this, p
      ensures pocLastDisplay == p.poc && log == old(log) + [old(p.View())] && p.View() == Written(old(p.View()))
    {
      log := log + [p.View()];
      pocLastDisplay := p.poc;
      if !p.referenced && p.reconstructed {
        p.reconstructed := false;
      }
      p.neededForOutput := false;
    }

    // The counters and the last picture order count of a call that has come as far as b.
    ghost predicate At(b: Bump, num: int, full: int, log0: seq<Pic>)
      reads this
    {
      num == b.num && full == b.full && pocLastDisplay == b.last && log == log0 + b.out
    }

    method BumpPicture(p: Picture, num: int, full: int, limits: Limits, ghost b: Bump, ghost log0: seq<Pic>) returns (num': int, full': int)
      requires At(b, num, full, log0)
      modifies this, p
      ensures var next := BumpOne(b, old(p.View()), limits);
        At(next, num', full', log0) && next.done == b.done + [p.View()]
    {
      num', full' := num, full;
      if Waits(p.View(), pocLastDisplay, limits.gdr) && TooMany(num, full, limits) {
        num' := num - 1;
        if !p.referenced {
          full' := full - 1;
        }
        Write(p);
        assert log0 + b.out + [old(p.View())] == log0 + (b.out + [old(p.View())]);
      }
    }

    // One picture of the list, behind those done and before those left.
    method BumpAt(list: seq<Picture>, i: nat, num: int, full: int, limits: Limits, ghost left: seq<Pic>, ghost b: Bump, ghost log0: seq<Pic>)
      returns (num': int, full': int)
      requires Distinct(list) && i < |list| && At(b, num, full, log0) && Shows(list, b.done + left) && |b.done| == i
      modifies this, list
      ensures var next := BumpOne(b, left[0], limits);
        At(next, num', full', log0) && Shows(list, next.done + left[1..])
    {
      ghost var now := b.done + left;
      assert list[i].View() == now[i] == left[0];
      num', full' := BumpPicture(list[i], num, full, limits, b, log0);
      ghost var v := list[i].View();
      assert Shows(list, now[i := v]);
      assert now[i := v] == b.done + [v] + left[1..];
    }

    method BumpList(list: seq<Picture>, num0: int, full0: int, limits: Limits, ghost start: Bump, ghost pics: seq<Pic>)
      requires Distinct(list) && Shows(list, pics) && start.done == start.out == [] && At(start, num0, full0, log)
      modifies this, list
      ensures var b := BumpAll(pics, start, limits); Shows(list, b.done) && pocLastDisplay == b.last && log == old(log) + b.out
    {
      var num, full := num0, full0;
      ghost var b, left, log0 := start, pics, log;
      ghost var end := BumpAll(left, b, limits);
      assert [] + left == left;
      for i := 0 to |list|
        invariant |b.done| == i && |left| == |list| - i && Shows(list, b.done + left)
        invariant At(b, num, full, log0) && BumpAll(left, b, limits) == end
      {
        num, full := BumpAt(list, i, num, full, limits, left, b, log0);
        b, left := BumpOne(b, left[0], limits), left[1..];
      }
      assert b.done + left == b.done;
    }

    // Bumping: the list keeps its pictures, those written are no longer needed.
    method WriteOutput(list: seq<Picture>, limits: Limits)
      requires Distinct(list)
      modifies this, list
      ensures var b := Bumped(old(View(list)), old(pocLastDisplay), limits);
        Shows(list, b.done) && pocLastDisplay == b.last && log == old(log) + b.out
    {
      var num, full := CountPictures(list, limits.gdr);
      assert log + [] == log;
      BumpList(list, num, full, limits, Bump([], num, full, pocLastDisplay, []), View(list));
    }

    // What a flush has left on the list, over the first i pictures.
    ghost predicate Keeps(list: seq<Picture>, i: nat, rest: seq<Picture>, left: seq<Pic>)
      requires i <= |list|
      reads rest
    {
      Distinct(rest) && Shows(rest, left) && forall p :: p in rest ==> p in list[..i]
    }

    // A flush of one picture: written if it is of the layer and still needed, kept if it is of another layer.
    method FlushOne(list: seq<Picture>, i: nat, layerId: int, all: bool, ghost p: Pic, ghost out: seq<Pic>, ghost log0: seq<Pic>,
                    rest: seq<Picture>, ghost left: seq<Pic>) returns (rest': seq<Picture>)
      requires Distinct(list) && i < |list| && list[i].View() == p && log == log0 + out && Keeps(list, i, rest, left)
      modifies this, list[i]
      ensures log == log0 + (out + if OfLayer(p, layerId, all) && p.needed then [p] else [])
      ensures Keeps(list, i + 1, rest', left + if OfLayer(p, layerId, all) then [] else [p])
    {
      TakeMore(list, i);
      rest' := rest;
      if !OfLayer(list[i].View(), layerId, all) {
        rest' := rest + [list[i]];
        assert out + [] == out;
      } else if list[i].neededForOutput {
        Write(list[i]);
        assert log0 + out + [p] == log0 + (out + [p]) && left + [] == left;
      } else {
        assert out + [] == out && left + [] == left;
      }
    }

    // What a flush that has come as far as picture i has written and left.
    ghost predicate FlushedTo(list: seq<Picture>, pics: seq<Pic>, i: nat, layerId: int, all: bool, log0: seq<Pic>, rest: seq<Picture>)
      reads this, list, rest
    {
      && i <= |list| == |pics|
      && (forall k :: i <= k < |list| ==> list[k].View() == pics[k])
      && log == log0 + Flushed(pics[..i], layerId, all)
      && Keeps(list, i, rest, Left(pics[..i], layerId, all))
    }

    method FlushTurn(list: seq<Picture>, ghost pics: seq<Pic>, i: nat, layerId: int, all: bool, ghost log0: seq<Pic>, rest: seq<Picture>)
      returns (rest': seq<Picture>)
      requires Distinct(list) && i < |list| && FlushedTo(list, pics, i, layerId, all, log0, rest)
      modifies this, list[i]
      ensures FlushedTo(list, pics, i + 1, layerId, all, log0, rest')
    {
      FlushNext(pics, i, layerId, all);
      rest' := FlushOne(list, i, layerId, all, pics[i], Flushed(pics[..i], layerId, all), log0, rest, Left(pics[..i], layerId, all));
    }

    // A flush writes every picture still needed, of one layer or of all, and takes the layer's pictures off
    // the list; an empty list is left alone.
    method FlushOutput(list: seq<Picture>, layerId: int, all: bool) returns (rest: seq<Picture>)
      requires Distinct(list)
      modifies this, list
      ensures log == old(log) + Flushed(old(View(list)), layerId, all)
      ensures pocLastDisplay == if list == [] then old(pocLastDisplay) else -MAX_INT
      ensures Keeps(list, |list|, rest, Left(old(View(list)), layerId, all))
    {
      rest := [];
      if list == [] {
        assert Flushed(View(list), layerId, all) == [] && log + [] == log;
        return;
      }
      ghost var pics, log0 := View(list), log;
      assert log0 + [] == log0;
      for i := 0 to |list|
        invariant FlushedTo(list, pics, i, layerId, all, log0, rest)
      {
        rest := FlushTurn(list, pics, i, layerId, all, log0, rest);
      }
      assert pics[..|list|] == pics;
      pocLastDisplay := -MAX_INT;
    }
  }

  lemma TakeMore(list: seq<Picture>, i: nat)
    requires i < |list| && Distinct(list)
    ensures forall p :: p in list[..i + 1] <==> p in list[..i] || p == list[i]
    ensures list[i] !in list[..i]
  {
    assert list[..i + 1] == list[..i] + [list[i]];
  }

  lemma FlushNext(pics: seq<Pic>, i: nat, layerId: int, all: bool)
    requires i < |pics|
    ensures Flushed(pics[..i + 1], layerId, all)
         == Flushed(pics[..i], layerId, all) + if OfLayer(pics[i], layerId, all) && pics[i].needed then [pics[i]] else []
    ensures Left(pics[..i + 1], layerId, all) == Left(pics[..i], layerId, all) + if OfLayer(pics[i], layerId, all) then [] else [pics[i]]
  {
    assert pics[..i + 1][..i] == pics[..i];
  }

  // The pictures of the other layers.
  function Left(pics: seq<Pic>, layerId: int, all: bool): seq<Pic> {
    if pics == [] then [] else
      var before, p := Left(pics[..|pics| - 1], layerId, all), pics[|pics| - 1];
      if OfLayer(p, layerId, all) then before else before + [p]
  }
}
