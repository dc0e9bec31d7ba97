/**
 What the simulated buffer of the GOP check holds: pictures that were coded at an earlier step, or
 the pictures it started with, exactly if the second list never asks for another picture.
 */
module GopBuffer {
  import opened GopCheck
  import opened GopRun

  // A picture that the walk starts with or that was coded before a step.
  ghost predicate Known(t: Table, step: nat, poc: int)
    requires Sound(t)
  {
    poc == 0 || (t.field && poc == 1) || exists s: nat :: 1 <= s < step && PocAt(t, s) == poc
  }

  /* ----- The copies ----- */

  // A picture that some entry of the buffer, written or left over, names, and that is not before the first.
  predicate InBuffer(refs: seq<int>, poc: int) {
    poc >= 0 && (poc == 0 || poc in refs)
  }

  predicate IsFound(s: Search, d: int) {
    InBuffer(s.refs, s.poc - d)
  }

  // What the search returns: a picture there was, or one of the buffer.
  ghost predicate FromSearch(s: Search, deltas: seq<int>, all: seq<int>) {
    (forall d :: d in deltas ==> d in all) && (forall d :: d in all ==> d in deltas || IsFound(s, d))
  }

  predicate NoneTwice(deltas: seq<int>) {
    forall d :: d in deltas ==> multiset(deltas)[d] == 1
  }

  lemma TryAddAdds(s: Search, earlier: nat, deltas: seq<int>)
    ensures FromSearch(s, deltas, TryAdd(s, earlier, deltas))
  {
    InsertKeeps(deltas, s.poc - s.pocs(earlier));
  }

  // The search keeps what there was and adds pictures of the buffer.
  lemma {:induction false} ExtrasAdd(s: Search, earlier: nat, deltas: seq<int>)
    ensures FromSearch(s, deltas, Extras(s, earlier, deltas))
    decreases earlier
  {
    if earlier > 0 {
      var more := TryAdd(s, earlier, deltas);
      TryAddAdds(s, earlier, deltas);
      if |more| < s.wished {
        ExtrasAdd(s, earlier - 1, more);
      }
    }
  }

  // No picture is added twice.
  lemma {:induction false} ExtrasAddOnce(s: Search, earlier: nat, deltas: seq<int>)
    requires NoneTwice(deltas)
    ensures NoneTwice(Extras(s, earlier, deltas))
    decreases earlier
  {
    if earlier > 0 {
      var more := TryAdd(s, earlier, deltas);
      TryAddOnce(s, earlier, deltas);
      if |more| < s.wished {
        ExtrasAddOnce(s, earlier - 1, more);
      }
    }
  }

  lemma TryAddOnce(s: Search, earlier: nat, deltas: seq<int>)
    requires NoneTwice(deltas)
    ensures NoneTwice(TryAdd(s, earlier, deltas))
  {
    InsertKeeps(deltas, s.poc - s.pocs(earlier));
  }

  // The list of a copy: the available pictures of the entry, and pictures of the buffer.
  ghost predicate Adds(deltas: seq<int>, poc: int, refs: seq<int>, all: seq<int>) {
    && (forall x :: x in deltas && poc - x >= 0 ==> x in all)
    && (forall x :: x in all ==> Asked(deltas, poc, refs, x))
  }

  // An available picture of the entry, or a picture of the buffer.
  ghost predicate Asked(deltas: seq<int>, poc: int, refs: seq<int>, x: int) {
    (x in deltas && poc - x >= 0) || InBuffer(refs, poc - x)
  }

  lemma FromSearchAdds(s: Search, deltas: seq<int>, kept: seq<int>, all: seq<int>)
    requires kept == Available(deltas, s.poc) && FromSearch(s, kept, all)
    ensures Adds(deltas, s.poc, s.refs, all)
  {
    forall x | x in all
      ensures Asked(deltas, s.poc, s.refs, x)
    {
      assert x in kept || IsFound(s, x);
    }
  }

  lemma SearchAdds(s: Search, earlier: nat, deltas: seq<int>, all: seq<int>)
    requires all == Extras(s, earlier, Available(deltas, s.poc))
    ensures Adds(deltas, s.poc, s.refs, all)
  {
    var kept := Available(deltas, s.poc);
    ExtrasAdd(s, earlier, kept);
    FromSearchAdds(s, deltas, kept, all);
  }

  lemma FirstListAdds(t: Table, step: nat, d: Dpb)
    requires Sound(t) && step >= 1
    ensures Adds(t.rpl0[Entry(t, step)].deltas, PocAt(t, step), d.refs, Replaced(t, step, d).0)
  {
    SearchAdds(FirstSearch(t, step, d), step - 1, t.rpl0[Entry(t, step)].deltas, Replaced(t, step, d).0);
  }

  lemma SecondListAdds(t: Table, step: nat, d: Dpb)
    requires Sound(t) && step >= 1
    ensures Adds(t.rpl1[Entry(t, step)].deltas, PocAt(t, step), d.refs, Replaced(t, step, d).1)
  {
    var all0 := Replaced(t, step, d).0;
    SearchAdds(SecondSearch(t, step, d, all0), step - 1, t.rpl1[Entry(t, step)].deltas, Replaced(t, step, d).1);
  }

  lemma ReplacedAdds(t: Table, step: nat, d: Dpb)
    requires Sound(t) && step >= 1
    ensures Adds(t.rpl0[Entry(t, step)].deltas, PocAt(t, step), d.refs, Replaced(t, step, d).0)
    ensures Adds(t.rpl1[Entry(t, step)].deltas, PocAt(t, step), d.refs, Replaced(t, step, d).1)
  {
    FirstListAdds(t, step, d);
    SecondListAdds(t, step, d);
  }

  // The list a step uses is the entry's own, or its copy.
  ghost predicate IsList(deltas: seq<int>, poc: int, refs: seq<int>, used: seq<int>) {
    used == deltas || Adds(deltas, poc, refs, used)
  }

  lemma UsedLists(t: Table, step: nat, d: Dpb)
    requires Sound(t) && step >= 1
    ensures IsList(t.rpl0[Entry(t, step)].deltas, PocAt(t, step), d.refs, Used(t, step, d).0)
    ensures IsList(t.rpl1[Entry(t, step)].deltas, PocAt(t, step), d.refs, Used(t, step, d).1)
  {
    ReplacedAdds(t, step, d);
  }

  /* ----- The buffer ----- */

  // Every entry is old or one of the pictures written.
  lemma {:induction false} WrittenFrom(d: Dpb, deltas: seq<int>, poc: int, once: bool)
    requires d.num <= |d.refs|
    ensures forall q :: q in WriteList(d, deltas, poc, once).refs ==> q in d.refs || (q >= 0 && poc - q in deltas)
    decreases |deltas|
  {
    if deltas != [] {
      WrittenFrom(d, deltas[..|deltas| - 1], poc, once);
    }
  }

  // Every picture of a list is held once the list has been written, and stays.
  lemma {:induction false} WrittenHolds(d: Dpb, deltas: seq<int>, poc: int, once: bool)
    requires d.num <= |d.refs|
    ensures var r := WriteList(d, deltas, poc, once);
      && d.num <= r.num
      && (forall i :: 0 <= i < d.num ==> r.refs[i] == d.refs[i])
      && (forall x :: x in deltas && poc - x >= 0 ==> Holds(r, poc - x))
    decreases |deltas|
  {
    if deltas != [] {
      var n := |deltas| - 1;
      var before, r, p := WriteList(d, deltas[..n], poc, once), WriteList(d, deltas, poc, once), poc - deltas[n];
      WrittenHolds(d, deltas[..n], poc, once);
      if p >= 0 && r != before {
        WriteHolds(before, p);
      }
      forall x | x in deltas && poc - x >= 0
        ensures Holds(r, poc - x)
      {
        if x in deltas[..n] {
          assert Holds(before, poc - x);
        } else {
          assert x == deltas[n];
        }
      }
    }
  }

  lemma WriteHolds(d: Dpb, p: int)
    requires d.num <= |d.refs|
    ensures Holds(Write(d, p), p)
    ensures forall q :: Holds(d, q) ==> Holds(Write(d, p), q)
  {
    var r := Write(d, p);
    assert RefAt(r.refs, d.num) == p;
    forall q | Holds(d, q)
      ensures Holds(r, q)
    {
      var i :| 0 <= i < d.num && RefAt(d.refs, i) == q;
      assert RefAt(r.refs, i) == q;
    }
  }

  // Every picture in the buffer after a step was in it before, was asked for by the step's lists, or is the step's own.
  lemma RefilledFrom(d: Dpb, used0: seq<int>, used1: seq<int>, poc: int, q: int)
    requires d.num <= |d.refs| && q in Refill(d, used0, used1, poc).refs
    ensures q == poc || q in d.refs || (q >= 0 && (poc - q in used0 || poc - q in used1))
  {
    var first := WriteList(Dpb(d.refs, 0), used0, poc, false);
    WrittenFrom(Dpb(d.refs, 0), used0, poc, false);
    WrittenFrom(first, used1, poc, true);
  }

  lemma RefilledHolds(d: Dpb, used0: seq<int>, used1: seq<int>, poc: int, x: int, q: int)
    requires d.num <= |d.refs| && x in used1 && q == poc - x && q >= 0
    ensures Holds(Refill(d, used0, used1, poc), q)
  {
    var first := WriteList(Dpb(d.refs, 0), used0, poc, false);
    WrittenHolds(first, used1, poc, true);
    WriteHolds(WriteList(first, used1, poc, true), poc);
  }

  // Pictures of a list that are not before the first picture are among those given.
  ghost predicate AskOnlyFor(deltas: seq<int>, poc: int, pictures: iset<int>) {
    forall x :: x in deltas && poc - x >= 0 ==> poc - x in pictures
  }

  ghost predicate HoldsOnly(d: Dpb, pictures: iset<int>) {
    0 in pictures && forall q :: q in d.refs ==> q in pictures
  }

  lemma HeldIsAmong(d: Dpb, q: int, pictures: iset<int>)
    requires HoldsOnly(d, pictures) && Holds(d, q)
    ensures q in pictures
  {
  }

  lemma ListAsksOnlyFor(deltas: seq<int>, poc: int, d: Dpb, used: seq<int>, now: iset<int>, later: iset<int>)
    requires IsList(deltas, poc, d.refs, used) && AskOnlyFor(deltas, poc, later) && HoldsOnly(d, now) && now <= later
    ensures AskOnlyFor(used, poc, later)
  {
    forall x | x in used && poc - x >= 0
      ensures poc - x in later
    {
      if x !in deltas {
        assert Asked(deltas, poc, d.refs, x);
      }
    }
  }

  // What is known now, asked for by the lists or coded at the step is all there is after it.
  lemma RefillHoldsOnly(d: Dpb, used0: seq<int>, used1: seq<int>, poc: int, now: iset<int>, later: iset<int>)
    requires d.num <= |d.refs| && HoldsOnly(d, now) && now <= later && poc in later
    requires AskOnlyFor(used0, poc, later) && AskOnlyFor(used1, poc, later)
    ensures HoldsOnly(Refill(d, used0, used1, poc), later)
  {
    var r := Refill(d, used0, used1, poc);
    forall q | q in r.refs
      ensures q in later
    {
      RefilledFrom(d, used0, used1, poc, q);
      if q != poc && q !in d.refs {
        var x := poc - q;
        assert poc - x == q;
      }
    }
  }

  // And the second list asks for nothing else, if there is nothing else after the step.
  lemma RefillNeedsListOne(d: Dpb, deltas1: seq<int>, used0: seq<int>, used1: seq<int>, poc: int, later: iset<int>)
    requires d.num <= |d.refs| && IsList(deltas1, poc, d.refs, used1) && HoldsOnly(Refill(d, used0, used1, poc), later)
    ensures AskOnlyFor(deltas1, poc, later)
  {
    forall x | x in deltas1 && poc - x >= 0
      ensures poc - x in later
    {
      RefilledHolds(d, used0, used1, poc, x, poc - x);
      HeldIsAmong(Refill(d, used0, used1, poc), poc - x, later);
    }
  }

  /* ----- Known pictures ----- */

  ghost function KnownAt(t: Table, step: nat): iset<int>
    requires Sound(t)
  {
    iset poc | Known(t, step, poc)
  }

  // Everything in the buffer, entries left over from before included, was coded before the step or started with.
  ghost predicate AllKnown(t: Table, step: nat, d: Dpb)
    requires Sound(t)
  {
    HoldsOnly(d, KnownAt(t, step))
  }

  // The second list of a step asks only for pictures that are known by then, itself included.
  ghost predicate ListOneKnown(t: Table, step: nat)
    requires Sound(t) && step >= 1
  {
    AskOnlyFor(t.rpl1[Entry(t, step)].deltas, PocAt(t, step), KnownAt(t, step + 1))
  }

  lemma KnownGrows(t: Table, step: nat)
    requires Sound(t) && step >= 1
    ensures KnownAt(t, step) <= KnownAt(t, step + 1) && PocAt(t, step) in KnownAt(t, step + 1)
  {
  }

  // A step that does not fail asks for pictures of the buffer by its first list.
  lemma ListZeroIsHeld(t: Table, step: nat, d: Dpb, now: iset<int>)
    requires Sound(t) && step >= 1 && !Missing(t, step, d) && HoldsOnly(d, now)
    ensures AskOnlyFor(t.rpl0[Entry(t, step)].deltas, PocAt(t, step), now)
  {
    var deltas, poc := t.rpl0[Entry(t, step)].deltas, PocAt(t, step);
    forall x | x in deltas && poc - x >= 0
      ensures poc - x in now
    {
      var i :| 0 <= i < |deltas| && deltas[i] == x;
      HeldIsAmong(d, poc - x, now);
    }
  }

  lemma AskMore(deltas: seq<int>, poc: int, now: iset<int>, later: iset<int>)
    requires AskOnlyFor(deltas, poc, now) && now <= later
    ensures AskOnlyFor(deltas, poc, later)
  {
  }

  lemma NextIsKnown(t: Table, step: nat, d: Dpb)
    requires Sound(t) && step >= 1 && d.num <= |d.refs| && AllKnown(t, step, d) && !Missing(t, step, d) && ListOneKnown(t, step)
    ensures AllKnown(t, step + 1, Next(t, step, d))
  {
    var k, poc, now, later := Entry(t, step), PocAt(t, step), KnownAt(t, step), KnownAt(t, step + 1);
    var (used0, used1) := Used(t, step, d);
    KnownGrows(t, step);
    UsedLists(t, step, d);
    ListZeroIsHeld(t, step, d, now);
    AskMore(t.rpl0[k].deltas, poc, now, later);
    ListAsksOnlyFor(t.rpl0[k].deltas, poc, d, used0, now, later);
    ListAsksOnlyFor(t.rpl1[k].deltas, poc, d, used1, now, later);
    RefillHoldsOnly(d, used0, used1, poc, now, later);
  }

  lemma KnownNeedsListOne(t: Table, step: nat, d: Dpb)
    requires Sound(t) && step >= 1 && d.num <= |d.refs| && AllKnown(t, step + 1, Next(t, step, d))
    ensures ListOneKnown(t, step)
  {
    UsedLists(t, step, d);
    RefillNeedsListOne(d, t.rpl1[Entry(t, step)].deltas, Used(t, step, d).0, Used(t, step, d).1, PocAt(t, step), KnownAt(t, step + 1));
  }

  // Up to a step, the buffer has held known pictures only.
  ghost predicate AlwaysKnown(t: Table, step: nat)
    requires Sound(t)
  {
    forall s: nat :: 1 <= s <= step ==> AllKnown(t, s, WalkAt(t, s).d)
  }

  ghost predicate ListOneAlwaysKnown(t: Table, step: nat)
    requires Sound(t)
  {
    forall s: nat :: 1 <= s < step ==> ListOneKnown(t, s)
  }

  lemma NextBuffer(t: Table, s: nat)
    requires Sound(t) && s >= 1 && WalkAt(t, s + 1).ok
    ensures WalkAt(t, s).ok && !Missing(t, s, WalkAt(t, s).d) && WalkAt(t, s + 1).d == Next(t, s, WalkAt(t, s).d)
  {
    NextIsOk(t, s, WalkAt(t, s));
  }

  lemma StartIsKnown(t: Table)
    requires Sound(t)
    ensures AllKnown(t, 1, WalkAt(t, 1).d)
  {
    assert WalkAt(t, 1) == StartWalk(t);
    forall q | q in Start(t).refs
      ensures q in KnownAt(t, 1)
    {
      assert Known(t, 1, q);
    }
  }

  lemma NextHoldsKnown(t: Table, s: nat, next: nat)
    requires Sound(t) && s >= 1 && next == s + 1 && WalkAt(t, next).ok
    requires AllKnown(t, s, WalkAt(t, s).d) && ListOneKnown(t, s)
    ensures AllKnown(t, next, WalkAt(t, next).d)
  {
    NextBuffer(t, s);
    NextIsKnown(t, s, WalkAt(t, s).d);
  }

  lemma ListOneWasAlwaysKnown(t: Table, step: nat, s: nat)
    requires Sound(t) && s < step && ListOneAlwaysKnown(t, step)
    ensures ListOneAlwaysKnown(t, s) && (s >= 1 ==> ListOneKnown(t, s))
  {
  }

  lemma OkJustBefore(t: Table, s: nat, next: nat)
    requires Sound(t) && s >= 1 && next == s + 1 && WalkAt(t, next).ok
    ensures WalkAt(t, s).ok
  {
    OkOneBefore(t, s, next);
  }

  lemma {:induction false} KnownFromListOne(t: Table, step: nat)
    requires Sound(t) && step >= 1 && WalkAt(t, step).ok && ListOneAlwaysKnown(t, step)
    ensures AllKnown(t, step, WalkAt(t, step).d)
    decreases step
  {
    if step == 1 {
      StartIsKnown(t);
    } else {
      var s := step - 1;
      OkJustBefore(t, s, step);
      ListOneWasAlwaysKnown(t, step, s);
      KnownFromListOne(t, s);
      NextHoldsKnown(t, s, step);
    }
  }

  lemma AlwaysKnownFromListOne(t: Table, step: nat)
    requires Sound(t) && step >= 1 && WalkAt(t, step).ok && ListOneAlwaysKnown(t, step)
    ensures AlwaysKnown(t, step)
  {
    forall s: nat | 1 <= s <= step
      ensures AllKnown(t, s, WalkAt(t, s).d)
    {
      if s < step {
        OkBefore(t, step, s);
        ListOneWasAlwaysKnown(t, step, s);
      }
      KnownFromListOne(t, s);
    }
  }

  lemma AlwaysKnownNeedsListOne(t: Table, s: nat, next: nat)
    requires Sound(t) && s >= 1 && next == s + 1 && WalkAt(t, next).ok && AllKnown(t, next, WalkAt(t, next).d)
    ensures ListOneKnown(t, s)
  {
    NextBuffer(t, s);
    KnownNeedsListOne(t, s, WalkAt(t, s).d);
  }

  lemma ListOneWasKnown(t: Table, step: nat, s: nat, next: nat)
    requires Sound(t) && 1 <= s && next == s + 1 <= step && WalkAt(t, step).ok && AlwaysKnown(t, step)
    ensures ListOneKnown(t, s)
  {
    if next < step {
      OkBefore(t, step, next);
    }
    AlwaysKnownNeedsListOne(t, s, next);
  }

  // As long as no step fails, every picture ever held was coded before or started with, exactly if
  // the second lists never ask for another one; the tables alone tell.
  lemma BufferIsAlwaysKnown(t: Table, step: nat)
    requires Sound(t) && step >= 1 && WalkAt(t, step).ok
    ensures AlwaysKnown(t, step) <==> ListOneAlwaysKnown(t, step)
  {
    if ListOneAlwaysKnown(t, step) {
      AlwaysKnownFromListOne(t, step);
    }
    if AlwaysKnown(t, step) {
      forall s: nat | 1 <= s < step
        ensures ListOneKnown(t, s)
      {
        ListOneWasKnown(t, step, s, s + 1);
      }
    }
  }

  // The second list of every entry asks for pictures of the first only.
  ghost predicate Covered(t: Table)
    requires Sound(t)
  {
    forall k, x :: 0 <= k < t.gop && x in t.rpl1[k].deltas ==> x in t.rpl0[k].deltas
  }

  lemma CoveredIsKnown(t: Table, step: nat, d: Dpb)
    requires Sound(t) && step >= 1 && Covered(t) && AllKnown(t, step, d) && !Missing(t, step, d)
    ensures ListOneKnown(t, step)
  {
    KnownGrows(t, step);
    ListZeroIsHeld(t, step, d, KnownAt(t, step));
    CoveredAsksLess(t, Entry(t, step), PocAt(t, step), KnownAt(t, step), KnownAt(t, step + 1));
  }

  lemma CoveredAsksLess(t: Table, k: nat, poc: int, now: iset<int>, later: iset<int>)
    requires Sound(t) && Covered(t) && k < t.gop && AskOnlyFor(t.rpl0[k].deltas, poc, now) && now <= later
    ensures AskOnlyFor(t.rpl1[k].deltas, poc, later)
  {
  }

  // A table whose second lists are covered by the first ones never holds an uncoded picture.
  lemma {:induction false} CoveredBufferIsKnown(t: Table, step: nat)
    requires Sound(t) && step >= 1 && WalkAt(t, step).ok && Covered(t)
    ensures AllKnown(t, step, WalkAt(t, step).d)
    decreases step
  {
    if step == 1 {
      StartIsKnown(t);
    } else {
      var s := step - 1;
      NextBuffer(t, s);
      CoveredBufferIsKnown(t, s);
      CoveredIsKnown(t, s, WalkAt(t, s).d);
      NextIsKnown(t, s, WalkAt(t, s).d);
    }
  }

  // A table of one entry whose second list asks for the picture that is coded next: the check accepts
  // it, and the buffer then holds a picture that has not been coded.
  lemma UncoveredBufferIsNotKnown()
    ensures var t := Table([Rpl(1, 0, [1], 1)], [Rpl(1, 0, [-1], 1)], 1, 1, false);
      Sound(t) && !Covered(t) && WalkAt(t, 2).ok && WalkAt(t, 2).numOk == 1 && !AllKnown(t, 2, WalkAt(t, 2).d)
  {
    var t := Table([Rpl(1, 0, [1], 1)], [Rpl(1, 0, [-1], 1)], 1, 1, false);
    var d := Start(t);
    assert PocAt(t, 1) == 1 && Entry(t, 1) == 0;
    assert -1 in t.rpl1[0].deltas && -1 !in t.rpl0[0].deltas;
    assert RefAt(d.refs, 0) == 0 && Holds(d, 0);
    assert Complete(t, 1, d);
    assert t.rpl0[0].deltas[..0] == [] && t.rpl1[0].deltas[..0] == [];
    assert Next(t, 1, d) == Dpb([0, 2, 1], 3);
    assert WalkAt(t, 2) == NextWalk(t, 1, WalkAt(t, 1));
    assert WalkAt(t, 2).d.refs[1] == 2 && 2 in WalkAt(t, 2).d.refs;
    assert !Known(t, 2, 2) && 2 !in KnownAt(t, 2);
  }
}
