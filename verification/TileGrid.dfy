/**
 Tile columns or rows of a picture: the list of sizes as given, its shortest form, the sizes it
 stands for, the boundaries between tiles, and the tile of each position.
 */
module TileGrid {

  function Min(a: nat, b: nat): nat {
    if a < b then a else b
  }

  /* ----- Boundaries ----- */

  // Positions of the boundaries, from 0 to the size of the picture.
  ghost predicate Boundaries(bd: seq<nat>) {
    |bd| >= 2 && bd[0] == 0 && forall i, j :: 0 <= i < j < |bd| ==> bd[i] < bd[j]
  }

  // The last of the first n boundaries that is at or before x.
  function Find(bd: seq<nat>, x: nat, n: nat): (c: nat)
    requires n <= |bd|
    ensures n > 0 ==> c < n
  {
    if n <= 1 || bd[n - 1] <= x then (if n == 0 then 0 else n - 1) else Find(bd, x, n - 1)
  }

  // The tile of a position.
  function TileOf(bd: seq<nat>, x: nat): (c: nat)
    ensures bd != [] ==> c < |bd|
  {
    Find(bd, x, |bd|)
  }

  lemma {:induction false} FindIs(bd: seq<nat>, x: nat, n: nat, c: nat)
    requires Boundaries(bd) && c < n <= |bd| && bd[c] <= x && (c + 1 < |bd| ==> x < bd[c + 1])
    ensures Find(bd, x, n) == c
    decreases n
  {
    if c < n - 1 {
      assert bd[n - 1] >= bd[c + 1];
      FindIs(bd, x, n - 1, c);
    }
  }

  // Exactly one tile holds a position of the picture.
  lemma TileOfIs(bd: seq<nat>, x: nat, c: nat)
    requires Boundaries(bd) && c + 1 < |bd|
    ensures TileOf(bd, x) == c <==> bd[c] <= x < bd[c + 1]
  {
    if bd[c] <= x < bd[c + 1] {
      FindIs(bd, x, |bd|, c);
    }
    FindHolds(bd, x, |bd|);
  }

  lemma {:induction false} FindHolds(bd: seq<nat>, x: nat, n: nat)
    requires Boundaries(bd) && 0 < n <= |bd|
    ensures var c := Find(bd, x, n); c < n && bd[c] <= x && (c + 1 < n ==> x < bd[c + 1])
    decreases n
  {
    if n > 1 && bd[n - 1] > x {
      FindHolds(bd, x, n - 1);
    }
  }

  /* ----- Size lists ----- */

  datatype Sizes = Sizes(list: seq<nat>) | ZeroSize

  function Cons(s: nat, rest: Sizes): Sizes {
    if rest.ZeroSize? then rest else Sizes([s] + rest.list)
  }

  // The sizes that a list stands for: each as far as there is room, the last one as often as needed.
  function Expansion(sizes: seq<nat>, rem: nat): Sizes
    requires sizes != []
    decreases rem
  {
    if rem == 0 then Sizes([]) else if sizes[0] == 0 then ZeroSize else
      var s := Min(rem, sizes[0]);
      Cons(s, Expansion(if |sizes| > 1 then sizes[1..] else sizes, rem - s))
  }

  function Sum(s: seq<nat>): nat {
    if s == [] then 0 else Sum(s[..|s| - 1]) + s[|s| - 1]
  }

  lemma {:induction false} SumOfCons(a: nat, s: seq<nat>)
    ensures Sum([a] + s) == a + Sum(s)
    decreases |s|
  {
    if s == [] {
      assert ([a] + s)[..0] == [];
    } else {
      assert ([a] + s)[..|s|] == [a] + s[..|s| - 1];
      SumOfCons(a, s[..|s| - 1]);
    }
  }

  // What a list stands for fills the picture with positive sizes.
  lemma {:induction false} ExpansionFills(sizes: seq<nat>, rem: nat)
    requires sizes != [] && Expansion(sizes, rem).Sizes?
    ensures var list := Expansion(sizes, rem).list;
      Sum(list) == rem && forall i :: 0 <= i < |list| ==> list[i] > 0
    decreases rem
  {
    if rem > 0 {
      var s, rest := Min(rem, sizes[0]), if |sizes| > 1 then sizes[1..] else sizes;
      ExpansionFills(rest, rem - s);
      SumOfCons(s, Expansion(rest, rem - s).list);
    }
  }

  // A repeated last size can be left out.
  lemma {:induction false} LastSizeIsImplied(sizes: seq<nat>, rem: nat)
    requires |sizes| > 1 && sizes[|sizes| - 1] == sizes[|sizes| - 2]
    ensures Expansion(sizes, rem) == Expansion(sizes[..|sizes| - 1], rem)
    decreases rem
  {
    if rem > 0 && sizes[0] > 0 {
      var s, n := Min(rem, sizes[0]), |sizes| - 1;
      if n == 1 {
        assert sizes[1..] == [sizes[1]] && sizes[..1] == [sizes[0]];
      } else {
        LastSizeIsImplied(sizes[1..], rem - s);
        assert sizes[1..][..n - 1] == sizes[..n][1..];
      }
    }
  }

  // The list as the encoder keeps it: nothing implied, nothing beyond the picture, no zero.
  ghost predicate Canonical(list: seq<nat>, pic: nat) {
    list != [] && Sum(list) <= pic && forall i :: 0 <= i < |list| ==> list[i] > 0
  }

  // What the first i sizes of a list leave to its other sizes.
  ghost predicate Split(sizes: seq<nat>, pic: nat, kept: seq<nat>, rem: nat) {
    && |kept| <= |sizes| && sizes != [] && Sum(kept) + rem == pic
    && (forall i :: 0 <= i < |kept| ==> kept[i] > 0)
    && (rem > 0 ==> kept == sizes[..|kept|])
    && (rem == 0 ==> Expansion(sizes, pic) == Sizes(kept))
  }

  lemma {:induction false} ExpansionOfKept(kept: seq<nat>, rem: nat)
    requires kept != [] && Sum(kept) == rem && forall i :: 0 <= i < |kept| ==> kept[i] > 0
    ensures Expansion(kept, rem) == Sizes(kept)
    decreases |kept|
  {
    assert kept == [kept[0]] + kept[1..];
    SumOfCons(kept[0], kept[1..]);
    if |kept| > 1 {
      ExpansionOfKept(kept[1..], rem - kept[0]);
    } else {
      assert kept[1..] == [];
    }
  }

  // The last size of a list, clipped where the picture ends.
  lemma {:induction false} ExpansionEnds(sizes: seq<nat>, k: nat, pic: nat, s: nat)
    requires k < |sizes| && (forall i :: 0 <= i <= k ==> sizes[i] > 0)
    requires Sum(sizes[..k]) < pic && s == pic - Sum(sizes[..k]) <= sizes[k]
    ensures Expansion(sizes, pic) == Sizes(sizes[..k] + [s])
    decreases k
  {
    if k == 0 {
      assert sizes[..0] + [s] == [s];
      assert s == pic;
    } else {
      var first := sizes[0];
      assert sizes[..k] == [first] + sizes[1..][..k - 1];
      SumOfCons(first, sizes[1..][..k - 1]);
      ExpansionEnds(sizes[1..], k - 1, pic - first, s);
      assert sizes[..k] + [s] == [first] + (sizes[1..][..k - 1] + [s]);
    }
  }

  // A zero met before the picture is full.
  lemma {:induction false} ExpansionMeetsZero(sizes: seq<nat>, k: nat, pic: nat)
    requires k < |sizes| && sizes[k] == 0 && (forall i :: 0 <= i < k ==> sizes[i] > 0)
    requires Sum(sizes[..k]) < pic
    ensures Expansion(sizes, pic) == ZeroSize
    decreases k
  {
    if k > 0 {
      assert sizes[..k] == [sizes[0]] + sizes[1..][..k - 1];
      SumOfCons(sizes[0], sizes[1..][..k - 1]);
      ExpansionMeetsZero(sizes[1..], k - 1, pic - sizes[0]);
    }
  }

  // The encoder's clean-up of one list: the default, repeated last sizes dropped, every size clipped to
  // what is left, and the rest dropped.  What the list stands for does not change, and a zero is
  // reported exactly if it would be met.
  method Canonicalise(given: seq<nat>, pic: nat) returns (r: Sizes)
    requires pic > 0
    ensures var sizes := if given == [] then [pic] else given;
      && (r.ZeroSize? <==> Expansion(sizes, pic).ZeroSize?)
      && (r.Sizes? ==> Canonical(r.list, pic) && Expansion(r.list, pic) == Expansion(sizes, pic))
  {
    var sizes := if given == [] then [pic] else given;
    ghost var all := sizes;
    while |sizes| > 1 && sizes[|sizes| - 1] == sizes[|sizes| - 2]
      invariant sizes != [] && Expansion(sizes, pic) == Expansion(all, pic)
    {
      LastSizeIsImplied(sizes, pic);
      sizes := sizes[..|sizes| - 1];
    }
    r := Clip(sizes, pic);
  }

  lemma SplitNext(sizes: seq<nat>, pic: nat, kept: seq<nat>, rem: nat, s: nat)
    requires Split(sizes, pic, kept, rem) && rem > 0 && |kept| < |sizes| && sizes[|kept|] > 0 && s == Min(rem, sizes[|kept|])
    ensures Split(sizes, pic, kept + [s], rem - s)
  {
    var k := |kept|;
    if s == rem {
      ExpansionEnds(sizes, k, pic, s);
    } else {
      assert sizes[..k + 1] == sizes[..k] + [sizes[k]];
    }
    SumOfMore(kept, s);
  }

  method Clip(sizes: seq<nat>, pic: nat) returns (r: Sizes)
    requires sizes != [] && pic > 0
    ensures r.ZeroSize? <==> Expansion(sizes, pic).ZeroSize?
    ensures r.Sizes? ==> Canonical(r.list, pic) && Expansion(r.list, pic) == Expansion(sizes, pic)
  {
    var rem, colIdx := pic, 0;
    var kept: seq<nat> := [];
    while rem > 0 && colIdx < |sizes|
      invariant colIdx == |kept| && Split(sizes, pic, kept, rem) && (rem == 0 ==> kept != [])
      decreases |sizes| - colIdx
    {
      if sizes[colIdx] == 0 {
        ExpansionMeetsZero(sizes, colIdx, pic);
        return ZeroSize;
      }
      var s := Min(rem, sizes[colIdx]);
      SplitNext(sizes, pic, kept, rem, s);
      kept := kept + [s];
      rem := rem - s;
      colIdx := colIdx + 1;
    }
    r := Sizes(kept);
    if rem == 0 {
      ExpansionOfKept(kept, pic);
    } else {
      assert kept == sizes;
      NoZeroNoError(sizes, pic);
    }
  }

  lemma SumOfMore(s: seq<nat>, a: nat)
    ensures Sum(s + [a]) == Sum(s) + a
  {
    assert (s + [a])[..|s|] == s;
  }

  lemma {:induction false} NoZeroNoError(sizes: seq<nat>, rem: nat)
    requires sizes != [] && forall i :: 0 <= i < |sizes| ==> sizes[i] > 0
    ensures Expansion(sizes, rem).Sizes?
    decreases rem
  {
    if rem > 0 {
      NoZeroNoError(if |sizes| > 1 then sizes[1..] else sizes, rem - Min(rem, sizes[0]));
    }
  }

  /* ----- Raster-scan slices ----- */

  // Slice sizes as given, then the last one as often as needed, each as far as there are tiles left.
  function Fill(sizes: seq<nat>, rem: nat): seq<nat>
    requires sizes != []
    decreases rem, |sizes|
  {
    if rem == 0 then [] else
      var s := Min(rem, sizes[0]);
      if |sizes| > 1 then [s] + Fill(sizes[1..], rem - s) else if s == 0 then [] else [s] + Fill(sizes, rem - s)
  }

  lemma FillOfMore(sizes: seq<nat>, rem: nat, rest: seq<nat>, s: nat)
    requires |sizes| > 1 && rem > 0 && rest == sizes[1..] && s == Min(rem, sizes[0])
    ensures Sum(Fill(sizes, rem)) == s + Sum(Fill(rest, rem - s)) && Sum(sizes) == sizes[0] + Sum(rest)
    ensures rest[|rest| - 1] == sizes[|sizes| - 1]
  {
    assert sizes == [sizes[0]] + rest;
    SumOfCons(sizes[0], rest);
    SumOfCons(s, Fill(rest, rem - s));
  }

  // The sizes fill the picture exactly if the last one is not zero, or the given ones are enough.
  lemma {:induction false} FillFills(sizes: seq<nat>, rem: nat)
    requires sizes != []
    ensures Sum(Fill(sizes, rem)) == rem <==> sizes[|sizes| - 1] > 0 || Sum(sizes) >= rem
    decreases rem, |sizes|
  {
    if rem > 0 {
      var s, rest := Min(rem, sizes[0]), sizes[1..];
      if |sizes| > 1 {
        FillOfMore(sizes, rem, rest, s);
        FillFills(rest, rem - s);
      } else {
        assert sizes == [sizes[0]] && Sum(sizes) == sizes[0] by { assert sizes[..0] == []; }
        if s > 0 {
          FillFills(sizes, rem - s);
          SumOfCons(s, Fill(sizes, rem - s));
        }
      }
    }
  }

  // Positive sizes are filled as tile sizes are.
  lemma {:induction false} FillIsExpansion(sizes: seq<nat>, rem: nat)
    requires sizes != [] && forall i :: 0 <= i < |sizes| ==> sizes[i] > 0
    ensures Expansion(sizes, rem) == Sizes(Fill(sizes, rem))
    decreases rem
  {
    if rem > 0 {
      FillIsExpansion(if |sizes| > 1 then sizes[1..] else sizes, rem - Min(rem, sizes[0]));
    }
  }

  // There is a way to fill: the last size can be repeated, or the sizes are enough.
  predicate Fillable(sizes: seq<nat>, rem: nat)
    requires sizes != []
  {
    sizes[|sizes| - 1] > 0 || Sum(sizes) >= rem
  }

  // The first k sizes of the list are in place; rest is what the others are filled from.
  ghost predicate Filling(fill: seq<nat>, list: seq<nat>, k: nat, rem: nat, rest: seq<nat>)
    requires rest != []
  {
    && k <= |list| && fill == list[..k] + Fill(rest, rem) && Fillable(rest, rem)
    && (k < |list| ==> rest == list[k..])
    && (k == |list| ==> |rest| == 1 && list != [] && (rem > 0 ==> list[k - 1] == rest[0]))
  }

  lemma FillGiven(fill: seq<nat>, list: seq<nat>, k: nat, rem: nat, rest: seq<nat>)
    requires rest != [] && Filling(fill, list, k, rem, rest) && k < |list| && rem > 0
    ensures var s, later := Min(rem, list[k]), if |rest| > 1 then rest[1..] else rest;
      Filling(fill, list[k := s], k + 1, rem - s, later)
  {
    var s := Min(rem, list[k]);
    var now := list[k := s];
    assert now[..k + 1] == list[..k] + [s];
    assert k + 1 < |list| ==> now[k + 1..] == rest[1..];
    assert rest == [rest[0]] + rest[1..];
    SumOfCons(rest[0], rest[1..]);
    if |rest| == 1 {
      assert rest[1..] == [];
    }
  }

  lemma FillRepeated(fill: seq<nat>, list: seq<nat>, rem: nat, rest: seq<nat>)
    requires rest != [] && Filling(fill, list, |list|, rem, rest) && rem > 0
    ensures var s := Min(rem, list[|list| - 1]); s > 0 && Filling(fill, list + [s], |list| + 1, rem - s, rest)
  {
    var s := Min(rem, list[|list| - 1]);
    assert rest[..0] == [] && Sum(rest) == rest[0];
    assert (list + [s])[..|list| + 1] == list + [s] && list[..|list|] == list;
  }

  // The state of the encoder's loop: the list of sizes, the next one, and the tiles left.
  datatype Raster = Raster(list: seq<nat>, listIdx: nat, remTiles: nat)

  // One turn: the next size, cut off where the tiles end, or the last one once more.
  function Turn(s: Raster): (r: Raster)
    requires s.list != []
    ensures r.list != []
  {
    if s.listIdx < |s.list| then
      var size := Min(s.remTiles, s.list[s.listIdx]);
      Raster(s.list[s.listIdx := size], s.listIdx + 1, s.remTiles - size)
    else
      var size := Min(s.remTiles, s.list[|s.list| - 1]);
      Raster(s.list + [size], s.listIdx + 1, s.remTiles - size)
  }

  // The loop after at most n turns.
  function Turns(sizes: seq<nat>, numTiles: nat, n: nat): (r: Raster)
    requires sizes != []
    ensures r.list != []
  {
    if n == 0 then Raster(sizes, 0, numTiles) else
      var s := Turns(sizes, numTiles, n - 1);
      if s.remTiles > 0 then Turn(s) else s
  }

  // What the sizes from the n-th on are filled from.
  function RestOf(sizes: seq<nat>, n: nat): (rest: seq<nat>)
    requires sizes != []
    ensures rest != []
  {
    if n < |sizes| then sizes[n..] else sizes[|sizes| - 1..]
  }

  // As many turns as given are done, and the sizes in place are the first of the filling.
  ghost predicate InPlace(sizes: seq<nat>, fill: seq<nat>, s: Raster, n: nat)
    requires sizes != []
  {
    s.listIdx == n && Filling(fill, s.list, n, s.remTiles, RestOf(sizes, n))
  }

  // What is still to do: the sizes given, and the tiles.
  function ToDo(s: Raster): nat {
    (if s.listIdx < |s.list| then |s.list| - s.listIdx else 0) + s.remTiles
  }

  lemma NextInPlace(sizes: seq<nat>, fill: seq<nat>, s: Raster, n: nat, next: nat)
    requires sizes != [] && s.list != [] && InPlace(sizes, fill, s, n) && s.remTiles > 0 && next == n + 1
    ensures InPlace(sizes, fill, Turn(s), next)
  {
    RestGoesOn(sizes, n, next);
    if n < |s.list| {
      FillGiven(fill, s.list, n, s.remTiles, RestOf(sizes, n));
    } else {
      FillRepeated(fill, s.list, s.remTiles, RestOf(sizes, n));
    }
  }

  lemma LessToDo(sizes: seq<nat>, fill: seq<nat>, s: Raster, n: nat)
    requires sizes != [] && s.list != [] && InPlace(sizes, fill, s, n) && s.remTiles > 0
    ensures ToDo(Turn(s)) < ToDo(s)
  {
    if n >= |s.list| {
      FillRepeated(fill, s.list, s.remTiles, RestOf(sizes, n));
    }
  }

  lemma RestGoesOn(sizes: seq<nat>, n: nat, next: nat)
    requires sizes != [] && next == n + 1
    ensures var rest := RestOf(sizes, n); RestOf(sizes, next) == if |rest| > 1 then rest[1..] else rest
  {
  }

  // The loop after n turns, if it has not ended before.
  ghost predicate Running(sizes: seq<nat>, fill: seq<nat>, limit: nat, s: Raster, n: nat)
    requires sizes != []
  {
    InPlace(sizes, fill, s, s.listIdx) && (s.remTiles > 0 ==> s.listIdx == n && ToDo(s) + n <= limit)
  }

  lemma StartRuns(sizes: seq<nat>, numTiles: nat, fill: seq<nat>, limit: nat)
    requires sizes != [] && Fillable(sizes, numTiles) && fill == Fill(sizes, numTiles) && limit == |sizes| + numTiles
    ensures Running(sizes, fill, limit, Raster(sizes, 0, numTiles), 0)
  {
    assert sizes[0..] == sizes && sizes[..0] == [];
  }

  lemma NextRunning(sizes: seq<nat>, fill: seq<nat>, limit: nat, s: Raster, n: nat, next: nat)
    requires sizes != [] && s.list != [] && next == n + 1 && Running(sizes, fill, limit, s, n) && s.remTiles > 0
    ensures Running(sizes, fill, limit, Turn(s), next)
  {
    NextInPlace(sizes, fill, s, n, next);
    LessToDo(sizes, fill, s, n);
  }

  lemma StillRunning(sizes: seq<nat>, fill: seq<nat>, limit: nat, s: Raster, n: nat, next: nat)
    requires sizes != [] && Running(sizes, fill, limit, s, n) && s.remTiles == 0
    ensures Running(sizes, fill, limit, s, next)
  {
  }

  lemma {:induction false} TurnsAreInPlace(sizes: seq<nat>, numTiles: nat, fill: seq<nat>, limit: nat, n: nat)
    requires sizes != [] && Fillable(sizes, numTiles) && fill == Fill(sizes, numTiles) && limit == |sizes| + numTiles
    ensures Running(sizes, fill, limit, Turns(sizes, numTiles, n), n)
    decreases n
  {
    if n == 0 {
      StartRuns(sizes, numTiles, fill, limit);
    } else {
      TurnsAreInPlace(sizes, numTiles, fill, limit, n - 1);
      var before := Turns(sizes, numTiles, n - 1);
      if before.remTiles > 0 {
        NextRunning(sizes, fill, limit, before, n - 1, n);
      } else {
        StillRunning(sizes, fill, limit, before, n - 1, n);
      }
    }
  }

  // The loop has ended; the sizes in the list are those that fill the picture.
  predicate Filled(sizes: seq<nat>, numTiles: nat, s: Raster)
    requires sizes != []
  {
    s.remTiles == 0 && s.listIdx <= |s.list| && s.list[..s.listIdx] == Fill(sizes, numTiles) && Sum(s.list[..s.listIdx]) == numTiles
  }

  lemma EndedIsFilled(sizes: seq<nat>, numTiles: nat, n: nat)
    requires sizes != [] && Fillable(sizes, numTiles) && Turns(sizes, numTiles, n).remTiles == 0
    ensures Filled(sizes, numTiles, Turns(sizes, numTiles, n))
  {
    var s, fill := Turns(sizes, numTiles, n), Fill(sizes, numTiles);
    TurnsAreInPlace(sizes, numTiles, fill, |sizes| + numTiles, n);
    assert s.list[..s.listIdx] + [] == s.list[..s.listIdx];
    FillFills(sizes, numTiles);
  }

  // Tiles are left, the last size is zero, and what is given is too little.
  ghost predicate Stuck(s: Raster) {
    && s.remTiles > 0 && s.list != [] && s.list[|s.list| - 1] == 0
    && (s.listIdx < |s.list| ==> Sum(s.list[s.listIdx..]) < s.remTiles)
  }

  lemma StuckStays(s: Raster)
    requires Stuck(s)
    ensures Stuck(Turn(s))
  {
    if s.listIdx < |s.list| {
      var now := s.list[s.listIdx..];
      assert now == [now[0]] + now[1..];
      SumOfCons(now[0], now[1..]);
      assert s.list[s.listIdx := s.list[s.listIdx]] == s.list;
      assert s.list[s.listIdx + 1..] == now[1..];
    }
  }

  lemma {:induction false} StaysStuck(sizes: seq<nat>, numTiles: nat, n: nat)
    requires sizes != [] && !Fillable(sizes, numTiles)
    ensures Stuck(Turns(sizes, numTiles, n))
  {
    if n == 0 {
      assert sizes[0..] == sizes;
    } else {
      StaysStuck(sizes, numTiles, n - 1);
      StuckStays(Turns(sizes, numTiles, n - 1));
    }
  }

  lemma EndedIsFillable(sizes: seq<nat>, numTiles: nat, n: nat)
    requires sizes != [] && Turns(sizes, numTiles, n).remTiles == 0
    ensures Fillable(sizes, numTiles) && Filled(sizes, numTiles, Turns(sizes, numTiles, n))
  {
    if Fillable(sizes, numTiles) {
      EndedIsFilled(sizes, numTiles, n);
    } else {
      StaysStuck(sizes, numTiles, n);
    }
  }

  lemma EndsInTime(sizes: seq<nat>, numTiles: nat, n: nat)
    requires sizes != [] && Fillable(sizes, numTiles) && n >= |sizes| + numTiles
    ensures Turns(sizes, numTiles, n).remTiles == 0
  {
    TurnsAreInPlace(sizes, numTiles, Fill(sizes, numTiles), |sizes| + numTiles, n);
  }

  // The loop ends, after as many turns as there are sizes and tiles at the latest, if and only if the last size is
  // not zero or the sizes given are enough; then its sizes fill the picture.
  lemma RasterEndsIff(sizes: seq<nat>, numTiles: nat)
    requires sizes != []
    ensures (exists n: nat :: Turns(sizes, numTiles, n).remTiles == 0) <==> sizes[|sizes| - 1] > 0 || Sum(sizes) >= numTiles
    ensures forall n: nat :: Turns(sizes, numTiles, n).remTiles == 0 ==> Filled(sizes, numTiles, Turns(sizes, numTiles, n))
  {
    forall n: nat | Turns(sizes, numTiles, n).remTiles == 0
      ensures Fillable(sizes, numTiles) && Filled(sizes, numTiles, Turns(sizes, numTiles, n))
    {
      EndedIsFillable(sizes, numTiles, n);
    }
    if Fillable(sizes, numTiles) {
      EndsInTime(sizes, numTiles, |sizes| + numTiles);
    }
  }

  // One size of zero, for one tile: the loop goes on for ever.
  lemma ZeroSizeNeverEnds(n: nat)
    ensures Turns([0], 1, n).remTiles > 0
  {
    StaysStuck([0], 1, n);
  }

  // The encoder's loop over the slice sizes, as far as a given number of turns.
  method RasterSlices(given: seq<nat>, numTiles: nat, turns: nat) returns (ended: bool, list: seq<nat>)
    ensures var sizes := if given == [] then [numTiles] else given; var s := Turns(sizes, numTiles, turns);
      && (ended <==> s.remTiles == 0)
      && (ended ==> Filled(sizes, numTiles, s) && list == s.list[..s.listIdx])
    ensures var sizes := if given == [] then [numTiles] else given;
      Fillable(sizes, numTiles) && turns >= |sizes| + numTiles ==> ended
  {
    var sizes := if given == [] then [numTiles] else given;
    list := sizes;
    var listIdx, remTiles, n := 0, numTiles, 0;
    while remTiles > 0 && n < turns
      invariant n <= turns && list != [] && Raster(list, listIdx, remTiles) == Turns(sizes, numTiles, n)
      decreases turns - n
    {
      if listIdx < |list| {
        list := list[listIdx := Min(remTiles, list[listIdx])];
        remTiles := remTiles - list[listIdx];
      } else {
        list := list + [Min(remTiles, list[|list| - 1])];
        remTiles := remTiles - list[|list| - 1];
      }
      listIdx, n := listIdx + 1, n + 1;
    }
    EndedStays(sizes, numTiles, n, turns);
    ended := remTiles == 0;
    if ended {
      EndedIsFillable(sizes, numTiles, turns);
      list := list[..listIdx];
    } else if Fillable(sizes, numTiles) && turns >= |sizes| + numTiles {
      EndsInTime(sizes, numTiles, turns);
    }
  }

  lemma {:induction false} EndedStays(sizes: seq<nat>, numTiles: nat, n: nat, turns: nat)
    requires sizes != [] && n <= turns && (n < turns ==> Turns(sizes, numTiles, n).remTiles == 0)
    ensures Turns(sizes, numTiles, turns) == Turns(sizes, numTiles, n)
    decreases turns
  {
    if n < turns {
      EndedStays(sizes, numTiles, n, turns - 1);
    }
  }

  /* ----- Tiles ----- */

  // The boundaries between tiles of the given sizes: the sums of the sizes before.
  function Edges(sizes: seq<nat>): (bd: seq<nat>)
    ensures |bd| == |sizes| + 1 && forall i :: 0 <= i <= |sizes| ==> bd[i] == Sum(sizes[..i])
  {
    if sizes == [] then [0] else
      var n := |sizes| - 1;
      var before := Edges(sizes[..n]);
      assert forall i :: 0 <= i <= n ==> sizes[..n][..i] == sizes[..i];
      assert sizes[..n + 1] == sizes;
      before + [before[n] + sizes[n]]
  }

  lemma {:induction false} EdgesAreBoundaries(sizes: seq<nat>)
    requires sizes != [] && forall k :: 0 <= k < |sizes| ==> sizes[k] > 0
    ensures Boundaries(Edges(sizes)) && Edges(sizes)[|sizes|] == Sum(sizes)
    decreases |sizes|
  {
    var n := |sizes| - 1;
    assert sizes[..|sizes|] == sizes;
    if n == 0 {
      assert sizes[..0] == [] && Edges([]) == [0];
    } else {
      EdgesAreBoundaries(sizes[..n]);
      AppendedBoundary(Edges(sizes[..n]), sizes[n]);
    }
  }

  lemma AppendedBoundary(bd: seq<nat>, s: nat)
    requires Boundaries(bd) && s > 0
    ensures Boundaries(bd + [bd[|bd| - 1] + s])
  {
  }

  // The tiles of a canonical list: their sizes fill the picture as the list says, the boundaries are
  // their running sums, and the table gives the tile of every position.
  method InitTiles(explicit: seq<nat>, pic: nat) returns (sizes: seq<nat>, bd: seq<nat>, tileOf: seq<nat>)
    requires Canonical(explicit, pic)
    ensures Expansion(explicit, pic) == Sizes(sizes) && bd == Edges(sizes) && Boundaries(bd) && bd[|sizes|] == pic
    ensures |tileOf| == pic + 1 && tileOf[pic] == |sizes| && forall x :: 0 <= x < pic ==> tileOf[x] == TileOf(bd, x)
  {
    sizes := UniformTiles(explicit, pic);
    bd := RunningSums(sizes);
    EdgesAreBoundaries(sizes);
    tileOf := Positions(bd, pic);
  }

  method RunningSums(sizes: seq<nat>) returns (bd: seq<nat>)
    ensures bd == Edges(sizes)
  {
    bd := [0];
    for colIdx := 0 to |sizes|
      invariant bd == Edges(sizes[..colIdx])
    {
      assert sizes[..colIdx + 1][..colIdx] == sizes[..colIdx];
      bd := bd + [bd[colIdx] + sizes[colIdx]];
    }
    assert sizes[..|sizes|] == sizes;
  }

  // The last explicit size is repeated as far as the picture goes.
  method UniformTiles(explicit: seq<nat>, pic: nat) returns (sizes: seq<nat>)
    requires Canonical(explicit, pic)
    ensures Expansion(explicit, pic) == Sizes(sizes) && sizes != []
    ensures Sum(sizes) == pic && forall k :: 0 <= k < |sizes| ==> sizes[k] > 0
  {
    var remaining, uniform := pic - Sum(explicit), explicit[|explicit| - 1];
    sizes := explicit;
    ghost var last := [uniform];
    ExpansionOfMore(explicit, pic);
    while remaining > 0
      invariant remaining >= 0 && |last| == 1 && last[0] == explicit[|explicit| - 1] && (remaining > 0 ==> uniform == last[0])
      invariant Expansion(last, remaining).Sizes?
      invariant Expansion(explicit, pic) == Sizes(sizes + Expansion(last, remaining).list) && sizes != []
    {
      uniform := Min(remaining, uniform);
      assert sizes + ([uniform] + Expansion(last, remaining - uniform).list) == sizes + [uniform] + Expansion(last, remaining - uniform).list;
      sizes := sizes + [uniform];
      remaining := remaining - uniform;
    }
    assert sizes + [] == sizes;
    ExpansionFills(explicit, pic);
  }

  lemma ExpansionOfOneMore(explicit: seq<nat>, pic: nat, rest: seq<nat>, tail: seq<nat>)
    requires |explicit| > 1 && rest == explicit[1..] && 0 < explicit[0] <= pic
    requires Expansion(rest, pic - explicit[0]) == Sizes(rest + tail)
    ensures Expansion(explicit, pic) == Sizes(explicit + tail)
  {
    assert explicit + tail == [explicit[0]] + (rest + tail);
  }

  lemma CanonicalMore(explicit: seq<nat>, pic: nat, rest: seq<nat>)
    requires Canonical(explicit, pic) && |explicit| > 1 && rest == explicit[1..]
    ensures 0 < explicit[0] <= pic && Canonical(rest, pic - explicit[0])
    ensures rest[|rest| - 1] == explicit[|explicit| - 1] && Sum(explicit) == explicit[0] + Sum(rest)
  {
    assert explicit == [explicit[0]] + rest;
    SumOfCons(explicit[0], rest);
  }

  lemma {:induction false} ExpansionOfMore(explicit: seq<nat>, pic: nat)
    requires Canonical(explicit, pic)
    ensures var last := [explicit[|explicit| - 1]]; var tail := Expansion(last, pic - Sum(explicit));
      tail.Sizes? && Expansion(explicit, pic) == Sizes(explicit + tail.list)
    decreases |explicit|
  {
    var last := [explicit[|explicit| - 1]];
    NoZeroNoError(last, pic - Sum(explicit));
    if |explicit| > 1 {
      var rest := explicit[1..];
      CanonicalMore(explicit, pic, rest);
      ExpansionOfMore(rest, pic - explicit[0]);
      ExpansionOfOneMore(explicit, pic, rest, Expansion(last, pic - Sum(explicit)).list);
    } else {
      assert explicit == last && explicit[..0] == [];
    }
  }

  method Positions(bd: seq<nat>, pic: nat) returns (tileOf: seq<nat>)
    requires Boundaries(bd) && bd[|bd| - 1] == pic
    ensures |tileOf| == pic + 1 && tileOf[pic] == |bd| - 1 && forall x :: 0 <= x < pic ==> tileOf[x] == TileOf(bd, x)
  {
    var colIdx := 0;
    tileOf := [];
    for x := 0 to pic + 1
      invariant |tileOf| == x && colIdx < |bd| && bd[colIdx] <= x
      invariant if x <= pic then colIdx + 1 < |bd| && x <= bd[colIdx + 1] else colIdx == |bd| - 1 && tileOf[pic] == colIdx
      invariant forall y :: 0 <= y < x && y < pic ==> tileOf[y] == TileOf(bd, y)
    {
      if x == bd[colIdx + 1] {
        colIdx := colIdx + 1;
      }
      if x < pic {
        assert colIdx + 1 < |bd| by { BeforeTheEnd(bd, colIdx, x); }
        assert x < bd[colIdx + 1];
        TileOfIs(bd, x, colIdx);
      } else {
        AtTheEnd(bd, colIdx);
      }
      tileOf := tileOf + [colIdx];
    }
  }

  lemma BeforeTheEnd(bd: seq<nat>, c: nat, x: nat)
    requires Boundaries(bd) && c < |bd| && bd[c] <= x < bd[|bd| - 1]
    ensures c + 1 < |bd|
  {
  }

  lemma AtTheEnd(bd: seq<nat>, c: nat)
    requires Boundaries(bd) && c < |bd| && bd[c] >= bd[|bd| - 1]
    ensures c == |bd| - 1
  {
  }
}
