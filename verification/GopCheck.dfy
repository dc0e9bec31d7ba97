/**
 The encoder's check of its GOP table: the pictures are walked through in coding order while the
 decoded picture buffer is simulated, until every entry of the table has once found all its
 reference pictures, or one was missing.  Entries whose references lie before the first picture
 get a copy with the references that are available, filled up with other available pictures.
 */
module GopCheck {
  import opened Multiples

  // One entry of a reference picture list table.
  datatype Rpl = Rpl(poc: int, temporalId: int, deltas: seq<int>, numActive: int)

  // The tables, the GOP size, the factor on picture numbers, and whether fields are coded.
  datatype Table = Table(rpl0: seq<Rpl>, rpl1: seq<Rpl>, gop: nat, factor: nat, field: bool)

  ghost predicate Sound(t: Table) {
    t.gop >= 1 && t.factor >= 1 && |t.rpl0| >= t.gop && |t.rpl1| >= t.gop
  }

  // The reference pictures held: the first num entries; the others are left over from before.
  // Entries never written read as zero.
  datatype Dpb = Dpb(refs: seq<int>, num: nat)

  function RefAt(refs: seq<int>, i: nat): int {
    if i < |refs| then refs[i] else 0
  }

  predicate Holds(d: Dpb, poc: int) {
    exists i :: 0 <= i < d.num && RefAt(d.refs, i) == poc
  }

  // Whether a picture number is among the first n entries, written or not.
  predicate Among(refs: seq<int>, n: nat, poc: int) {
    exists i :: 0 <= i < n && RefAt(refs, i) == poc
  }

  /* ----- Steps in coding order, numbered from one ----- */

  function Entry(t: Table, step: nat): nat
    requires t.gop >= 1 && step >= 1
  {
    (step - 1) % t.gop
  }

  function PocIn(rpl: seq<Rpl>, t: Table, step: nat): int
    requires t.gop >= 1 && step >= 1 && |rpl| >= t.gop
  {
    (step - 1) / t.gop * t.gop * t.factor + rpl[(step - 1) % t.gop].poc
  }

  function PocAt(t: Table, step: nat): int
    requires Sound(t) && step >= 1
  {
    PocIn(t.rpl0, t, step)
  }

  /* ----- One step, as functions ----- */

  function Available(deltas: seq<int>, poc: int): (kept: seq<int>)
    ensures forall d :: d in kept <==> d in deltas && poc - d >= 0
    ensures |kept| <= |deltas|
  {
    if deltas == [] then [] else
      var before, d := Available(deltas[..|deltas| - 1], poc), deltas[|deltas| - 1];
      assert deltas == deltas[..|deltas| - 1] + [d];
      if poc - d >= 0 then before + [d] else before
  }

  // Where a delta goes: before the first larger one if it points backwards, at the end otherwise.
  function InsertPoint(deltas: seq<int>, d: int): (p: nat)
    ensures p <= |deltas|
    ensures d > 0 && p < |deltas| ==> deltas[p] > d
    ensures d > 0 ==> forall i :: 0 <= i < p ==> deltas[i] <= d
    ensures d <= 0 ==> p == |deltas|
  {
    if d <= 0 then |deltas| else
    if deltas == [] then 0 else
      var p := InsertPoint(deltas[..|deltas| - 1], d);
      if p < |deltas| - 1 then p else if deltas[|deltas| - 1] > d then |deltas| - 1 else |deltas|
  }

  function Insert(deltas: seq<int>, d: int): seq<int> {
    var p := InsertPoint(deltas, d);
    deltas[..p] + [d] + deltas[p..]
  }

  predicate Ascending(s: seq<int>) {
    forall i, j :: 0 <= i < j < |s| ==> s[i] <= s[j]
  }

  lemma InsertKeeps(deltas: seq<int>, d: int)
    ensures multiset(Insert(deltas, d)) == multiset(deltas) + multiset{d}
    ensures forall e :: e in Insert(deltas, d) <==> e == d || e in deltas
  {
    var p := InsertPoint(deltas, d);
    assert deltas == deltas[..p] + deltas[p..];
    forall e
      ensures e in Insert(deltas, d) <==> e == d || e in deltas
    {
      assert e in Insert(deltas, d) <==> e in multiset(Insert(deltas, d));
      assert e in deltas <==> e in multiset(deltas);
    }
  }

  lemma InsertKeepsOrder(deltas: seq<int>, d: int)
    requires d > 0 && Ascending(deltas)
    ensures Ascending(Insert(deltas, d))
  {
    var p := InsertPoint(deltas, d);
    forall i | p <= i < |deltas|
      ensures d <= deltas[i]
    {
      assert p < i ==> deltas[p] <= deltas[i];
    }
  }

  // What the search for extra pictures works with: the picture numbers and temporal levels of the
  // earlier steps by a list, those of this step, the buffer, the number of pictures in the other
  // list, and the number wished for.
  datatype Search = Search(pocs: nat -> int, levels: nat -> int, poc: int, level: int, refs: seq<int>, other: nat, wished: int)

  function Pocs(rpl: seq<Rpl>, t: Table): nat -> int {
    (step: nat) => if t.gop >= 1 && step >= 1 && |rpl| >= t.gop then PocIn(rpl, t, step) else 0
  }

  function Levels(rpl: seq<Rpl>, t: Table): nat -> int {
    (step: nat) => if t.gop >= 1 && step >= 1 && |rpl| >= t.gop then rpl[Entry(t, step)].temporalId else 0
  }

  function SearchOf(rpl: seq<Rpl>, t: Table, step: nat, refs: seq<int>, other: nat): Search
    requires Sound(t) && step >= 1 && |rpl| >= t.gop
  {
    var k := Entry(t, step);
    Search(Pocs(rpl, t), Levels(rpl, t), PocAt(t, step), rpl[k].temporalId, refs, other, rpl[k].numActive)
  }

  // The picture of an earlier step is added if it is wanted.
  function TryAdd(s: Search, earlier: nat, deltas: seq<int>): seq<int> {
    var poc := s.pocs(earlier);
    var d := s.poc - poc;
    if poc >= 0 && s.levels(earlier) <= s.level && Among(s.refs, |deltas| + s.other, poc) && d !in deltas
    then Insert(deltas, d) else deltas
  }

  // The search steps backwards from an earlier step until there are as many pictures as wished.
  function Extras(s: Search, earlier: nat, deltas: seq<int>): seq<int>
    decreases earlier
  {
    if earlier == 0 then deltas else
      var more := TryAdd(s, earlier, deltas);
      if |more| >= s.wished then more else Extras(s, earlier - 1, more)
  }

  function Both(a: seq<int>, b: seq<int>): (seq<int>, seq<int>) {
    (a, b)
  }

  // The search for the first list of the copy made at a step.
  function FirstSearch(t: Table, step: nat, d: Dpb): Search
    requires Sound(t) && step >= 1
  {
    SearchOf(t.rpl0, t, step, d.refs, |Available(t.rpl1[Entry(t, step)].deltas, PocAt(t, step))|)
  }

  // The search for the second list, once the first is there.
  function SecondSearch(t: Table, step: nat, d: Dpb, all0: seq<int>): Search
    requires Sound(t) && step >= 1
  {
    SearchOf(t.rpl1, t, step, d.refs, |all0|)
  }

  // The lists of the copy made at a step.
  function Replaced(t: Table, step: nat, d: Dpb): (seq<int>, seq<int>)
    requires Sound(t) && step >= 1
  {
    var k, poc := Entry(t, step), PocAt(t, step);
    var all0 := Extras(FirstSearch(t, step, d), step - 1, Available(t.rpl0[k].deltas, poc));
    Both(all0, Extras(SecondSearch(t, step, d, all0), step - 1, Available(t.rpl1[k].deltas, poc)))
  }

  predicate BeforeFirst(t: Table, step: nat)
    requires Sound(t) && step >= 1
  {
    exists i :: 0 <= i < |t.rpl0[Entry(t, step)].deltas| && PocAt(t, step) - t.rpl0[Entry(t, step)].deltas[i] < 0
  }

  predicate Missing(t: Table, step: nat, d: Dpb)
    requires Sound(t) && step >= 1
  {
    exists i :: 0 <= i < |t.rpl0[Entry(t, step)].deltas| &&
      var poc := PocAt(t, step) - t.rpl0[Entry(t, step)].deltas[i]; poc >= 0 && !Holds(d, poc)
  }

  predicate NegativePoc(t: Table, step: nat)
    requires Sound(t) && step >= 1
  {
    t.rpl0[Entry(t, step)].poc < 0 || t.rpl1[Entry(t, step)].poc < 0
  }

  // Every reference picture of the entry is there.
  predicate Complete(t: Table, step: nat, d: Dpb)
    requires Sound(t) && step >= 1
  {
    !BeforeFirst(t, step) && !Missing(t, step, d)
  }

  // The lists a step uses.
  function Used(t: Table, step: nat, d: Dpb): (seq<int>, seq<int>)
    requires Sound(t) && step >= 1
  {
    var k := Entry(t, step);
    if Complete(t, step, d) then Both(t.rpl0[k].deltas, t.rpl1[k].deltas) else Replaced(t, step, d)
  }

  function Write(d: Dpb, poc: int): Dpb
    requires d.num <= |d.refs|
  {
    Dpb(if d.num < |d.refs| then d.refs[d.num := poc] else d.refs + [poc], d.num + 1)
  }

  // The buffer with the pictures of a list behind those already written, each written at most once if
  // once is set.
  function WriteList(d: Dpb, deltas: seq<int>, poc: int, once: bool): (r: Dpb)
    requires d.num <= |d.refs|
    ensures r.num <= |r.refs|
  {
    if deltas == [] then d else
      var before, p := WriteList(d, deltas[..|deltas| - 1], poc, once), poc - deltas[|deltas| - 1];
      if p < 0 || (once && Holds(before, p)) then before else Write(before, p)
  }

  // The buffer after a picture: those of its lists that are not before the first picture, and itself.
  function Refill(d: Dpb, used0: seq<int>, used1: seq<int>, poc: int): (r: Dpb)
    requires d.num <= |d.refs|
    ensures r.num <= |r.refs|
  {
    Write(WriteList(WriteList(Dpb(d.refs, 0), used0, poc, false), used1, poc, true), poc)
  }

  function Next(t: Table, step: nat, d: Dpb): (r: Dpb)
    requires Sound(t) && step >= 1 && d.num <= |d.refs|
    ensures r.num <= |r.refs|
  {
    Refill(d, Used(t, step, d).0, Used(t, step, d).1, PocAt(t, step))
  }

  function Start(t: Table): Dpb {
    if t.field then Dpb([0, 1], 2) else Dpb([0], 1)
  }

  /* ----- The loops ----- */

  lemma TakeMore(s: seq<int>, i: nat)
    requires i < |s|
    ensures s[..i + 1] == s[..i] + [s[i]] && s[..i + 1][..i] == s[..i]
  {
  }

  method FindPicture(d: Dpb, n: nat, poc: int) returns (found: bool)
    ensures found <==> Among(d.refs, n, poc)
  {
    found := false;
    for j := 0 to n
      invariant found <==> exists i :: 0 <= i < j && RefAt(d.refs, i) == poc
    {
      if RefAt(d.refs, j) == poc {
        found := true;
      }
    }
  }

  // Whether a reference picture lies before the first picture, and whether one is missing.
  method CheckReferences(t: Table, step: nat, d: Dpb) returns (beforeI: bool, missing: bool)
    requires Sound(t) && step >= 1
    ensures beforeI <==> BeforeFirst(t, step)
    ensures missing <==> Missing(t, step, d)
  {
    var deltas, curPoc := t.rpl0[Entry(t, step)].deltas, PocAt(t, step);
    beforeI, missing := false, false;
    for i := 0 to |deltas|
      invariant beforeI <==> exists j :: 0 <= j < i && curPoc - deltas[j] < 0
      invariant missing <==> exists j :: 0 <= j < i && curPoc - deltas[j] >= 0 && !Holds(d, curPoc - deltas[j])
    {
      var absPoc := curPoc - deltas[i];
      if absPoc < 0 {
        beforeI := true;
      } else {
        var found := FindPicture(d, d.num, absPoc);
        assert found <==> Holds(d, absPoc);
        if !found {
          missing := true;
        }
      }
    }
  }

  method KeepAvailable(deltas: seq<int>, poc: int) returns (kept: seq<int>)
    ensures kept == Available(deltas, poc)
  {
    kept := [];
    for i := 0 to |deltas|
      invariant kept == Available(deltas[..i], poc)
    {
      TakeMore(deltas, i);
      if poc - deltas[i] >= 0 {
        kept := kept + [deltas[i]];
      }
    }
    assert deltas[..|deltas|] == deltas;
  }

  lemma {:induction false} InsertPointOfMore(deltas: seq<int>, d: int, j: nat)
    requires d > 0 && j < |deltas| && InsertPoint(deltas[..j], d) == j && deltas[j] > d
    ensures InsertPoint(deltas, d) == j
    decreases |deltas|
  {
    if j < |deltas| - 1 {
      assert deltas[..|deltas| - 1][..j] == deltas[..j];
      InsertPointOfMore(deltas[..|deltas| - 1], d, j);
    }
  }

  method FindInsertPoint(deltas: seq<int>, d: int) returns (insertPoint: nat)
    ensures insertPoint == InsertPoint(deltas, d)
  {
    var j := 0;
    while j < |deltas|
      invariant j <= |deltas|
      invariant d > 0 ==> InsertPoint(deltas[..j], d) == j
    {
      if deltas[j] > d && d > 0 {
        InsertPointOfMore(deltas, d, j);
        return j;
      }
      TakeMore(deltas, j);
      j := j + 1;
    }
    assert deltas[..|deltas|] == deltas;
    insertPoint := |deltas|;
  }

  // The new picture is put in its place, the later ones move up by one.
  method InsertDelta(deltas: seq<int>, d: int) returns (r: seq<int>)
    ensures r == Insert(deltas, d)
  {
    var insertPoint := FindInsertPoint(deltas, d);
    r := MoveUp(deltas, d, insertPoint);
  }

  method MoveUp(deltas: seq<int>, d: int, insertPoint: nat) returns (r: seq<int>)
    requires insertPoint <= |deltas|
    ensures r == deltas[..insertPoint] + [d] + deltas[insertPoint..]
  {
    r := deltas;
    var prev, k := d, insertPoint;
    while k < |deltas|
      invariant insertPoint <= k <= |deltas| && |r| == |deltas| && r[k..] == deltas[k..]
      invariant r[..k] + [prev] == deltas[..insertPoint] + [d] + deltas[insertPoint..k]
    {
      var newPrev := r[k];
      ghost var was := r[..k];
      r := r[k := prev];
      assert r[..k + 1] == was + [prev];
      assert deltas[insertPoint..k + 1] == deltas[insertPoint..k] + [deltas[k]];
      prev := newPrev;
      k := k + 1;
    }
    assert r[..k] == r && deltas[insertPoint..k] == deltas[insertPoint..];
    r := r + [prev];
  }

  method TryPicture(s: Search, earlier: nat, deltas: seq<int>) returns (r: seq<int>)
    ensures r == TryAdd(s, earlier, deltas)
  {
    r := deltas;
    var offPoc := s.pocs(earlier);
    if offPoc >= 0 && s.levels(earlier) <= s.level {
      var newRef := FindPicture(Dpb(s.refs, 0), |deltas| + s.other, offPoc);
      for i := 0 to |deltas|
        invariant newRef <==> Among(s.refs, |deltas| + s.other, offPoc) && s.poc - offPoc !in deltas[..i]
      {
        if deltas[i] == s.poc - offPoc {
          newRef := false;
        }
      }
      assert deltas[..|deltas|] == deltas;
      if newRef {
        r := InsertDelta(deltas, s.poc - offPoc);
      }
    }
  }

  // Backwards in coding order from an earlier step.
  method AddPictures(s: Search, latest: nat, kept: seq<int>) returns (deltas: seq<int>)
    ensures deltas == Extras(s, latest, kept)
  {
    deltas := kept;
    var earlier := latest;
    while earlier > 0
      invariant Extras(s, latest, kept) == Extras(s, earlier, deltas)
    {
      deltas := TryPicture(s, earlier, deltas);
      if |deltas| >= s.wished {
        return;
      }
      earlier := earlier - 1;
    }
  }

  method WriteAvailable(d: Dpb, deltas: seq<int>, poc: int, once: bool) returns (r: Dpb)
    requires d.num <= |d.refs|
    ensures r == WriteList(d, deltas, poc, once)
  {
    r := d;
    for i := 0 to |deltas|
      invariant r == WriteList(d, deltas[..i], poc, once)
    {
      TakeMore(deltas, i);
      var absPoc := poc - deltas[i];
      if absPoc >= 0 {
        var alreadyExist := false;
        if once {
          alreadyExist := FindPicture(r, r.num, absPoc);
          assert alreadyExist <==> Holds(r, absPoc);
        }
        if !alreadyExist {
          r := Write(r, absPoc);
        }
      }
    }
    assert deltas[..|deltas|] == deltas;
  }

  // The lists of a copy of the entry.
  method ReplaceLists(t: Table, step: nat, d: Dpb) returns (used0: seq<int>, used1: seq<int>)
    requires Sound(t) && step >= 1
    ensures (used0, used1) == Replaced(t, step, d)
  {
    var curGop, curPoc := Entry(t, step), PocAt(t, step);
    var kept0 := KeepAvailable(t.rpl0[curGop].deltas, curPoc);
    var kept1 := KeepAvailable(t.rpl1[curGop].deltas, curPoc);
    used0 := AddPictures(FirstSearch(t, step, d), step - 1, kept0);
    used1 := AddPictures(SecondSearch(t, step, d, used0), step - 1, kept1);
  }

  // One step that is no error yet: the lists used, and the copies when the entry is not complete.
  method WalkStep(t: Table, step: nat, d: Dpb) returns (complete: bool, missing: bool, used0: seq<int>, used1: seq<int>)
    requires Sound(t) && step >= 1
    ensures complete <==> Complete(t, step, d)
    ensures missing <==> Missing(t, step, d)
    ensures (used0, used1) == Used(t, step, d)
  {
    var beforeI;
    beforeI, missing := CheckReferences(t, step, d);
    complete := !beforeI && !missing;
    if complete {
      var curGop := Entry(t, step);
      used0, used1 := t.rpl0[curGop].deltas, t.rpl1[curGop].deltas;
    } else {
      used0, used1 := ReplaceLists(t, step, d);
    }
  }

  method Rebuild(t: Table, step: nat, d: Dpb, used0: seq<int>, used1: seq<int>) returns (r: Dpb)
    requires Sound(t) && step >= 1 && d.num <= |d.refs| && (used0, used1) == Used(t, step, d)
    ensures r == Next(t, step, d)
  {
    var curPoc := PocAt(t, step);
    r := WriteAvailable(Dpb(d.refs, 0), used0, curPoc, false);
    r := WriteAvailable(r, used1, curPoc, true);
    r := Write(r, curPoc);
  }
}
