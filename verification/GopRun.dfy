/**
 The run of the GOP check: it always ends, it says of each entry whether it has found all its
 reference pictures, and every picture it ever holds was coded before.
 */
module GopRun {
  import opened Multiples
  import opened GopCheck

  function Least(a: int, b: int): int {
    if a < b then a else b
  }

  function Copy(r: Rpl, deltas: seq<int>): Rpl {
    r.(deltas := deltas, numActive := Least(|deltas|, r.numActive))
  }

  // What the check carries from step to step; ok says that no step has failed.
  datatype Walk = Walk(d: Dpb, isOk: seq<bool>, numOk: nat, extra0: seq<Rpl>, extra1: seq<Rpl>, ok: bool)

  predicate WellFormed(t: Table, w: Walk) {
    |w.isOk| == t.gop && w.d.num <= |w.d.refs|
  }

  // The step is an error: its entry is not there, or a reference picture is missing.
  predicate Fails(t: Table, step: nat, w: Walk)
    requires Sound(t) && step >= 1
  {
    NegativePoc(t, step) || Missing(t, step, w.d)
  }

  function NextWalk(t: Table, step: nat, w: Walk): (r: Walk)
    requires Sound(t) && step >= 1 && WellFormed(t, w)
    ensures WellFormed(t, r)
  {
    if !w.ok || Fails(t, step, w) then w.(ok := false) else
      var k, d := Entry(t, step), Next(t, step, w.d);
      if Complete(t, step, w.d) then w.(d := d, isOk := w.isOk[k := true], numOk := if w.isOk[k] then w.numOk else w.numOk + 1) else
        var (all0, all1) := Replaced(t, step, w.d);
        w.(d := d, extra0 := w.extra0 + [Copy(t.rpl0[k], all0)], extra1 := w.extra1 + [Copy(t.rpl1[k], all1)])
  }

  function Count(isOk: seq<bool>): nat {
    if isOk == [] then 0 else Count(isOk[..|isOk| - 1]) + if isOk[|isOk| - 1] then 1 else 0
  }

  lemma {:induction false} CountIsFull(isOk: seq<bool>)
    ensures Count(isOk) <= |isOk|
    ensures Count(isOk) == |isOk| <==> forall k :: 0 <= k < |isOk| ==> isOk[k]
  {
    if isOk != [] {
      CountIsFull(isOk[..|isOk| - 1]);
    }
  }

  lemma {:induction false} CountOfMore(isOk: seq<bool>, k: nat)
    requires k < |isOk| && !isOk[k]
    ensures Count(isOk[k := true]) == Count(isOk) + 1
  {
    var n := |isOk| - 1;
    if k == n {
      assert isOk[k := true][..n] == isOk[..n];
    } else {
      assert isOk[k := true][..n] == isOk[..n][k := true];
      CountOfMore(isOk[..n], k);
    }
  }

  function AllFalse(n: nat): (s: seq<bool>)
    ensures |s| == n && forall k :: 0 <= k < n ==> !s[k]
    ensures Count(s) == 0
  {
    if n == 0 then [] else
      var s := AllFalse(n - 1) + [false];
      assert s[..n - 1] == AllFalse(n - 1);
      s
  }

  function StartWalk(t: Table): Walk {
    Walk(Start(t), AllFalse(t.gop), 0, [], [], true)
  }

  // The state of the check before a step.
  function WalkAt(t: Table, step: nat): (w: Walk)
    requires Sound(t) && step >= 1
    ensures WellFormed(t, w)
  {
    if step == 1 then StartWalk(t) else NextWalk(t, step - 1, WalkAt(t, step - 1))
  }

  lemma NextIsOk(t: Table, s: nat, w: Walk)
    requires Sound(t) && s >= 1 && WellFormed(t, w) && NextWalk(t, s, w).ok
    ensures w.ok && !Fails(t, s, w)
  {
  }

  // A step before which the run had not failed, and which does not fail.
  predicate OkAt(t: Table, s: nat)
    requires Sound(t) && s >= 1
  {
    WalkAt(t, s).ok && !Fails(t, s, WalkAt(t, s))
  }

  lemma OkOneBefore(t: Table, s: nat, next: nat)
    requires Sound(t) && s >= 1 && next == s + 1 && WalkAt(t, next).ok
    ensures OkAt(t, s)
  {
    NextIsOk(t, s, WalkAt(t, s));
  }

  lemma {:induction false} OkBefore(t: Table, step: nat, s: nat)
    requires Sound(t) && 1 <= s < step && WalkAt(t, step).ok
    ensures OkAt(t, s)
    decreases step
  {
    if s + 1 == step {
      OkOneBefore(t, s, step);
    } else {
      OkOneBefore(t, step - 1, step);
      OkBefore(t, step - 1, s);
    }
  }

  /* ----- Termination ----- */

  function Largest(deltas: seq<int>): (n: nat)
    ensures forall d :: d in deltas ==> d <= n
  {
    if deltas == [] then 0 else
      var before, d := Largest(deltas[..|deltas| - 1]), deltas[|deltas| - 1];
      assert deltas == deltas[..|deltas| - 1] + [d];
      if d > before then d else before
  }

  // The largest distance back to a reference picture among the first k entries.
  function LargestDelta(rpl: seq<Rpl>, k: nat): (n: nat)
    requires k <= |rpl|
    ensures forall i, d :: 0 <= i < k && d in rpl[i].deltas ==> d <= n
  {
    if k == 0 then 0 else
      var before, n := LargestDelta(rpl, k - 1), Largest(rpl[k - 1].deltas);
      if n > before then n else before
  }

  function Reach(t: Table): nat
    requires Sound(t)
  {
    LargestDelta(t.rpl0, t.gop)
  }

  // The number of steps after which the check has decided.
  function StepBound(t: Table): nat
    requires Sound(t)
  {
    t.gop * (Reach(t) + 2)
  }

  lemma ProductAtLeast(a: nat, b: nat, c: nat)
    requires b >= 1 && c >= 1
    ensures a * b * c >= a
  {
    assert a * b >= a;
    assert (a * b) * c >= a * b;
  }

  // Once the picture number has passed the longest distance, no reference lies before the first picture.
  lemma LateStepsAreInside(t: Table, step: nat)
    requires Sound(t) && step >= 1 && !NegativePoc(t, step) && step - 1 >= t.gop * (Reach(t) + 1)
    ensures !BeforeFirst(t, step)
  {
    QuotientAtLeast(step - 1, t.gop, Reach(t) + 1);
    ProductAtLeast((step - 1) / t.gop, t.gop, t.factor);
    var k := Entry(t, step);
    forall i | 0 <= i < |t.rpl0[k].deltas|
      ensures PocAt(t, step) - t.rpl0[k].deltas[i] >= 0
    {
      assert t.rpl0[k].deltas[i] in t.rpl0[k].deltas;
    }
  }

  // Entry k finds all its reference pictures at step s.
  predicate CompleteAt(t: Table, s: nat, k: nat)
    requires Sound(t) && s >= 1
  {
    Entry(t, s) == k && Complete(t, s, WalkAt(t, s).d)
  }

  // Entry k has found all its reference pictures at a step before the given one.
  predicate Found(t: Table, k: nat, step: nat)
    requires Sound(t)
  {
    exists s :: 1 <= s < step && CompleteAt(t, s, k)
  }

  lemma EntryOf(t: Table, k: nat, q: nat)
    requires Sound(t) && k < t.gop
    ensures Entry(t, t.gop * q + k + 1) == k
  {
    QuotientIs(q, t.gop, k);
  }

  lemma LateStepCompletes(t: Table, step: nat, s: nat, k: nat)
    requires Sound(t) && 1 <= s < step && WalkAt(t, step).ok && Entry(t, s) == k && s - 1 >= t.gop * (Reach(t) + 1)
    ensures CompleteAt(t, s, k)
  {
    OkBefore(t, step, s);
    LateStepsAreInside(t, s);
  }

  lemma LateStepOf(t: Table, step: nat, k: nat) returns (s: nat)
    requires Sound(t) && step > StepBound(t) && k < t.gop
    ensures 1 <= s < step && Entry(t, s) == k && s - 1 >= t.gop * (Reach(t) + 1)
  {
    var n := Reach(t) + 1;
    s := t.gop * n + k + 1;
    EntryOf(t, k, n);
    assert t.gop * (n + 1) == t.gop * n + t.gop;
  }

  lemma FoundInTime(t: Table, step: nat, k: nat)
    requires Sound(t) && step >= 1 && WalkAt(t, step).ok && step > StepBound(t) && k < t.gop
    ensures Found(t, k, step)
  {
    var s := LateStepOf(t, step, k);
    LateStepCompletes(t, step, s, k);
  }

  lemma FoundNext(t: Table, k: nat, s: nat)
    requires Sound(t) && s >= 1
    ensures Found(t, k, s + 1) <==> Found(t, k, s) || CompleteAt(t, s, k)
  {
  }

  // The marks say which entries have been found complete, and their number is kept.
  lemma {:induction false} MarksMean(t: Table, step: nat)
    requires Sound(t) && step >= 1 && WalkAt(t, step).ok
    ensures forall k :: 0 <= k < t.gop ==> (WalkAt(t, step).isOk[k] <==> Found(t, k, step))
    ensures WalkAt(t, step).numOk == Count(WalkAt(t, step).isOk)
    decreases step
  {
    if step > 1 {
      var s, w := step - 1, WalkAt(t, step - 1);
      MarksMean(t, s);
      MarksNext(t, s, w);
      forall k | 0 <= k < t.gop
        ensures WalkAt(t, step).isOk[k] <==> Found(t, k, step)
      {
        FoundNext(t, k, s);
      }
    }
  }

  lemma MarksNext(t: Table, s: nat, w: Walk)
    requires Sound(t) && s >= 1 && WellFormed(t, w) && NextWalk(t, s, w).ok && w.numOk == Count(w.isOk)
    ensures NextWalk(t, s, w).numOk == Count(NextWalk(t, s, w).isOk)
    ensures forall k :: 0 <= k < t.gop ==> (NextWalk(t, s, w).isOk[k] <==> w.isOk[k] || (Entry(t, s) == k && Complete(t, s, w.d)))
  {
    var k := Entry(t, s);
    if w.isOk[k] {
      assert w.isOk[k := true] == w.isOk;
    } else {
      CountOfMore(w.isOk, k);
    }
  }

  // Every entry has found all its reference pictures before a step.
  ghost predicate AllFound(t: Table, step: nat)
    requires Sound(t)
  {
    forall k :: 0 <= k < t.gop ==> Found(t, k, step)
  }

  lemma CountMeans(t: Table, step: nat)
    requires Sound(t) && step >= 1 && WalkAt(t, step).ok
    ensures WalkAt(t, step).numOk == t.gop <==> AllFound(t, step)
  {
    MarksMean(t, step);
    CountIsFull(WalkAt(t, step).isOk);
  }

  // A number of steps after which every entry has been found complete, if none has failed.
  ghost predicate Bounds(t: Table, bound: nat)
    requires Sound(t)
  {
    bound >= 1 && forall step: nat :: step > bound && WalkAt(t, step).ok ==> AllFound(t, step)
  }

  lemma StepBoundBounds(t: Table)
    requires Sound(t)
    ensures Bounds(t, StepBound(t))
  {
    assert t.gop * (Reach(t) + 2) >= 1;
    forall step: nat, k | step > StepBound(t) && WalkAt(t, step).ok && 0 <= k < t.gop
      ensures Found(t, k, step)
    {
      FoundInTime(t, step, k);
    }
  }

  /* ----- The check ----- */

  // One step.
  method Step(t: Table, step: nat, w: Walk) returns (r: Walk)
    requires Sound(t) && step >= 1 && WellFormed(t, w) && w.ok
    ensures r == NextWalk(t, step, w)
  {
    var curGop := Entry(t, step);
    if t.rpl0[curGop].poc < 0 || t.rpl1[curGop].poc < 0 {
      return w.(ok := false);
    }
    var complete, missing, used0, used1 := WalkStep(t, step, w.d);
    var d := Rebuild(t, step, w.d, used0, used1);
    if missing {
      r := w.(ok := false);
    } else if complete {
      r := w.(d := d);
      if !w.isOk[curGop] {
        r := r.(numOk := w.numOk + 1, isOk := w.isOk[curGop := true]);
      } else {
        assert w.isOk[curGop := true] == w.isOk;
      }
    } else {
      r := w.(d := d, extra0 := w.extra0 + [Copy(t.rpl0[curGop], used0)], extra1 := w.extra1 + [Copy(t.rpl1[curGop], used1)]);
    }
  }

  // Marks the steps whose states are looked at.
  ghost predicate Visit(step: nat) {
    true
  }

  // A run of the check: its states, when every entry has been found complete, and a number of steps
  // after which it is over.
  datatype Run = Run(ghost walk: nat -> Walk, ghost found: nat -> bool, ghost bound: nat)

  ghost predicate IsRun(t: Table, run: Run)
    requires Sound(t)
  {
    run.bound >= 1 && run.walk(1) == StartWalk(t) &&
    forall step: nat {:trigger Visit(step)} :: Visit(step) && step >= 1 ==>
      && WellFormed(t, run.walk(step))
      && run.walk(step + 1) == NextWalk(t, step, run.walk(step))
      && (run.walk(step).ok ==> (run.found(step) <==> run.walk(step).numOk == t.gop))
      && (step > run.bound && run.walk(step).ok ==> run.found(step))
  }

  ghost function RunOf(t: Table): Run
    requires Sound(t)
  {
    Run((step: nat) => if step >= 1 then WalkAt(t, step) else StartWalk(t), (step: nat) => AllFound(t, step), StepBound(t))
  }

  lemma RunOfIsRun(t: Table)
    requires Sound(t)
    ensures IsRun(t, RunOf(t))
  {
    StepBoundBounds(t);
    forall step: nat | Visit(step) && step >= 1 && WalkAt(t, step).ok
      ensures WalkAt(t, step).numOk == t.gop <==> AllFound(t, step)
    {
      CountMeans(t, step);
    }
  }

  // One step, and what it decides.
  method Advance(t: Table, step: nat, w: Walk, ghost run: Run) returns (verified: bool, error: bool, r: Walk)
    requires Sound(t) && IsRun(t, run) && step >= 1 && w == run.walk(step) && w.ok
    ensures r == run.walk(step + 1) && (error <==> !r.ok) && (error ==> Fails(t, step, w))
    ensures verified <==> r.ok && run.found(step + 1)
    ensures !verified && !error ==> step < run.bound
  {
    assert Visit(step) && Visit(step + 1);
    r := Step(t, step, w);
    error := !r.ok;
    verified := r.ok && r.numOk == t.gop;
  }

  method CheckWithin(t: Table, ghost run: Run) returns (verified: bool, error: bool, steps: nat, checkGop: nat, w: Walk)
    requires Sound(t) && IsRun(t, run)
    ensures verified != error && 1 <= steps <= run.bound && checkGop == steps + 1
    ensures w == run.walk(checkGop) && (error <==> !w.ok)
    ensures verified ==> run.found(checkGop)
    ensures error ==> run.walk(steps).ok && Fails(t, steps, run.walk(steps))
  {
    verified, error, steps, checkGop, w := false, false, 0, 1, StartWalk(t);
    while !verified && !error
      invariant steps <= run.bound && checkGop == steps + 1 && w == run.walk(checkGop)
      invariant error <==> !w.ok
      invariant verified ==> w.ok && run.found(checkGop)
      invariant verified || error ==> steps >= 1
      invariant error ==> run.walk(steps).ok && Fails(t, steps, run.walk(steps))
      invariant !verified && !error ==> steps < run.bound
      decreases run.bound - steps
    {
      verified, error, w := Advance(t, checkGop, w, run);
      steps, checkGop := checkGop, checkGop + 1;
    }
  }

  // The check ends, whatever the table: every entry has been found complete and no step has failed,
  // or the last step has failed and none before.
  method CheckGop(t: Table) returns (verified: bool, error: bool, steps: nat, checkGop: nat, w: Walk)
    requires Sound(t)
    ensures verified != error && 1 <= steps <= StepBound(t) && checkGop == steps + 1
    ensures w == WalkAt(t, checkGop) && (error <==> !w.ok)
    ensures verified ==> AllFound(t, checkGop)
    ensures error ==> WalkAt(t, steps).ok && Fails(t, steps, WalkAt(t, steps))
  {
    RunOfIsRun(t);
    verified, error, steps, checkGop, w := CheckWithin(t, RunOf(t));
  }
}
