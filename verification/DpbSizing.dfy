/**
 The encoder's last step on the sizes of the decoded picture buffer: for each temporal layer a number of
 reordered pictures and a buffer size, raised until higher layers have no less than lower ones and every
 buffer holds one picture more than are reordered.  No smaller sizes would do.
 */
module DpbSizing {

  const MAX_TLAYER: nat := 7

  ghost predicate Ascending(s: seq<int>) {
    forall i, j :: 0 <= i <= j < |s| ==> s[i] <= s[j]
  }

  // Sizes that are allowed.
  ghost predicate Proper(reorder: seq<int>, buffering: seq<int>) {
    && |reorder| == |buffering| && Ascending(reorder) && Ascending(buffering)
    && forall i :: 0 <= i < |reorder| ==> reorder[i] <= buffering[i] - 1
  }

  ghost predicate AtLeast(s: seq<int>, t: seq<int>) {
    |s| == |t| && forall i :: 0 <= i < |s| ==> s[i] >= t[i]
  }

  function Max(a: int, b: int): int {
    if a > b then a else b
  }

  // The largest of the first n + 1 numbers.
  function Largest(s: seq<int>, n: nat): int
    requires n < |s|
  {
    if n == 0 then s[0] else Max(Largest(s, n - 1), s[n])
  }

  // The largest buffer that the first n + 1 layers ask for.
  function Room(reorder: seq<int>, buffering: seq<int>, n: nat): int
    requires n < |reorder| == |buffering|
  {
    var own := Max(buffering[n], Largest(reorder, n) + 1);
    if n == 0 then own else Max(Room(reorder, buffering, n - 1), own)
  }

  // One layer: the next layer takes over the number of reordered pictures, this layer's buffer makes
  // room for them, and the next layer takes over the buffer.
  method RaiseLayer(reorder: array<int>, buffering: array<int>, i: nat)
    requires i + 1 < reorder.Length == buffering.Length && reorder != buffering
    modifies reorder, buffering
    ensures forall k :: 0 <= k < reorder.Length && k != i + 1 ==> reorder[k] == old(reorder[k])
    ensures forall k :: 0 <= k < reorder.Length && k != i && k != i + 1 ==> buffering[k] == old(buffering[k])
    ensures reorder[i + 1] == Max(old(reorder[i]), old(reorder[i + 1]))
    ensures buffering[i] == Max(old(buffering[i]), old(reorder[i]) + 1)
    ensures buffering[i + 1] == Max(buffering[i], old(buffering[i + 1]))
  {
    if reorder[i + 1] < reorder[i] {
      reorder[i + 1] := reorder[i];
    }
    if reorder[i] > buffering[i] - 1 {
      buffering[i] := reorder[i] + 1;
    }
    if buffering[i + 1] < buffering[i] {
      buffering[i + 1] := buffering[i];
    }
  }

  // Marks the layers that the loop looks at.
  ghost predicate Layer(i: int) {
    true
  }

  // Numbers of reordered pictures and buffer sizes, layer by layer.
  ghost predicate Raised(r: seq<int>, b: seq<int>, low: int -> int, room: int -> int)
    requires |r| == |b| > 0
  {
    low(0) == r[0] && room(0) == Max(b[0], low(0) + 1) &&
    forall i {:trigger Layer(i)} :: Layer(i) && 0 < i < |r| ==>
      low(i) == Max(low(i - 1), r[i]) && room(i) == Max(room(i - 1), Max(b[i], low(i) + 1))
  }

  // The layers below i are done, and layer i has taken over from below.
  ghost predicate Raising(reorder: array<int>, buffering: array<int>, i: nat, r: seq<int>, b: seq<int>, low: int -> int, room: int -> int)
    requires i < reorder.Length == buffering.Length == |r| == |b|
    reads reorder, buffering
  {
    && (forall k :: 0 <= k < |r| ==> reorder[k] == if k <= i then low(k) else r[k])
    && (forall k :: 0 <= k < |r| && k != i ==> buffering[k] == if k < i then room(k) else b[k])
    && buffering[i] == if i == 0 then b[0] else Max(room(i - 1), b[i])
  }

  method RaiseNext(reorder: array<int>, buffering: array<int>, i: nat, ghost r: seq<int>, ghost b: seq<int>, ghost low: int -> int, ghost room: int -> int)
    requires i + 1 < reorder.Length == buffering.Length == |r| == |b| && reorder != buffering && Raised(r, b, low, room)
    requires Raising(reorder, buffering, i, r, b, low, room)
    modifies reorder, buffering
    ensures Raising(reorder, buffering, i + 1, r, b, low, room)
  {
    assert Layer(i) && Layer(i + 1);
    RaiseLayer(reorder, buffering, i);
  }

  method RaiseAll(reorder: array<int>, buffering: array<int>, ghost r: seq<int>, ghost b: seq<int>, ghost low: int -> int, ghost room: int -> int)
    requires reorder.Length == buffering.Length == |r| == |b| > 0 && reorder != buffering && Raised(r, b, low, room)
    requires forall k :: 0 <= k < |r| ==> reorder[k] == r[k] && buffering[k] == b[k]
    modifies reorder, buffering
    ensures forall i :: 0 <= i < |r| ==> reorder[i] == low(i) && buffering[i] == room(i)
  {
    var last := reorder.Length - 1;
    for i := 0 to last
      invariant Raising(reorder, buffering, i, r, b, low, room)
    {
      RaiseNext(reorder, buffering, i, r, b, low, room);
    }
    assert Layer(last);
    if reorder[last] > buffering[last] - 1 {
      buffering[last] := reorder[last] + 1;
    }
  }

  // Every layer ends with the largest numbers asked for up to it.
  method Normalise(reorder: array<int>, buffering: array<int>)
    requires reorder.Length == buffering.Length == MAX_TLAYER && reorder != buffering
    modifies reorder, buffering
    ensures forall i :: 0 <= i < MAX_TLAYER ==> reorder[i] == Largest(old(reorder[..]), i)
    ensures forall i :: 0 <= i < MAX_TLAYER ==> buffering[i] == Room(old(reorder[..]), old(buffering[..]), i)
  {
    ghost var r, b := reorder[..], buffering[..];
    ghost var low := (i: int) => if 0 <= i < |r| then Largest(r, i) else 0;
    ghost var room := (i: int) => if 0 <= i < |r| == |b| then Room(r, b, i) else 0;
    RaiseAll(reorder, buffering, r, b, low, room);
  }

  /* ----- Least ----- */

  lemma {:induction false} LargestAscends(s: seq<int>, i: nat, j: nat)
    requires i <= j < |s|
    ensures s[i] <= Largest(s, i) <= Largest(s, j)
    decreases j
  {
    if i < j {
      LargestAscends(s, i, j - 1);
    }
  }

  lemma {:induction false} RoomAscends(reorder: seq<int>, buffering: seq<int>, i: nat, j: nat)
    requires i <= j < |reorder| == |buffering|
    ensures buffering[i] <= Room(reorder, buffering, i) <= Room(reorder, buffering, j)
    ensures Largest(reorder, i) + 1 <= Room(reorder, buffering, i)
    decreases j
  {
    if i < j {
      RoomAscends(reorder, buffering, i, j - 1);
    }
  }

  // The raised sizes are proper and no less than those given.
  lemma RaisedIsProper(reorder: seq<int>, buffering: seq<int>, r: seq<int>, b: seq<int>)
    requires |reorder| == |buffering| == |r| == |b|
    requires forall i :: 0 <= i < |r| ==> r[i] == Largest(reorder, i) && b[i] == Room(reorder, buffering, i)
    ensures Proper(r, b) && AtLeast(r, reorder) && AtLeast(b, buffering)
  {
    forall i, j | 0 <= i <= j < |r|
      ensures reorder[i] <= r[i] <= r[j] && buffering[i] <= b[i] <= b[j] && r[i] <= b[i] - 1
    {
      LargestAscends(reorder, i, j);
      RoomAscends(reorder, buffering, i, j);
    }
  }

  lemma {:induction false} LargestIsLeast(reorder: seq<int>, r: seq<int>, i: nat)
    requires AtLeast(r, reorder) && Ascending(r) && i < |r|
    ensures Largest(reorder, i) <= r[i]
    decreases i
  {
    if i > 0 {
      LargestIsLeast(reorder, r, i - 1);
      assert r[i - 1] <= r[i];
    }
  }

  // And no proper sizes at least as large as those given are anywhere smaller.
  lemma {:induction false} RaisedIsLeast(reorder: seq<int>, buffering: seq<int>, r: seq<int>, b: seq<int>, i: nat)
    requires |reorder| == |buffering| && Proper(r, b) && AtLeast(r, reorder) && AtLeast(b, buffering) && i < |r|
    ensures Largest(reorder, i) <= r[i] && Room(reorder, buffering, i) <= b[i]
    decreases i
  {
    LargestIsLeast(reorder, r, i);
    if i > 0 {
      RaisedIsLeast(reorder, buffering, r, b, i - 1);
      assert b[i - 1] <= b[i];
    }
  }
}
