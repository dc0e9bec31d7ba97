/**
 Virtual boundaries: a coding tree unit crossed by boundaries is cut into sub-blocks, each
 filtered from a buffer in which the sides that must not be looked across are replicated.
 Every sample of the unit comes out as if the picture ended at the boundaries around it.
 */
module AlfBoundaries {
  import opened AlfPicture
  import opened AlfLaplacian
  import opened AlfClassifier
  import opened AlfTaps
  import opened AlfPipeline
  import opened AlfLocality
  import opened AlfBlock
  import opened AlfDerive
  import opened Multiples

  const MAX_ALF_PADDING_SIZE: int := 8

  /* ----- One axis ----- */

  // Rows or columns of one coding tree unit: the virtual boundaries of the picture, the picture's
  // size, the unit's first and one-past-last row or column, and whether a slice, tile or
  // subpicture edge that must not be filtered across lies on its low or high side.
  datatype Axis = Axis(boundaries: seq<int>, size: int, start: int, end: int, sliceLow: bool, sliceHigh: bool)

  predicate Ascending(s: seq<int>) {
    forall i, j :: 0 <= i < j < |s| ==> s[i] < s[j]
  }

  predicate Aligned(ax: Axis) {
    && 0 <= ax.start < ax.end <= ax.size
    && ax.start % 8 == 0 && ax.end % 8 == 0
    && Ascending(ax.boundaries)
    && (forall i :: 0 <= i < |ax.boundaries| ==> ax.boundaries[i] % 8 == 0)
    && (ax.sliceLow ==> ax.start > 0) && (ax.sliceHigh ==> ax.end < ax.size)
  }

  // The last boundary at or before y, or the picture's first row.
  function CellLow(boundaries: seq<int>, y: int): int {
    if boundaries == [] then 0 else
      var low, v := CellLow(boundaries[..|boundaries| - 1], y), boundaries[|boundaries| - 1];
      if v <= y && v > low then v else low
  }

  // The first boundary after y, or one past the picture's last row.
  function CellHigh(boundaries: seq<int>, size: int, y: int): int {
    if boundaries == [] then size else
      var high, v := CellHigh(boundaries[..|boundaries| - 1], size, y), boundaries[|boundaries| - 1];
      if v > y && v < high then v else high
  }

  // The rows that row y may be filtered from.
  ghost predicate IsCell(boundaries: seq<int>, size: int, y: int, low: int, high: int) {
    && low <= y < high
    && (low == 0 || low in boundaries) && (high == size || high in boundaries)
    && 0 <= low && high <= size
    && forall v :: v in boundaries ==> !(low < v < high)
  }

  lemma {:induction false} CellIsCell(boundaries: seq<int>, size: int, y: int)
    requires 0 <= y < size
    ensures IsCell(boundaries, size, y, CellLow(boundaries, y), CellHigh(boundaries, size, y))
  {
    if boundaries != [] {
      var n := |boundaries| - 1;
      CellIsCell(boundaries[..n], size, y);
      assert boundaries == boundaries[..n] + [boundaries[n]];
    }
  }

  // The region a row of the unit is filtered from: its cell, cut at the unit's sides where a
  // slice, tile or subpicture edge closes them.
  function RegionLow(ax: Axis, y: int): int {
    var low := CellLow(ax.boundaries, y);
    if ax.sliceLow && ax.start > low then ax.start else low
  }

  function RegionHigh(ax: Axis, y: int): int {
    var high := CellHigh(ax.boundaries, ax.size, y);
    if ax.sliceHigh && ax.end < high then ax.end else high
  }

  lemma RegionInCell(ax: Axis, y: int)
    requires Aligned(ax) && ax.start <= y < ax.end
    ensures CellLow(ax.boundaries, y) <= RegionLow(ax, y) <= y < RegionHigh(ax, y) <= CellHigh(ax.boundaries, ax.size, y)
    ensures !ax.sliceLow ==> RegionLow(ax, y) == CellLow(ax.boundaries, y)
    ensures !ax.sliceHigh ==> RegionHigh(ax, y) == CellHigh(ax.boundaries, ax.size, y)
  {
    CellIsCell(ax.boundaries, ax.size, y);
  }

  // The boundaries strictly inside the unit, and whether one lies on its sides.
  method CollectBoundaries(boundaries: seq<int>, start: int, end: int) returns (clipLow: bool, clipHigh: bool, inner: seq<int>)
    requires start < end
    ensures clipLow <==> start in boundaries
    ensures clipHigh <==> end in boundaries
    ensures forall v :: v in inner <==> v in boundaries && start < v < end
    ensures Ascending(boundaries) ==> Ascending(inner)
  {
    clipLow, clipHigh, inner := false, false, [];
    for i := 0 to |boundaries|
      invariant clipLow <==> start in boundaries[..i]
      invariant clipHigh <==> end in boundaries[..i]
      invariant forall v :: v in inner <==> v in boundaries[..i] && start < v < end
      invariant Ascending(boundaries) ==> Ascending(inner)
    {
      if boundaries[i] == start {
        clipLow := true;
      } else if boundaries[i] == end {
        clipHigh := true;
      } else if start < boundaries[i] && boundaries[i] < end {
        assert forall k :: 0 <= k < |inner| ==> inner[k] in inner;
        inner := inner + [boundaries[i]];
      }
    }
  }

  /* ----- Sub-blocks ----- */

  // Rows s .. e-1 of the unit, cut at every boundary; the two sides say whether they are replicated.
  ghost predicate IsSubRange(ax: Axis, s: int, e: int, clipLow: bool, clipHigh: bool) {
    && ax.start <= s < e <= ax.end && s % 8 == 0 && e % 8 == 0
    && (forall v :: v in ax.boundaries ==> !(s < v < e))
    && (s == ax.start || s in ax.boundaries) && (e == ax.end || e in ax.boundaries)
    && (clipLow <==> s in ax.boundaries || s == 0 || (s == ax.start && ax.sliceLow))
    && (clipHigh <==> e in ax.boundaries || e == ax.size || (e == ax.end && ax.sliceHigh))
  }

  // Where the buffer of a sub-block begins and ends in the picture.
  function BufferLow(s: int, clipLow: bool): int {
    s - if clipLow then 0 else MAX_ALF_PADDING_SIZE
  }

  function BufferHigh(e: int, clipHigh: bool): int {
    e + if clipHigh then 0 else MAX_ALF_PADDING_SIZE
  }

  // The buffer keeps within the picture, and up to eight samples around the sub-block a row of the
  // buffer is the same row of the region.
  lemma BufferIsRegion(ax: Axis, s: int, e: int, clipLow: bool, clipHigh: bool, r: int)
    requires Aligned(ax) && ax.size % 8 == 0 && IsSubRange(ax, s, e, clipLow, clipHigh) && s <= r < e
    ensures 0 <= BufferLow(s, clipLow) && BufferHigh(e, clipHigh) <= ax.size
    ensures clipLow ==> RegionLow(ax, r) == s
    ensures !clipLow ==> RegionLow(ax, r) <= s - 8
    ensures clipHigh ==> RegionHigh(ax, r) == e
    ensures !clipHigh ==> RegionHigh(ax, r) >= e + 8
  {
    var low, high := CellLow(ax.boundaries, r), CellHigh(ax.boundaries, ax.size, r);
    CellIsCell(ax.boundaries, ax.size, r);
    assert low % 8 == 0 && high % 8 == 0;
    assert low <= s && e <= high;
    assert s in ax.boundaries ==> low == s;
    assert e in ax.boundaries ==> high == e;
  }

  lemma ClampsAgree(ax: Axis, s: int, e: int, clipLow: bool, clipHigh: bool, r: int, y: int)
    requires Aligned(ax) && ax.size % 8 == 0 && IsSubRange(ax, s, e, clipLow, clipHigh) && s <= r < e
    requires s - 6 <= y < e + 6
    ensures Clamp(BufferLow(s, clipLow), BufferHigh(e, clipHigh) - 1, y) == Clamp(RegionLow(ax, r), RegionHigh(ax, r) - 1, y)
  {
    BufferIsRegion(ax, s, e, clipLow, clipHigh, r);
  }

  // The picture as if rows top .. bottom-1 and columns left .. right-1 were all there is.
  function ClampedTo(p: Plane, top: int, bottom: int, left: int, right: int): Plane {
    (y, x) => p(Clamp(top, bottom - 1, y), Clamp(left, right - 1, x))
  }

  /* ----- One unit ----- */

  // What a unit is filtered with.
  datatype Unit = Unit(setup: Setup, a: Adaptive, picture: Plane, set_: nat, filterSetIndex: nat, rows: Axis, cols: Axis)

  // The result of the filter that the unit's filter set index selects.
  function Selected(u: Unit, p: Plane, y: int, x: int): int {
    if u.filterSetIndex < NUM_FIXED_FILTER_SETS then FixedResult(u.setup, p, u.set_, u.filterSetIndex, y, x)
    else AdaptiveResult(u.setup, u.a, p, u.set_, y, x)
  }

  // The picture as sample (y, x) of the unit may see it.
  function Visible(u: Unit, y: int, x: int): Plane {
    ClampedTo(u.picture, RegionLow(u.rows, y), RegionHigh(u.rows, y), RegionLow(u.cols, x), RegionHigh(u.cols, x))
  }

  function Filtered(u: Unit): Plane {
    (y: int, x: int) => Selected(u, Visible(u, y, x), y, x)
  }

  lemma FilteredAt(u: Unit, y: int, x: int)
    ensures Filtered(u)(y, x) == Selected(u, Visible(u, y, x), y, x)
  {
  }

  lemma SelectedFromSame(u: Unit, p: Plane, y: int, x: int, q: Plane, y2: int, x2: int)
    requires SeesTheSame(p, y, x, q, y2, x2)
    ensures Selected(u, p, y, x) == Selected(u, q, y2, x2)
  {
    if u.filterSetIndex < NUM_FIXED_FILTER_SETS {
      var window := u.filterSetIndex;
      SameFixedResult(u.setup, p, y, x, q, y2, x2, u.set_, window);
    } else {
      SameAdaptiveResult(u.setup, u.a, p, y, x, q, y2, x2, u.set_);
    }
  }

  ghost predicate SoundUnit(u: Unit) {
    && Aligned(u.rows) && Aligned(u.cols) && u.rows.size % 8 == 0 && u.cols.size % 8 == 0
    && u.a.classifier < 2 && NonNegativePlane(u.picture)
  }

  // Rows s .. e-1 and columns xs .. xe-1 of the unit, with the sides that are replicated.
  datatype SubBlock = SubBlock(s: int, e: int, clipT: bool, clipB: bool, xs: int, xe: int, clipL: bool, clipR: bool)

  ghost predicate IsSubBlock(u: Unit, k: SubBlock) {
    IsSubRange(u.rows, k.s, k.e, k.clipT, k.clipB) && IsSubRange(u.cols, k.xs, k.xe, k.clipL, k.clipR)
  }

  ghost predicate InUnit(u: Unit, k: SubBlock) {
    && u.rows.start <= k.s < k.e <= u.rows.end && u.cols.start <= k.xs < k.xe <= u.cols.end
    && k.s % 8 == 0 && k.e % 8 == 0 && k.xs % 8 == 0 && k.xe % 8 == 0
  }

  // The picture as the sub-block's buffer shows it, in picture coordinates.
  function BufferView(u: Unit, k: SubBlock): Plane {
    ClampedTo(u.picture, BufferLow(k.s, k.clipT), BufferHigh(k.e, k.clipB), BufferLow(k.xs, k.clipL), BufferHigh(k.xe, k.clipR))
  }

  // The buffer itself: copied, replicated beyond its border, and addressed from the sub-block's first sample.
  function Buffer(u: Unit, k: SubBlock): Plane {
    Centred(BufferView(u, k), k.s, k.xs)
  }

  lemma ClampedAt(p: Plane, top: int, bottom: int, left: int, right: int, y: int, x: int, v: int, w: int)
    requires v == Clamp(top, bottom - 1, y) && w == Clamp(left, right - 1, x)
    ensures ClampedTo(p, top, bottom, left, right)(y, x) == p(v, w)
  {
  }

  lemma BufferAgreesAt(u: Unit, k: SubBlock, y: int, x: int, i: int, j: int)
    requires SoundUnit(u) && IsSubBlock(u, k) && k.s <= y < k.e && k.xs <= x < k.xe
    requires k.s - 6 <= i < k.e + 6 && k.xs - 6 <= j < k.xe + 6
    ensures BufferView(u, k)(i, j) == Visible(u, y, x)(i, j)
  {
    ClampsAgree(u.rows, k.s, k.e, k.clipT, k.clipB, y, i);
    ClampsAgree(u.cols, k.xs, k.xe, k.clipL, k.clipR, x, j);
    var v, w := Clamp(BufferLow(k.s, k.clipT), BufferHigh(k.e, k.clipB) - 1, i), Clamp(BufferLow(k.xs, k.clipL), BufferHigh(k.xe, k.clipR) - 1, j);
    ClampedAt(u.picture, BufferLow(k.s, k.clipT), BufferHigh(k.e, k.clipB), BufferLow(k.xs, k.clipL), BufferHigh(k.xe, k.clipR), i, j, v, w);
    ClampedAt(u.picture, RegionLow(u.rows, y), RegionHigh(u.rows, y), RegionLow(u.cols, x), RegionHigh(u.cols, x), i, j, v, w);
  }

  lemma NoHalves(m: int, n: int)
    requires 2 * m < 2 * n
    ensures m + 1 <= n && 2 * m + 2 <= 2 * n
  {
  }

  // Nothing lies between an even number and the next.
  lemma PairInside(s: int, e: int, y: int, i: int, j: int, k: int)
    requires s == 8 * i && e == 8 * j && 2 * k <= y <= 2 * k + 1 && s <= y < e
    ensures s <= 2 * k && 2 * k + 2 <= e
  {
    NoHalves(4 * i, k + 1);
    NoHalves(k, 4 * j);
  }

  lemma BlockInside(s: int, e: int, y: int)
    requires s % 8 == 0 && e % 8 == 0 && s <= y < e
    ensures s <= BlockOf(y) && BlockOf(y) + 2 <= e
  {
    EightTimes(s, s / 8);
    EightTimes(e, e / 8);
    HalfOf(y, y / 2);
    PairInside(s, e, y, s / 8, e / 8, y / 2);
  }

  lemma BufferAgrees(u: Unit, k: SubBlock, y: int, x: int, v: int, w: int)
    requires SoundUnit(u) && IsSubBlock(u, k) && k.s <= y < k.e && k.xs <= x < k.xe
    requires v == BlockOf(y) && w == BlockOf(x)
    ensures AgreeOn(BufferView(u, k), Visible(u, y, x), v - 6, v + 8, w - 6, w + 8)
  {
    BlockInside(k.s, k.e, y);
    BlockInside(k.xs, k.xe, x);
    forall i, j | v - 6 <= i < v + 8 && w - 6 <= j < w + 8
      ensures BufferView(u, k)(i, j) == Visible(u, y, x)(i, j)
    {
      BufferAgreesAt(u, k, y, x, i, j);
    }
  }

  lemma BufferViewSuffices(u: Unit, k: SubBlock, y: int, x: int)
    requires SoundUnit(u) && IsSubBlock(u, k) && k.s <= y < k.e && k.xs <= x < k.xe
    ensures Selected(u, BufferView(u, k), y, x) == Filtered(u)(y, x)
  {
    var seen, visible := BufferView(u, k), Visible(u, y, x);
    BufferAgrees(u, k, y, x, BlockOf(y), BlockOf(x));
    ResultIsLocal(seen, visible, y, x, BlockOf(y), BlockOf(x));
    SelectedFromSame(u, seen, y, x, visible, y, x);
    FilteredAt(u, y, x);
  }

  lemma SelectedMoves(u: Unit, p: Plane, q: Plane, a: int, b: int, i: int, j: int, y: int, x: int)
    requires q == Centred(p, a, b) && a % 2 == 0 && b % 2 == 0 && y == i + a && x == j + b
    ensures Selected(u, q, i, j) == Selected(u, p, y, x)
  {
    CentredIsMoved(p, a, b);
    ResultMoves(p, q, a, b, i, j, y, x);
    SelectedFromSame(u, q, i, j, p, y, x);
  }

  lemma CentredIsMoved(p: Plane, a: int, b: int)
    ensures IsMoved(p, Centred(p, a, b), a, b)
  {
  }

  lemma EightIsEven(a: int)
    requires a % 8 == 0
    ensures a % 2 == 0
  {
    var n := a / 8;
    EightTimes(a, n);
    EvenTimes(4 * n, a);
  }

  lemma SubBlockInUnit(u: Unit, k: SubBlock)
    requires IsSubBlock(u, k)
    ensures InUnit(u, k)
  {
  }

  lemma BufferIsMoved(u: Unit, k: SubBlock)
    ensures Buffer(u, k) == Centred(BufferView(u, k), k.s, k.xs)
  {
  }

  // Filtering the buffer gives the result of the visible picture.
  lemma BufferSuffices(u: Unit, k: SubBlock, y: int, x: int, i: int, j: int)
    requires SoundUnit(u) && IsSubBlock(u, k) && k.s <= y < k.e && k.xs <= x < k.xe
    requires i == y - k.s && j == x - k.xs
    ensures Selected(u, Buffer(u, k), i, j) == Filtered(u)(y, x)
  {
    SubBlockInUnit(u, k);
    EightIsEven(k.s);
    EightIsEven(k.xs);
    BufferIsMoved(u, k);
    BufferViewSuffices(u, k, y, x);
    SelectedMoves(u, BufferView(u, k), Buffer(u, k), k.s, k.xs, i, j, y, x);
  }

  /* ----- Sides of the picture ----- */

  // The whole unit as one sub-block.
  function Whole(u: Unit): SubBlock {
    SubBlock(u.rows.start, u.rows.end, u.rows.start == 0, u.rows.end == u.rows.size,
             u.cols.start, u.cols.end, u.cols.start == 0, u.cols.end == u.cols.size)
  }

  lemma PaddedIsClamped(p: Plane, h: int, w: int, y: int, x: int, v: int, z: int)
    requires v == Clamp(0, h - 1, y) && z == Clamp(0, w - 1, x)
    ensures Padded(p, h, w)(y, x) == p(v, z)
  {
  }

  lemma PictureClamp(ax: Axis, r: int, y: int)
    requires Aligned(ax) && ax.size % 8 == 0 && ax.start <= r < ax.end && ax.start - 6 <= y < ax.end + 6
    requires IsSubRange(ax, ax.start, ax.end, ax.start == 0, ax.end == ax.size)
    ensures Clamp(0, ax.size - 1, y) == Clamp(RegionLow(ax, r), RegionHigh(ax, r) - 1, y)
  {
    BufferIsRegion(ax, ax.start, ax.end, ax.start == 0, ax.end == ax.size, r);
    CellIsCell(ax.boundaries, ax.size, r);
  }

  lemma PaddedAgreesAt(u: Unit, y: int, x: int, i: int, j: int)
    requires SoundUnit(u) && IsSubBlock(u, Whole(u))
    requires u.rows.start <= y < u.rows.end && u.cols.start <= x < u.cols.end
    requires u.rows.start - 6 <= i < u.rows.end + 6 && u.cols.start - 6 <= j < u.cols.end + 6
    ensures Padded(u.picture, u.rows.size, u.cols.size)(i, j) == Visible(u, y, x)(i, j)
  {
    PictureClamp(u.rows, y, i);
    PictureClamp(u.cols, x, j);
    var v, w := Clamp(0, u.rows.size - 1, i), Clamp(0, u.cols.size - 1, j);
    PaddedIsClamped(u.picture, u.rows.size, u.cols.size, i, j, v, w);
    ClampedAt(u.picture, RegionLow(u.rows, y), RegionHigh(u.rows, y), RegionLow(u.cols, x), RegionHigh(u.cols, x), i, j, v, w);
  }

  lemma PaddedAgrees(u: Unit, y: int, x: int, v: int, w: int)
    requires SoundUnit(u) && IsSubBlock(u, Whole(u))
    requires u.rows.start <= y < u.rows.end && u.cols.start <= x < u.cols.end
    requires v == BlockOf(y) && w == BlockOf(x)
    ensures AgreeOn(Padded(u.picture, u.rows.size, u.cols.size), Visible(u, y, x), v - 6, v + 8, w - 6, w + 8)
  {
    BlockInside(u.rows.start, u.rows.end, y);
    BlockInside(u.cols.start, u.cols.end, x);
    forall i, j | v - 6 <= i < v + 8 && w - 6 <= j < w + 8
      ensures Padded(u.picture, u.rows.size, u.cols.size)(i, j) == Visible(u, y, x)(i, j)
    {
      PaddedAgreesAt(u, y, x, i, j);
    }
  }

  // A unit without boundaries or closed sides is filtered straight from the padded picture.
  lemma PaddedSuffices(u: Unit, y: int, x: int)
    requires SoundUnit(u) && IsSubBlock(u, Whole(u))
    requires u.rows.start <= y < u.rows.end && u.cols.start <= x < u.cols.end
    ensures Selected(u, Padded(u.picture, u.rows.size, u.cols.size), y, x) == Filtered(u)(y, x)
  {
    var padded, visible := Padded(u.picture, u.rows.size, u.cols.size), Visible(u, y, x);
    PaddedAgrees(u, y, x, BlockOf(y), BlockOf(x));
    ResultIsLocal(padded, visible, y, x, BlockOf(y), BlockOf(x));
    SelectedFromSame(u, padded, y, x, visible, y, x);
    FilteredAt(u, y, x);
  }

  /* ----- Isolation ----- */

  // Pictures that agree in a sample's cell agree on what the sample may see.
  lemma VisibleIsInCell(u: Unit, t: Unit, y: int, x: int)
    requires SoundUnit(u) && t == u.(picture := t.picture)
    requires u.rows.start <= y < u.rows.end && u.cols.start <= x < u.cols.end
    requires AgreeOn(u.picture, t.picture, CellLow(u.rows.boundaries, y), CellHigh(u.rows.boundaries, u.rows.size, y),
                     CellLow(u.cols.boundaries, x), CellHigh(u.cols.boundaries, u.cols.size, x))
    ensures forall i, j :: Visible(u, y, x)(i, j) == Visible(t, y, x)(i, j)
  {
    RegionInCell(u.rows, y);
    RegionInCell(u.cols, x);
    forall i, j
      ensures Visible(u, y, x)(i, j) == Visible(t, y, x)(i, j)
    {
      var v, w := Clamp(RegionLow(u.rows, y), RegionHigh(u.rows, y) - 1, i), Clamp(RegionLow(u.cols, x), RegionHigh(u.cols, x) - 1, j);
      assert u.picture(v, w) == t.picture(v, w);
      ClampedAt(u.picture, RegionLow(u.rows, y), RegionHigh(u.rows, y), RegionLow(u.cols, x), RegionHigh(u.cols, x), i, j, v, w);
      ClampedAt(t.picture, RegionLow(u.rows, y), RegionHigh(u.rows, y), RegionLow(u.cols, x), RegionHigh(u.cols, x), i, j, v, w);
    }
  }

  // No filtered sample depends on a sample across a virtual boundary: pictures that differ only
  // outside the rows and columns between the boundaries around a sample have the same result there.
  lemma Isolation(u: Unit, t: Unit, y: int, x: int)
    requires SoundUnit(u) && t == u.(picture := t.picture)
    requires u.rows.start <= y < u.rows.end && u.cols.start <= x < u.cols.end
    requires AgreeOn(u.picture, t.picture, CellLow(u.rows.boundaries, y), CellHigh(u.rows.boundaries, u.rows.size, y),
                     CellLow(u.cols.boundaries, x), CellHigh(u.cols.boundaries, u.cols.size, x))
    ensures Filtered(u)(y, x) == Filtered(t)(y, x)
  {
    var p, q := Visible(u, y, x), Visible(t, y, x);
    VisibleIsInCell(u, t, y, x);
    ResultIsLocal(p, q, y, x, BlockOf(y), BlockOf(x));
    SelectedFromSame(u, p, y, x, q, y, x);
    SameSelection(u, t, q, y, x);
    FilteredAt(u, y, x);
    FilteredAt(t, y, x);
  }

  lemma SameSelection(u: Unit, t: Unit, q: Plane, y: int, x: int)
    requires t == u.(picture := t.picture)
    ensures Selected(u, q, y, x) == Selected(t, q, y, x)
  {
  }

  /* ----- The loops ----- */

  // The buffers and tables that the filter keeps between blocks.
  datatype Memory = Memory(lap: array2<Sums>, classifier0: array2<nat>, classifier1: array2<nat>, planes: seq<array2<int>>,
                           mappingDir: array2<int>, result: array2<int>)

  ghost predicate CoversPicture<T>(a: array2<T>, u: Unit) {
    u.rows.size <= a.Length0 && u.cols.size <= a.Length1
  }

  ghost predicate Suits(m: Memory, u: Unit)
    reads m.mappingDir
  {
    && u.rows.end - u.rows.start + 10 <= 2 * m.lap.Length0 && u.cols.end - u.cols.start + 10 <= 2 * m.lap.Length1
    && CoversPicture(m.classifier0, u) && CoversPicture(m.classifier1, u) && CoversPicture(m.result, u)
    && m.classifier0 != m.classifier1
    && |m.planes| == 2 * EXT_LENGTH
    && (forall k :: 0 <= k < |m.planes| ==> CoversPicture(m.planes[k], u))
    && (forall k, n :: 0 <= k < n < |m.planes| ==> m.planes[k] != m.planes[n])
    && IsMapping(m.mappingDir) && m.mappingDir !in m.planes && m.result !in m.planes && m.result != m.mappingDir
  }

  // Where the samples of a sub-block are read and written; from is the first sample in the source.
  function PlaceOf(k: SubBlock, fromY: int, fromX: int): Place
    requires 0 <= k.s <= k.e && 0 <= k.xs <= k.xe
  {
    Place(fromY, fromX, k.s, k.xs, k.e - k.s, k.xe - k.xs)
  }

  function SelectedAt(u: Unit, p: Plane, b: Place): Plane {
    (r: int, c: int) => Selected(u, p, SrcRow(b, r), SrcCol(b, c))
  }

  lemma SelectedAtFixed(u: Unit, p: Plane, b: Place, r: int, c: int)
    requires u.filterSetIndex < NUM_FIXED_FILTER_SETS
    ensures FixedAt(u.setup, p, b, u.set_, u.filterSetIndex)(r, c) == SelectedAt(u, p, b)(r, c)
  {
    FixedAtMeans(u.setup, p, b, u.set_, u.filterSetIndex, r, c);
  }

  lemma SelectedAtAdaptive(u: Unit, p: Plane, b: Place, r: int, c: int)
    requires u.filterSetIndex >= NUM_FIXED_FILTER_SETS && u.a.classifier < 2 && NonNegativePlane(p)
    ensures AdaptiveAt(u.setup, u.a, p, b, u.set_)(r, c) == SelectedAt(u, p, b)(r, c)
  {
    AdaptiveAtMeans(u.setup, u.a, p, b, u.set_, r, c);
  }

  lemma ShowsSame(a: array2<int>, y0: int, y1: int, x0: int, x1: int, f: Plane, g: Plane)
    requires 0 <= y0 && y1 <= a.Length0 && 0 <= x0 && x1 <= a.Length1
    requires Shows(a, y0, y1, x0, x1, f) && AgreeOn(f, g, y0, y1, x0, x1)
    ensures Shows(a, y0, y1, x0, x1, g)
  {
  }

  // One block from a source plane: the unit's filter at every sample of the block.
  method FilterPlace(u: Unit, p: Plane, b: Place, qp: int, fixedFilterSetIdx: nat, m: Memory)
    requires Arrays(b, m.lap, m.classifier0, m.classifier1, m.planes) && IsMapping(m.mappingDir) && m.mappingDir !in m.planes
    requires InBounds(m.result, b.dstY, b.dstX, b.h, b.w) && m.result !in m.planes && m.result != m.mappingDir
    requires NonNegativePlane(p) && fixedFilterSetIdx < 2 && u.a.classifier < 2 && u.set_ == TargetSet(qp, fixedFilterSetIdx)
    modifies m.lap, m.classifier0, m.classifier1, m.planes, m.result
    ensures Shows(m.result, b.dstY, b.dstY + b.h, b.dstX, b.dstX + b.w, SelectedAt(u, p, b))
    ensures OutsideKept(m.result, b.dstY, b.dstX, b.h, b.w)
  {
    FilterLumaBlock(u.setup, u.a, p, b, qp, u.set_, fixedFilterSetIdx, u.filterSetIndex,
                    m.lap, m.classifier0, m.classifier1, m.planes, m.mappingDir, m.result);
    ResultIsSelected(u, p, b, m.result);
  }

  lemma ResultIsSelected(u: Unit, p: Plane, b: Place, result: array2<int>)
    requires InBounds(result, b.dstY, b.dstX, b.h, b.w) && u.a.classifier < 2 && NonNegativePlane(p)
    requires u.filterSetIndex < NUM_FIXED_FILTER_SETS ==>
      Shows(result, b.dstY, b.dstY + b.h, b.dstX, b.dstX + b.w, FixedAt(u.setup, p, b, u.set_, u.filterSetIndex))
    requires u.filterSetIndex >= NUM_FIXED_FILTER_SETS ==>
      Shows(result, b.dstY, b.dstY + b.h, b.dstX, b.dstX + b.w, AdaptiveAt(u.setup, u.a, p, b, u.set_))
    ensures Shows(result, b.dstY, b.dstY + b.h, b.dstX, b.dstX + b.w, SelectedAt(u, p, b))
  {
    forall r, c | b.dstY <= r < b.dstY + b.h && b.dstX <= c < b.dstX + b.w
      ensures result[r, c] == SelectedAt(u, p, b)(r, c)
    {
      if u.filterSetIndex < NUM_FIXED_FILTER_SETS {
        SelectedAtFixed(u, p, b, r, c);
      } else {
        SelectedAtAdaptive(u, p, b, r, c);
      }
    }
  }

  lemma BufferIsFiltered(u: Unit, k: SubBlock)
    requires SoundUnit(u) && IsSubBlock(u, k) && InUnit(u, k)
    ensures AgreeOn(SelectedAt(u, Buffer(u, k), PlaceOf(k, 0, 0)), Filtered(u), k.s, k.e, k.xs, k.xe)
  {
    var b := PlaceOf(k, 0, 0);
    forall r, c | k.s <= r < k.e && k.xs <= c < k.xe
      ensures SelectedAt(u, Buffer(u, k), b)(r, c) == Filtered(u)(r, c)
    {
      BufferSuffices(u, k, r, c, SrcRow(b, r), SrcCol(b, c));
    }
  }

  lemma PaddedIsFiltered(u: Unit)
    requires SoundUnit(u) && IsSubBlock(u, Whole(u))
    ensures var k := Whole(u);
      AgreeOn(SelectedAt(u, Padded(u.picture, u.rows.size, u.cols.size), PlaceOf(k, k.s, k.xs)), Filtered(u), k.s, k.e, k.xs, k.xe)
  {
    var k := Whole(u);
    var b := PlaceOf(k, k.s, k.xs);
    forall r, c | k.s <= r < k.e && k.xs <= c < k.xe
      ensures SelectedAt(u, Padded(u.picture, u.rows.size, u.cols.size), b)(r, c) == Filtered(u)(r, c)
    {
      assert SrcRow(b, r) == r && SrcCol(b, c) == c;
      PaddedSuffices(u, r, c);
    }
  }

  lemma SourcesAreNonNegative(u: Unit, k: SubBlock)
    requires NonNegativePlane(u.picture)
    ensures NonNegativePlane(Buffer(u, k)) && NonNegativePlane(Padded(u.picture, u.rows.size, u.cols.size))
  {
    forall y, x | Within(y, x)
      ensures Buffer(u, k)(y, x) >= 0 && Padded(u.picture, u.rows.size, u.cols.size)(y, x) >= 0
    {
      var i, j := k.s + y, k.xs + x;
      assert Within(Clamp(BufferLow(k.s, k.clipT), BufferHigh(k.e, k.clipB) - 1, i), Clamp(BufferLow(k.xs, k.clipL), BufferHigh(k.xe, k.clipR) - 1, j));
      assert Within(Clamp(0, u.rows.size - 1, y), Clamp(0, u.cols.size - 1, x));
    }
  }

  lemma PlaceFits(u: Unit, k: SubBlock, fromY: int, fromX: int, m: Memory)
    requires SoundUnit(u) && InUnit(u, k) && Suits(m, u) && fromY % 2 == 0 && fromX % 2 == 0
    ensures Arrays(PlaceOf(k, fromY, fromX), m.lap, m.classifier0, m.classifier1, m.planes)
    ensures InBounds(m.result, k.s, k.xs, k.e - k.s, k.xe - k.xs)
  {
    BlockInBounds(m.classifier0, u, k);
    BlockInBounds(m.classifier1, u, k);
    BlockInBounds(m.result, u, k);
    forall i | 0 <= i < |m.planes|
      ensures InBounds(m.planes[i], k.s, k.xs, k.e - k.s, k.xe - k.xs)
    {
      BlockInBounds(m.planes[i], u, k);
    }
  }

  lemma DifferenceIsEven(a: int, b: int)
    requires a % 8 == 0 && b % 8 == 0
    ensures (a - b) % 2 == 0
  {
    var m, n := a / 8, b / 8;
    EightTimes(a, m);
    EightTimes(b, n);
    EvenTimes(4 * m - 4 * n, a - b);
  }

  lemma BlockInBounds<T>(a: array2<T>, u: Unit, k: SubBlock)
    requires SoundUnit(u) && InUnit(u, k) && CoversPicture(a, u)
    ensures InBounds(a, k.s, k.xs, k.e - k.s, k.xe - k.xs)
  {
    DifferenceIsEven(k.e, k.s);
    DifferenceIsEven(k.xe, k.xs);
  }

  method FilterSubBlock(u: Unit, k: SubBlock, qp: int, fixedFilterSetIdx: nat, m: Memory)
    requires SoundUnit(u) && IsSubBlock(u, k) && InUnit(u, k) && Suits(m, u) && fixedFilterSetIdx < 2 && u.set_ == TargetSet(qp, fixedFilterSetIdx)
    modifies m.lap, m.classifier0, m.classifier1, m.planes, m.result
    ensures Shows(m.result, k.s, k.e, k.xs, k.xe, Filtered(u))
    ensures OutsideKept(m.result, k.s, k.xs, k.e - k.s, k.xe - k.xs)
  {
    var b, buffer := PlaceOf(k, 0, 0), Buffer(u, k);
    PlaceFits(u, k, 0, 0, m);
    SourcesAreNonNegative(u, k);
    FilterPlace(u, buffer, b, qp, fixedFilterSetIdx, m);
    BufferIsFiltered(u, k);
    ShowsSame(m.result, k.s, k.e, k.xs, k.xe, SelectedAt(u, buffer, b), Filtered(u));
  }

  method FilterWhole(u: Unit, qp: int, fixedFilterSetIdx: nat, m: Memory)
    requires SoundUnit(u) && IsSubBlock(u, Whole(u)) && Suits(m, u) && fixedFilterSetIdx < 2 && u.set_ == TargetSet(qp, fixedFilterSetIdx)
    modifies m.lap, m.classifier0, m.classifier1, m.planes, m.result
    ensures Shows(m.result, u.rows.start, u.rows.end, u.cols.start, u.cols.end, Filtered(u))
    ensures OutsideKept(m.result, u.rows.start, u.cols.start, u.rows.end - u.rows.start, u.cols.end - u.cols.start)
  {
    var k := Whole(u);
    var b, padded := PlaceOf(k, k.s, k.xs), Padded(u.picture, u.rows.size, u.cols.size);
    SubBlockInUnit(u, k);
    EightIsEven(k.s);
    EightIsEven(k.xs);
    PlaceFits(u, k, k.s, k.xs, m);
    SourcesAreNonNegative(u, k);
    FilterPlace(u, padded, b, qp, fixedFilterSetIdx, m);
    PaddedIsFiltered(u);
    ShowsSame(m.result, k.s, k.e, k.xs, k.xe, SelectedAt(u, padded, b), Filtered(u));
  }

  // The boundaries strictly inside the unit, in order.
  ghost predicate IsInner(ax: Axis, inner: seq<int>) {
    Ascending(inner) && forall v :: v in inner <==> v in ax.boundaries && ax.start < v < ax.end
  }

  // The cuts of the unit: its start, the boundaries inside and its end.
  function Cut(ax: Axis, inner: seq<int>, i: nat): int
    requires i <= |inner| + 1
  {
    if i == 0 then ax.start else if i <= |inner| then inner[i - 1] else ax.end
  }

  // Between two cuts lies a sub-range, with the sides the source replicates.
  lemma CutsAreSubRanges(ax: Axis, inner: seq<int>, i: nat, clipLow: bool, clipHigh: bool)
    requires Aligned(ax) && IsInner(ax, inner) && i <= |inner|
    requires clipLow <==> ax.start in ax.boundaries || ax.sliceLow
    requires clipHigh <==> ax.end in ax.boundaries || ax.sliceHigh
    ensures var s, e := Cut(ax, inner, i), Cut(ax, inner, i + 1);
      IsSubRange(ax, s, e, (i == 0 && clipLow) || i > 0 || s == 0, (i == |inner| && clipHigh) || i < |inner| || e == ax.size)
  {
    var s, e := Cut(ax, inner, i), Cut(ax, inner, i + 1);
    assert i > 0 ==> s in inner;
    assert i < |inner| ==> e in inner;
    forall v | v in ax.boundaries
      ensures v <= s || e <= v
    {
      if ax.start < v < ax.end {
        var k :| 0 <= k < |inner| && inner[k] == v;
        if k < i {
          assert v <= s;
        } else {
          assert e <= v;
        }
      }
    }
  }

  lemma CutAt(ax: Axis, s: int, e: int, inner: seq<int>, i: nat, clipLow: bool, clipHigh: bool, clipS: bool, clipE: bool)
    requires Aligned(ax) && IsInner(ax, inner) && i <= |inner|
    requires clipLow <==> ax.start in ax.boundaries || ax.sliceLow
    requires clipHigh <==> ax.end in ax.boundaries || ax.sliceHigh
    requires s == Cut(ax, inner, i) && e == Cut(ax, inner, i + 1)
    requires clipS == ((i == 0 && clipLow) || i > 0 || s == 0)
    requires clipE == ((i == |inner| && clipHigh) || i < |inner| || e == ax.size)
    ensures IsSubRange(ax, s, e, clipS, clipE) && ax.start <= s < e <= ax.end
  {
    CutsAreSubRanges(ax, inner, i, clipLow, clipHigh);
  }

  // One sub-block of a row, between two cuts of the columns.
  method FilterBetweenCuts(u: Unit, yStart: int, yEnd: int, clipT: bool, clipB: bool, xStart: int, xEnd: int, clipL: bool, clipR: bool,
                           qp: int, fixedFilterSetIdx: nat, m: Memory)
    requires SoundUnit(u) && Suits(m, u) && fixedFilterSetIdx < 2 && u.set_ == TargetSet(qp, fixedFilterSetIdx)
    requires IsSubRange(u.rows, yStart, yEnd, clipT, clipB) && IsSubRange(u.cols, xStart, xEnd, clipL, clipR)
    modifies m.lap, m.classifier0, m.classifier1, m.planes, m.result
    ensures Shows(m.result, yStart, yEnd, xStart, xEnd, Filtered(u))
    ensures OutsideKept(m.result, yStart, xStart, yEnd - yStart, xEnd - xStart)
  {
    var k := SubBlock(yStart, yEnd, clipT, clipB, xStart, xEnd, clipL, clipR);
    SubBlockInUnit(u, k);
    FilterSubBlock(u, k, qp, fixedFilterSetIdx, m);
  }

  // One row of sub-blocks.
  method FilterStrip(u: Unit, yStart: int, yEnd: int, clipT: bool, clipB: bool, clipLeft: bool, clipRight: bool, ver: seq<int>,
                     qp: int, fixedFilterSetIdx: nat, m: Memory)
    requires SoundUnit(u) && Suits(m, u) && fixedFilterSetIdx < 2 && u.set_ == TargetSet(qp, fixedFilterSetIdx)
    requires IsSubRange(u.rows, yStart, yEnd, clipT, clipB) && IsInner(u.cols, ver)
    requires clipLeft <==> u.cols.start in u.cols.boundaries || u.cols.sliceLow
    requires clipRight <==> u.cols.end in u.cols.boundaries || u.cols.sliceHigh
    modifies m.lap, m.classifier0, m.classifier1, m.planes, m.result
    ensures Shows(m.result, yStart, yEnd, u.cols.start, u.cols.end, Filtered(u))
    ensures OutsideKept(m.result, yStart, u.cols.start, yEnd - yStart, u.cols.end - u.cols.start)
  {
    ghost var value := Filtered(u);
    var xStart := u.cols.start;
    for j := 0 to |ver| + 1
      invariant xStart == Cut(u.cols, ver, j) && u.cols.start <= xStart <= u.cols.end
      invariant Shows(m.result, yStart, yEnd, u.cols.start, xStart, value)
      invariant OutsideKept(m.result, yStart, u.cols.start, yEnd - yStart, u.cols.end - u.cols.start)
      invariant Suits(m, u)
    {
      var xEnd := if j == |ver| then u.cols.end else ver[j];
      var clipL := (j == 0 && clipLeft) || j > 0 || xStart == 0;
      var clipR := (j == |ver| && clipRight) || j < |ver| || xEnd == u.cols.size;
      CutAt(u.cols, xStart, xEnd, ver, j, clipLeft, clipRight, clipL, clipR);
      FilterBetweenCuts(u, yStart, yEnd, clipT, clipB, xStart, xEnd, clipL, clipR, qp, fixedFilterSetIdx, m);
      xStart := xEnd;
    }
  }

  // All rows of sub-blocks.
  method FilterStrips(u: Unit, clipTop: bool, clipBottom: bool, clipLeft: bool, clipRight: bool, hor: seq<int>, ver: seq<int>,
                      qp: int, fixedFilterSetIdx: nat, m: Memory)
    requires SoundUnit(u) && Suits(m, u) && fixedFilterSetIdx < 2 && u.set_ == TargetSet(qp, fixedFilterSetIdx)
    requires IsInner(u.rows, hor) && IsInner(u.cols, ver)
    requires clipTop <==> u.rows.start in u.rows.boundaries || u.rows.sliceLow
    requires clipBottom <==> u.rows.end in u.rows.boundaries || u.rows.sliceHigh
    requires clipLeft <==> u.cols.start in u.cols.boundaries || u.cols.sliceLow
    requires clipRight <==> u.cols.end in u.cols.boundaries || u.cols.sliceHigh
    modifies m.lap, m.classifier0, m.classifier1, m.planes, m.result
    ensures Shows(m.result, u.rows.start, u.rows.end, u.cols.start, u.cols.end, Filtered(u))
    ensures OutsideKept(m.result, u.rows.start, u.cols.start, u.rows.end - u.rows.start, u.cols.end - u.cols.start)
  {
    ghost var value := Filtered(u);
    var yStart := u.rows.start;
    for i := 0 to |hor| + 1
      invariant yStart == Cut(u.rows, hor, i) && u.rows.start <= yStart <= u.rows.end
      invariant Shows(m.result, u.rows.start, yStart, u.cols.start, u.cols.end, value)
      invariant OutsideKept(m.result, u.rows.start, u.cols.start, u.rows.end - u.rows.start, u.cols.end - u.cols.start)
      invariant Suits(m, u)
    {
      var yEnd := if i == |hor| then u.rows.end else hor[i];
      var clipT := (i == 0 && clipTop) || i > 0 || yStart == 0;
      var clipB := (i == |hor| && clipBottom) || i < |hor| || yEnd == u.rows.size;
      CutAt(u.rows, yStart, yEnd, hor, i, clipTop, clipBottom, clipT, clipB);
      FilterStrip(u, yStart, yEnd, clipT, clipB, clipLeft, clipRight, ver, qp, fixedFilterSetIdx, m);
      yStart := yEnd;
    }
  }

  // The luma samples of one coding tree unit: every sample of the unit is filtered from what it may
  // see, and no other sample changes.
  method FilterUnit(u: Unit, qp: int, fixedFilterSetIdx: nat, m: Memory)
    requires SoundUnit(u) && Suits(m, u) && fixedFilterSetIdx < 2 && u.set_ == TargetSet(qp, fixedFilterSetIdx)
    modifies m.lap, m.classifier0, m.classifier1, m.planes, m.result
    ensures Shows(m.result, u.rows.start, u.rows.end, u.cols.start, u.cols.end, Filtered(u))
    ensures OutsideKept(m.result, u.rows.start, u.cols.start, u.rows.end - u.rows.start, u.cols.end - u.cols.start)
  {
    var clipTop, clipBottom, hor := CollectBoundaries(u.rows.boundaries, u.rows.start, u.rows.end);
    var clipLeft, clipRight, ver := CollectBoundaries(u.cols.boundaries, u.cols.start, u.cols.end);
    clipTop, clipBottom := clipTop || u.rows.sliceLow, clipBottom || u.rows.sliceHigh;
    clipLeft, clipRight := clipLeft || u.cols.sliceLow, clipRight || u.cols.sliceHigh;
    if |hor| > 0 || |ver| > 0 || clipTop || clipBottom || clipLeft || clipRight {
      FilterStrips(u, clipTop, clipBottom, clipLeft, clipRight, hor, ver, qp, fixedFilterSetIdx, m);
    } else {
      CutsAreSubRanges(u.rows, hor, 0, clipTop, clipBottom);
      CutsAreSubRanges(u.cols, ver, 0, clipLeft, clipRight);
      FilterWhole(u, qp, fixedFilterSetIdx, m);
    }
  }
}
