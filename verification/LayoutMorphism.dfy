/** Layout morphisms: records and the plans they come to at a shape.

    A record factors each logical axis into sub-axes and permutes them.  The index
    map a plan denotes is in LayoutMap, the folded walk over it in LayoutWalk, and
    the byte movers that follow the walk in LayoutBytes. */
module LayoutMorphism {
  import opened Wrappers
  import opened MixedRadix

  /** A shape formula is the partial function of the logical shape it denotes. */
  type Formula = seq<nat> -> Option<nat>

  datatype SubAxis = SubAxis(axis: nat, extent: Formula)

  datatype Record = Record(
    formatOk: bool, provenance: nat, rank: nat,
    subAxes: seq<SubAxis>, permutation: seq<nat>, candidate: bool)
  {
    predicate IsIdentity() { subAxes == [] }
  }

  datatype LayoutError =
    | BadRecord
    | Rank(want: nat, got: nat)
    | ShortAxis(axis: nat, product: nat, dim: nat)
    | BadFormula(axis: nat)
    | Buffer(got: nat, want: nat)
    | Candidate

  // --- record validation ------------------------------------------------------

  /** Sub-axes are listed axis by axis from 0 to rank-1, none skipped. */
  ghost predicate Grouped(axes: seq<nat>, rank: nat) {
    && axes != [] && axes[0] == 0 && axes[|axes| - 1] + 1 == rank
    && forall i | 0 < i < |axes| :: StaysOrSteps(axes, i)
  }

  ghost predicate StaysOrSteps(axes: seq<nat>, i: nat)
    requires 0 < i < |axes|
  {
    axes[i] == axes[i - 1] || axes[i] == axes[i - 1] + 1
  }

  function DeclaredAxes(subs: seq<SubAxis>): (axes: seq<nat>)
    ensures |axes| == |subs| && forall i | 0 <= i < |subs| :: axes[i] == subs[i].axis
  {
    seq(|subs|, i requires 0 <= i < |subs| => subs[i].axis)
  }

  /** The structural half of `check`: what makes a record a bijection. */
  ghost predicate WellFactored(record: Record) {
    if record.IsIdentity() then record.permutation == [] && record.rank == 0
    else
      && |record.permutation| == |record.subAxes|
      && Grouped(DeclaredAxes(record.subAxes), record.rank)
      && IsPermutation(record.permutation)
  }

  ghost predicate Sound(record: Record) { record.formatOk && record.provenance > 0 && WellFactored(record) }

  method Check(record: Record) returns (r: Outcome<LayoutError>)
    ensures r.Pass? <==> Sound(record)
  {
    if !record.formatOk || record.provenance == 0 {
      return Fail(BadRecord);
    }
    if record.IsIdentity() {
      return if record.permutation != [] || record.rank != 0 then Fail(BadRecord) else Pass;
    }
    if record.rank == 0 || |record.permutation| != |record.subAxes| {
      return Fail(BadRecord);
    }
    var grouped := ListsEveryAxis(record.subAxes, record.rank);
    if !grouped {
      return Fail(BadRecord);
    }
    var bijective := IsBijection(record.permutation);
    return if bijective then Pass else Fail(BadRecord);
  }

  /** The first pass of `check`: axes in order, none skipped, `rank` of them. */
  method ListsEveryAxis(subs: seq<SubAxis>, rank: nat) returns (ok: bool)
    requires subs != []
    ensures ok <==> Grouped(DeclaredAxes(subs), rank)
  {
    ghost var axes := DeclaredAxes(subs);
    var axis, covered := 0, 0;
    for at := 0 to |subs|
      invariant at > 0 ==> axes[0] == 0 && axis == axes[at - 1] && covered == axis + 1
      invariant forall i | 0 < i < at :: StaysOrSteps(axes, i)
    {
      var sub := subs[at];
      if at == 0 {
        if sub.axis != 0 {
          return false;
        }
        covered := 1;
      } else if sub.axis == axis + 1 {
        covered := covered + 1;
      } else if sub.axis != axis {
        assert !StaysOrSteps(axes, at);
        return false;
      }
      axis := sub.axis;
    }
    return covered == rank;
  }

  ghost predicate TakenBefore(p: seq<nat>, i: nat, position: nat)
    requires i <= |p|
  {
    exists k :: 0 <= k < i && p[k] == position
  }

  /** The second pass of `check`: no position is missing or taken twice. */
  method IsBijection(p: seq<nat>) returns (ok: bool)
    ensures ok <==> IsPermutation(p)
  {
    var seen := seq(|p|, _ => false);
    for i := 0 to |p|
      invariant |seen| == |p|
      invariant forall k | 0 <= k < i :: p[k] < |p| && seen[p[k]]
      invariant forall j | 0 <= j < |p| && seen[j] :: TakenBefore(p, i, j)
      invariant forall k, l | 0 <= k < l < i :: p[k] != p[l]
    {
      if p[i] >= |p| {
        return false;
      }
      if seen[p[i]] {
        assert TakenBefore(p, i, p[i]);
        return false;
      }
      seen := seen[p[i] := true];
    }
    return true;
  }

  // --- the plan ---------------------------------------------------------------

  /** The members of `x` whose sub-axis belongs to logical axis `a`, in order. */
  ghost function Group(axes: seq<nat>, x: seq<nat>, a: nat): (g: seq<nat>)
    requires |x| == |axes|
  {
    if axes == [] then []
    else (if axes[0] == a then [x[0]] else []) + Group(axes[1..], x[1..], a)
  }

  /** The weight of each sub-axis digit inside its own logical axis. */
  ghost function Withins(axes: seq<nat>, extents: seq<nat>): (w: seq<nat>)
    requires |extents| == |axes|
    ensures |w| == |axes|
  {
    if axes == [] then []
    else [Product(Group(axes[1..], extents[1..], axes[0]))] + Withins(axes[1..], extents[1..])
  }

  function Iota(n: nat): (s: seq<nat>)
    ensures |s| == n && forall i | 0 <= i < n :: s[i] == i
  {
    seq(n, i => i)
  }

  datatype Plan = Plan(
    shape: seq<nat>,
    axes: seq<nat>,
    extents: seq<nat>,
    within: seq<nat>,
    permutation: seq<nat>,
    logicalStride: seq<nat>,
    srcStride: seq<nat>,
    paddedAxis: seq<bool>,
    sourceElements: nat,
    destElements: nat,
    padded: bool)

  ghost predicate Valid(p: Plan) {
    && p.shape != [] && Positive(p.shape) && Positive(p.extents)
    && |p.axes| == |p.extents| == |p.permutation|
    && IsPermutation(p.permutation)
    && (forall j | 0 <= j < |p.axes| :: p.axes[j] < |p.shape|)
    && p.within == Withins(p.axes, p.extents)
    && RowMajor(p.shape, p.logicalStride)
    && p.srcStride == SourceStrides(p.axes, p.within, p.logicalStride)
    && Factored(p.axes, p.extents, p.shape, p.paddedAxis)
    && (p.padded <==> exists a :: 0 <= a < |p.shape| && p.paddedAxis[a])
    && p.sourceElements == Product(p.shape)
    && p.destElements == Product(p.extents)
  }

  /** Axis `a` factors into at least its dim, and is marked padded iff into more. */
  ghost predicate AxisFactored(axes: seq<nat>, extents: seq<nat>, shape: seq<nat>, paddedAxis: seq<bool>, a: nat)
    requires |extents| == |axes| && |paddedAxis| == |shape| && a < |shape|
  {
    && shape[a] <= Product(Group(axes, extents, a))
    && (paddedAxis[a] <==> shape[a] < Product(Group(axes, extents, a)))
  }

  ghost predicate Factored(axes: seq<nat>, extents: seq<nat>, shape: seq<nat>, paddedAxis: seq<bool>)
    requires |extents| == |axes|
  {
    && |paddedAxis| == |shape|
    && forall a | 0 <= a < |shape| :: AxisFactored(axes, extents, shape, paddedAxis, a)
  }

  /** Every axis is factored into at least its dim. */
  ghost predicate Covering(axes: seq<nat>, extents: seq<nat>, shape: seq<nat>)
    requires |extents| == |axes|
  {
    forall a | 0 <= a < |shape| :: shape[a] <= Product(Group(axes, extents, a))
  }

  /** How far one step of each sub-axis digit moves in the source. */
  function SourceStrides(axes: seq<nat>, within: seq<nat>, strides: seq<nat>): (s: seq<nat>)
    requires |within| == |axes| && forall j | 0 <= j < |axes| :: axes[j] < |strides|
    ensures |s| == |axes| && forall j {:trigger s[j]} | 0 <= j < |axes| :: s[j] == within[j] * strides[axes[j]]
  {
    seq(|axes|, j requires 0 <= j < |axes| => within[j] * strides[axes[j]])
  }

  ghost predicate FormulasOk(record: Record, shape: seq<nat>) {
    forall i | 0 <= i < |record.subAxes| ::
      record.subAxes[i].extent(shape).Some? && record.subAxes[i].extent(shape).value > 0
  }

  ghost function PlanAxes(record: Record, shape: seq<nat>): seq<nat> {
    if record.IsIdentity() then Iota(|shape|) else DeclaredAxes(record.subAxes)
  }

  ghost function PlanExtents(record: Record, shape: seq<nat>): (e: seq<nat>)
    requires FormulasOk(record, shape)
    ensures |e| == |PlanAxes(record, shape)|
  {
    if record.IsIdentity() then shape
    else seq(|record.subAxes|, i requires 0 <= i < |record.subAxes| => record.subAxes[i].extent(shape).value)
  }

  /** Exactly the shapes the record arranges. */
  ghost predicate Plannable(record: Record, shape: seq<nat>) {
    && (record.rank != 0 ==> |shape| == record.rank)
    && shape != [] && Positive(shape)
    && FormulasOk(record, shape)
    && Covering(PlanAxes(record, shape), PlanExtents(record, shape), shape)
  }

  /** `p` is the plan of this record at this shape: the declared factorization and
      permutation, with every derived number as `Valid` fixes it. */
  ghost predicate Plans(record: Record, shape: seq<nat>, p: Plan)
    requires Plannable(record, shape)
  {
    && Valid(p)
    && p.shape == shape
    && p.axes == PlanAxes(record, shape)
    && p.extents == PlanExtents(record, shape)
    && p.permutation == if record.IsIdentity() then Iota(|shape|) else record.permutation
  }

  lemma {:induction false} GroupSkip(axes: seq<nat>, x: seq<nat>, lo: nat, a: nat)
    requires |x| == |axes| && lo <= |axes|
    requires forall i | 0 <= i < lo :: axes[i] != a
    ensures Group(axes, x, a) == Group(axes[lo..], x[lo..], a)
  {
    if lo > 0 {
      GroupSkip(axes[1..], x[1..], lo - 1, a);
      assert axes[1..][lo - 1..] == axes[lo..] && x[1..][lo - 1..] == x[lo..];
    } else {
      assert axes[0..] == axes && x[0..] == x;
    }
  }

  lemma {:induction false} GroupRun(axes: seq<nat>, x: seq<nat>, lo: nat, hi: nat, a: nat)
    requires |x| == |axes| && lo <= hi <= |axes|
    requires forall i | lo <= i < hi :: axes[i] == a
    requires forall i | hi <= i < |axes| :: axes[i] != a
    ensures Group(axes[lo..], x[lo..], a) == x[lo..hi]
    decreases hi - lo
  {
    if lo == hi {
      GroupSkip(axes[lo..], x[lo..], |axes| - lo, a);
    } else {
      GroupRun(axes, x, lo + 1, hi, a);
      assert axes[lo..][1..] == axes[lo + 1..] && x[lo..][1..] == x[lo + 1..];
    }
  }

  lemma {:induction false} WithinsAt(axes: seq<nat>, extents: seq<nat>, j: nat)
    requires |extents| == |axes| && j < |axes|
    ensures Withins(axes, extents)[j] == Product(Group(axes[j + 1..], extents[j + 1..], axes[j]))
  {
    if j > 0 {
      WithinsAt(axes[1..], extents[1..], j - 1);
      assert axes[1..][j..] == axes[j + 1..] && extents[1..][j..] == extents[j + 1..];
    }
  }

  lemma {:induction false} GroupedSorted(axes: seq<nat>, rank: nat, i: nat, j: nat)
    requires Grouped(axes, rank) && i <= j < |axes|
    ensures axes[i] <= axes[j]
    decreases j - i
  {
    if i < j {
      GroupedSorted(axes, rank, i, j - 1);
      assert StaysOrSteps(axes, j);
    }
  }

  lemma GroupedBounds(axes: seq<nat>, rank: nat)
    requires Grouped(axes, rank)
    ensures forall i, j | 0 <= i <= j < |axes| :: axes[i] <= axes[j] < rank
  {
    forall i, j | 0 <= i <= j < |axes|
      ensures axes[i] <= axes[j] < rank
    {
      GroupedSorted(axes, rank, i, j);
      GroupedSorted(axes, rank, j, |axes| - 1);
    }
  }

  // --- factoring, run by run --------------------------------------------------

  /** Where the run of one axis's sub-axes that holds position `at` ends. */
  ghost function RunEnd(axes: seq<nat>, at: nat): (end: nat)
    requires at < |axes|
    ensures at < end <= |axes|
    ensures forall i | at <= i < end :: axes[i] == axes[at]
    ensures end < |axes| ==> axes[end] != axes[at]
    decreases |axes| - at
  {
    if at + 1 < |axes| && axes[at + 1] == axes[at] then RunEnd(axes, at + 1) else at + 1
  }

  ghost predicate Starts(axes: seq<nat>, at: nat)
    requires at < |axes|
  {
    at == 0 || axes[at - 1] != axes[at]
  }

  /** How many coordinates the run from `at` on addresses. */
  ghost function RunProduct(axes: seq<nat>, extents: seq<nat>, at: nat): nat
    requires |extents| == |axes| && at < |axes|
  {
    Product(extents[at..RunEnd(axes, at)])
  }

  /** Every run is of a logical axis and addresses at least its dim. */
  ghost predicate RunsCover(axes: seq<nat>, extents: seq<nat>, shape: seq<nat>)
    requires |extents| == |axes|
  {
    forall at | 0 <= at < |axes| && Starts(axes, at) :: RunCovers(axes, extents, shape, at)
  }

  ghost predicate RunCovers(axes: seq<nat>, extents: seq<nat>, shape: seq<nat>, at: nat)
    requires |extents| == |axes| && at < |axes|
  {
    axes[at] < |shape| && shape[axes[at]] <= RunProduct(axes, extents, at)
  }

  ghost predicate RunPads(axes: seq<nat>, extents: seq<nat>, shape: seq<nat>, at: nat, a: nat)
    requires |extents| == |axes| && at < |axes| && a < |shape|
  {
    Starts(axes, at) && axes[at] == a && shape[a] < RunProduct(axes, extents, at)
  }

  /** The weight of the digit at `at` inside its own run. */
  ghost function RunWeight(axes: seq<nat>, extents: seq<nat>, at: nat): nat
    requires |extents| == |axes| && at < |axes|
  {
    Product(extents[at + 1..RunEnd(axes, at)])
  }

  /** What factoring run by run leaves: digit weights, and the axes some run pads. */
  ghost predicate FactoredByRuns(axes: seq<nat>, extents: seq<nat>, shape: seq<nat>, within: seq<nat>, paddedAxis: seq<bool>)
    requires |extents| == |axes|
  {
    && |within| == |axes| && |paddedAxis| == |shape|
    && (forall j | 0 <= j < |axes| :: within[j] == RunWeight(axes, extents, j))
    && (forall a | 0 <= a < |shape| :: PaddedBefore(axes, extents, shape, |axes|, a) == paddedAxis[a])
  }

  ghost predicate PaddedBefore(axes: seq<nat>, extents: seq<nat>, shape: seq<nat>, n: nat, a: nat)
    requires |extents| == |axes| && n <= |axes| && a < |shape|
  {
    exists at :: 0 <= at < n && RunPads(axes, extents, shape, at, a)
  }

  lemma {:induction false} SameRun(axes: seq<nat>, at: nat, j: nat)
    requires at <= j < |axes| && j < RunEnd(axes, at)
    ensures RunEnd(axes, j) == RunEnd(axes, at)
    decreases j - at
  {
    if at < j { SameRun(axes, at + 1, j); }
  }

  lemma RunInside(axes: seq<nat>, at: nat, j: nat)
    requires at < j < |axes| && j < RunEnd(axes, at)
    ensures !Starts(axes, j)
  {
    assert axes[j - 1] == axes[at] == axes[j];
  }

  /** Where the run of sub-axes that starts at `at` ends. */
  method GroupEnd(axes: seq<nat>, at: nat) returns (end: nat)
    requires at < |axes|
    ensures end == RunEnd(axes, at)
  {
    end := at + 1;
    while end < |axes| && axes[end] == axes[at]
      invariant at < end <= |axes|
      invariant RunEnd(axes, end - 1) == RunEnd(axes, at)
      invariant axes[end - 1] == axes[at]
    {
      end := end + 1;
    }
  }

  /** The weights of one run's digits, right to left, and its element count. */
  method GroupWeights(axes: seq<nat>, extents: seq<nat>, before: seq<nat>, at: nat, end: nat)
      returns (within: seq<nat>, running: nat)
    requires |extents| == |axes| == |before| && at < |axes| && end == RunEnd(axes, at)
    ensures |within| == |axes|
    ensures forall j | 0 <= j < at :: within[j] == before[j]
    ensures forall j | at <= j < end :: within[j] == RunWeight(axes, extents, j)
    ensures running == RunProduct(axes, extents, at)
  {
    within := before;
    running := 1;
    for index := end downto at
      invariant |within| == |axes|
      invariant running == Product(extents[index..end])
      invariant forall j | 0 <= j < at :: within[j] == before[j]
      invariant forall j | index <= j < end :: within[j] == RunWeight(axes, extents, j)
    {
      SameRun(axes, at, index);
      ProductStep(extents, index, end);
      within := within[index := running];
      running := running * extents[index];
    }
  }

  lemma ProductStep(e: seq<nat>, lo: nat, hi: nat)
    requires lo < hi <= |e|
    ensures Product(e[lo..hi]) == Product(e[lo + 1..hi]) * e[lo]
  {
    assert e[lo..hi][1..] == e[lo + 1..hi];
  }

  /** The axis-by-axis pass of `plan`: digit weights and padding. */
  method FactorAxes(axes: seq<nat>, extents: seq<nat>, shape: seq<nat>, rank: nat)
      returns (r: Option<LayoutError>, within: seq<nat>, paddedAxis: seq<bool>, padded: bool)
    requires |extents| == |axes|
    ensures r.None? <==> RunsCover(axes, extents, shape)
    ensures r.None? ==> FactoredByRuns(axes, extents, shape, within, paddedAxis)
    ensures r.None? ==> (padded <==> exists a :: 0 <= a < |shape| && paddedAxis[a])
  {
    hide Product, RunEnd, RunProduct, RunWeight, Starts, PaddedBefore, RunPads;
    within := seq(|extents|, _ => 1);
    paddedAxis := seq(|shape|, _ => false);
    padded := false;
    var at := 0;
    NothingPadded(axes, extents, shape);
    while at < |axes|
      invariant 0 <= at <= |axes| && |within| == |axes| && |paddedAxis| == |shape|
      invariant at < |axes| ==> Starts(axes, at)
      invariant forall j | 0 <= j < at :: within[j] == RunWeight(axes, extents, j)
      invariant forall s | 0 <= s < at && Starts(axes, s) :: RunCovers(axes, extents, shape, s)
      invariant forall a | 0 <= a < |shape| :: PaddedBefore(axes, extents, shape, at, a) == paddedAxis[a]
      invariant padded <==> exists a :: 0 <= a < |shape| && paddedAxis[a]
    {
      var end := GroupEnd(axes, at);
      var weights, running := GroupWeights(axes, extents, within, at, end);
      var axis := axes[at];
      if axis >= |shape| {
        assert !RunCovers(axes, extents, shape, at);
        r := Some(Rank(rank, |shape|));
        return;
      }
      if running < shape[axis] {
        assert !RunCovers(axes, extents, shape, at);
        r := Some(ShortAxis(axis, running, shape[axis]));
        return;
      }
      assert RunCovers(axes, extents, shape, at);
      RunSettled(axes, extents, shape, at);
      if running > shape[axis] {
        padded := true;
        paddedAxis := paddedAxis[axis := true];
        assert paddedAxis[axis];
      }
      within := weights;
      at := end;
    }
    r := None;
  }

  lemma NothingPadded(axes: seq<nat>, extents: seq<nat>, shape: seq<nat>)
    requires |extents| == |axes|
    ensures axes != [] ==> Starts(axes, 0)
    ensures forall a | 0 <= a < |shape| :: !PaddedBefore(axes, extents, shape, 0, a)
  {
  }

  /** One run settles its own axis and no other, and the next position starts a run. */
  lemma RunSettled(axes: seq<nat>, extents: seq<nat>, shape: seq<nat>, at: nat)
    requires |extents| == |axes| && at < |axes| && Starts(axes, at) && axes[at] < |shape|
    ensures var end := RunEnd(axes, at);
      && at < end && (end < |axes| ==> Starts(axes, end))
      && (forall s | at < s < end :: !Starts(axes, s))
      && forall a | 0 <= a < |shape| :: PaddedBefore(axes, extents, shape, end, a)
           == (PaddedBefore(axes, extents, shape, at, a) || (a == axes[at] && shape[a] < RunProduct(axes, extents, at)))
  {
    hide RunProduct;
    var end := RunEnd(axes, at);
    forall s | at < s < end ensures !Starts(axes, s) { RunInside(axes, at, s); }
    forall a | 0 <= a < |shape|
      ensures PaddedBefore(axes, extents, shape, end, a)
        == (PaddedBefore(axes, extents, shape, at, a) || RunPads(axes, extents, shape, at, a))
    {
      if PaddedBefore(axes, extents, shape, end, a) {
        var s :| 0 <= s < end && RunPads(axes, extents, shape, s, a);
        assert s <= at;
      }
    }
  }

  lemma {:induction false} RunAxesBelow(axes: seq<nat>, extents: seq<nat>, shape: seq<nat>, j: nat)
    requires |extents| == |axes| && j < |axes| && RunsCover(axes, extents, shape)
    ensures axes[j] < |shape|
  {
    if Starts(axes, j) {
      assert RunCovers(axes, extents, shape, j);
    } else {
      RunAxesBelow(axes, extents, shape, j - 1);
    }
  }

  // --- grouped axes: one run an axis -------------------------------------------

  /** Over grouped axes the run of an axis is all its sub-axes. */
  lemma RunIsGroup(axes: seq<nat>, extents: seq<nat>, rank: nat, at: nat)
    requires |extents| == |axes| && Grouped(axes, rank) && at < |axes|
    ensures RunWeight(axes, extents, at) == Withins(axes, extents)[at]
    ensures Starts(axes, at) ==> RunProduct(axes, extents, at) == Product(Group(axes, extents, axes[at]))
  {
    hide Product, Group, Withins, RunEnd, Grouped;
    var end := RunEnd(axes, at);
    GroupedBounds(axes, rank);
    assert forall i | end <= i < |axes| :: axes[i] != axes[at];
    WithinsAt(axes, extents, at);
    GroupRun(axes, extents, at + 1, end, axes[at]);
    if Starts(axes, at) {
      assert forall i | 0 <= i < at :: axes[i] != axes[at];
      GroupSkip(axes, extents, at, axes[at]);
      GroupRun(axes, extents, at, end, axes[at]);
    }
  }

  /** Over grouped axes every logical axis has the run that factors it. */
  lemma {:induction false} AxisStart(axes: seq<nat>, rank: nat, a: nat, n: nat) returns (at: nat)
    requires Grouped(axes, rank) && n < |axes| && a <= axes[n]
    ensures at <= n && Starts(axes, at) && axes[at] == a
    decreases n
  {
    GroupedSorted(axes, rank, 0, n);
    if Starts(axes, n) && axes[n] == a {
      at := n;
    } else {
      assert StaysOrSteps(axes, n);
      at := AxisStart(axes, rank, a, n - 1);
    }
  }

  lemma GroupedCover(axes: seq<nat>, extents: seq<nat>, shape: seq<nat>)
    requires |extents| == |axes| && Grouped(axes, |shape|)
    ensures RunsCover(axes, extents, shape) <==> Covering(axes, extents, shape)
  {
    hide Product, Group, RunProduct, RunWeight, Starts, Grouped;
    forall at | 0 <= at < |axes| && Starts(axes, at)
      ensures axes[at] < |shape| && RunProduct(axes, extents, at) == Product(Group(axes, extents, axes[at]))
    {
      AxisBelow(axes, |shape|, at);
      RunIsGroup(axes, extents, |shape|, at);
    }
    if RunsCover(axes, extents, shape) {
      forall a | 0 <= a < |shape| ensures shape[a] <= Product(Group(axes, extents, a)) {
        var at := GroupedStart(axes, |shape|, a);
        assert RunCovers(axes, extents, shape, at);
      }
    }
  }

  lemma GroupedStart(axes: seq<nat>, rank: nat, a: nat) returns (at: nat)
    requires Grouped(axes, rank) && a < rank
    ensures at < |axes| && Starts(axes, at) && axes[at] == a
  {
    at := AxisStart(axes, rank, a, |axes| - 1);
  }

  lemma GroupedFactored(axes: seq<nat>, extents: seq<nat>, shape: seq<nat>, within: seq<nat>, paddedAxis: seq<bool>)
    requires |extents| == |axes| && Grouped(axes, |shape|) && Covering(axes, extents, shape)
    requires FactoredByRuns(axes, extents, shape, within, paddedAxis)
    ensures within == Withins(axes, extents) && Factored(axes, extents, shape, paddedAxis)
  {
    hide Product, Group, RunProduct, RunWeight, Starts, Grouped;
    forall j | 0 <= j < |axes| ensures within[j] == Withins(axes, extents)[j] {
      RunIsGroup(axes, extents, |shape|, j);
    }
    forall a | 0 <= a < |shape| ensures AxisFactored(axes, extents, shape, paddedAxis, a) {
      var at := GroupedStart(axes, |shape|, a);
      RunIsGroup(axes, extents, |shape|, at);
      if paddedAxis[a] {
        var s :| 0 <= s < |axes| && RunPads(axes, extents, shape, s, a);
        RunIsGroup(axes, extents, |shape|, s);
      } else {
        assert !RunPads(axes, extents, shape, at, a);
      }
    }
  }

  lemma AxisBelow(axes: seq<nat>, rank: nat, at: nat)
    requires Grouped(axes, rank) && at < |axes|
    ensures axes[at] < rank
  {
    GroupedSorted(axes, rank, at, |axes| - 1);
  }

  method ElementCount(shape: seq<nat>) returns (n: nat)
    ensures n == Product(shape)
  {
    n := 1;
    for i := 0 to |shape|
      invariant n * Product(shape[i..]) == Product(shape)
    {
      assert shape[i..][1..] == shape[i + 1..];
      Associate(n, shape[i], Product(shape[i + 1..]));
      n := n * shape[i];
    }
  }

  /** The sub-axes a plan walks; the identity is one sub-axis per logical axis. */
  method Factorization(record: Record, shape: seq<nat>) returns (r: Option<LayoutError>, axes: seq<nat>, extents: seq<nat>)
    ensures r.None? <==> FormulasOk(record, shape)
    ensures r.None? ==> axes == PlanAxes(record, shape) && extents == PlanExtents(record, shape)
  {
    axes, extents := [], [];
    if record.IsIdentity() {
      return None, Iota(|shape|), shape;
    }
    for i := 0 to |record.subAxes|
      invariant |axes| == |extents| == i
      invariant forall j | 0 <= j < i :: axes[j] == record.subAxes[j].axis
      invariant forall j | 0 <= j < i :: record.subAxes[j].extent(shape) == Some(extents[j]) && extents[j] > 0
    {
      var extent := record.subAxes[i].extent(shape);
      if extent.None? || extent.value == 0 {
        return Some(BadFormula(record.subAxes[i].axis)), [], [];
      }
      axes := axes + [record.subAxes[i].axis];
      extents := extents + [extent.value];
    }
    r := None;
  }

  /** The shapes any record, checked or not, is planned at. */
  ghost predicate PlannedByRuns(record: Record, shape: seq<nat>) {
    && (record.rank != 0 ==> |shape| == record.rank)
    && shape != [] && Positive(shape)
    && FormulasOk(record, shape)
    && RunsCover(PlanAxes(record, shape), PlanExtents(record, shape), shape)
  }

  /** `p` holds the declared factorization and permutation with every number `plan` derives. */
  ghost predicate PlanByRuns(record: Record, shape: seq<nat>, p: Plan)
    requires PlannedByRuns(record, shape)
  {
    && p.shape == shape && p.axes == PlanAxes(record, shape) && p.extents == PlanExtents(record, shape)
    && p.permutation == (if record.IsIdentity() then Iota(|shape|) else record.permutation)
    && FactoredByRuns(p.axes, p.extents, shape, p.within, p.paddedAxis)
    && RowMajor(shape, p.logicalStride) && (forall j | 0 <= j < |p.axes| :: p.axes[j] < |shape|)
    && p.srcStride == SourceStrides(p.axes, p.within, p.logicalStride)
    && (p.padded <==> exists a :: 0 <= a < |shape| && p.paddedAxis[a])
    && p.sourceElements == Product(shape) && p.destElements == Product(p.extents)
  }

  /** Plans a record for one concrete logical shape. */
  method PlanFor(record: Record, shape: seq<nat>) returns (r: Result<Plan, LayoutError>)
    ensures r.Ok? <==> PlannedByRuns(record, shape)
    ensures r.Ok? ==> PlanByRuns(record, shape, r.value)
    ensures WellFactored(record) ==> (r.Ok? <==> Plannable(record, shape))
    ensures WellFactored(record) && r.Ok? ==> Plans(record, shape, r.value)
  {
    hide WellFactored, Grouped, RunsCover, FactoredByRuns, Plannable, Plans, PlanAxes, PlanExtents, Product;
    PlannedMeans(record, shape);
    if record.rank != 0 && |shape| != record.rank {
      return Err(Rank(record.rank, |shape|));
    }
    if shape == [] || 0 in shape {
      assert shape == [] || !Positive(shape);
      return Err(BadRecord);
    }
    assert Positive(shape);
    var sourceElements := ElementCount(shape);
    var logicalStride := RowMajorStrides(shape);
    var refused, axes, extents := Factorization(record, shape);
    if refused.Some? {
      return Err(refused.value);
    }
    var short, within, paddedAxis, padded := FactorAxes(axes, extents, shape, record.rank);
    if short.Some? {
      return Err(short.value);
    }
    forall j | 0 <= j < |axes| ensures axes[j] < |shape| { RunAxesBelow(axes, extents, shape, j); }
    FactoredLengths(axes, extents, shape, within, paddedAxis);
    var permutation := if record.IsIdentity() then Iota(|shape|) else record.permutation;
    var srcStride := SourceStrides(axes, within, logicalStride);
    var destElements := ElementCount(extents);
    var plan := Plan(shape, axes, extents, within, permutation, logicalStride, srcStride, paddedAxis,
                     sourceElements, destElements, padded);
    PlanMeans(record, shape, plan);
    return Ok(plan);
  }

  lemma FactoredLengths(axes: seq<nat>, extents: seq<nat>, shape: seq<nat>, within: seq<nat>, paddedAxis: seq<bool>)
    requires |extents| == |axes| && FactoredByRuns(axes, extents, shape, within, paddedAxis)
    ensures |within| == |axes| && |paddedAxis| == |shape|
  {
  }

  /** For a well factored record the run-by-run test is that every axis is covered. */
  lemma PlannedMeans(record: Record, shape: seq<nat>)
    ensures WellFactored(record) ==> (PlannedByRuns(record, shape) <==> Plannable(record, shape))
  {
    hide Covering, RunsCover, Grouped;
    if WellFactored(record) && shape != [] && (record.rank != 0 ==> |shape| == record.rank) && FormulasOk(record, shape) {
      PlanAxesGrouped(record, shape);
      GroupedCover(PlanAxes(record, shape), PlanExtents(record, shape), shape);
    }
  }

  /** And its plan is the one every later proof starts from. */
  lemma PlanMeans(record: Record, shape: seq<nat>, p: Plan)
    requires PlannedByRuns(record, shape) && PlanByRuns(record, shape, p)
    ensures WellFactored(record) ==> Plannable(record, shape) && Plans(record, shape, p)
  {
    hide Product, FactoredByRuns, Factored, Grouped, RunsCover, Covering, Withins;
    if WellFactored(record) {
      PlannedMeans(record, shape);
      PlanAxesGrouped(record, shape);
      GroupedFactored(p.axes, p.extents, shape, p.within, p.paddedAxis);
    }
  }

  lemma PlanAxesGrouped(record: Record, shape: seq<nat>)
    requires WellFactored(record) && shape != [] && (record.rank != 0 ==> |shape| == record.rank)
    ensures Grouped(PlanAxes(record, shape), |shape|)
  {
  }
}
