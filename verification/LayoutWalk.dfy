/** The folded run walk over a plan, and its per-element expansion. */
module LayoutWalk {
  import opened Wrappers
  import opened MixedRadix
  import opened LayoutMorphism
  import opened LayoutMap

  /** One visit of the walk: `length` destination elements from `to` on, copied
      from consecutive source elements, or all padding. */
  datatype Run = Run(to: nat, from: Option<nat>, length: nat)

  ghost function Shift(from: Option<nat>, k: nat): Option<nat> {
    match from case None => None case Some(s) => Some(s + k)
  }

  /** Every element of the run reads what the unfolded map says. */
  ghost predicate Faithful(p: Plan, run: Run)
    requires Valid(p)
  {
    && run.to + run.length <= p.destElements
    && forall d | run.to <= d < run.to + run.length :: SourceAt(p, d) == Shift(run.from, d - run.to)
  }

  /** The runs cover destinations lo..hi once each, in order. */
  ghost predicate Tiles(runs: seq<Run>, lo: nat, hi: nat) {
    if runs == [] then lo == hi
    else runs[0].to == lo && runs[0].length > 0 && Tiles(runs[1..], lo + runs[0].length, hi)
  }

  lemma {:induction false} TilesAppend(runs: seq<Run>, lo: nat, mid: nat, run: Run)
    requires Tiles(runs, lo, mid) && run.to == mid && run.length > 0
    ensures Tiles(runs + [run], lo, mid + run.length)
  {
    if runs == [] {
      assert (runs + [run])[1..] == [];
    } else {
      TilesAppend(runs[1..], lo + runs[0].length, mid, run);
      assert (runs + [run])[1..] == runs[1..] + [run];
    }
  }

  // --- how the odometer moves --------------------------------------------------

  /** The slot number of a counter vector, in range or not. */
  ghost function Mark(p: Plan, c: seq<nat>): nat
    requires Valid(p) && |c| == |p.extents|
  {
    Value(Storage(p), Gather(p.permutation, c))
  }

  ghost function Weight(p: Plan, position: nat): nat
    requires Valid(p) && position <= |p.extents|
  {
    Product(Storage(p)[position..])
  }

  lemma WeightStep(p: Plan, position: nat)
    requires Valid(p) && position < |p.extents|
    ensures Weight(p, position) == p.extents[p.permutation[position]] * Weight(p, position + 1)
  {
    ProductSplit(Storage(p), position);
  }

  lemma WeightEnds(p: Plan)
    requires Valid(p)
    ensures Weight(p, 0) == p.destElements && Weight(p, |p.extents|) == 1
  {
    assert Storage(p)[0..] == Storage(p);
  }

  lemma WeightPositiveAt(p: Plan, position: nat)
    requires Valid(p) && position <= |p.extents|
    ensures Weight(p, position) > 0
  {
    ProductPositive(Storage(p)[position..]);
  }

  /** Turning the counter at one storage position. */
  lemma Turn(p: Plan, c: seq<nat>, position: nat, v: nat)
    requires Valid(p) && |c| == |p.extents| && position < |p.extents|
    ensures var at := p.permutation[position];
      Mark(p, c[at := v]) + c[at] * Weight(p, position + 1) == Mark(p, c) + v * Weight(p, position + 1)
  {
    var at := p.permutation[position];
    ValueUpdate(Storage(p), Gather(p.permutation, c), position, v);
    assert Gather(p.permutation, c[at := v]) == Gather(p.permutation, c)[position := v];
  }

  lemma TurnCoords(p: Plan, c: seq<nat>, at: nat, v: nat)
    requires Valid(p) && |c| == |p.extents| && at < |p.extents|
    ensures Coord(p, c[at := v], p.axes[at]) + c[at] * p.within[at] == Coord(p, c, p.axes[at]) + v * p.within[at]
    ensures Coords(p, c[at := v]) == Coords(p, c)[p.axes[at] := Coord(p, c[at := v], p.axes[at])]
  {
    forall a | 0 <= a < |p.shape|
      ensures if p.axes[at] == a then Coord(p, c[at := v], a) + c[at] * p.within[at] == Coord(p, c, a) + v * p.within[at]
              else Coord(p, c[at := v], a) == Coord(p, c, a)
    {
      GroupUpdate(p.axes, p.extents, c, at, v, a);
    }
  }

  /** The bounds every index into a valid plan relies on. */
  lemma Sizes(p: Plan, position: nat)
    requires Valid(p) && position < |p.extents|
    ensures |p.axes| == |p.extents| == |p.permutation| == |p.within| == |p.srcStride|
    ensures |p.paddedAxis| == |p.shape| == |p.logicalStride|
    ensures p.permutation[position] < |p.extents| && p.axes[p.permutation[position]] < |p.shape|
  {
  }

  /** A storage position the walk may fold: its axis is unpadded and one step of
      it moves as far in the source as it does in the destination. */
  ghost predicate Foldable(p: Plan, position: nat)
    requires Valid(p) && position < |p.extents|
  {
    var at := p.permutation[position];
    !p.paddedAxis[p.axes[at]] && p.srcStride[at] == Weight(p, position + 1)
  }

  ghost predicate Folded(p: Plan, outer: nat)
    requires Valid(p)
  {
    outer <= |p.extents| && forall q | outer <= q < |p.extents| :: Foldable(p, q)
  }

  ghost predicate ZeroFrom(p: Plan, c: seq<nat>, outer: nat)
    requires Valid(p) && |c| == |p.extents|
  {
    forall q | outer <= q < |p.extents| :: c[p.permutation[q]] == 0
  }

  lemma Strides(p: Plan)
    requires Valid(p)
    ensures RowMajor(p.shape, p.logicalStride) && |p.axes| == |p.extents|
  {
  }

  lemma SourceStep(p: Plan, position: nat)
    requires Valid(p) && position < |p.extents|
    ensures var at := p.permutation[position]; var a := p.axes[at];
      && p.srcStride[at] == p.within[at] * p.logicalStride[a]
      && p.logicalStride[a] == Product(p.shape[a + 1..])
  {
  }

  /** Stepping a folded position keeps padding padding and a source element
      moves by exactly as much as the destination does. */
  lemma FoldedStep(p: Plan, c: seq<nat>, position: nat, v: nat, span: nat)
    requires Valid(p) && Counter(p, c) && position < |p.extents| && Foldable(p, position)
    requires var at := p.permutation[position]; c[at] == 0 && v < p.extents[at]
    requires span == v * Weight(p, position + 1)
    ensures SourceOf(p, c[p.permutation[position] := v]) == Shift(SourceOf(p, c), span)
  {
    hide Valid, Weight, Coord, Product, Group;
    Sizes(p, position);
    var at := p.permutation[position];
    var a := p.axes[at];
    SourceStep(p, position);
    var c' := c[at := v];
    TurnCoords(p, c, at, v);
    CoordBound(p, c, a);
    CoordBound(p, c', a);
    var x, x' := Coords(p, c), Coords(p, c');
    assert InRange(x, p.shape) <==> InRange(x', p.shape) by {
      assert forall b | 0 <= b < |p.shape| && b != a :: x[b] == x'[b];
    }
    ValueUpdate(p.shape, x, a, x'[a]);
    Distribute(x[a], v * p.within[at], p.logicalStride[a]);
    Associate(v, p.within[at], p.logicalStride[a]);
  }

  lemma ZeroTail(p: Plan, c: seq<nat>, outer: nat, v: nat)
    requires Valid(p) && |c| == |p.extents| && outer < |p.extents| && ZeroFrom(p, c, outer)
    ensures p.permutation[outer] < |c| && c[p.permutation[outer]] == 0
    ensures ZeroFrom(p, c[p.permutation[outer] := v], outer + 1)
  {
  }

  /** Every element of a run, from the counters its start stands on. */
  lemma {:induction false} FoldedElement(p: Plan, c: seq<nat>, outer: nat, k: nat)
    requires Valid(p) && Counter(p, c) && Folded(p, outer) && ZeroFrom(p, c, outer)
    requires k < Weight(p, outer)
    ensures SlotOf(p, c) + k < p.destElements
    ensures SourceAt(p, SlotOf(p, c) + k) == Shift(SourceOf(p, c), k)
    decreases |p.extents| - outer
  {
    hide Valid, Storage, Weight, SourceOf, SourceAt;
    WeightEnds(p);
    if outer == |p.extents| {
      SourceAtSlot(p, c);
    } else {
      Sizes(p, outer);
      var at := p.permutation[outer];
      var w := Weight(p, outer + 1);
      WeightStep(p, outer);
      WeightPositiveAt(p, outer + 1);
      QuotientBound(k, p.extents[at], w);
      var v := k / w;
      var c' := c[at := v];
      Turn(p, c, outer, v);
      Scale(0, v, w);
      FoldedStep(p, c, outer, v, v * w);
      ZeroTail(p, c, outer, v);
      FoldedElement(p, c', outer + 1, k % w);
    }
  }

  // --- the walk ---------------------------------------------------------------

  /** Where folding from position `from` inwards stops: the first position that may not fold. */
  ghost function FoldStop(p: Plan, from: nat): (outer: nat)
    requires Valid(p) && from <= |p.extents|
    ensures outer <= from
  {
    if from > 0 && Foldable(p, from - 1) then FoldStop(p, from - 1) else from
  }

  /** The structural run length: the product of the storage extents that fold. */
  ghost function RunLength(p: Plan): nat
    requires Valid(p)
  {
    Weight(p, FoldStop(p, |p.extents|))
  }

  /** Folds trailing storage positions while they stay contiguous. */
  method Fold(p: Plan) returns (run: nat, outer: nat)
    requires Valid(p)
    ensures outer <= |p.extents| && Folded(p, outer) && run == Weight(p, outer) == RunLength(p) && run > 0
    ensures outer > 0 ==> !Foldable(p, outer - 1)
  {
    hide Valid, Storage, Weight;
    run, outer := 1, |p.extents|;
    assert Folded(p, outer);
    WeightEnds(p);
    while outer > 0
      invariant Folded(p, outer) && run == Weight(p, outer) && FoldStop(p, |p.extents|) == FoldStop(p, outer)
    {
      Sizes(p, outer - 1);
      var at := p.permutation[outer - 1];
      if p.paddedAxis[p.axes[at]] || p.srcStride[at] != run {
        break;
      }
      WeightStep(p, outer - 1);
      assert Foldable(p, outer - 1);
      run := run * p.extents[at];
      outer := outer - 1;
    }
    WeightPositiveAt(p, outer);
  }

  /** The source element the coordinates name, axis by axis with early exit. */
  method Locate(shape: seq<nat>, strides: seq<nat>, coord: seq<nat>) returns (source: Option<nat>)
    requires RowMajor(shape, strides) && |coord| == |shape|
    ensures source == if InRange(coord, shape) then Some(Value(shape, coord)) else None
  {
    var offset: int := 0;
    for axis := 0 to |coord|
      invariant forall a | 0 <= a < axis :: coord[a] < shape[a]
      invariant offset + Value(shape[axis..], coord[axis..]) == Value(shape, coord)
    {
      if coord[axis] >= shape[axis] {
        return None;
      }
      assert shape[axis..][1..] == shape[axis + 1..] && coord[axis..][1..] == coord[axis + 1..];
      offset := offset + coord[axis] * strides[axis];
    }
    return Some(offset);
  }

  /** The odometer stands on counters `c`, with the coordinates kept in step and
      nothing turned at the folded positions. */
  ghost predicate Stands(p: Plan, outer: nat, c: seq<nat>, coord: seq<nat>)
    requires Valid(p)
  {
    Counter(p, c) && ZeroFrom(p, c, outer) && coord == Coords(p, c)
  }

  lemma TurnUp(p: Plan, outer: nat, c: seq<nat>, coord: seq<nat>, position: nat)
    requires Valid(p) && Stands(p, outer, c, coord) && position < outer <= |p.extents|
    requires c[p.permutation[position]] + 1 < p.extents[p.permutation[position]]
    ensures var at := p.permutation[position];
      var c' := c[at := c[at] + 1];
      && Stands(p, outer, c', coord[p.axes[at] := coord[p.axes[at]] + p.within[at]])
      && SlotOf(p, c') == SlotOf(p, c) + Weight(p, position + 1)
  {
    hide Valid, Storage, Weight, Coord, Group;
    Sizes(p, position);
    var at := p.permutation[position];
    Turn(p, c, position, c[at] + 1);
    TurnCoords(p, c, at, c[at] + 1);
    TurnKeepsZeros(p, c, outer, position, c[at] + 1);
    Distribute(c[at], 1, Weight(p, position + 1));
    Distribute(c[at], 1, p.within[at]);
  }

  lemma TurnKeepsZeros(p: Plan, c: seq<nat>, outer: nat, position: nat, v: nat)
    requires Valid(p) && |c| == |p.extents| && ZeroFrom(p, c, outer) && position < outer <= |p.extents|
    ensures p.permutation[position] < |c| && ZeroFrom(p, c[p.permutation[position] := v], outer)
  {
  }

  lemma TurnOver(p: Plan, outer: nat, c: seq<nat>, coord: seq<nat>, position: nat)
    requires Valid(p) && Stands(p, outer, c, coord) && position < outer <= |p.extents|
    requires c[p.permutation[position]] + 1 == p.extents[p.permutation[position]]
    ensures var at := p.permutation[position];
      && coord[p.axes[at]] + p.within[at] >= p.extents[at] * p.within[at]
      && Stands(p, outer, c[at := 0],
                coord[p.axes[at] := coord[p.axes[at]] + p.within[at] - p.extents[at] * p.within[at]])
      && SlotOf(p, c[at := 0]) + Weight(p, position) == SlotOf(p, c) + Weight(p, position + 1)
  {
    hide Valid, Storage, Weight, Coord, Group;
    Sizes(p, position);
    var at := p.permutation[position];
    Turn(p, c, position, 0);
    TurnCoords(p, c, at, 0);
    TurnKeepsZeros(p, c, outer, position, 0);
    WeightStep(p, position);
    Distribute(c[at], 1, Weight(p, position + 1));
    Distribute(c[at], 1, p.within[at]);
  }

  /** One odometer step over the outer storage positions. */
  method Advance(p: Plan, outer: nat, before: seq<nat>, coordBefore: seq<nat>)
      returns (counters: seq<nat>, coord: seq<nat>)
    requires Valid(p) && outer <= |p.extents| && Stands(p, outer, before, coordBefore)
    ensures Stands(p, outer, counters, coord)
    ensures SlotOf(p, counters) == SlotOf(p, before) + Weight(p, outer)
         || SlotOf(p, counters) + p.destElements == SlotOf(p, before) + Weight(p, outer)
  {
    hide Valid, Storage, Weight, Coords, ZeroFrom, SlotOf;
    counters, coord := before, coordBefore;
    for position := outer downto 0
      invariant Stands(p, outer, counters, coord)
      invariant SlotOf(p, counters) + Weight(p, position) == SlotOf(p, before) + Weight(p, outer)
    {
      Sizes(p, position);
      var at := p.permutation[position];
      var axis := p.axes[at];
      ghost var start, startCoord := counters, coord;
      if counters[at] + 1 < p.extents[at] {
        TurnUp(p, outer, counters, coord, position);
      } else {
        TurnOver(p, outer, counters, coord, position);
      }
      counters := counters[at := counters[at] + 1];
      coord := coord[axis := coord[axis] + p.within[at]];
      if counters[at] < p.extents[at] {
        return;
      }
      coord := coord[axis := coord[axis] - counters[at] * p.within[at]];
      counters := counters[at := 0];
      assert counters == start[at := 0] && coord == startCoord[axis := coord[axis]];
    }
    WeightEnds(p);
  }

  /** THE WALK: contiguous runs in destination order. */
  method ForEachRun(p: Plan) returns (runs: seq<Run>)
    requires Valid(p)
    ensures Tiles(runs, 0, p.destElements)
    ensures forall i | 0 <= i < |runs| :: Faithful(p, runs[i])
    ensures |runs| * RunLength(p) == p.destElements && forall i | 0 <= i < |runs| :: runs[i].length == RunLength(p)
  {
    hide RunLength, Valid, SourceAt, Weight, SlotOf, Folded, ZeroFrom, Faithful, Tiles, Coord;
    var run, outer := Fold(p);
    var counters := seq(|p.extents|, _ => 0);
    var coord := seq(|p.shape|, _ => 0);
    ZeroCounters(p, outer, counters, coord);
    var count := RunCount(p, outer, run);
    runs := [];
    ghost var at := 0;
    for step := 0 to count
      invariant at == step * run && |runs| == step && forall i | 0 <= i < |runs| :: runs[i].length == run
      invariant Stands(p, outer, counters, coord)
      invariant step < count ==> SlotOf(p, counters) == at
      invariant Tiles(runs, 0, at)
      invariant forall i | 0 <= i < |runs| :: Faithful(p, runs[i])
    {
      NextStart(step, run, count);
      Strides(p);
      var source := Locate(p.shape, p.logicalStride, coord);
      var visit := Run(step * run, source, run);
      VisitFaithful(p, counters, outer, visit);
      TilesAppend(runs, 0, at, visit);
      runs := runs + [visit];
      counters, coord := Advance(p, outer, counters, coord);
      at := at + run;
    }
  }

  method RunCount(p: Plan, ghost outer: nat, run: nat) returns (count: nat)
    requires Valid(p) && outer <= |p.extents| && run == Weight(p, outer) && run > 0
    ensures count * run == p.destElements && count > 0
  {
    RunsDivide(p, outer);
    count := p.destElements / run;
    WeightEnds(p);
    WeightPositiveAt(p, 0);
  }

  lemma NextStart(step: nat, run: nat, count: nat)
    requires step < count && run > 0
    ensures (step + 1) * run == step * run + run
    ensures step + 1 < count ==> step * run + run < count * run
  {
    Scale(step + 2, count, run);
    Distribute(step, 1, run);
    Distribute(step + 1, 1, run);
  }

  lemma ZeroCounters(p: Plan, outer: nat, c: seq<nat>, coord: seq<nat>)
    requires Valid(p)
    requires |c| == |p.extents| && forall j | 0 <= j < |c| :: c[j] == 0
    requires |coord| == |p.shape| && forall a | 0 <= a < |coord| :: coord[a] == 0
    ensures Stands(p, outer, c, coord) && SlotOf(p, c) == 0
    ensures Tiles([], 0, 0)
  {
    ZeroValue(Storage(p), Gather(p.permutation, c));
    forall a | 0 <= a < |p.shape| ensures Coord(p, c, a) == 0 {
      ZeroGroup(p.axes, c, a);
      GroupLength(p.axes, p.extents, c, a);
      ZeroValue(Group(p.axes, p.extents, a), Group(p.axes, c, a));
    }
    assert Coords(p, c) == coord;
  }

  lemma {:induction false} ZeroGroup(axes: seq<nat>, c: seq<nat>, a: nat)
    requires |c| == |axes| && forall j | 0 <= j < |c| :: c[j] == 0
    ensures forall j | 0 <= j < |Group(axes, c, a)| :: Group(axes, c, a)[j] == 0
  {
    if axes != [] {
      ZeroGroup(axes[1..], c[1..], a);
    }
  }

  /** The folded run length divides the destination. */
  lemma RunsDivide(p: Plan, outer: nat)
    requires Valid(p) && outer <= |p.extents| && Weight(p, outer) > 0
    ensures p.destElements / Weight(p, outer) * Weight(p, outer) == p.destElements
  {
    ProductSplit(Storage(p), outer);
    var q, w := Product(Storage(p)[..outer]), Weight(p, outer);
    QuotientBound(p.destElements, q + 1, w) by { Distribute(q, 1, w); }
    QuotientUnique(p.destElements / w, q, p.destElements % w, 0, w);
  }

  lemma VisitFaithful(p: Plan, c: seq<nat>, outer: nat, visit: Run)
    requires Valid(p) && Counter(p, c) && Folded(p, outer) && ZeroFrom(p, c, outer)
    requires visit == Run(SlotOf(p, c), SourceOf(p, c), Weight(p, outer)) && visit.length > 0
    ensures Faithful(p, visit)
  {
    hide Valid, SourceAt, SourceOf, Weight, SlotOf, Folded, ZeroFrom;
    FoldedElement(p, c, outer, visit.length - 1);
    forall d | visit.to <= d < visit.to + visit.length
      ensures SourceAt(p, d) == Shift(visit.from, d - visit.to)
    {
      FoldedElement(p, c, outer, d - visit.to);
    }
  }

  /** The walk one element at a time. */
  method ForEach(p: Plan) returns (visits: seq<Option<nat>>)
    requires Valid(p)
    ensures |visits| == p.destElements
    ensures forall d | 0 <= d < p.destElements :: visits[d] == SourceAt(p, d)
  {
    hide Valid, SourceAt;
    var runs := ForEachRun(p);
    visits := [];
    for i := 0 to |runs|
      invariant Tiles(runs[i..], |visits|, p.destElements)
      invariant |visits| <= p.destElements
      invariant forall d | 0 <= d < |visits| :: visits[d] == SourceAt(p, d)
    {
      assert runs[i..][1..] == runs[i + 1..];
      assert Faithful(p, runs[i]);
      for step := 0 to runs[i].length
        invariant |visits| == runs[i].to + step
        invariant forall d | 0 <= d < |visits| :: visits[d] == SourceAt(p, d)
      {
        var from := runs[i].from;
        visits := visits + [if from.None? then None else Some(from.value + step)];
      }
    }
  }
}
