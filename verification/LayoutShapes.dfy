/** The index map of a plan in plain arithmetic, on three families of layouts: three axes turned
    round, a matrix cut into tiles with its last tiles padded, and the identity. */
module LayoutShapes {
  import opened Wrappers
  import opened MixedRadix
  import opened LayoutMorphism
  import opened LayoutMap
  import opened LayoutWalk

  lemma Value1(a: nat, i: nat)
    ensures Value([a], [i]) == i && Product([a]) == a
  {
    assert [a][1..] == [] && [i][1..] == [];
  }

  lemma Value2(a: nat, b: nat, i: nat, j: nat)
    ensures Value([a, b], [i, j]) == i * b + j && Product([a, b]) == a * b
  {
    Value1(b, j);
    assert [a, b][1..] == [b] && [i, j][1..] == [j];
  }

  /** Where the element (i, j, k) of a row-major array stands, by its last two extents. */
  function Row(b: nat, c: nat, i: nat, j: nat, k: nat): nat { (i * b + j) * c + k }

  lemma Value3(a: nat, b: nat, c: nat, i: nat, j: nat, k: nat)
    ensures Value([a, b, c], [i, j, k]) == Row(b, c, i, j, k)
  {
    Value2(b, c, j, k);
    assert [a, b, c][1..] == [b, c] && [i, j, k][1..] == [j, k];
    Associate(i, b, c);
    Distribute(i * b, j, c);
  }

  lemma Value4(a: nat, b: nat, c: nat, d: nat, i: nat, j: nat, k: nat, l: nat)
    ensures Value([a, b, c, d], [i, j, k, l]) == ((i * b + j) * c + k) * d + l
  {
    Value3(b, c, d, j, k, l);
    Value2(c, d, 0, 0);
    assert [b, c, d][1..] == [c, d];
    assert [a, b, c, d][1..] == [b, c, d] && [i, j, k, l][1..] == [j, k, l];
    Associate(i, b, c * d);
    Associate(i * b, c, d);
    Distribute(i * b * c, (j * c + k), d);
    Distribute(i * b, j, c);
  }

  // --- three axes turned round --------------------------------------------------

  lemma Group3(x: nat, y: nat, z: nat)
    ensures Group([0, 1, 2], [x, y, z], 0) == [x] && Group([0, 1, 2], [x, y, z], 1) == [y]
    ensures Group([0, 1, 2], [x, y, z], 2) == [z]
  {
    assert [0, 1, 2][1..] == [1, 2] && [1, 2][1..] == [2] && [2][1..] == [];
    assert [x, y, z][1..] == [y, z] && [y, z][1..] == [z] && [z][1..] == [];
    assert forall a: nat :: Group([2], [z], a) == if a == 2 then [z] else [];
    assert forall a: nat :: Group([1, 2], [y, z], a) == (if a == 1 then [y] else []) + Group([2], [z], a);
  }

  /** Destination slot `d` carries the source element `s`, or is padding. */
  ghost predicate Carries(p: Plan, d: nat, s: Option<nat>)
    requires Valid(p)
  {
    d < p.destElements && SourceAt(p, d) == s
  }

  /** Storage position `t` holds sub-axis `permutation[t]`: the permutation [1, 2, 0] stores the
      axes as (second, third, first). */
  lemma Turned(p: Plan, i: nat, j: nat, k: nat)
    requires Valid(p) && |p.shape| == 3 && p.axes == [0, 1, 2] && p.extents == p.shape && p.permutation == [1, 2, 0]
    requires i < p.shape[0] && j < p.shape[1] && k < p.shape[2]
    ensures var a, b, c := p.shape[0], p.shape[1], p.shape[2];
      Carries(p, Row(c, a, j, k, i), Some(Row(b, c, i, j, k)))
  {
    hide Valid, SourceAt, SlotOf, SourceOf, Counter;
    var a, b, c := p.shape[0], p.shape[1], p.shape[2];
    TurnedCoords(p, i, j, k);
    TurnedSlot(p, i, j, k);
    SourceAtSlot(p, [i, j, k]);
  }

  lemma TurnedCoords(p: Plan, i: nat, j: nat, k: nat)
    requires |p.shape| == 3 && p.axes == [0, 1, 2] && p.extents == p.shape
    requires i < p.shape[0] && j < p.shape[1] && k < p.shape[2]
    ensures Counter(p, [i, j, k]) && SourceOf(p, [i, j, k]) == Some(Row(p.shape[1], p.shape[2], i, j, k))
  {
    hide Value, Group;
    var a, b, c := p.shape[0], p.shape[1], p.shape[2];
    var x := [i, j, k];
    assert p.shape == [a, b, c];
    Group3(a, b, c);
    Group3(i, j, k);
    Value1(a, i);
    Value1(b, j);
    Value1(c, k);
    assert Coords(p, x) == x;
    Value3(a, b, c, i, j, k);
  }

  lemma TurnedSlot(p: Plan, i: nat, j: nat, k: nat)
    requires Valid(p) && |p.shape| == 3 && p.extents == p.shape && p.permutation == [1, 2, 0] && Counter(p, [i, j, k])
    ensures SlotOf(p, [i, j, k]) == Row(p.shape[2], p.shape[0], j, k, i)
  {
    hide Valid, Value;
    assert Valid(p) && |p.permutation| == 3;
    var a, b, c := p.shape[0], p.shape[1], p.shape[2];
    assert Storage(p) == [b, c, a];
    assert Gather(p.permutation, [i, j, k]) == [j, k, i];
    Value3(b, c, a, j, k, i);
  }

  // --- a matrix in tiles ----------------------------------------------------------

  lemma Group4(x: nat, y: nat, z: nat, w: nat)
    ensures Group([0, 0, 1, 1], [x, y, z, w], 0) == [x, y] && Group([0, 0, 1, 1], [x, y, z, w], 1) == [z, w]
  {
    assert [0, 0, 1, 1][1..] == [0, 1, 1] && [0, 1, 1][1..] == [1, 1] && [1, 1][1..] == [1] && [1][1..] == [];
    assert [x, y, z, w][1..] == [y, z, w] && [y, z, w][1..] == [z, w] && [z, w][1..] == [w] && [w][1..] == [];
    assert forall a: nat :: Group([1], [w], a) == if a == 1 then [w] else [];
    assert forall a: nat :: Group([1, 1], [z, w], a) == (if a == 1 then [z] else []) + Group([1], [w], a);
    assert forall a: nat :: Group([0, 1, 1], [y, z, w], a) == (if a == 0 then [y] else []) + Group([1, 1], [z, w], a);
  }

  /** The tile (u, v) of a matrix, its row i and column j: tiles are stored one after another, each
      row by row, and a place past the matrix's edge is padding. */
  ghost predicate InTile(p: Plan, u: nat, v: nat, i: nat, j: nat) {
    && |p.shape| == 2 && p.axes == [0, 0, 1, 1] && |p.extents| == 4
    && u < p.extents[0] && i < p.extents[1] && v < p.extents[2] && j < p.extents[3]
  }

  ghost function TileSlot(p: Plan, u: nat, v: nat, i: nat, j: nat): nat
    requires InTile(p, u, v, i, j)
  {
    var high, across, wide := p.extents[1], p.extents[2], p.extents[3];
    ((u * across + v) * high + i) * wide + j
  }

  ghost function TileSource(p: Plan, u: nat, v: nat, i: nat, j: nat): Option<nat>
    requires InTile(p, u, v, i, j)
  {
    var row, column := u * p.extents[1] + i, v * p.extents[3] + j;
    if row < p.shape[0] && column < p.shape[1] then Some(row * p.shape[1] + column) else None
  }

  lemma Tiled(p: Plan, u: nat, v: nat, i: nat, j: nat)
    requires Valid(p) && InTile(p, u, v, i, j) && p.permutation == [0, 2, 1, 3]
    ensures Carries(p, TileSlot(p, u, v, i, j), TileSource(p, u, v, i, j))
  {
    hide Valid, SourceAt, SlotOf, SourceOf, Counter;
    TiledCoords(p, u, v, i, j);
    TiledSlot(p, u, v, i, j);
    SourceAtSlot(p, [u, i, v, j]);
  }

  lemma TiledCoords(p: Plan, u: nat, v: nat, i: nat, j: nat)
    requires InTile(p, u, v, i, j)
    ensures Counter(p, [u, i, v, j]) && SourceOf(p, [u, i, v, j]) == TileSource(p, u, v, i, j)
  {
    hide Value, Group, Product;
    var a, b, c, d := p.extents[0], p.extents[1], p.extents[2], p.extents[3];
    assert p.extents == [a, b, c, d] && p.shape == [p.shape[0], p.shape[1]];
    Group4(a, b, c, d);
    Group4(u, i, v, j);
    Value2(a, b, u, i);
    Value2(c, d, v, j);
    assert Coords(p, [u, i, v, j]) == [u * b + i, v * d + j];
    Value2(p.shape[0], p.shape[1], u * b + i, v * d + j);
  }

  lemma TiledSlot(p: Plan, u: nat, v: nat, i: nat, j: nat)
    requires Valid(p) && InTile(p, u, v, i, j) && p.permutation == [0, 2, 1, 3] && Counter(p, [u, i, v, j])
    ensures SlotOf(p, [u, i, v, j]) == TileSlot(p, u, v, i, j)
  {
    hide Valid, Value;
    var a, b, c, d := p.extents[0], p.extents[1], p.extents[2], p.extents[3];
    assert Storage(p) == [a, c, b, d];
    assert Gather(p.permutation, [u, i, v, j]) == [u, v, i, j];
    Value4(a, c, b, d, u, v, i, j);
  }

  // --- the identity ------------------------------------------------------------------

  lemma GroupAlone(x: seq<nat>, a: nat)
    requires a < |x|
    ensures Group(Iota(|x|), x, a) == [x[a]]
    ensures Group(Iota(|x|)[a + 1..], x[a + 1..], a) == []
  {
    var axes := Iota(|x|);
    GroupSkip(axes, x, a, a);
    GroupRun(axes, x, a, a + 1, a);
    GroupRun(axes, x, a + 1, a + 1, a);
    assert x[a + 1..a + 1] == [];
  }

  ghost predicate Plain(p: Plan) {
    p.extents == p.shape && p.axes == p.permutation == Iota(|p.shape|)
  }

  /** The plan of the identity record carries every element to its own place, and its walk is a
      single run. */
  lemma IdentityStays(p: Plan, d: nat)
    requires Valid(p) && Plain(p) && d < p.destElements
    ensures p.destElements == p.sourceElements && SourceAt(p, d) == Some(d)
  {
    hide Valid, Group, Value;
    var c := CounterAt(p, d);
    PlainSize(p);
    forall a | 0 <= a < |p.shape| ensures Coord(p, c, a) == c[a] {
      GroupAlone(c, a);
      GroupAlone(p.shape, a);
      Value1(p.shape[a], c[a]);
    }
    assert Coords(p, c) == c;
    assert Storage(p) == p.shape && Gather(p.permutation, c) == c;
  }

  lemma PlainSize(p: Plan)
    requires Valid(p) && Plain(p)
    ensures p.destElements == p.sourceElements
  {
  }

  lemma IdentityIsOneRun(p: Plan)
    requires Valid(p) && Plain(p)
    ensures RunLength(p) == p.destElements && !p.padded
  {
    forall q | 0 <= q < |p.extents| ensures Foldable(p, q) && !p.paddedAxis[q] { IdentityFolds(p, q); }
    FoldsThrough(p, |p.extents|);
    WeightEnds(p);
  }

  lemma IdentityFolds(p: Plan, q: nat)
    requires Valid(p) && Plain(p) && q < |p.extents|
    ensures |p.paddedAxis| == |p.shape| && Foldable(p, q) && !p.paddedAxis[q]
  {
    hide Group, Withins;
    GroupAlone(p.shape, q);
    Value1(p.shape[q], 0);
    assert AxisFactored(p.axes, p.extents, p.shape, p.paddedAxis, q);
    WithinsAt(p.axes, p.extents, q);
    assert Storage(p) == p.shape;
  }

  lemma {:induction false} FoldsThrough(p: Plan, from: nat)
    requires Valid(p) && from <= |p.extents| && forall q | 0 <= q < from :: Foldable(p, q)
    ensures FoldStop(p, from) == 0
  {
    if from > 0 {
      FoldsThrough(p, from - 1);
    }
  }

  // --- which records and shapes are accepted -------------------------------------------------

  /** Sub-axes are in order exactly when they ascend and name each logical axis at least once. */
  lemma GroupedIff(axes: seq<nat>, rank: nat)
    ensures Grouped(axes, rank) <==>
      && axes != [] && (forall i, j | 0 <= i < j < |axes| :: axes[i] <= axes[j])
      && (forall a: nat :: a in axes <==> a < rank)
  {
    hide Grouped;
    if Grouped(axes, rank) {
      GroupedBounds(axes, rank);
      GroupedNonempty(axes, rank);
      forall a: nat | a < rank ensures a in axes { var at := GroupedStart(axes, rank, a); }
    } else if axes != [] && (forall i, j | 0 <= i < j < |axes| :: axes[i] <= axes[j]) && (forall a: nat :: a in axes <==> a < rank) {
      AscendingIsGrouped(axes, rank);
      assert false;
    }
  }

  lemma GroupedNonempty(axes: seq<nat>, rank: nat)
    requires Grouped(axes, rank)
    ensures axes != []
  {
  }

  lemma AscendingIsGrouped(axes: seq<nat>, rank: nat)
    requires axes != [] && (forall i, j | 0 <= i < j < |axes| :: axes[i] <= axes[j]) && (forall a: nat :: a in axes <==> a < rank)
    ensures Grouped(axes, rank)
  {
    var n := |axes| - 1;
    assert axes[0] in axes && axes[n] in axes;
    assert 0 in axes && rank - 1 in axes;
    forall i | 0 < i < |axes| ensures StaysOrSteps(axes, i) {
      assert axes[i] in axes;
      if axes[i] > axes[i - 1] + 1 {
        var a := axes[i - 1] + 1;
        assert a in axes;
        var k :| 0 <= k < |axes| && axes[k] == a;
      }
    }
  }

  function TiledRecord(high: Formula, i: Formula, wide: Formula, j: Formula): Record {
    Record(true, 1, 2, [SubAxis(0, high), SubAxis(0, i), SubAxis(1, wide), SubAxis(1, j)], [0, 2, 1, 3], false)
  }

  /** The tile record is accepted, and planned at exactly the matrices its tiles cover. */
  lemma TilesArePlanned(high: Formula, i: Formula, wide: Formula, j: Formula, m: nat, n: nat)
    requires m > 0 && n > 0
    ensures Sound(TiledRecord(high, i, wide, j))
    ensures var shape := [m, n]; var a, b, c, d := high(shape), i(shape), wide(shape), j(shape);
      Plannable(TiledRecord(high, i, wide, j), shape) <==>
        && a.Some? && b.Some? && c.Some? && d.Some? && a.value > 0 && b.value > 0 && c.value > 0 && d.value > 0
        && m <= a.value * b.value && n <= c.value * d.value
  {
    hide Product, Group;
    var record, shape := TiledRecord(high, i, wide, j), [m, n];
    var axes := DeclaredAxes(record.subAxes);
    assert axes == [0, 0, 1, 1];
    assert forall k | 0 < k < |axes| :: StaysOrSteps(axes, k);
    assert record.subAxes[0].extent == high && record.subAxes[1].extent == i;
    assert record.subAxes[2].extent == wide && record.subAxes[3].extent == j;
    if FormulasOk(record, shape) {
      var a, b, c, d := high(shape).value, i(shape).value, wide(shape).value, j(shape).value;
      assert PlanExtents(record, shape) == [a, b, c, d];
      Group4(a, b, c, d);
      Value2(a, b, 0, 0);
      Value2(c, d, 0, 0);
      assert shape[0] == m && shape[1] == n;
    }
  }

  /** The identity record is planned at every shape of positive dimensions, as the plain plan. */
  lemma IdentityIsPlanned(record: Record, shape: seq<nat>, p: Plan)
    requires record.IsIdentity() && WellFactored(record)
    ensures Plannable(record, shape) <==> shape != [] && Positive(shape)
    ensures Plannable(record, shape) && Plans(record, shape, p) ==> Plain(p) && Valid(p)
  {
    hide Product, Group, Valid;
    if shape != [] && Positive(shape) {
      forall a | 0 <= a < |shape| ensures shape[a] <= Product(Group(Iota(|shape|), shape, a)) {
        GroupAlone(shape, a);
        Value1(shape[a], 0);
      }
    }
  }
}
