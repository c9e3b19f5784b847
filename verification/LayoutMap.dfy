/** The index map a plan denotes, and the fact that it is a bijection between
    the source elements and the destination slots that are not padding. */
module LayoutMap {
  import opened Wrappers
  import opened MixedRadix
  import opened LayoutMorphism

  /** Sub-axis extents in storage order: the destination's own shape. */
  ghost function Storage(p: Plan): (e: seq<nat>)
    requires Valid(p)
    ensures |e| == |p.extents| && Positive(e) && Product(e) == p.destElements
  {
    ProductGather(p.permutation, p.extents);
    Gather(p.permutation, p.extents)
  }

  /** A vector of sub-axis counters, in declaration order. */
  ghost predicate Counter(p: Plan, c: seq<nat>) { InRange(c, p.extents) }

  /** The destination slot a counter vector stands on. */
  ghost function SlotOf(p: Plan, c: seq<nat>): (d: nat)
    requires Valid(p) && Counter(p, c)
    ensures d < p.destElements
  {
    GatherInRange(p.permutation, c, p.extents);
    ValueBound(Storage(p), Gather(p.permutation, c));
    Value(Storage(p), Gather(p.permutation, c))
  }

  ghost function CounterAt(p: Plan, d: nat): (c: seq<nat>)
    requires Valid(p) && d < p.destElements
    ensures Counter(p, c) && SlotOf(p, c) == d
  {
    var digits := Digits(Storage(p), d);
    var c := Gather(Inverse(p.permutation), digits);
    GatherInverse(p.permutation, digits);
    CounterFromStorage(p, digits);
    c
  }

  lemma CounterFromStorage(p: Plan, digits: seq<nat>)
    requires Valid(p) && InRange(digits, Storage(p))
    ensures Counter(p, Gather(Inverse(p.permutation), digits))
  {
    var q := Inverse(p.permutation);
    forall j | 0 <= j < |p.extents|
      ensures Gather(q, digits)[j] < p.extents[j]
    {
      assert digits[q[j]] < Storage(p)[q[j]] == p.extents[p.permutation[q[j]]];
    }
  }

  lemma SlotInjective(p: Plan, b: seq<nat>, c: seq<nat>)
    requires Valid(p) && Counter(p, b) && Counter(p, c) && SlotOf(p, b) == SlotOf(p, c)
    ensures b == c
  {
    GatherInRange(p.permutation, b, p.extents);
    GatherInRange(p.permutation, c, p.extents);
    ValueInjective(Storage(p), Gather(p.permutation, b), Gather(p.permutation, c));
    GatherInverse(p.permutation, b);
    GatherInverse(p.permutation, c);
  }

  /** One logical coordinate: the mixed-radix value of its axis's own digits. */
  ghost function Coord(p: Plan, c: seq<nat>, a: nat): nat
    requires |c| == |p.extents| == |p.axes|
  {
    GroupLength(p.axes, p.extents, c, a);
    Value(Group(p.axes, p.extents, a), Group(p.axes, c, a))
  }

  ghost function Coords(p: Plan, c: seq<nat>): (x: seq<nat>)
    requires |c| == |p.extents| == |p.axes|
    ensures |x| == |p.shape| && forall a | 0 <= a < |p.shape| :: x[a] == Coord(p, c, a)
  {
    seq(|p.shape|, a requires 0 <= a < |p.shape| => Coord(p, c, a))
  }

  /** The source element a counter vector names, or None for padding: some
      recombined coordinate is at or past its dim. */
  ghost function SourceOf(p: Plan, c: seq<nat>): Option<nat>
    requires |c| == |p.extents| == |p.axes|
  {
    if InRange(Coords(p, c), p.shape) then Some(Value(p.shape, Coords(p, c))) else None
  }

  /** The unfolded map: destination slot to source element. */
  ghost function SourceAt(p: Plan, d: nat): (s: Option<nat>)
    requires Valid(p) && d < p.destElements
    ensures s.Some? ==> s.value < p.sourceElements
  {
    var c := CounterAt(p, d);
    if SourceOf(p, c).Some? then
      ValueBound(p.shape, Coords(p, c));
      SourceOf(p, c)
    else None
  }

  lemma SourceAtSlot(p: Plan, c: seq<nat>)
    requires Valid(p) && Counter(p, c)
    ensures SourceAt(p, SlotOf(p, c)) == SourceOf(p, c)
  {
    SlotInjective(p, c, CounterAt(p, SlotOf(p, c)));
  }

  // --- groups -----------------------------------------------------------------

  lemma {:induction false} GroupLength(axes: seq<nat>, x: seq<nat>, y: seq<nat>, a: nat)
    requires |x| == |y| == |axes|
    ensures |Group(axes, x, a)| == |Group(axes, y, a)|
  {
    if axes != [] {
      GroupLength(axes[1..], x[1..], y[1..], a);
    }
  }

  lemma {:induction false} GroupInRange(axes: seq<nat>, extents: seq<nat>, c: seq<nat>, a: nat)
    requires |extents| == |axes| && InRange(c, extents)
    ensures InRange(Group(axes, c, a), Group(axes, extents, a))
  {
    if axes != [] {
      GroupInRange(axes[1..], extents[1..], c[1..], a);
    }
  }

  lemma CoordBound(p: Plan, c: seq<nat>, a: nat)
    requires Valid(p) && Counter(p, c) && a < |p.shape|
    ensures Coord(p, c, a) < Product(Group(p.axes, p.extents, a))
    ensures !p.paddedAxis[a] ==> Coord(p, c, a) < p.shape[a]
  {
    GroupInRange(p.axes, p.extents, c, a);
    ValueBound(Group(p.axes, p.extents, a), Group(p.axes, c, a));
    assert AxisFactored(p.axes, p.extents, p.shape, p.paddedAxis, a);
  }

  /** Turning one counter moves one coordinate, by that digit's weight. */
  lemma {:induction false} GroupUpdate(axes: seq<nat>, extents: seq<nat>, c: seq<nat>, i: nat, v: nat, a: nat)
    requires |extents| == |c| == |axes| && i < |axes|
    ensures |Group(axes, c, a)| == |Group(axes, c[i := v], a)| == |Group(axes, extents, a)|
    ensures Value(Group(axes, extents, a), Group(axes, c[i := v], a))
          + (if axes[i] == a then c[i] * Withins(axes, extents)[i] else 0)
         == Value(Group(axes, extents, a), Group(axes, c, a))
          + (if axes[i] == a then v * Withins(axes, extents)[i] else 0)
  {
    GroupLength(axes, c, extents, a);
    GroupLength(axes, c[i := v], extents, a);
    if i == 0 {
      assert c[0 := v][1..] == c[1..];
      GroupLength(axes[1..], c[1..], extents[1..], a);
      if axes[0] == a {
        GroupHead(axes, extents, c, a);
        GroupHead(axes, extents, c[0 := v], a);
      } else {
        GroupTail(axes, c, a);
        GroupTail(axes, c[0 := v], a);
      }
    } else {
      assert c[i := v][1..] == c[1..][i - 1 := v];
      GroupUpdate(axes[1..], extents[1..], c[1..], i - 1, v, a);
      if axes[0] == a {
        GroupHead(axes, extents, c, a);
        GroupHead(axes, extents, c[i := v], a);
      } else {
        GroupTail(axes, extents, a);
        GroupTail(axes, c, a);
        GroupTail(axes, c[i := v], a);
      }
    }
  }

  lemma GroupTail(axes: seq<nat>, x: seq<nat>, a: nat)
    requires |x| == |axes| && axes != [] && axes[0] != a
    ensures Group(axes, x, a) == Group(axes[1..], x[1..], a)
  {
  }

  lemma GroupHead(axes: seq<nat>, extents: seq<nat>, c: seq<nat>, a: nat)
    requires |extents| == |c| == |axes| && axes != [] && axes[0] == a
    ensures |Group(axes, c, a)| == |Group(axes, extents, a)|
    ensures |Group(axes[1..], c[1..], a)| == |Group(axes[1..], extents[1..], a)|
    ensures Value(Group(axes, extents, a), Group(axes, c, a))
         == c[0] * Product(Group(axes[1..], extents[1..], a))
          + Value(Group(axes[1..], extents[1..], a), Group(axes[1..], c[1..], a))
  {
    GroupLength(axes[1..], c[1..], extents[1..], a);
    var e1, c1 := Group(axes[1..], extents[1..], a), Group(axes[1..], c[1..], a);
    assert ([extents[0]] + e1)[1..] == e1 && ([c[0]] + c1)[1..] == c1;
  }

  // --- the inverse map --------------------------------------------------------

  /** Every coordinate vector the factorization can address. */
  ghost predicate Addressable(axes: seq<nat>, extents: seq<nat>, coords: seq<nat>)
    requires |extents| == |axes|
  {
    forall a | 0 <= a < |coords| :: coords[a] < Product(Group(axes, extents, a))
  }

  /** The counters that recombine to the given coordinates. */
  lemma {:induction false} Ungroup(axes: seq<nat>, extents: seq<nat>, coords: seq<nat>) returns (c: seq<nat>)
    requires |extents| == |axes| && Positive(extents)
    requires forall j | 0 <= j < |axes| :: axes[j] < |coords|
    requires Addressable(axes, extents, coords)
    ensures InRange(c, extents)
    ensures forall a | 0 <= a < |coords| ::
      && |Group(axes, c, a)| == |Group(axes, extents, a)|
      && Value(Group(axes, extents, a), Group(axes, c, a)) == coords[a]
  {
    if axes == [] {
      c := [];
    } else {
      var h := axes[0];
      var w := Product(Group(axes[1..], extents[1..], h));
      WeightPositive(axes[1..], extents[1..], h);
      HeadProduct(axes, extents, h);
      QuotientBound(coords[h], extents[0], w);
      var rest := coords[h := coords[h] % w];
      forall a | 0 <= a < |rest|
        ensures rest[a] < Product(Group(axes[1..], extents[1..], a))
      {
        if a != h {
          assert Group(axes, extents, a) == Group(axes[1..], extents[1..], a);
        }
      }
      var tail := Ungroup(axes[1..], extents[1..], rest);
      c := [coords[h] / w] + tail;
      assert c[1..] == tail;
      GroupHead(axes, extents, c, h);
      forall a | 0 <= a < |coords|
        ensures |Group(axes, c, a)| == |Group(axes, extents, a)|
        ensures Value(Group(axes, extents, a), Group(axes, c, a)) == coords[a]
      {
        if a != h {
          assert Group(axes, extents, a) == Group(axes[1..], extents[1..], a);
          assert Group(axes, c, a) == Group(axes[1..], tail, a);
        }
      }
    }
  }

  lemma HeadProduct(axes: seq<nat>, extents: seq<nat>, a: nat)
    requires |extents| == |axes| && axes != [] && axes[0] == a
    ensures Product(Group(axes, extents, a)) == extents[0] * Product(Group(axes[1..], extents[1..], a))
  {
    assert ([extents[0]] + Group(axes[1..], extents[1..], a))[1..] == Group(axes[1..], extents[1..], a);
  }

  lemma {:induction false} WeightPositive(axes: seq<nat>, extents: seq<nat>, a: nat)
    requires |extents| == |axes| && Positive(extents)
    ensures Product(Group(axes, extents, a)) > 0
  {
    if axes != [] {
      WeightPositive(axes[1..], extents[1..], a);
      if axes[0] == a {
        HeadProduct(axes, extents, a);
        Scale(1, extents[0], Product(Group(axes[1..], extents[1..], a)));
      } else {
        GroupTail(axes, extents, a);
      }
    }
  }

  lemma {:induction false} GroupInjective(axes: seq<nat>, extents: seq<nat>, b: seq<nat>, c: seq<nat>, rank: nat)
    requires |extents| == |axes| && InRange(b, extents) && InRange(c, extents)
    requires forall j | 0 <= j < |axes| :: axes[j] < rank
    requires forall a | 0 <= a < rank :: Group(axes, b, a) == Group(axes, c, a)
    ensures b == c
  {
    if axes != [] {
      var h := axes[0];
      assert Group(axes, b, h)[0] == b[0] && Group(axes, c, h)[0] == c[0];
      forall a | 0 <= a < rank
        ensures Group(axes[1..], b[1..], a) == Group(axes[1..], c[1..], a)
      {
        if a == h {
          assert Group(axes, b, a)[1..] == Group(axes[1..], b[1..], a);
          assert Group(axes, c, a)[1..] == Group(axes[1..], c[1..], a);
        } else {
          assert Group(axes, b, a) == Group(axes[1..], b[1..], a);
          assert Group(axes, c, a) == Group(axes[1..], c[1..], a);
        }
      }
      GroupInjective(axes[1..], extents[1..], b[1..], c[1..], rank);
      assert b == [b[0]] + b[1..] && c == [c[0]] + c[1..];
    }
  }

  /** Counters that recombine to the same coordinates are the same. */
  lemma CoordsInjective(p: Plan, b: seq<nat>, c: seq<nat>)
    requires Valid(p) && Counter(p, b) && Counter(p, c) && Coords(p, b) == Coords(p, c)
    ensures b == c
  {
    forall a | 0 <= a < |p.shape|
      ensures Group(p.axes, b, a) == Group(p.axes, c, a)
    {
      assert Coords(p, b)[a] == Coords(p, c)[a];
      GroupInRange(p.axes, p.extents, b, a);
      GroupInRange(p.axes, p.extents, c, a);
      ValueInjective(Group(p.axes, p.extents, a), Group(p.axes, b, a), Group(p.axes, c, a));
    }
    GroupInjective(p.axes, p.extents, b, c, |p.shape|);
  }

  /** No source element is dropped: each is mapped by some destination slot. */
  lemma SlotExists(p: Plan, s: nat)
    requires Valid(p) && s < p.sourceElements
    ensures exists d: nat :: d < p.destElements && SourceAt(p, d) == Some(s)
  {
    var coords := Digits(p.shape, s);
    forall a | 0 <= a < |coords|
      ensures coords[a] < Product(Group(p.axes, p.extents, a))
    {
      assert AxisFactored(p.axes, p.extents, p.shape, p.paddedAxis, a);
    }
    var c := Ungroup(p.axes, p.extents, coords);
    assert Coords(p, c) == coords;
    SourceAtSlot(p, c);
  }

  /** No source element is written twice: two slots never share one. */
  lemma SlotUnique(p: Plan, d: nat, e: nat)
    requires Valid(p) && d < p.destElements && e < p.destElements
    requires SourceAt(p, d).Some? && SourceAt(p, d) == SourceAt(p, e)
    ensures d == e
  {
    var b, c := CounterAt(p, d), CounterAt(p, e);
    ValueInjective(p.shape, Coords(p, b), Coords(p, c));
    CoordsInjective(p, b, c);
  }

  /** The one destination slot that carries source element `s`. */
  ghost function Slot(p: Plan, s: nat): (d: nat)
    requires Valid(p) && s < p.sourceElements
    ensures d < p.destElements && SourceAt(p, d) == Some(s)
  {
    SlotExists(p, s);
    var d: nat :| d < p.destElements && SourceAt(p, d) == Some(s);
    d
  }

  /** An unpadded plan has no padding slot. */
  lemma UnpaddedMapsEverySlot(p: Plan, d: nat)
    requires Valid(p) && !p.padded && d < p.destElements
    ensures SourceAt(p, d).Some?
  {
    forall a | 0 <= a < |p.shape|
      ensures Coords(p, CounterAt(p, d))[a] < p.shape[a]
    {
      CoordBound(p, CounterAt(p, d), a);
    }
  }

  // --- counting ---------------------------------------------------------------

  ghost function Mapped(p: Plan, n: nat): (s: set<nat>)
    requires Valid(p) && n <= p.destElements
  {
    set d | d in Below(n) && SourceAt(p, d).Some?
  }

  /** Exactly as many slots are mapped as there are source elements. */
  lemma MappedCount(p: Plan)
    requires Valid(p)
    ensures |Mapped(p, p.destElements)| == p.sourceElements
  {
    hide Valid, SourceAt;
    var slots := seq(p.sourceElements, s requires 0 <= s < p.sourceElements => Slot(p, s));
    assert forall s, t | 0 <= s < t < |slots| :: slots[s] != slots[t];
    DistinctCardinality(slots);
    var image := set d | d in slots;
    forall d | d in Mapped(p, p.destElements)
      ensures d in image
    {
      var s := SourceAt(p, d).value;
      SlotUnique(p, d, Slot(p, s));
      assert slots[s] == d;
    }
    assert image == Mapped(p, p.destElements);
  }
}
