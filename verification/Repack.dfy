/** Topology repacking: breadth-first search over the morphism catalog. */
module Repack {
  import opened Wrappers
  import opened Paths

  type Handle = Text

  datatype Morphism = Morphism(handle: Handle, from: Handle, to: Handle, tier: nat)

  /** Every morphism the catalog carries, by the topology it leaves. */
  type Catalog = map<Handle, seq<Morphism>>

  function Outgoing(catalog: Catalog, h: Handle): seq<Morphism> { if h in catalog then catalog[h] else [] }

  ghost predicate WellIndexed(catalog: Catalog) {
    forall h, k | h in catalog && 0 <= k < |catalog[h]| :: catalog[h][k].from == h
  }

  /** Catalog morphisms leading from one topology to another, each from where the last arrived. */
  ghost predicate Chain(catalog: Catalog, steps: seq<Morphism>, from: Handle, to: Handle)
    decreases |steps|
  {
    if steps == [] then from == to
    else
      var last := steps[|steps| - 1];
      last.to == to && last in Outgoing(catalog, last.from) && Chain(catalog, steps[..|steps| - 1], from, last.from)
  }

  /** Step `k` is a morphism the catalog carries, and starts where the one before it arrived. */
  ghost predicate Joins(catalog: Catalog, steps: seq<Morphism>, from: Handle, k: nat)
    requires k < |steps|
  {
    && steps[k].from in catalog && steps[k] in catalog[steps[k].from]
    && steps[k].from == if k == 0 then from else steps[k - 1].to
  }

  /** A chain, hop by hop. */
  lemma {:induction false} ChainIff(catalog: Catalog, steps: seq<Morphism>, from: Handle, to: Handle)
    ensures Chain(catalog, steps, from, to) <==>
      && (forall k | 0 <= k < |steps| :: Joins(catalog, steps, from, k))
      && to == if steps == [] then from else steps[|steps| - 1].to
  {
    if steps != [] {
      var n := |steps| - 1;
      ChainIff(catalog, steps[..n], from, steps[n].from);
      forall k | 0 <= k < n ensures Joins(catalog, steps[..n], from, k) <==> Joins(catalog, steps, from, k) {}
      assert forall k | 0 <= k < n :: Joins(catalog, steps, from, k) <==> Joins(catalog, steps[..n], from, k);
      assert Joins(catalog, steps, from, n) <==>
        steps[n] in Outgoing(catalog, steps[n].from) && steps[n].from == if n == 0 then from else steps[..n][n - 1].to;
    }
  }

  // --- what the search knows ------------------------------------------------------------------------

  datatype Visit = Visit(handle: Handle, steps: seq<Morphism>)

  /** How many hops away each seen topology is. */
  type Distances = map<Handle, nat>

  ghost predicate Waiting(queue: seq<Visit>, h: Handle) { exists k :: 0 <= k < |queue| && queue[k].handle == h }

  /** Successors of `h` have been seen, at most one hop further. */
  ghost predicate Expanded(catalog: Catalog, dist: Distances, h: Handle)
    requires h in dist
  {
    forall k | 0 <= k < |Outgoing(catalog, h)| :: Seen(dist, Outgoing(catalog, h)[k].to, dist[h] + 1)
  }

  ghost predicate Seen(dist: Distances, h: Handle, bound: nat) { h in dist && dist[h] <= bound }

  ghost predicate VisitOk(catalog: Catalog, from: Handle, dist: Distances, v: Visit) {
    v.handle in dist && |v.steps| == dist[v.handle] && Chain(catalog, v.steps, from, v.handle)
  }

  /** The queue holds each waiting topology once with a chain of its distance, nearest first,
      and spans at most two distances. */
  ghost predicate QueueOk(catalog: Catalog, from: Handle, dist: Distances, queue: seq<Visit>, low: nat) {
    && (forall k | 0 <= k < |queue| :: VisitOk(catalog, from, dist, queue[k]))
    && (forall j, k | 0 <= j < k < |queue| :: queue[j].handle != queue[k].handle && |queue[j].steps| <= |queue[k].steps|)
    && (forall k | 0 <= k < |queue| :: low <= |queue[k].steps| <= low + 1)
  }

  /** Every chain no longer than `depth` ends somewhere seen, when all nearer topologies are expanded. */
  lemma {:induction false} Reaches(catalog: Catalog, from: Handle, dist: Distances, depth: nat, steps: seq<Morphism>, to: Handle)
    requires Seen(dist, from, 0) && Chain(catalog, steps, from, to) && |steps| <= depth
    requires forall h | h in dist && dist[h] < depth :: Expanded(catalog, dist, h)
    ensures Seen(dist, to, |steps|)
  {
    if steps != [] {
      var last := steps[|steps| - 1];
      Reaches(catalog, from, dist, depth, steps[..|steps| - 1], last.from);
      assert Expanded(catalog, dist, last.from);
      var k :| 0 <= k < |Outgoing(catalog, last.from)| && Outgoing(catalog, last.from)[k] == last;
    }
  }

  lemma ChainSnoc(catalog: Catalog, steps: seq<Morphism>, from: Handle, m: Morphism)
    requires Chain(catalog, steps, from, m.from) && m in Outgoing(catalog, m.from)
    ensures Chain(catalog, steps + [m], from, m.to)
  {
    assert (steps + [m])[..|steps|] == steps;
  }

  /** All the topologies a search can meet. */
  ghost function Universe(catalog: Catalog, from: Handle): set<Handle> {
    {from} + set h, k | h in catalog && 0 <= k < |catalog[h]| :: catalog[h][k].to
  }

  /** The state between two visits: everything seen and not waiting is expanded. */
  ghost predicate Searching(catalog: Catalog, from: Handle, to: Handle, dist: Distances, queue: seq<Visit>, low: nat) {
    && Seen(dist, from, 0) && to !in dist && dist.Keys <= Universe(catalog, from)
    && QueueOk(catalog, from, dist, queue, low)
    && (forall h | h in dist :: Waiting(queue, h) || Expanded(catalog, dist, h))
  }

  /** While `current` is being expanded: its first `done` successors have been seen. */
  ghost predicate Visiting(catalog: Catalog, from: Handle, to: Handle, dist: Distances, queue: seq<Visit>, current: Visit, done: nat) {
    && Seen(dist, from, 0) && to !in dist && dist.Keys <= Universe(catalog, from)
    && VisitOk(catalog, from, dist, current) && QueueOk(catalog, from, dist, queue, |current.steps|)
    && (forall h | h in dist :: h == current.handle || Waiting(queue, h) || Expanded(catalog, dist, h))
    && done <= |Outgoing(catalog, current.handle)|
    && (forall k | 0 <= k < done :: Seen(dist, Outgoing(catalog, current.handle)[k].to, |current.steps| + 1))
  }

  lemma Pop(catalog: Catalog, from: Handle, to: Handle, dist: Distances, queue: seq<Visit>, low: nat)
    requires queue != [] && Searching(catalog, from, to, dist, queue, low)
    ensures Visiting(catalog, from, to, dist, queue[1..], queue[0], 0)
  {
    hide Chain, Universe, Expanded;
    assert VisitOk(catalog, from, dist, queue[0]);
    forall h | h in dist && Waiting(queue, h) && h != queue[0].handle ensures Waiting(queue[1..], h) {
      var k :| 0 <= k < |queue| && queue[k].handle == h;
      assert queue[1..][k - 1].handle == h;
    }
    forall k | 0 <= k < |queue[1..]| ensures VisitOk(catalog, from, dist, queue[1..][k]) && |queue[0].steps| <= |queue[1..][k].steps| <= |queue[0].steps| + 1 {
      assert queue[1..][k] == queue[k + 1];
    }
  }

  /** A successor not met before joins the end of the queue, one hop further than `current`. */
  lemma Push(catalog: Catalog, from: Handle, to: Handle, dist: Distances, queue: seq<Visit>, current: Visit, done: nat)
    requires WellIndexed(catalog) && Visiting(catalog, from, to, dist, queue, current, done) && done < |Outgoing(catalog, current.handle)|
    requires var m := Outgoing(catalog, current.handle)[done];
      m.to !in dist && m.to != to
    ensures var m := Outgoing(catalog, current.handle)[done];
      var next := Visit(m.to, current.steps + [m]);
      Visiting(catalog, from, to, dist[m.to := |current.steps| + 1], queue + [next], current, done + 1)
  {
    hide Chain, Universe, QueueOk, Expanded, Waiting;
    var m := Outgoing(catalog, current.handle)[done];
    var next, more := Visit(m.to, current.steps + [m]), dist[m.to := |current.steps| + 1];
    var longer := queue + [next];
    ChainSnoc(catalog, current.steps, from, m);
    Met(catalog, from, current.handle, done);
    forall h | h in dist && Expanded(catalog, dist, h) ensures Expanded(catalog, more, h) {
      StillExpanded(catalog, dist, m.to, |current.steps| + 1, h);
    }
    LongerQueue(catalog, from, dist, queue, current, next);
    forall k | 0 <= k < done + 1 ensures Seen(more, Outgoing(catalog, current.handle)[k].to, |current.steps| + 1) {
      assert k < done ==> Seen(dist, Outgoing(catalog, current.handle)[k].to, |current.steps| + 1);
    }
  }

  lemma StillExpanded(catalog: Catalog, dist: Distances, at: Handle, bound: nat, h: Handle)
    requires h in dist && Expanded(catalog, dist, h) && at !in dist
    ensures Expanded(catalog, dist[at := bound], h)
  {
    var more := dist[at := bound];
    forall k | 0 <= k < |Outgoing(catalog, h)| ensures Seen(more, Outgoing(catalog, h)[k].to, more[h] + 1) {
      assert Seen(dist, Outgoing(catalog, h)[k].to, dist[h] + 1);
    }
  }

  lemma LongerQueue(catalog: Catalog, from: Handle, dist: Distances, queue: seq<Visit>, current: Visit, next: Visit)
    requires QueueOk(catalog, from, dist, queue, |current.steps|) && next.handle !in dist && |next.steps| == |current.steps| + 1
    requires Chain(catalog, next.steps, from, next.handle)
    ensures QueueOk(catalog, from, dist[next.handle := |next.steps|], queue + [next], |current.steps|)
    ensures forall h | Waiting(queue, h) || h == next.handle :: Waiting(queue + [next], h)
  {
    hide Chain;
    var longer, more := queue + [next], dist[next.handle := |next.steps|];
    forall h | Waiting(queue, h) || h == next.handle ensures Waiting(longer, h) {
      if Waiting(queue, h) {
        var k :| 0 <= k < |queue| && queue[k].handle == h;
        assert longer[k].handle == h;
      } else {
        assert longer[|queue|].handle == h;
      }
    }
    forall k | 0 <= k < |longer| ensures VisitOk(catalog, from, more, longer[k]) {
      assert k < |queue| ==> VisitOk(catalog, from, dist, queue[k]);
    }
  }

  lemma Met(catalog: Catalog, from: Handle, h: Handle, k: nat)
    requires k < |Outgoing(catalog, h)|
    ensures Outgoing(catalog, h)[k].to in Universe(catalog, from)
  {
  }

  lemma VisitDone(catalog: Catalog, from: Handle, to: Handle, dist: Distances, queue: seq<Visit>, current: Visit)
    requires Visiting(catalog, from, to, dist, queue, current, |Outgoing(catalog, current.handle)|)
    ensures Searching(catalog, from, to, dist, queue, |current.steps|)
  {
    hide Chain, Universe;
    assert Expanded(catalog, dist, current.handle);
  }

  /** A successor already seen is within one hop of `current`. */
  lemma SeenNearby(catalog: Catalog, from: Handle, to: Handle, dist: Distances, queue: seq<Visit>, current: Visit, done: nat)
    requires Visiting(catalog, from, to, dist, queue, current, done) && done < |Outgoing(catalog, current.handle)|
    requires Outgoing(catalog, current.handle)[done].to in dist
    requires dist[Outgoing(catalog, current.handle)[done].to] <= |current.steps| + 1
    ensures Visiting(catalog, from, to, dist, queue, current, done + 1)
  {
    hide Chain, Universe, Expanded, QueueOk;
  }

  /** Nothing seen is further than one hop past the visit in hand. */
  ghost predicate Near(dist: Distances, bound: nat) { forall h | h in dist :: dist[h] <= bound }

  /** The target, first met from `current`, is nearer by no other chain. */
  lemma Shortest(catalog: Catalog, from: Handle, to: Handle, dist: Distances, queue: seq<Visit>, current: Visit, done: nat, other: seq<Morphism>)
    requires Visiting(catalog, from, to, dist, queue, current, done) && Chain(catalog, other, from, to)
    ensures |other| >= |current.steps| + 1
  {
    hide Chain, Universe;
    if |other| <= |current.steps| {
      forall h | h in dist && Waiting(queue, h) ensures dist[h] >= |current.steps| {
        var k :| 0 <= k < |queue| && queue[k].handle == h;
        assert VisitOk(catalog, from, dist, queue[k]);
      }
      Reaches(catalog, from, dist, |current.steps|, other, to);
    }
  }

  lemma Unreachable(catalog: Catalog, from: Handle, to: Handle, dist: Distances, low: nat, other: seq<Morphism>)
    requires Searching(catalog, from, to, dist, [], low)
    ensures !Chain(catalog, other, from, to)
  {
    hide Chain, Universe;
    if Chain(catalog, other, from, to) {
      Reaches(catalog, from, dist, |other|, other, to);
    }
  }

  /** The fewest hops from one topology to another, or None when no chain of morphisms leads there. */
  method FindRepack(catalog: Catalog, from: Handle, to: Handle) returns (r: Option<seq<Morphism>>)
    requires WellIndexed(catalog)
    ensures r.Some? ==> Chain(catalog, r.value, from, to)
    ensures forall other | Chain(catalog, other, from, to) :: r.Some? && |r.value| <= |other|
  {
    hide Chain, Universe, Visiting, Searching, WellIndexed, Near, Room;
    if from == to {
      NoHops(catalog, from);
      return Some([]);
    }
    ghost var dist: Distances, low: nat := map[from := 0], 0;
    var seen := {from};
    var queue := [Visit(from, [])];
    SearchStart(catalog, from, to);
    ghost var room: nat := RoomFor(catalog, from, dist);
    while queue != []
      invariant Searching(catalog, from, to, dist, queue, low) && seen == dist.Keys && Near(dist, low + 1)
      invariant Room(catalog, from, dist, room)
      decreases room + |queue|
    {
      var current := queue[0];
      Pop(catalog, from, to, dist, queue, low);
      PopNear(catalog, from, to, dist, queue, low);
      ghost var owed := room + |queue|;
      queue := queue[1..];
      var outgoing := Outgoing(catalog, current.handle);
      for k := 0 to |outgoing|
        invariant Visiting(catalog, from, to, dist, queue, current, k) && seen == dist.Keys && Near(dist, |current.steps| + 1)
        invariant Room(catalog, from, dist, room) && room + |queue| < owed
      {
        var m := outgoing[k];
        if m.to in seen {
          AlreadySeen(catalog, from, to, dist, queue, current, k);
          continue;
        }
        if m.to == to {
          Found(catalog, from, to, dist, queue, current, k);
          forall other | Chain(catalog, other, from, to) ensures |current.steps| + 1 <= |other| {
            Shortest(catalog, from, to, dist, queue, current, k, other);
          }
          return Some(current.steps + [m]);
        }
        Push(catalog, from, to, dist, queue, current, k);
        PushNear(dist, m.to, |current.steps| + 1);
        room := RoomShrinks(catalog, from, dist, current, k, room);
        dist := dist[m.to := |current.steps| + 1];
        seen := seen + {m.to};
        queue := queue + [Visit(m.to, current.steps + [m])];
      }
      VisitDone(catalog, from, to, dist, queue, current);
      low := |current.steps|;
    }
    forall other ensures !Chain(catalog, other, from, to) { Unreachable(catalog, from, to, dist, low, other); }
    return None;
  }

  lemma NoHops(catalog: Catalog, from: Handle)
    ensures Chain(catalog, [], from, from)
  {
  }

  lemma SearchStart(catalog: Catalog, from: Handle, to: Handle)
    requires from != to
    ensures Searching(catalog, from, to, map[from := 0], [Visit(from, [])], 0) && Near(map[from := 0], 1)
  {
    var queue := [Visit(from, [])];
    assert queue[0].handle == from;
  }

  lemma PopNear(catalog: Catalog, from: Handle, to: Handle, dist: Distances, queue: seq<Visit>, low: nat)
    requires queue != [] && Searching(catalog, from, to, dist, queue, low) && Near(dist, low + 1)
    ensures Near(dist, |queue[0].steps| + 1)
  {
    hide Chain, Universe, Expanded;
  }

  lemma PushNear(dist: Distances, h: Handle, bound: nat)
    requires Near(dist, bound)
    ensures Near(dist[h := bound], bound)
  {
  }

  lemma AlreadySeen(catalog: Catalog, from: Handle, to: Handle, dist: Distances, queue: seq<Visit>, current: Visit, k: nat)
    requires Visiting(catalog, from, to, dist, queue, current, k) && k < |Outgoing(catalog, current.handle)|
    requires Outgoing(catalog, current.handle)[k].to in dist && Near(dist, |current.steps| + 1)
    ensures Visiting(catalog, from, to, dist, queue, current, k + 1)
  {
    hide Chain, Universe, Expanded, QueueOk, Visiting;
    SeenNearby(catalog, from, to, dist, queue, current, k);
  }

  lemma Found(catalog: Catalog, from: Handle, to: Handle, dist: Distances, queue: seq<Visit>, current: Visit, k: nat)
    requires WellIndexed(catalog) && Visiting(catalog, from, to, dist, queue, current, k) && k < |Outgoing(catalog, current.handle)|
    requires Outgoing(catalog, current.handle)[k].to == to
    ensures Chain(catalog, current.steps + [Outgoing(catalog, current.handle)[k]], from, to)
  {
    hide Chain, Universe, Expanded, QueueOk;
    ChainSnoc(catalog, current.steps, from, Outgoing(catalog, current.handle)[k]);
  }

  /** How many topologies are still unseen. */
  ghost predicate Room(catalog: Catalog, from: Handle, dist: Distances, room: nat) {
    room == |Universe(catalog, from) - dist.Keys|
  }

  lemma RoomFor(catalog: Catalog, from: Handle, dist: Distances) returns (room: nat)
    ensures Room(catalog, from, dist, room)
  {
    room := |Universe(catalog, from) - dist.Keys|;
  }

  lemma RoomShrinks(catalog: Catalog, from: Handle, dist: Distances, current: Visit, k: nat, room: nat) returns (less: nat)
    requires k < |Outgoing(catalog, current.handle)| && Outgoing(catalog, current.handle)[k].to !in dist
    requires Room(catalog, from, dist, room)
    ensures less + 1 == room
    ensures Room(catalog, from, dist[Outgoing(catalog, current.handle)[k].to := |current.steps| + 1], less)
  {
    hide Universe;
    var h, all := Outgoing(catalog, current.handle)[k].to, Universe(catalog, from);
    Met(catalog, from, current.handle, k);
    var more := dist[h := |current.steps| + 1];
    assert all - more.Keys == all - dist.Keys - {h};
    less := |all - more.Keys|;
  }
}
