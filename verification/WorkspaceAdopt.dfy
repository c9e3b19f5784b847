/** Adoption is three steps: `adopt_snapshot` looks for every object a manifest names, stores the
    manifest, and inserts its row. A pass may land between any two. */
module WorkspaceAdopt {
  import opened Wrappers
  import opened Records
  import opened Rechunk
  import opened Workspace
  import opened WorkspaceEffects
  import opened WorkspaceGc
  import opened WorkspaceRuns
  import opened WorkspaceScene

  /** The row keeps every named object resident if and only if it was there already, or the
      manifest and all it names still are when it is inserted. */
  lemma AdoptResidentIff(w: World, t: Tables, bytes: Bytes)
    requires Resident(w, t) && Agrees(w.hash, t.objects, bytes) && w.names(bytes).Some?
    ensures Resident(w, AddRow(t, w.hash(bytes))) <==>
      w.hash(bytes) in t.snapshots || (w.hash(bytes) in t.objects && w.names(bytes).value <= t.objects.Keys)
  {
    hide HeadObjects, LeaseObjects;
    var id := w.hash(bytes);
    var after := AddRow(t, id);
    SameRoots(t, id);
    forall d ensures Manifest(w, after, d) == Manifest(w, t, d) {}
    if id !in t.snapshots {
      assert forall d | d in t.snapshots :: SnapshotOk(w, t, d);
      if Resident(w, after) { assert SnapshotOk(w, after, id); }
    }
  }

  lemma SameRoots(t: Tables, id: Digest)
    ensures HeadObjects(AddRow(t, id)) == HeadObjects(t) && LeaseObjects(AddRow(t, id)) == LeaseObjects(t)
  {
  }

  /** Objects last through any steps but passes. */
  lemma {:induction false} QuietSteps(w: World, steps: seq<Step>, j: nat, n: nat)
    requires j <= n <= |steps| && forall k | j <= k < n :: !steps[k].Pass?
    ensures Extends(At(w, steps, j).objects, At(w, steps, n).objects)
    decreases n
  {
    hide Next;
    if j < n {
      QuietSteps(w, steps, j, n - 1);
      OnlyPassesCollect(w, After(w, steps, n - 1), steps[n - 1]);
    }
  }

  /** An adoption that no pass interrupts inserts its row safely, whatever else runs meanwhile:
      looked up before step `j`, stored at step `m`, inserted at step `n`. */
  lemma QuietAdoption(w: World, steps: seq<Step>, j: nat, m: nat, n: nat, bytes: Bytes)
    requires j <= m < n <= |steps| && (forall k | j <= k < n :: !steps[k].Pass?) && steps[m] == Put(bytes)
    requires w.names(bytes).Some? && w.names(bytes).value <= At(w, steps, j).objects.Keys
    requires Agrees(w.hash, At(w, steps, m).objects, bytes)
    ensures Adoptable(w, At(w, steps, n), bytes) && Enabled(w, After(w, steps, n), Adopt(bytes))
  {
    QuietSteps(w, steps, j, n);
    QuietSteps(w, steps, m + 1, n);
    assert At(w, steps, m + 1).objects == Admit(At(w, steps, m).objects, w.hash(bytes), bytes);
  }

  /** The objects of `x` wait out two passes; the lookup finds them, a third pass takes them, and
      the manifest is stored and rooted all the same. */
  function Interrupted(x: Bytes, manifest: Bytes): seq<Step> {
    [Put(x), Step.Pass, Step.Pass, Step.Pass, Put(manifest), Adopt(manifest)]
  }

  const LOOKUP := 3

  /** An adoption that a pass interrupts roots a snapshot whose object is gone. */
  lemma InterruptedAdoptionDangles(w: World, x: Bytes, manifest: Bytes)
    requires w.names(manifest) == Some({w.hash(x)}) && w.hash(manifest) != w.hash(x)
    ensures var steps := Interrupted(x, manifest);
      && |steps| == 6 && (forall k | 0 <= k < 5 :: Enabled(w, After(w, steps, k), steps[k]))
      && w.names(manifest).value <= At(w, steps, LOOKUP).objects.Keys
      && w.hash(manifest) in At(w, steps, 6).snapshots && w.hash(x) !in At(w, steps, 6).objects
  {
    hide Collect, Enabled, Next, After, Bare;
    var steps := Interrupted(x, manifest);
    var held := map[w.hash(x) := x];
    var marked := map d | d in held :: 1;
    Opens(w, steps);
    Stores(w, 0, x);
    AfterStep(w, steps, 0);
    Collects(w, held);
    Passes(w, Bare(held, 0, map[]), Bare(held, 1, marked));
    AfterStep(w, steps, 1);
    Passes(w, Bare(held, 1, marked), Bare(held, 2, marked));
    AfterStep(w, steps, 2);
    Passes(w, Bare(held, 2, marked), Bare(map[], 3, map[]));
    AfterStep(w, steps, 3);
    Stores(w, 3, manifest);
    AfterStep(w, steps, 4);
    RootsRow(w, map[w.hash(manifest) := manifest], 3, manifest);
    AfterStep(w, steps, 5);
    Holds(held, 2, marked);
    PutsAndPasses(w);
  }

  lemma Opens(w: World, steps: seq<Step>)
    ensures After(w, steps, 0) == Config(Bare(map[], 0, map[]), map[])
  {
  }

  lemma Stores(w: World, epoch: nat, bytes: Bytes)
    ensures Next(w, Config(Bare(map[], epoch, map[]), map[]), Put(bytes))
      == Config(Bare(map[w.hash(bytes) := bytes], epoch, map[]), map[])
  {
    assert Admit(map[], w.hash(bytes), bytes) == map[w.hash(bytes) := bytes];
  }

  lemma Passes(w: World, t: Tables, after: Tables)
    requires Collect(w, t) == Ok(after)
    ensures Next(w, Config(t, map[]), Step.Pass) == Config(after, map[])
  {
    hide Collect;
  }

  lemma RootsRow(w: World, objects: Objects, epoch: nat, bytes: Bytes)
    ensures var t := Next(w, Config(Bare(objects, epoch, map[]), map[]), Adopt(bytes)).tables;
      w.hash(bytes) in t.snapshots && t.objects == objects
  {
  }

  lemma Holds(objects: Objects, epoch: nat, quarantine: map<Digest, nat>)
    ensures Bare(objects, epoch, quarantine).objects == objects
  {
  }

  lemma PutsAndPasses(w: World)
    ensures forall c: Config, bytes: Bytes :: Enabled(w, c, Put(bytes))
    ensures forall c: Config :: Enabled(w, c, Step.Pass)
  {
  }
}
