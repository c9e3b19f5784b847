/** What a sealed manifest names: exactly what decoding it finds, which is what the head links. */
module SealedManifest {
  import opened Wrappers
  import opened Records
  import opened Rechunk
  import opened Paths
  import W = Workspace
  import opened WorkspaceTree
  import E = WorkspaceEffects
  import G = WorkspaceGc
  import R = WorkspaceRuns
  import S = WorkspaceStage
  import opened Tfm1
  import opened PathOrder
  import opened Tfm1Builder
  import Tfm1Resolve
  import opened Tfm1Finish
  import opened CloneHead

  /** Every object a manifest's file bodies name; an empty blob names none. */
  function ManifestObjects(s: Snapshot): set<Digest> {
    set i, d | 0 <= i < |s.entries| && s.entries[i].entry.File? && d in Digests(BodyRecords(s.entries[i].entry.body)) :: d
  }

  /** What reading a manifest object finds. */
  ghost function NamesOf(rules: TextRules, bytes: Bytes): Option<set<Digest>> {
    var s :- Parse(rules, bytes);
    Some(ManifestObjects(s))
  }

  /** The world whose manifests are TFM1. */
  ghost function Tfm1World(rules: TextRules, hash: Hash): G.World { G.World(rules, hash, bytes => NamesOf(rules, bytes)) }

  lemma BodyNames(planner: Planner, contract: Stamp, records: seq<FileRecord>)
    requires CanonicalBody(planner, contract, records).Some?
    ensures Digests(BodyRecords(CanonicalBody(planner, contract, records).value)) <= Digests(records)
    ensures ValidRun(records, Records.Total(records)) ==>
      Digests(BodyRecords(CanonicalBody(planner, contract, records).value)) == Digests(records)
  {
    hide RecordsOk, Records.Total;
    if planner.BlobV1? && |records| == 1 {
      assert records == [records[0]];
    }
  }

  /** A declared file's objects are named by a file the head links. */
  lemma StagedIsLinked(rules: TextRules, t: W.Tables, ws: Text, decl: Declared, q: Text)
    requires Tree(rules, t) && ws in t.workspaces && Stages(t, ws, decl) && q in decl && decl[q].FileAt?
    ensures Digests(decl[q].records) <= G.LinkedObjects(t, ws)
  {
    hide WellFormed, Segments, Digests;
    assert StagedAt(t, ws, decl, q);
    var at :| WellFormed(rules, t, at);
    SomeSegments(q);
    S.WalkedSlot(rules, t, at, ws, Segments(q));
    var s :| S.InWorkspace(t, ws, s) && s.parent in at && S.SlotSegments(at, s) == Segments(q)
      && W.Walk(t, t.workspaces[ws].root, Segments(q)) == Some(t.dirents[s]);
    assert t.inodes[t.dirents[s]].node.records == decl[q].records;
    forall d | d in Digests(decl[q].records) ensures d in G.LinkedObjects(t, ws) {
      assert d in E.NodeObjects(t.inodes[t.dirents[s]].node);
    }
  }

  lemma EntryIsLinked(rules: TextRules, t: W.Tables, ws: Text, pending: seq<Declaration>, s: Snapshot, items: seq<Item<TreeEntry>>, i: nat)
    requires Tree(rules, t) && ws in t.workspaces && Stages(t, ws, Declare(pending))
    requires BuildsVia(rules, s.parent, pending, s, items) && i < |s.entries| && s.entries[i].entry.File?
    ensures Digests(BodyRecords(s.entries[i].entry.body)) <= G.LinkedObjects(t, ws)
  {
    hide Tree, Stages, Declare, LinksOk, Rerooted, Digests, G.LinkedObjects, CanonicalBody, DeclarationOk, Topology, RunsOk, DistinctPaths,
      Sorted, PathsOf, OrdinalOf, BodyRecords;
    var decl := Declare(pending);
    var item := items[i];
    assert CanonicalAt(item, s.entries[i]) && item.entry == Tfm1Builder.Listed(Rerooted(decl), item.path);
    SharedKeys(decl);
    RerootedFrom(decl, item.path);
    var q :| q in decl && decl[q] == Rerooted(decl)[item.path];
    BodyNames(item.entry.planner, item.entry.contract, item.entry.records);
    StagedIsLinked(rules, t, ws, decl, q);
  }

  /** Every object a linked file names is named by a declared file. */
  lemma LinkedIsStaged(rules: TextRules, t: W.Tables, ws: Text, decl: Declared, d: Digest) returns (q: Text)
    requires Tree(rules, t) && ws in t.workspaces && Stages(t, ws, decl) && d in G.LinkedObjects(t, ws)
    ensures q in decl && decl[q].FileAt? && d in Digests(decl[q].records)
  {
    hide WellFormed, Segments, Digests, W.Walk;
    var at :| WellFormed(rules, t, at);
    var slot :| slot in t.dirents && W.Belongs(t, ws, slot.parent) && t.dirents[slot] in t.inodes
      && d in E.NodeObjects(t.inodes[t.dirents[slot]].node);
    Edge(rules, t, at, slot);
    var p := Join(S.SlotSegments(at, slot));
    S.EntryResolves(rules, t, at, ws, S.Staged(p, t.dirents[slot]), slot);
    assert StagedAt(t, ws, decl, p);
    q := if decl[p].FileAt? then p else decl[p].target;
  }

  /** Every declared file is listed, and its body names the same objects. */
  lemma StagedIsListed(rules: TextRules, pending: seq<Declaration>, s: Snapshot, items: seq<Item<TreeEntry>>, q: Text) returns (i: nat)
    requires BuildsVia(rules, s.parent, pending, s, items) && q in Declare(pending) && Declare(pending)[q].FileAt?
    ensures i < |s.entries| && s.entries[i].entry.File?
    ensures Digests(BodyRecords(s.entries[i].entry.body)) == Digests(Declare(pending)[q].records)
  {
    hide Declare, LinksOk, Rerooted, Digests, CanonicalBody, DeclarationOk, Topology, DistinctPaths, Sorted, OrdinalOf, BodyRecords, ValidRun,
      Carrier, Group;
    var decl := Declare(pending);
    Tfm1Resolve.CarrierHoldsFile(decl, q);
    SharedKeys(decl);
    assert Carrier(decl, q) in PathsOf(items);
    i :| 0 <= i < |items| && items[i].path == Carrier(decl, q);
    assert CanonicalAt(items[i], s.entries[i]) && items[i].entry == Tfm1Builder.Listed(Rerooted(decl), items[i].path);
    assert ValidRun(decl[q].records, Records.Total(decl[q].records));
    BodyNames(decl[q].planner, decl[q].contract, decl[q].records);
  }

  /** The manifest a seal builds from its staged head reads back as itself and names exactly what
      that head links. */
  lemma SealedManifestNamesTheHead(rules: TextRules, hash: Hash, t: W.Tables, ws: Text, pending: seq<Declaration>, s: Snapshot)
    requires Tree(rules, t) && ws in t.workspaces && Stages(t, ws, Declare(pending)) && Typed(rules, pending)
    requires Builds(rules, s.parent, pending, s)
    ensures Tfm1World(rules, hash).names(Emit(s)) == Some(ManifestObjects(s))
    ensures ManifestObjects(s) == G.LinkedObjects(t, ws)
  {
    hide Tree, Stages, Declare, Typed, Parse, Emit, Digests, G.LinkedObjects, Buildable, Lists, Rerooted, Canonicalizes, Canonical;
    BuiltIsCanonical(rules, s.parent, pending, s);
    var items :| BuildsVia(rules, s.parent, pending, s, items);
    forall d | d in ManifestObjects(s) ensures d in G.LinkedObjects(t, ws) {
      var i :| 0 <= i < |s.entries| && s.entries[i].entry.File? && d in Digests(BodyRecords(s.entries[i].entry.body));
      EntryIsLinked(rules, t, ws, pending, s, items, i);
    }
    forall d | d in G.LinkedObjects(t, ws) ensures d in ManifestObjects(s) {
      var q := LinkedIsStaged(rules, t, ws, Declare(pending), d);
      var i := StagedIsListed(rules, pending, s, items, q);
    }
  }

  // --- a seal made of the planner's jobs and the builder's manifest --------------------------------------

  /** A job that leaves the bytes of some file the workspace links as they were. */
  ghost predicate PlannedFrom(t: W.Tables, ws: Text, job: SealJob) {
    exists s, before, after :: s in t.dirents && W.Belongs(t, ws, s.parent) && W.IsFile(t, t.dirents[s])
      && Readable(before, t.inodes[t.dirents[s]].node.records) && JobKeepsBytes(before, after, t.inodes[t.dirents[s]].node.records, job)
  }

  /** The bytes of a manifest the builder makes of the staged head. */
  ghost predicate BuiltFrom(rules: TextRules, t: W.Tables, ws: Text, manifest: Bytes) {
    ws in t.workspaces && exists pending, s: Snapshot ::
      Stages(t, ws, Declare(pending)) && Typed(rules, pending) && Builds(rules, s.parent, pending, s) && manifest == Emit(s)
  }

  /** What the source itself does at the two steps of a seal: every job was planned from the
      captured tree, and the manifest is built from the head the transaction leaves. */
  ghost predicate FromSource(rules: TextRules, hash: Hash, c: G.Config, step: G.Step) {
    var w := Tfm1World(rules, hash);
    match step
    case PlanSeal(f, jobs) => f in c.flights && c.flights[f].Capturing? ==>
      exists t :: c.flights[f].captured == G.LinkedObjects(t, c.flights[f].workspace)
        && forall i | 0 <= i < |jobs| :: PlannedFrom(t, c.flights[f].workspace, jobs[i].job)
    case FinishSeal(f, manifest) => f in c.flights && c.flights[f].Sealing? && G.AtGeneration(c.tables, c.flights[f]) ==>
      var head := G.Rebounded(w, c.tables, c.flights[f].workspace, c.flights[f].jobs);
      head.Ok? ==> BuiltFrom(rules, head.value, c.flights[f].workspace, manifest) && Agrees(hash, c.tables.objects, manifest)
    case _ => G.Enabled(w, c, step)
  }

  lemma PlannedJobsOk(t: W.Tables, ws: Text, jobs: seq<G.Filed>)
    requires forall i | 0 <= i < |jobs| :: PlannedFrom(t, ws, jobs[i].job)
    ensures G.JobsOk(G.LinkedObjects(t, ws), jobs)
  {
    hide Digests, Readable, Content;
    forall i, d | 0 <= i < |jobs| && d in Digests(jobs[i].job.records) ensures d in G.LinkedObjects(t, ws) || d in jobs[i].job.newDigests {
      assert PlannedFrom(t, ws, jobs[i].job);
      var s, before, after :| s in t.dirents && W.Belongs(t, ws, s.parent) && W.IsFile(t, t.dirents[s])
        && Readable(before, t.inodes[t.dirents[s]].node.records) && JobKeepsBytes(before, after, t.inodes[t.dirents[s]].node.records, jobs[i].job);
      if d !in jobs[i].job.newDigests {
        assert d in E.NodeObjects(t.inodes[t.dirents[s]].node);
      }
    }
  }

  lemma BuiltManifestOk(rules: TextRules, hash: Hash, t: W.Tables, ws: Text, manifest: Bytes)
    requires Tree(rules, t) && BuiltFrom(rules, t, ws, manifest)
    ensures var names := Tfm1World(rules, hash).names(manifest); names.Some? && names.value <= G.LinkedObjects(t, ws)
  {
    hide Tree, Stages, Declare, Typed, Emit, Builds, G.LinkedObjects, NamesOf, ManifestObjects;
    var pending, s: Snapshot :| Stages(t, ws, Declare(pending)) && Typed(rules, pending) && Builds(rules, s.parent, pending, s) && manifest == Emit(s);
    SealedManifestNamesTheHead(rules, hash, t, ws, pending, s);
  }

  /** So such steps are ones the machine allows. */
  lemma SourceIsEnabled(rules: TextRules, hash: Hash, c: G.Config, step: G.Step)
    requires G.Inv(Tfm1World(rules, hash), c) && FromSource(rules, hash, c, step)
    ensures G.Enabled(Tfm1World(rules, hash), c, step)
  {
    hide Tree, G.Resident, G.FlightOk, G.LinkedObjects, G.Rebounded, BuiltFrom, PlannedFrom, G.JobsOk, NamesOf, W.CreateWorkspace,
      BatchDropsRoot, LastOnRoot;
    var w := Tfm1World(rules, hash);
    match step
    case PlanSeal(f, jobs) =>
      if f in c.flights && c.flights[f].Capturing? {
        var t :| c.flights[f].captured == G.LinkedObjects(t, c.flights[f].workspace)
          && forall i | 0 <= i < |jobs| :: PlannedFrom(t, c.flights[f].workspace, jobs[i].job);
        PlannedJobsOk(t, c.flights[f].workspace, jobs);
      }
    case FinishSeal(f, manifest) =>
      if f in c.flights && c.flights[f].Sealing? && G.AtGeneration(c.tables, c.flights[f]) {
        var ws, jobs := c.flights[f].workspace, c.flights[f].jobs;
        if G.Rebounded(w, c.tables, ws, jobs).Ok? {
          G.RebindTables(w, c.tables, c.flights[f]);
          BuiltManifestOk(rules, hash, G.Rebounded(w, c.tables, ws, jobs).value, ws, manifest);
        }
      }
    case _ =>
  }

  /** A run whose seals are made of planned jobs and built manifests is a run: what is proved of
      runs needs no assumption about either. */
  lemma {:induction false} SourceRunIsARun(rules: TextRules, hash: Hash, steps: seq<G.Step>, n: nat)
    requires n <= |steps|
    requires forall k | 0 <= k < n :: FromSource(rules, hash, R.After(Tfm1World(rules, hash), steps, k), steps[k])
    ensures forall k | 0 <= k < n :: G.Enabled(Tfm1World(rules, hash), R.After(Tfm1World(rules, hash), steps, k), steps[k])
    ensures G.Inv(Tfm1World(rules, hash), R.After(Tfm1World(rules, hash), steps, n))
    ensures n == |steps| ==> R.Run(Tfm1World(rules, hash), steps)
  {
    hide G.Inv, G.Next, FromSource, G.Enabled, Tfm1World;
    var w := Tfm1World(rules, hash);
    if n == 0 {
      R.InitialInv(w);
    } else {
      SourceRunIsARun(rules, hash, steps, n - 1);
      SourceIsEnabled(rules, hash, R.After(w, steps, n - 1), steps[n - 1]);
      G.StepKeepsInv(w, R.After(w, steps, n - 1), steps[n - 1]);
    }
  }
}
