/** Object lifetime: the roots, the collection pass, and every interleaving of puts,
    commits, seals, leases, deletions and passes. */
module WorkspaceGc {
  import opened Wrappers
  import opened Records
  import opened Rechunk
  import opened Paths
  import opened Workspace
  import opened WorkspaceTree
  import opened WorkspaceEffects

  /** The text rules, the content address, and what a manifest's bytes name (None
      when they do not decode). */
  datatype World = World(rules: TextRules, hash: Hash, names: Bytes -> Option<set<Digest>>)

  // --- roots ------------------------------------------------------------------------------

  function LeaseObjects(t: Tables): set<Digest> {
    set l, d | l in t.leases && t.leases[l].PendingSync? && d in t.leases[l].objects :: d
  }

  /** A snapshot row's manifest, when it is resident, is its own bytes, and decodes. */
  function Manifest(w: World, t: Tables, id: Digest): Option<set<Digest>> {
    if id in t.objects && w.hash(t.objects[id]) == id then w.names(t.objects[id]) else None
  }

  predicate AllReadable(w: World, t: Tables) { forall id | id in t.snapshots :: Manifest(w, t, id).Some? }

  function SnapshotObjects(w: World, t: Tables): set<Digest> {
    set id, d | id in t.snapshots && Manifest(w, t, id).Some? && d in Manifest(w, t, id).value + {id} :: d
  }

  function Roots(w: World, t: Tables): set<Digest> { HeadObjects(t) + LeaseObjects(t) + SnapshotObjects(w, t) }

  ghost predicate RecordsName(records: seq<FileRecord>, d: Digest) {
    exists k :: 0 <= k < |records| && records[k].Data? && records[k].digest == d
  }

  ghost predicate StoredNames(w: World, bytes: Bytes, d: Digest) { w.names(bytes).Some? && d in w.names(bytes).value }

  /** Some row needs `d`: a file's object map names it, a transfer's lease holds it, or a snapshot
      row is it or has a stored manifest that names it. */
  ghost predicate Needed(w: World, t: Tables, d: Digest) {
    || (exists i :: i in t.inodes && t.inodes[i].node.File? && RecordsName(t.inodes[i].node.records, d))
    || (exists l :: l in t.leases && t.leases[l].PendingSync? && d in t.leases[l].objects)
    || (exists id :: id in t.snapshots && (d == id || (id in t.objects && StoredNames(w, t.objects[id], d))))
  }

  /** A pass keeps exactly what some row needs. */
  lemma RootsAre(w: World, t: Tables, d: Digest)
    requires AllReadable(w, t)
    ensures d in Roots(w, t) <==> Needed(w, t, d)
  {
    assert forall id | id in t.snapshots :: Manifest(w, t, id).Some?;
    if id :| id in t.snapshots && (d == id || (id in t.objects && StoredNames(w, t.objects[id], d))) {
      assert d in Manifest(w, t, id).value + {id};
    }
    if i :| i in t.inodes && t.inodes[i].node.File? && RecordsName(t.inodes[i].node.records, d) {
      assert d in NodeObjects(t.inodes[i].node);
    }
  }

  // --- the collection pass -------------------------------------------------------------------

  /** Quarantined, resident, unrooted, and marked two or more passes ago. */
  function Overdue(quarantine: map<Digest, nat>, resident: set<Digest>, roots: set<Digest>, now: nat): set<Digest> {
    set d | d in quarantine && d !in roots && d in resident && quarantine[d] <= now - 2
  }

  function Expired(w: World, t: Tables): set<Digest> { Overdue(t.quarantine, t.objects.Keys, Roots(w, t), t.epoch + 1) }

  function Quarantined(w: World, t: Tables): map<Digest, nat> {
    map d | d in t.objects && d !in Roots(w, t) && d !in Expired(w, t) ::
      if d in t.quarantine then t.quarantine[d] else t.epoch + 1
  }

  function Collect(w: World, t: Tables): Result<Tables, Error> {
    if !AllReadable(w, t) then Err(SnapshotCorrupt)
    else Ok(t.(epoch := t.epoch + 1, objects := t.objects - Expired(w, t), quarantine := Quarantined(w, t)))
  }

  // --- sealing ---------------------------------------------------------------------------------

  /** The objects a workspace's linked files name: what a seal captures. */
  function LinkedObjects(t: Tables, ws: Text): set<Digest> {
    set s, d | s in t.dirents && Belongs(t, ws, s.parent) && t.dirents[s] in t.inodes
      && d in NodeObjects(t.inodes[t.dirents[s]].node) :: d
  }

  datatype Filed = Filed(path: Text, job: SealJob)

  function JobObjects(jobs: seq<Filed>): set<Digest> {
    set i, d | 0 <= i < |jobs| && d in Digests(jobs[i].job.records) :: d
  }

  function NewDigests(jobs: seq<Filed>): set<Digest> {
    set i, d | 0 <= i < |jobs| && d in jobs[i].job.newDigests :: d
  }

  /** Every planned record either names a newly admitted object or one the capture named. */
  predicate JobsOk(captured: set<Digest>, jobs: seq<Filed>) {
    forall i | 0 <= i < |jobs| :: forall d | d in Digests(jobs[i].job.records) :: d in captured || d in jobs[i].job.newDigests
  }

  ghost function ApplyJob(rules: TextRules, t: Tables, ws: Text, filed: Filed): (r: Result<Tables, Error>)
    requires ws in t.workspaces
    ensures r.Ok? ==> OnlyTree(t, r.value)
  {
    var next :- if filed.job.updateRecords then ApplyMutation(rules, t, ws, SetRecords(filed.path, filed.job.records)) else Ok(t);
    var i :- ResolvePath(rules, next, next.workspaces[ws].root, filed.path);
    Ok(if IsFile(next, i)
       then SetNode(next, i, next.inodes[i].node.(planner := filed.job.planner, contract := filed.job.contract)) else next)
  }

  ghost function ApplyJobs(rules: TextRules, t: Tables, ws: Text, jobs: seq<Filed>): (r: Result<Tables, Error>)
    requires ws in t.workspaces
    ensures r.Ok? ==> OnlyTree(t, r.value)
    decreases |jobs|
  {
    if jobs == [] then Ok(t)
    else
      var next :- ApplyJob(rules, t, ws, jobs[0]);
      ApplyJobs(rules, next, ws, jobs[1..])
  }

  function Admit(objects: Objects, id: Digest, bytes: Bytes): Objects {
    if id in objects then objects else objects[id := bytes]
  }

  /** Stores a manifest and roots it; an existing row is left alone. */
  function AddSnapshot(w: World, t: Tables, manifest: Bytes, generation: nat): Tables {
    var id := w.hash(manifest);
    t.(objects := Admit(t.objects, id, manifest),
       snapshots := if id in t.snapshots then t.snapshots else t.snapshots[id := generation])
  }

  /** The row `adopt_snapshot` inserts; an existing one is left alone. */
  function AddRow(t: Tables, id: Digest): Tables {
    t.(snapshots := if id in t.snapshots then t.snapshots else t.snapshots[id := 0])
  }

  /** The head the seal's transaction leaves, before its manifest is stored. */
  ghost function Rebounded(w: World, t: Tables, ws: Text, jobs: seq<Filed>): (r: Result<Tables, Error>)
    ensures r.Ok? ==> OnlyTree(t.(workspaces := r.value.workspaces), r.value)
  {
    if ws !in t.workspaces then Err(UnknownWorkspace)
    else if !(NewDigests(jobs) <= t.objects.Keys) then Err(MissingObject)
    else
      var next :- ApplyJobs(w.rules, t, ws, jobs);
      Ok(if jobs == [] then next else Advance(next, ws))
  }

  ghost function Seal(w: World, t: Tables, ws: Text, jobs: seq<Filed>, manifest: Bytes): Result<Tables, Error> {
    var next :- Rebounded(w, t, ws, jobs);
    if ws !in next.workspaces then Err(UnknownWorkspace)
    else Ok(AddSnapshot(w, next, manifest, next.workspaces[ws].generation))
  }

  // --- the machine --------------------------------------------------------------------------------

  /** What a caller holds between the steps of a commit or a seal. */
  datatype Flight =
    | Committing(workspace: Text, mutations: seq<Mutation>)
    | Capturing(workspace: Text, generation: nat, captured: set<Digest>)
    | Sealing(workspace: Text, generation: nat, captured: set<Digest>, jobs: seq<Filed>)

  datatype Config = Config(tables: Tables, flights: map<nat, Flight>)

  datatype Step =
    | Put(bytes: Bytes)
    | BeginCommit(flight: nat, workspace: Text, mutations: seq<Mutation>)
    | FinishCommit(flight: nat)
    | BeginSeal(flight: nat, workspace: Text)
    | PlanSeal(flight: nat, jobs: seq<Filed>)
    | FinishSeal(flight: nat, manifest: Bytes)
    | Create(workspace: Text)
    | Delete(workspace: Text)
    | DeleteSnapshot(id: Digest)
    | Adopt(bytes: Bytes)
    | LeasePath(workspace: Text, path: Text)
    | LeaseSnapshot(id: Digest)
    | Release(lease: nat)
    | Pass

  function Or(r: Result<Tables, Error>, t: Tables): Tables { if r.Ok? then r.value else t }

  /** One step; whatever the code refuses leaves the tables as they were. */
  ghost function Next(w: World, c: Config, step: Step): Config {
    var t := c.tables;
    match step
    case Put(bytes) => c.(tables := t.(objects := Admit(t.objects, w.hash(bytes), bytes)))
    case BeginCommit(f, ws, ms) =>
      if f !in c.flights && RunsOk(ms) && Referenced(ms) <= t.objects.Keys then c.(flights := c.flights[f := Committing(ws, ms)]) else c
    case FinishCommit(f) =>
      if f in c.flights && c.flights[f].Committing?
      then Config(Or(Commit(w.rules, t, c.flights[f].workspace, c.flights[f].mutations), t), c.flights - {f}) else c
    case BeginSeal(f, ws) =>
      if f !in c.flights && ws in t.workspaces
      then c.(flights := c.flights[f := Capturing(ws, t.workspaces[ws].generation, LinkedObjects(t, ws))]) else c
    case PlanSeal(f, jobs) =>
      if f in c.flights && c.flights[f].Capturing?
      then c.(flights := c.flights[f := Sealing(c.flights[f].workspace, c.flights[f].generation, c.flights[f].captured, jobs)]) else c
    case FinishSeal(f, manifest) =>
      if f in c.flights && c.flights[f].Sealing? && AtGeneration(t, c.flights[f])
      then Config(Or(Seal(w, t, c.flights[f].workspace, c.flights[f].jobs, manifest), t), c.flights - {f})
      else c.(flights := c.flights - {f})
    case Create(ws) => c.(tables := Or(CreateWorkspace(t, ws), t))
    case Delete(ws) => c.(tables := Or(DeleteWorkspace(t, ws), t))
    case DeleteSnapshot(id) => c.(tables := t.(snapshots := t.snapshots - {id}))
    case Adopt(bytes) => c.(tables := AddRow(t, w.hash(bytes)))
    case LeasePath(ws, path) => c.(tables := Or(AcquireUnlinked(w.rules, t, ws, path), t))
    case LeaseSnapshot(id) =>
      if id in t.snapshots && Manifest(w, t, id).Some?
      then c.(tables := AddLease(t, PendingSync(Manifest(w, t, id).value + {id}))) else c
    case Release(l) => c.(tables := Or(ReleaseLease(t, l), t))
    case Pass => c.(tables := Or(Collect(w, t), t))
  }

  /** The one test a seal's transaction makes of the head it captured. */
  predicate AtGeneration(t: Tables, f: Flight)
    requires !f.Committing?
  {
    f.workspace in t.workspaces && t.workspaces[f.workspace].generation == f.generation
  }

  predicate SealInFlight(c: Config, ws: Text) {
    exists f :: f in c.flights && !c.flights[f].Committing? && c.flights[f].workspace == ws
  }

  /** The manifest is stored under its own digest and reads back, and all it names is resident. */
  ghost predicate Adoptable(w: World, t: Tables, bytes: Bytes) {
    && w.hash(bytes) in t.objects && Agrees(w.hash, t.objects, bytes)
    && w.names(bytes).Some? && w.names(bytes).value <= t.objects.Keys
  }

  /** What the machine asks of its environment: the two calls that remove a root are not
      made, a workspace is not recreated under a seal in flight, planning follows the
      capture, a sealed manifest names what the sealed head links and collides with no
      resident object, and no pass has undone an adoption before its row is inserted. */
  ghost predicate Enabled(w: World, c: Config, step: Step) {
    match step
    case FinishCommit(f) => f in c.flights && c.flights[f].Committing? && c.flights[f].workspace in c.tables.workspaces ==>
      !BatchDropsRoot(c.tables, c.flights[f].workspace, c.flights[f].mutations)
    case PlanSeal(f, jobs) => f in c.flights && c.flights[f].Capturing? ==> JobsOk(c.flights[f].captured, jobs)
    case FinishSeal(f, manifest) => f in c.flights && c.flights[f].Sealing? && AtGeneration(c.tables, c.flights[f]) ==>
      var head := Rebounded(w, c.tables, c.flights[f].workspace, c.flights[f].jobs);
      head.Ok? ==>
        && w.names(manifest).Some? && w.names(manifest).value <= LinkedObjects(head.value, c.flights[f].workspace)
        && Agrees(w.hash, c.tables.objects, manifest)
    case Adopt(bytes) => Adoptable(w, c.tables, bytes)
    case Create(ws) => !SealInFlight(c, ws)
    case Release(l) => l in c.tables.leases ==> !LastOnRoot(c.tables, l)
    case _ => true
  }

  // --- what every step keeps --------------------------------------------------------------------------

  ghost predicate SnapshotOk(w: World, t: Tables, id: Digest) {
    Manifest(w, t, id).Some? && Manifest(w, t, id).value <= t.objects.Keys
  }

  /** Every object named by an object map, a lease or a snapshot is resident. */
  ghost predicate Resident(w: World, t: Tables) {
    && Addressed(w.hash, t.objects)
    && HeadObjects(t) <= t.objects.Keys
    && LeaseObjects(t) <= t.objects.Keys
    && (forall id | id in t.snapshots :: SnapshotOk(w, t, id))
  }

  /** A seal whose generation still stands captured only what its head still links. */
  ghost predicate FlightOk(t: Tables, f: Flight) {
    && (!f.Committing? && f.workspace in t.workspaces ==>
          f.generation <= t.workspaces[f.workspace].generation
          && (AtGeneration(t, f) ==> f.captured <= LinkedObjects(t, f.workspace)))
    && (f.Sealing? ==> JobsOk(f.captured, f.jobs))
  }

  ghost predicate Inv(w: World, c: Config) {
    && Tree(w.rules, c.tables) && Resident(w, c.tables)
    && (forall f | f in c.flights :: FlightOk(c.tables, c.flights[f]))
  }

  /** Residency is exactly that the store is content addressed and a pass can read its roots
      and finds them all there. */
  lemma ResidentRoots(w: World, t: Tables)
    ensures Resident(w, t) <==> Addressed(w.hash, t.objects) && AllReadable(w, t) && Roots(w, t) <= t.objects.Keys
  {
    if Resident(w, t) {
      forall id | id in t.snapshots ensures Manifest(w, t, id).Some? {
        assert SnapshotOk(w, t, id);
      }
      forall d | d in SnapshotObjects(w, t) ensures d in t.objects {
        var id :| id in t.snapshots && Manifest(w, t, id).Some? && d in Manifest(w, t, id).value + {id};
        assert SnapshotOk(w, t, id);
      }
    }
    if AllReadable(w, t) && Roots(w, t) <= t.objects.Keys {
      forall id | id in t.snapshots ensures SnapshotOk(w, t, id) {
        assert Manifest(w, t, id).Some?;
        forall d | d in Manifest(w, t, id).value ensures d in t.objects {
          assert d in Manifest(w, t, id).value + {id};
          assert d in SnapshotObjects(w, t);
        }
      }
    }
  }

  // --- how a step may change the tables -----------------------------------------------------------------

  /** For a seal of `ws`: the head only advances, and until it does its links stay. */
  ghost predicate Advances(t: Tables, after: Tables, ws: Text) {
    ws in after.workspaces ==>
      && ws in t.workspaces && t.workspaces[ws].generation <= after.workspaces[ws].generation
      && (t.workspaces[ws].generation == after.workspaces[ws].generation ==> LinkedObjects(t, ws) <= LinkedObjects(after, ws))
  }

  lemma FlightCarries(t: Tables, after: Tables, f: Flight)
    requires FlightOk(t, f) && (f.Committing? || Advances(t, after, f.workspace))
    ensures FlightOk(after, f)
  {
    hide LinkedObjects, JobsOk;
  }

  /** A step that leaves the roots' tables alone and adds objects. */
  lemma ResidentGrows(w: World, t: Tables, after: Tables)
    requires Resident(w, t) && Extends(t.objects, after.objects) && Addressed(w.hash, after.objects)
    requires HeadObjects(after) <= after.objects.Keys && LeaseObjects(after) <= after.objects.Keys
    requires forall id | id in after.snapshots && id !in t.snapshots :: SnapshotOk(w, after, id)
    ensures Resident(w, after)
  {
    hide HeadObjects, LeaseObjects;
    forall id | id in after.snapshots ensures SnapshotOk(w, after, id) {
      assert id in t.snapshots ==> SnapshotOk(w, t, id);
    }
  }

  lemma AdmitExtends(w: World, objects: Objects, bytes: Bytes)
    requires Addressed(w.hash, objects)
    ensures var after := Admit(objects, w.hash(bytes), bytes);
      && Extends(objects, after) && Addressed(w.hash, after) && w.hash(bytes) in after
      && (after[w.hash(bytes)] == bytes <==> Agrees(w.hash, objects, bytes))
  {
  }

  lemma LinkedAreHeads(t: Tables, ws: Text)
    ensures LinkedObjects(t, ws) <= HeadObjects(t)
  {
    hide NodeObjects;
  }

  lemma SameLinkedObjects(t: Tables, after: Tables, ws: Text)
    requires after.inodes == t.inodes && after.dirents == t.dirents
    ensures LinkedObjects(after, ws) == LinkedObjects(t, ws) && HeadObjects(after) == HeadObjects(t)
  {
  }

  /** A dirent of `ws` that still leads to the same row. */
  predicate SlotStays(t: Tables, after: Tables, ws: Text, s: Slot)
    requires s in t.dirents && t.dirents[s] in t.inodes
  {
    var i := t.dirents[s];
    s in after.dirents && after.dirents[s] == i && Belongs(after, ws, s.parent) && i in after.inodes && after.inodes[i] == t.inodes[i]
  }

  lemma LinksStay(t: Tables, after: Tables, ws: Text)
    requires forall s | s in t.dirents && Belongs(t, ws, s.parent) && t.dirents[s] in t.inodes :: SlotStays(t, after, ws, s)
    ensures LinkedObjects(t, ws) <= LinkedObjects(after, ws)
  {
    hide NodeObjects;
    forall d | d in LinkedObjects(t, ws) ensures d in LinkedObjects(after, ws) {
      var s :| s in t.dirents && Belongs(t, ws, s.parent) && t.dirents[s] in t.inodes
        && d in NodeObjects(t.inodes[t.dirents[s]].node);
      assert SlotStays(t, after, ws, s);
    }
  }

  /** A mutation of one workspace leaves another's links. */
  lemma LocalLinks(rules: TextRules, t: Tables, ws: Text, after: Tables, added: set<Digest>, other: Text)
    requires Tree(rules, t) && Local(t, ws, after, added) && other != ws
    ensures LinkedObjects(t, other) <= LinkedObjects(after, other)
  {
    hide WellFormed, HeadObjects, LinkedObjects, Detached, ValidSegment;
    var at :| WellFormed(rules, t, at);
    forall s | s in t.dirents && Belongs(t, other, s.parent) && t.dirents[s] in t.inodes ensures SlotStays(t, after, other, s) {
      Edge(rules, t, at, s);
      assert Foreign(t, ws, s) && Same(t.dirents, after.dirents, s);
    }
    LinksStay(t, after, other);
  }

  lemma CommitKeepsInv(w: World, c: Config, f: nat)
    requires Inv(w, c) && Enabled(w, c, FinishCommit(f))
    ensures Inv(w, Next(w, c, FinishCommit(f)))
  {
    hide Tree, Resident, FlightOk, Local, HeadObjects, LeaseObjects, LinkedObjects, Commit, Advance, Referenced;
    var t, after := c.tables, Next(w, c, FinishCommit(f)).tables;
    if f in c.flights && c.flights[f].Committing? {
      var ws, ms := c.flights[f].workspace, c.flights[f].mutations;
      if Commit(w.rules, t, ws, ms).Ok? {
        CommitKeepsTree(w.rules, t, ws, ms);
        CommitTables(w, t, ws, ms);
        forall g | g in c.flights - {f} ensures FlightOk(after, c.flights[g]) {
          if !c.flights[g].Committing? { CommitAdvances(w, t, ws, ms, c.flights[g].workspace); }
          FlightCarries(t, after, c.flights[g]);
        }
      }
    }
  }

  lemma CommitTables(w: World, t: Tables, ws: Text, ms: seq<Mutation>)
    requires Tree(w.rules, t) && Resident(w, t) && Commit(w.rules, t, ws, ms).Ok?
    requires !BatchDropsRoot(t, ws, ms)
    ensures Resident(w, Commit(w.rules, t, ws, ms).value)
  {
    hide Tree, HeadObjects, ApplyAll, Referenced;
    BatchIsLocal(w.rules, t, ws, ms);
    var next := ApplyAll(w.rules, t, ws, ms).value;
    SameLinkedObjects(next, Advance(next, ws), ws);
    ResidentGrows(w, t, Advance(next, ws));
  }

  lemma CommitAdvances(w: World, t: Tables, ws: Text, ms: seq<Mutation>, other: Text)
    requires Tree(w.rules, t) && Commit(w.rules, t, ws, ms).Ok?
    requires !BatchDropsRoot(t, ws, ms)
    ensures Advances(t, Commit(w.rules, t, ws, ms).value, other)
  {
    hide Tree, ApplyAll, LinkedObjects, Referenced;
    BatchIsLocal(w.rules, t, ws, ms);
    var next := ApplyAll(w.rules, t, ws, ms).value;
    SameLinkedObjects(next, Advance(next, ws), other);
    if other != ws {
      LocalLinks(w.rules, t, ws, next, Referenced(ms), other);
    }
  }

  // --- seal ------------------------------------------------------------------------------------------

  lemma JobIsLocal(rules: TextRules, t: Tables, ws: Text, filed: Filed)
    requires Tree(rules, t) && ws in t.workspaces && ApplyJob(rules, t, ws, filed).Ok?
    ensures Tree(rules, ApplyJob(rules, t, ws, filed).value)
    ensures Local(t, ws, ApplyJob(rules, t, ws, filed).value, Digests(filed.job.records))
  {
    hide Local, WellFormed, ApplyMutation, ResolvePath, Digests;
    var m := SetRecords(filed.path, filed.job.records);
    var next := if filed.job.updateRecords then ApplyMutation(rules, t, ws, m).value else t;
    if filed.job.updateRecords {
      MutationKeepsTree(rules, t, ws, m);
      MutationIsLocal(rules, t, ws, m);
    } else {
      LocalRefl(t, ws);
    }
    var i := ResolvePath(rules, next, next.workspaces[ws].root, filed.path).value;
    var after := ApplyJob(rules, t, ws, filed).value;
    if IsFile(next, i) {
      var at :| WellFormed(rules, next, at);
      ResolvedFile(rules, next, at, ws, filed.path);
      SetKeepsTree(rules, next, at, i, after.inodes[i].node);
      SetIsLocal(next, ws, i, after.inodes[i].node, {});
      LocalTrans(t, ws, next, after, if filed.job.updateRecords then Digests(filed.job.records) else {}, {});
    }
    LocalWeaken(t, ws, after, if filed.job.updateRecords then Digests(filed.job.records) else {}, Digests(filed.job.records));
  }

  lemma LocalWeaken(t: Tables, ws: Text, after: Tables, a: set<Digest>, b: set<Digest>)
    requires (Local(t, ws, after, a) || Local(t, ws, after, a + {})) && a <= b
    ensures Local(t, ws, after, b)
  {
    hide HeadObjects, Detached;
  }

  lemma {:induction false} JobsAreLocal(rules: TextRules, t: Tables, ws: Text, jobs: seq<Filed>)
    requires Tree(rules, t) && ws in t.workspaces && ApplyJobs(rules, t, ws, jobs).Ok?
    ensures Tree(rules, ApplyJobs(rules, t, ws, jobs).value)
    ensures Local(t, ws, ApplyJobs(rules, t, ws, jobs).value, JobObjects(jobs))
    decreases |jobs|
  {
    hide Tree, ApplyJob, Local, Digests;
    if jobs == [] {
      LocalRefl(t, ws);
      assert JobObjects(jobs) == {};
    } else {
      var next := ApplyJob(rules, t, ws, jobs[0]).value;
      JobIsLocal(rules, t, ws, jobs[0]);
      JobsAreLocal(rules, next, ws, jobs[1..]);
      var a, b := Digests(jobs[0].job.records), JobObjects(jobs[1..]);
      LocalTrans(t, ws, next, ApplyJobs(rules, t, ws, jobs).value, a, b);
      assert a + b <= JobObjects(jobs) by {
        forall d | d in b ensures d in JobObjects(jobs) {
          var i :| 0 <= i < |jobs[1..]| && d in Digests(jobs[1..][i].job.records);
          assert jobs[i + 1] == jobs[1..][i];
        }
      }
      LocalWeaken(t, ws, ApplyJobs(rules, t, ws, jobs).value, a + b, JobObjects(jobs));
    }
  }

  /** Rechecked new objects and a capture that still stands make every planned record resident. */
  lemma PlannedResident(w: World, t: Tables, f: Flight)
    requires Resident(w, t) && f.Sealing? && FlightOk(t, f) && AtGeneration(t, f)
    requires NewDigests(f.jobs) <= t.objects.Keys
    ensures JobObjects(f.jobs) <= t.objects.Keys
  {
    hide HeadObjects, LinkedObjects, Digests;
    LinkedAreHeads(t, f.workspace);
    forall d | d in JobObjects(f.jobs) ensures d in t.objects {
      var i :| 0 <= i < |f.jobs| && d in Digests(f.jobs[i].job.records);
      if d !in f.captured {
        assert d in NewDigests(f.jobs);
      }
    }
  }

  lemma RebindTables(w: World, t: Tables, f: Flight)
    requires Tree(w.rules, t) && Resident(w, t) && f.Sealing? && FlightOk(t, f) && AtGeneration(t, f)
    requires Rebounded(w, t, f.workspace, f.jobs).Ok?
    ensures var after := Rebounded(w, t, f.workspace, f.jobs).value;
      Tree(w.rules, after) && Resident(w, after) && forall other :: Advances(t, after, other)
  {
    hide WellFormed, HeadObjects, ApplyJob, LinkedObjects, JobObjects, NewDigests, JobsOk;
    JobsAreLocal(w.rules, t, f.workspace, f.jobs);
    PlannedResident(w, t, f);
    var ws := f.workspace;
    var next := ApplyJobs(w.rules, t, ws, f.jobs).value;
    var after := Rebounded(w, t, ws, f.jobs).value;
    if f.jobs != [] {
      var at :| WellFormed(w.rules, next, at);
      AdvanceKeepsTree(w.rules, next, at, ws);
    }
    SameLinkedObjects(next, after, ws);
    ResidentGrows(w, t, after);
    forall other ensures Advances(t, after, other) {
      SameLinkedObjects(next, after, other);
      if other != ws {
        LocalLinks(w.rules, t, ws, next, JobObjects(f.jobs), other);
      } else if f.jobs == [] {
        assert next == t;
      }
    }
  }

  /** A tree and its links do not read the object store or the snapshot index. */
  lemma TreeIgnoresObjects(rules: TextRules, t: Tables, objects: Objects, snapshots: map<Digest, nat>)
    requires Tree(rules, t)
    ensures Tree(rules, t.(objects := objects, snapshots := snapshots))
  {
    hide WellFormed, Apart;
    var at :| WellFormed(rules, t, at);
    AllApart(rules, t, at);
    GrowthKeepsTree(rules, t, at, t.(objects := objects, snapshots := snapshots), at);
  }

  /** Rooting a manifest whose names are resident. */
  lemma AddSnapshotKeeps(w: World, t: Tables, manifest: Bytes, generation: nat)
    requires Tree(w.rules, t) && Resident(w, t) && Agrees(w.hash, t.objects, manifest)
    requires w.names(manifest).Some? && w.names(manifest).value <= t.objects.Keys
    ensures var after := AddSnapshot(w, t, manifest, generation);
      Tree(w.rules, after) && Resident(w, after) && forall ws :: Advances(t, after, ws)
  {
    hide Tree, HeadObjects, LinkedObjects;
    var after := AddSnapshot(w, t, manifest, generation);
    AdmitExtends(w, t.objects, manifest);
    TreeIgnoresObjects(w.rules, t, after.objects, after.snapshots);
    SameLinkedObjects(t, after, []);
    ResidentGrows(w, t, after);
    forall ws ensures Advances(t, after, ws) { SameLinkedObjects(t, after, ws); }
  }

  lemma AddRowKeeps(w: World, t: Tables, bytes: Bytes)
    requires Tree(w.rules, t) && Resident(w, t) && Adoptable(w, t, bytes)
    ensures var after := AddRow(t, w.hash(bytes));
      Tree(w.rules, after) && Resident(w, after) && forall ws :: Advances(t, after, ws)
  {
    hide Tree, Resident, Advances;
    AddSnapshotKeeps(w, t, bytes, 0);
    assert AddSnapshot(w, t, bytes, 0) == AddRow(t, w.hash(bytes));
  }

  lemma SealKeepsInv(w: World, c: Config, f: nat, manifest: Bytes)
    requires Inv(w, c) && Enabled(w, c, FinishSeal(f, manifest))
    ensures Inv(w, Next(w, c, FinishSeal(f, manifest)))
  {
    hide Tree, Resident, FlightOk, LinkedObjects, HeadObjects, Rebounded, AddSnapshot, Advances;
    var t, after := c.tables, Next(w, c, FinishSeal(f, manifest)).tables;
    if f in c.flights && c.flights[f].Sealing? && AtGeneration(t, c.flights[f]) {
      var ws, jobs := c.flights[f].workspace, c.flights[f].jobs;
      if Rebounded(w, t, ws, jobs).Ok? {
        var head := Rebounded(w, t, ws, jobs).value;
        RebindTables(w, t, c.flights[f]);
        HeadsResident(w, head, ws);
        if ws in head.workspaces {
          AddSnapshotKeeps(w, head, manifest, head.workspaces[ws].generation);
          forall g | g in c.flights - {f} ensures FlightOk(after, c.flights[g]) {
            FlightCarries(t, head, c.flights[g]);
            FlightCarries(head, after, c.flights[g]);
          }
        }
      }
    }
  }

  lemma HeadsResident(w: World, t: Tables, ws: Text)
    requires Resident(w, t)
    ensures LinkedObjects(t, ws) <= t.objects.Keys
  {
    hide LinkedObjects, HeadObjects;
    LinkedAreHeads(t, ws);
  }

  // --- the other steps -----------------------------------------------------------------------------------

  lemma ReleaseKeeps(w: World, t: Tables, l: nat)
    requires Tree(w.rules, t) && Resident(w, t) && l in t.leases && !LastOnRoot(t, l)
    ensures var after := ReleaseLease(t, l).value;
      Tree(w.rules, after) && Resident(w, after) && forall ws :: Advances(t, after, ws)
  {
    hide WellFormed, Linked, Leased, DropIfOrphaned, NodeObjects, LinkedObjects, ValidSegment;
    var at :| WellFormed(w.rules, t, at);
    var after := ReleaseLease(t, l).value;
    ReleaseKeepsTree(w.rules, t, at, l);
    if t.leases[l].Unlinked? {
      Childless(w.rules, t, at, l);
      SameLinks(t, t.(leases := t.leases - {l}));
    }
    ResidentGrows(w, t, after);
    forall ws ensures Advances(t, after, ws) {
      forall s | s in t.dirents && Belongs(t, ws, s.parent) && t.dirents[s] in t.inodes ensures SlotStays(t, after, ws, s) {
        LinkedBy(t, s);
        Edge(w.rules, t, at, s);
      }
      LinksStay(t, after, ws);
    }
  }

  lemma DeleteKeeps(w: World, t: Tables, ws: Text)
    requires Tree(w.rules, t) && Resident(w, t) && ws in t.workspaces
    ensures var after := DeleteWorkspace(t, ws).value;
      Tree(w.rules, after) && Resident(w, after) && forall other :: Advances(t, after, other)
  {
    hide WellFormed, NodeObjects, ValidSegment, LinkedObjects;
    var at :| WellFormed(w.rules, t, at);
    var after := DeleteWorkspace(t, ws).value;
    DeleteKeepsTree(w.rules, t, at, ws);
    ResidentGrows(w, t, after);
    forall other ensures Advances(t, after, other) {
      if other != ws {
        forall s | s in t.dirents && Belongs(t, other, s.parent) && t.dirents[s] in t.inodes
          ensures SlotStays(t, after, other, s)
        {
          Edge(w.rules, t, at, s);
        }
        LinksStay(t, after, other);
      }
    }
  }

  lemma CreateKeeps(w: World, t: Tables, ws: Text)
    requires Tree(w.rules, t) && Resident(w, t) && ws !in t.workspaces
    ensures var after := CreateWorkspace(t, ws).value;
      Tree(w.rules, after) && Resident(w, after) && forall other | other != ws :: Advances(t, after, other)
  {
    hide WellFormed, NextId, LinkedObjects, HeadObjects;
    var at :| WellFormed(w.rules, t, at);
    var after := CreateWorkspace(t, ws).value;
    CreateKeepsTree(w.rules, t, at, ws);
    CreateNamesNothing(t, ws);
    ResidentGrows(w, t, after);
    forall other | other != ws ensures Advances(t, after, other) {
      forall s | s in t.dirents && Belongs(t, other, s.parent) && t.dirents[s] in t.inodes ensures SlotStays(t, after, other, s) {}
      LinksStay(t, after, other);
    }
  }

  lemma CreateNamesNothing(t: Tables, ws: Text)
    requires ws !in t.workspaces
    ensures HeadObjects(CreateWorkspace(t, ws).value) <= HeadObjects(t)
  {
    hide NextId, Digests;
    var after := CreateWorkspace(t, ws).value;
    forall d | d in HeadObjects(after) ensures d in HeadObjects(t) {
      var i :| i in after.inodes && d in NodeObjects(after.inodes[i].node);
      InodeObjects(t, i);
    }
  }

  lemma AddLeaseKeeps(w: World, t: Tables, lease: Lease)
    requires Tree(w.rules, t) && Resident(w, t) && LeaseOk(t, lease)
    requires lease.PendingSync? ==> lease.objects <= t.objects.Keys
    ensures var after := AddLease(t, lease);
      Tree(w.rules, after) && Resident(w, after) && forall ws :: Advances(t, after, ws)
  {
    hide WellFormed, HeadObjects, LinkedObjects, NextId;
    var at :| WellFormed(w.rules, t, at);
    var after := AddLease(t, lease);
    LeaseKeepsTree(w.rules, t, at, lease);
    SameLinkedObjects(t, after, []);
    assert LeaseObjects(after) <= LeaseObjects(t) + (if lease.PendingSync? then lease.objects else {});
    ResidentGrows(w, t, after);
    forall ws ensures Advances(t, after, ws) { SameLinkedObjects(t, after, ws); }
  }

  /** A pass takes no object the roots name. */
  lemma PassKeeps(w: World, t: Tables)
    requires Tree(w.rules, t) && Resident(w, t)
    ensures Collect(w, t).Ok?
    ensures var after := Collect(w, t).value;
      Tree(w.rules, after) && Resident(w, after) && forall ws :: Advances(t, after, ws)
  {
    hide WellFormed, HeadObjects, LeaseObjects, LinkedObjects, Quarantined, Resident, Expired, Roots;
    ResidentRoots(w, t);
    var at :| WellFormed(w.rules, t, at);
    var after := Collect(w, t).value;
    AllApart(w.rules, t, at);
    GrowthKeepsTree(w.rules, t, at, after, at);
    PassKeepsResident(w, t);
    forall ws ensures Advances(t, after, ws) { SameLinkedObjects(t, after, ws); }
  }

  lemma PassKeepsResident(w: World, t: Tables)
    requires Resident(w, t) && Collect(w, t).Ok?
    ensures Resident(w, Collect(w, t).value)
  {
    hide HeadObjects, LeaseObjects, Quarantined;
    ResidentRoots(w, t);
    var after := Collect(w, t).value;
    SameLinkedObjects(t, after, []);
    LeaseObjectsSame(t, after);
    forall id | id in after.snapshots ensures SnapshotOk(w, after, id) {
      assert SnapshotOk(w, t, id);
      forall d | d in Manifest(w, t, id).value + {id} ensures d in SnapshotObjects(w, t) {}
    }
  }

  lemma LeaseObjectsSame(t: Tables, after: Tables)
    requires after.leases == t.leases
    ensures LeaseObjects(after) == LeaseObjects(t)
  {
  }

  /** Every step keeps the invariant. */
  lemma StepKeepsInv(w: World, c: Config, step: Step)
    requires Inv(w, c) && Enabled(w, c, step)
    ensures Inv(w, Next(w, c, step))
  {
    hide Tree, Resident, FlightOk, HeadObjects, LinkedObjects, LeaseObjects, Advances, Agrees, JobsOk, LastOnRoot,
      Commit, Seal, Rebounded, CreateWorkspace, DeleteWorkspace, AcquireUnlinked, ReleaseLease, Collect, Referenced, RunsOk,
      AddSnapshot, AddLease, Admit;
    var t := c.tables;
    match step
    case FinishCommit(f) => CommitKeepsInv(w, c, f);
    case FinishSeal(f, manifest) => SealKeepsInv(w, c, f, manifest);
    case BeginCommit(f, ws, ms) => CommitFlightOk(t, Committing(ws, ms));
    case BeginSeal(f, ws) => if ws in t.workspaces { CaptureOk(t, ws); }
    case PlanSeal(f, jobs) => if f in c.flights && c.flights[f].Capturing? { PlanOk(t, c.flights[f], jobs); }
    case _ =>
      TablesStep(w, c, step);
      var after := Next(w, c, step).tables;
      forall f | f in c.flights ensures FlightOk(after, c.flights[f]) { FlightCarries(t, after, c.flights[f]); }
  }

  lemma CommitFlightOk(t: Tables, f: Flight)
    requires f.Committing?
    ensures FlightOk(t, f)
  {
  }

  lemma CaptureOk(t: Tables, ws: Text)
    requires ws in t.workspaces
    ensures FlightOk(t, Capturing(ws, t.workspaces[ws].generation, LinkedObjects(t, ws)))
  {
    hide LinkedObjects;
  }

  lemma PlanOk(t: Tables, f: Flight, jobs: seq<Filed>)
    requires f.Capturing? && FlightOk(t, f) && JobsOk(f.captured, jobs)
    ensures FlightOk(t, Sealing(f.workspace, f.generation, f.captured, jobs))
  {
    hide LinkedObjects, JobsOk;
  }

  predicate ChangesFlights(step: Step) {
    step.FinishCommit? || step.FinishSeal? || step.BeginCommit? || step.BeginSeal? || step.PlanSeal?
  }

  /** The steps that no flight takes part in. */
  lemma TablesStep(w: World, c: Config, step: Step)
    requires Inv(w, c) && Enabled(w, c, step) && !ChangesFlights(step)
    ensures Next(w, c, step).flights == c.flights
    ensures var after := Next(w, c, step).tables;
      && Tree(w.rules, after) && Resident(w, after)
      && forall f | f in c.flights && !c.flights[f].Committing? :: Advances(c.tables, after, c.flights[f].workspace)
  {
    hide WellFormed, Resident, FlightOk, HeadObjects, LinkedObjects, LeaseObjects, LastOnRoot, Collect, AddSnapshot,
      DropIfOrphaned, NextId, Advances, Roots, Admit;
    var t := c.tables;
    AdvancesRefl(t);
    match step
    case Put(bytes) => PutKeeps(w, t, bytes);
    case Create(ws) => if ws !in t.workspaces { CreateKeeps(w, t, ws); }
    case Delete(ws) => if ws in t.workspaces { DeleteKeeps(w, t, ws); }
    case DeleteSnapshot(id) => DropSnapshotKeeps(w, t, id);
    case Adopt(bytes) => AddRowKeeps(w, t, bytes);
    case LeasePath(ws, path) =>
      if AcquireUnlinked(w.rules, t, ws, path).Ok? {
        var at :| WellFormed(w.rules, t, at);
        ResolvedBelongs(w.rules, t, at, ws, path);
        AddLeaseKeeps(w, t, Unlinked(ws, ResolvePath(w.rules, t, t.workspaces[ws].root, path).value));
      }
    case LeaseSnapshot(id) =>
      if id in t.snapshots && Manifest(w, t, id).Some? {
        ManifestResident(w, t, id);
        AddLeaseKeeps(w, t, PendingSync(Manifest(w, t, id).value + {id}));
      }
    case Release(l) => if l in t.leases { ReleaseKeeps(w, t, l); }
    case Pass => PassKeeps(w, t);
  }

  lemma ManifestResident(w: World, t: Tables, id: Digest)
    requires Resident(w, t) && id in t.snapshots
    ensures Manifest(w, t, id).Some? && Manifest(w, t, id).value + {id} <= t.objects.Keys
  {
    assert SnapshotOk(w, t, id);
  }

  lemma AdvancesRefl(t: Tables)
    ensures forall ws :: Advances(t, t, ws)
  {
  }

  lemma PutKeeps(w: World, t: Tables, bytes: Bytes)
    requires Tree(w.rules, t) && Resident(w, t)
    ensures var after := t.(objects := Admit(t.objects, w.hash(bytes), bytes));
      Tree(w.rules, after) && Resident(w, after) && forall ws :: Advances(t, after, ws)
  {
    hide Tree, HeadObjects, LinkedObjects, Admit;
    var after := t.(objects := Admit(t.objects, w.hash(bytes), bytes));
    AdmitExtends(w, t.objects, bytes);
    TreeIgnoresObjects(w.rules, t, after.objects, t.snapshots);
    SameLinkedObjects(t, after, []);
    LeaseObjectsSame(t, after);
    ResidentGrows(w, t, after);
    forall ws ensures Advances(t, after, ws) { SameLinkedObjects(t, after, ws); }
  }

  lemma DropSnapshotKeeps(w: World, t: Tables, id: Digest)
    requires Tree(w.rules, t) && Resident(w, t)
    ensures var after := t.(snapshots := t.snapshots - {id});
      Tree(w.rules, after) && Resident(w, after) && forall ws :: Advances(t, after, ws)
  {
    hide Tree, HeadObjects, LinkedObjects;
    var after := t.(snapshots := t.snapshots - {id});
    TreeIgnoresObjects(w.rules, t, t.objects, after.snapshots);
    SameLinkedObjects(t, after, []);
    ResidentGrows(w, t, after);
    forall ws ensures Advances(t, after, ws) { SameLinkedObjects(t, after, ws); }
  }
}
