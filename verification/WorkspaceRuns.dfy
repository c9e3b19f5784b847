/** Safety over whole runs: residency, what quarantine remembers, and what a lease holds. */
module WorkspaceRuns {
  import opened Wrappers
  import opened Records
  import opened Rechunk
  import opened Paths
  import opened Workspace
  import opened WorkspaceTree
  import opened WorkspaceEffects
  import opened WorkspaceGc

  const INITIAL := Config(EMPTY, map[])

  /** The configuration after the first `k` steps. */
  ghost function After(w: World, steps: seq<Step>, k: nat): Config
    requires k <= |steps|
  {
    if k == 0 then INITIAL else Next(w, After(w, steps, k - 1), steps[k - 1])
  }

  ghost function At(w: World, steps: seq<Step>, k: nat): Tables
    requires k <= |steps|
  {
    After(w, steps, k).tables
  }

  ghost predicate Run(w: World, steps: seq<Step>) {
    forall k | 0 <= k < |steps| :: Enabled(w, After(w, steps, k), steps[k])
  }

  lemma {:induction false} RunKeepsInv(w: World, steps: seq<Step>, k: nat)
    requires Run(w, steps) && k <= |steps|
    ensures Inv(w, After(w, steps, k))
  {
    hide Inv, Enabled, Next;
    if k == 0 {
      InitialInv(w);
    } else {
      RunKeepsInv(w, steps, k - 1);
      StepKeepsInv(w, After(w, steps, k - 1), steps[k - 1]);
    }
  }

  lemma InitialInv(w: World)
    ensures Inv(w, INITIAL)
  {
    EmptyIsTree(w.rules);
  }

  /** In every run, every object named by an object map, a lease, or a snapshot row's
      manifest and closure is resident, and every pass can read its roots. */
  lemma AlwaysResident(w: World, steps: seq<Step>, k: nat)
    requires Run(w, steps) && k <= |steps|
    ensures var t := At(w, steps, k);
      && Roots(w, t) <= t.objects.Keys && AllReadable(w, t)
      && (forall i | i in t.inodes :: NodeObjects(t.inodes[i].node) <= t.objects.Keys)
      && (forall l | l in t.leases && t.leases[l].PendingSync? :: t.leases[l].objects <= t.objects.Keys)
      && (forall id | id in t.snapshots :: id in t.objects && w.names(t.objects[id]).Some?
            && w.names(t.objects[id]).value <= t.objects.Keys)
  {
    hide Tree, FlightOk, Run, After, NodeObjects;
    RunKeepsInv(w, steps, k);
    var t := At(w, steps, k);
    ResidentRoots(w, t);
    forall i | i in t.inodes ensures NodeObjects(t.inodes[i].node) <= t.objects.Keys { InodeObjects(t, i); }
    forall id | id in t.snapshots ensures SnapshotOk(w, t, id) {}
  }

  /** In every run, the directories of every workspace stay a tree. */
  lemma AlwaysATree(w: World, steps: seq<Step>, k: nat)
    requires Run(w, steps) && k <= |steps|
    ensures Tree(w.rules, At(w, steps, k))
  {
    hide Tree, FlightOk, Run, After, Resident;
    RunKeepsInv(w, steps, k);
  }

  // --- what a step does to the object store, the quarantine and the epoch -----------------------

  /** Only a pass moves the epoch or the quarantine, and only a pass removes an object. */
  lemma OnlyPassesCollect(w: World, c: Config, step: Step)
    requires !step.Pass?
    ensures var t, after := c.tables, Next(w, c, step).tables;
      after.epoch == t.epoch && after.quarantine == t.quarantine && Extends(t.objects, after.objects)
  {
    hide Commit, Seal, AcquireUnlinked, AddLease, Referenced, RunsOk, LinkedObjects, Manifest, DeleteWorkspace, ReleaseLease,
      CreateWorkspace, Admit, Extends;
    ExtendsSelf(c.tables.objects);
    match step
    case Put(bytes) => AdmitOnlyAdds(w, c.tables, bytes);
    case FinishCommit(f) =>
      if f in c.flights && c.flights[f].Committing? { CommitLeavesObjects(w, c.tables, c.flights[f].workspace, c.flights[f].mutations); }
    case FinishSeal(f, manifest) =>
      if f in c.flights && c.flights[f].Sealing? { SealOnlyAdds(w, c.tables, c.flights[f].workspace, c.flights[f].jobs, manifest); }
    case LeasePath(ws, path) => PathLeaseLeavesObjects(w, c.tables, ws, path);
    case LeaseSnapshot(id) =>
      var names := Manifest(w, c.tables, id);
      if names.Some? { LeaseLeavesObjects(c.tables, PendingSync(names.value + {id})); }
    case Delete(ws) => DeleteLeavesObjects(c.tables, ws);
    case Create(ws) => CreateLeavesObjects(c.tables, ws);
    case Release(l) => ReleaseLeavesObjects(c.tables, l);
    case _ =>
  }

  /** The tables a collection reads and writes besides the roots. */
  predicate SameStore(t: Tables, after: Tables) {
    after.epoch == t.epoch && after.quarantine == t.quarantine && after.objects == t.objects
  }

  lemma AdmitOnlyAdds(w: World, t: Tables, bytes: Bytes)
    ensures Extends(t.objects, Admit(t.objects, w.hash(bytes), bytes))
  {
  }

  lemma CommitLeavesObjects(w: World, t: Tables, ws: Text, ms: seq<Mutation>)
    ensures SameStore(t, Or(Commit(w.rules, t, ws, ms), t))
  {
    hide ApplyAll, Referenced;
  }

  lemma SealOnlyAdds(w: World, t: Tables, ws: Text, jobs: seq<Filed>, manifest: Bytes)
    ensures var after := Or(Seal(w, t, ws, jobs, manifest), t);
      after.epoch == t.epoch && after.quarantine == t.quarantine && Extends(t.objects, after.objects)
  {
    hide Rebounded, Admit, Extends;
    ExtendsSelf(t.objects);
    AdmitOnlyAdds(w, t, manifest);
  }

  lemma LeaseLeavesObjects(t: Tables, lease: Lease)
    ensures SameStore(t, AddLease(t, lease))
  {
  }

  lemma PathLeaseLeavesObjects(w: World, t: Tables, ws: Text, path: Text)
    ensures SameStore(t, Or(AcquireUnlinked(w.rules, t, ws, path), t))
  {
    hide ResolvePath;
  }

  lemma DeleteLeavesObjects(t: Tables, ws: Text)
    ensures SameStore(t, Or(DeleteWorkspace(t, ws), t))
  {
  }

  lemma CreateLeavesObjects(t: Tables, ws: Text)
    ensures SameStore(t, Or(CreateWorkspace(t, ws), t))
  {
  }

  lemma ReleaseLeavesObjects(t: Tables, l: nat)
    ensures SameStore(t, Or(ReleaseLease(t, l), t))
  {
  }

  /** What a pass does, object by object. */
  lemma PassEffect(w: World, c: Config)
    requires Inv(w, c)
    ensures var t, after := c.tables, Next(w, c, Step.Pass).tables;
      && after.epoch == t.epoch + 1 && after.objects == t.objects - Expired(w, t) && after.quarantine == Quarantined(w, t)
  {
    hide Tree, FlightOk, Quarantined, Expired;
    ResidentRoots(w, c.tables);
  }

  // --- quarantine ---------------------------------------------------------------------------------

  /** The pass that runs as step `j`. */
  ghost function PassNumber(w: World, steps: seq<Step>, j: nat): nat
    requires j <= |steps|
  {
    At(w, steps, j).epoch + 1
  }

  /** Resident, and needed by no row, when step `j` runs. */
  ghost predicate Idle(w: World, steps: seq<Step>, j: nat, d: Digest)
    requires j <= |steps|
  {
    d in At(w, steps, j).objects && !Needed(w, At(w, steps, j), d)
  }

  lemma IdleIs(w: World, steps: seq<Step>, j: nat, d: Digest)
    requires Run(w, steps) && j <= |steps|
    ensures Idle(w, steps, j, d) <==> d in At(w, steps, j).objects && d !in Roots(w, At(w, steps, j))
  {
    hide Run, Next, Roots, Needed, Resident, Tree, FlightOk, AllReadable;
    RunKeepsInv(w, steps, j);
    ResidentRoots(w, At(w, steps, j));
    RootsAre(w, At(w, steps, j), d);
  }

  /** Pass `m` ran before step `k`, and every pass from it on found `d` idle. */
  ghost predicate IdleSince(w: World, steps: seq<Step>, k: nat, d: Digest, m: nat)
    requires k <= |steps|
  {
    && (exists j :: 0 <= j < k && steps[j].Pass? && PassNumber(w, steps, j) == m)
    && (forall j | 0 <= j < k && steps[j].Pass? && PassNumber(w, steps, j) >= m :: Idle(w, steps, j, d))
  }

  lemma {:induction false} QuarantineRemembers(w: World, steps: seq<Step>, k: nat, d: Digest)
    requires Run(w, steps) && k <= |steps| && d in At(w, steps, k).quarantine
    ensures 1 <= At(w, steps, k).quarantine[d] <= At(w, steps, k).epoch
    ensures IdleSince(w, steps, k, d, At(w, steps, k).quarantine[d])
  {
    hide Run, Next, Inv, Roots, Expired, Idle;
    if k > 0 {
      var c := After(w, steps, k - 1);
      RunKeepsInv(w, steps, k - 1);
      if steps[k - 1].Pass? {
        IdleIs(w, steps, k - 1, d);
        PassEffect(w, c);
        if d in c.tables.quarantine {
          QuarantineRemembers(w, steps, k - 1, d);
        } else {
          forall j | 0 <= j < k - 1 && steps[j].Pass? ensures PassNumber(w, steps, j) <= c.tables.epoch {
            EpochGrows(w, steps, j + 1, k - 1);
            RunKeepsInv(w, steps, j);
            PassEffect(w, After(w, steps, j));
          }
        }
      } else {
        OnlyPassesCollect(w, c, steps[k - 1]);
        QuarantineRemembers(w, steps, k - 1, d);
      }
    }
  }

  lemma {:induction false} EpochGrows(w: World, steps: seq<Step>, i: nat, k: nat)
    requires Run(w, steps) && i <= k <= |steps|
    ensures At(w, steps, i).epoch <= At(w, steps, k).epoch
    decreases k - i
  {
    hide Run, Next, Inv, Roots, Expired;
    if i < k {
      EpochGrows(w, steps, i, k - 1);
      RunKeepsInv(w, steps, k - 1);
      if steps[k - 1].Pass? {
        PassEffect(w, After(w, steps, k - 1));
      } else {
        OnlyPassesCollect(w, After(w, steps, k - 1), steps[k - 1]);
      }
    }
  }

  /** Whatever step removes an object, it is a pass; the object was quarantined two or more
      passes before, and was resident and unrooted at every pass from then to this one. */
  lemma RemovedAfterTwoIdlePasses(w: World, steps: seq<Step>, k: nat, d: Digest)
    requires Run(w, steps) && k < |steps|
    requires d in At(w, steps, k).objects && d !in At(w, steps, k + 1).objects
    ensures steps[k].Pass?
    ensures exists m :: 1 <= m <= PassNumber(w, steps, k) - 2 && IdleSince(w, steps, k, d, m)
    ensures Idle(w, steps, k, d)
  {
    hide Run, Next, Inv, Roots, Quarantined, IdleSince, Idle;
    var c := After(w, steps, k);
    RunKeepsInv(w, steps, k);
    if steps[k].Pass? {
      IdleIs(w, steps, k, d);
      PassEffect(w, c);
      QuarantineRemembers(w, steps, k, d);
    } else {
      OnlyPassesCollect(w, c, steps[k]);
    }
  }

  /** Between passes `a` and `k` an object that stays resident and idle stays quarantined. */
  lemma {:induction false} StaysQuarantined(w: World, steps: seq<Step>, a: nat, k: nat, d: Digest)
    requires Run(w, steps) && a < k <= |steps| && steps[a].Pass?
    requires forall j | a <= j <= k :: d in At(w, steps, j).objects
    requires forall j | a <= j < k && steps[j].Pass? :: Idle(w, steps, j, d)
    ensures d in At(w, steps, k).quarantine && At(w, steps, k).quarantine[d] <= PassNumber(w, steps, a)
    decreases k
  {
    hide Run, Next, Inv, Roots, Expired, Idle;
    var c := After(w, steps, k - 1);
    RunKeepsInv(w, steps, k - 1);
    if k - 1 > a {
      StaysQuarantined(w, steps, a, k - 1, d);
    }
    if steps[k - 1].Pass? {
      assert Idle(w, steps, k - 1, d);
      IdleIs(w, steps, k - 1, d);
      PassEffect(w, c);
      if k - 1 == a && d in c.tables.quarantine {
        QuarantineRemembers(w, steps, a, d);
      }
    } else {
      OnlyPassesCollect(w, c, steps[k - 1]);
    }
  }

  /** An object that stays resident is idle at no three passes in a row: the third removes it. */
  lemma GoneByTheThirdPass(w: World, steps: seq<Step>, a: nat, b: nat, k: nat, d: Digest)
    requires Run(w, steps) && a < b < k < |steps| && steps[a].Pass? && steps[b].Pass? && steps[k].Pass?
    requires forall j | a <= j <= k :: d in At(w, steps, j).objects
    requires forall j | a <= j <= k && steps[j].Pass? :: Idle(w, steps, j, d)
    ensures d !in At(w, steps, k + 1).objects
  {
    hide Run, Next, Inv, Roots, Quarantined, Idle;
    StaysQuarantined(w, steps, a, k, d);
    RunKeepsInv(w, steps, a);
    RunKeepsInv(w, steps, b);
    RunKeepsInv(w, steps, k);
    PassEffect(w, After(w, steps, a));
    PassEffect(w, After(w, steps, b));
    PassEffect(w, After(w, steps, k));
    EpochGrows(w, steps, a + 1, b);
    EpochGrows(w, steps, b + 1, k);
    assert Idle(w, steps, k, d);
    IdleIs(w, steps, k, d);
  }

  // --- leases ---------------------------------------------------------------------------------------

  /** The two calls that end a lease. */
  predicate Ends(step: Step, l: nat, lease: Lease) {
    step == Release(l) || (lease.Unlinked? && step == Delete(lease.workspace))
  }

  lemma LeaseSurvives(w: World, c: Config, step: Step, l: nat)
    requires l in c.tables.leases && !Ends(step, l, c.tables.leases[l])
    ensures l in Next(w, c, step).tables.leases && Next(w, c, step).tables.leases[l] == c.tables.leases[l]
  {
    hide Commit, Rebounded, Referenced, NextId, DropIfOrphaned, RunsOk, ResolvePath, LinkedObjects, Manifest, Quarantined,
      Expired, AllReadable, Admit, AddLease, DeleteWorkspace, ReleaseLease;
    var t := c.tables;
    match step
    case LeasePath(ws, path) =>
      if AcquireUnlinked(w.rules, t, ws, path).Ok? {
        OtherLeaseStays(t, Unlinked(ws, ResolvePath(w.rules, t, t.workspaces[ws].root, path).value), l);
      }
    case LeaseSnapshot(id) =>
      if Manifest(w, t, id).Some? { OtherLeaseStays(t, PendingSync(Manifest(w, t, id).value + {id}), l); }
    case Delete(ws) => DeleteLeavesLease(t, ws, l);
    case Release(other) => ReleaseLeavesLease(t, other, l);
    case _ =>
  }

  lemma OtherLeaseStays(t: Tables, lease: Lease, l: nat)
    requires l in t.leases
    ensures l in AddLease(t, lease).leases && AddLease(t, lease).leases[l] == t.leases[l]
  {
  }

  lemma DeleteLeavesLease(t: Tables, ws: Text, l: nat)
    requires l in t.leases && !(t.leases[l].Unlinked? && t.leases[l].workspace == ws)
    ensures DeleteWorkspace(t, ws).Ok? ==> Same(t.leases, DeleteWorkspace(t, ws).value.leases, l)
  {
  }

  lemma ReleaseLeavesLease(t: Tables, other: nat, l: nat)
    requires l in t.leases && other != l
    ensures ReleaseLease(t, other).Ok? ==> Same(t.leases, ReleaseLease(t, other).value.leases, l)
  {
  }

  lemma {:induction false} LeaseHolds(w: World, steps: seq<Step>, i: nat, k: nat, l: nat)
    requires i <= k <= |steps| && l in At(w, steps, i).leases
    requires forall j | i <= j < k :: !Ends(steps[j], l, At(w, steps, i).leases[l])
    ensures l in At(w, steps, k).leases && At(w, steps, k).leases[l] == At(w, steps, i).leases[l]
    decreases k - i
  {
    hide Next, Ends;
    if i < k {
      LeaseHolds(w, steps, i, k - 1, l);
      LeaseSurvives(w, After(w, steps, k - 1), steps[k - 1], l);
    }
  }

  /** From the step that takes a pending-sync lease until its release, no run removes or
      changes the manifest or any object of its closure. */
  lemma TransferStaysPinned(w: World, steps: seq<Step>, i: nat, k: nat, id: Digest)
    requires Run(w, steps) && i < k <= |steps| && steps[i] == LeaseSnapshot(id) && id in At(w, steps, i).snapshots
    requires forall j | i <= j < k :: steps[j] != Release(NextId(At(w, steps, i).leases.Keys))
    ensures var t, after := At(w, steps, i), At(w, steps, k);
      && id in t.objects && w.names(t.objects[id]).Some?
      && forall d | d in w.names(t.objects[id]).value + {id} :: d in t.objects && d in after.objects && after.objects[d] == t.objects[d]
  {
    hide Run, Inv, Next, After, NextId;
    var t, after, l := At(w, steps, i), At(w, steps, k), NextId(At(w, steps, i).leases.Keys);
    RunKeepsInv(w, steps, i);
    RunKeepsInv(w, steps, k);
    InvManifest(w, After(w, steps, i), id);
    LeaseTaken(w, After(w, steps, i), id);
    AfterStep(w, steps, i);
    LeaseHolds(w, steps, i + 1, k, l);
    var pinned := w.names(t.objects[id]).value + {id};
    forall d | d in pinned ensures d in t.objects && d in after.objects && after.objects[d] == t.objects[d] {
      StoreAfterLease(w, After(w, steps, i), id);
      PinnedBytes(w, steps, i + 1, k, l, d);
    }
  }

  lemma AfterStep(w: World, steps: seq<Step>, k: nat)
    requires k < |steps|
    ensures After(w, steps, k + 1) == Next(w, After(w, steps, k), steps[k])
  {
    hide Next;
  }

  lemma LeaseTaken(w: World, c: Config, id: Digest)
    requires Inv(w, c) && id in c.tables.snapshots
    ensures id in c.tables.objects && w.names(c.tables.objects[id]).Some?
    ensures var l, pinned := NextId(c.tables.leases.Keys), w.names(c.tables.objects[id]).value + {id};
      && pinned <= c.tables.objects.Keys
      && l in Next(w, c, LeaseSnapshot(id)).tables.leases && Next(w, c, LeaseSnapshot(id)).tables.leases[l] == PendingSync(pinned)
  {
    hide Tree, FlightOk, NextId, HeadObjects, LeaseObjects;
    assert SnapshotOk(w, c.tables, id);
  }

  lemma LeaseIsResident(w: World, c: Config, l: nat, d: Digest)
    requires Inv(w, c) && l in c.tables.leases && c.tables.leases[l].PendingSync? && d in c.tables.leases[l].objects
    ensures d in c.tables.objects
  {
    hide Tree, FlightOk, HeadObjects, SnapshotOk;
    assert d in LeaseObjects(c.tables);
  }

  lemma InvManifest(w: World, c: Config, id: Digest)
    requires Inv(w, c) && id in c.tables.snapshots
    ensures id in c.tables.objects && Manifest(w, c.tables, id) == w.names(c.tables.objects[id]) && Manifest(w, c.tables, id).Some?
  {
    hide Tree, FlightOk;
    assert SnapshotOk(w, c.tables, id);
  }

  lemma StoreAfterLease(w: World, c: Config, id: Digest)
    ensures Next(w, c, LeaseSnapshot(id)).tables.objects == c.tables.objects
  {
    hide NextId, Manifest;
  }

  /** An object a standing lease names stays, byte for byte. */
  lemma {:induction false} PinnedBytes(w: World, steps: seq<Step>, i: nat, k: nat, l: nat, d: Digest)
    requires Run(w, steps) && i <= k <= |steps| && l in At(w, steps, i).leases
    requires At(w, steps, i).leases[l].PendingSync? && d in At(w, steps, i).leases[l].objects
    requires forall j | i <= j < k :: steps[j] != Release(l)
    ensures d in At(w, steps, i).objects && d in At(w, steps, k).objects && At(w, steps, k).objects[d] == At(w, steps, i).objects[d]
    decreases k - i
  {
    hide Run, Inv, Next, Expired;
    LeaseHolds(w, steps, i, k, l);
    RunKeepsInv(w, steps, k);
    LeaseIsResident(w, After(w, steps, k), l, d);
    if i < k {
      PinnedBytes(w, steps, i, k - 1, l, d);
      RunKeepsInv(w, steps, k - 1);
      if steps[k - 1].Pass? {
        PassEffect(w, After(w, steps, k - 1));
      } else {
        OnlyPassesCollect(w, After(w, steps, k - 1), steps[k - 1]);
      }
    }
  }

  /** Until its last lease is released or its workspace deleted, a leased inode stays, with
      every object its map names resident. */
  lemma LeasedInodeStays(w: World, steps: seq<Step>, i: nat, k: nat, l: nat)
    requires Run(w, steps) && i <= k <= |steps| && l in At(w, steps, i).leases && At(w, steps, i).leases[l].Unlinked?
    requires forall j | i <= j < k :: !Ends(steps[j], l, At(w, steps, i).leases[l])
    ensures var t, lease := At(w, steps, k), At(w, steps, i).leases[l];
      && Belongs(t, lease.workspace, lease.inode)
      && NodeObjects(t.inodes[lease.inode].node) <= t.objects.Keys && NodeObjects(t.inodes[lease.inode].node) <= Roots(w, t)
  {
    hide Run, Resident, LeaseObjects, SnapshotObjects, NodeObjects, WellFormed, After, HeadObjects, Ends;
    LeaseHolds(w, steps, i, k, l);
    AlwaysResident(w, steps, k);
    AlwaysATree(w, steps, k);
    var t := At(w, steps, k);
    var at :| WellFormed(w.rules, t, at);
    Held(w.rules, t, at, l);
    InodeObjects(t, At(w, steps, i).leases[l].inode);
  }

  /** Once nothing links it, a leased inode's row does not change at all. */
  lemma DetachedStep(w: World, c: Config, step: Step, l: nat)
    requires Inv(w, c) && Enabled(w, c, step) && l in c.tables.leases && c.tables.leases[l].Unlinked?
    requires Detached(c.tables, c.tables.leases[l].inode) && !Ends(step, l, c.tables.leases[l])
    ensures var i, after := c.tables.leases[l].inode, Next(w, c, step).tables;
      Detached(after, i) && after.inodes[i] == c.tables.inodes[i]
  {
    hide Resident, FlightOk, WellFormed, Commit, Rebounded, Referenced, NextId, ReleaseLease, RunsOk, ResolvePath,
      LinkedObjects, Manifest, Quarantined, Expired, AllReadable, HeadObjects, LastOnRoot, Linked, Leased, CreateWorkspace,
      DeleteWorkspace, Admit;
    var t, i := c.tables, c.tables.leases[l].inode;
    var after := Next(w, c, step).tables;
    LeaseSurvives(w, c, step, l);
    LeasedBy(after, l);
    match step
    case FinishCommit(f) =>
      if f in c.flights && c.flights[f].Committing? && Commit(w.rules, t, c.flights[f].workspace, c.flights[f].mutations).Ok? {
        CommitLeavesDetached(w, t, c.flights[f].workspace, c.flights[f].mutations, i);
      }
    case FinishSeal(f, manifest) =>
      if f in c.flights && c.flights[f].Sealing? && Rebounded(w, t, c.flights[f].workspace, c.flights[f].jobs).Ok? {
        SealLeavesDetached(w, t, c.flights[f].workspace, c.flights[f].jobs, manifest, i);
      }
    case Release(other) =>
      ReleaseLeavesDetached(w, t, other, l);
    case Create(ws) => CreateLeavesDetached(t, ws, i);
    case Delete(ws) => DeleteLeavesDetached(w, t, ws, l);
    case _ => SameLinks(t, after);
  }

  lemma CommitLeavesDetached(w: World, t: Tables, ws: Text, ms: seq<Mutation>, i: InodeId)
    requires Tree(w.rules, t) && Commit(w.rules, t, ws, ms).Ok? && Detached(t, i)
    requires !BatchDropsRoot(t, ws, ms)
    ensures var after := Commit(w.rules, t, ws, ms).value;
      i in after.inodes && after.inodes[i] == t.inodes[i] && !Linked(after, i)
  {
    hide Tree, HeadObjects, ApplyAll, Referenced;
    BatchIsLocal(w.rules, t, ws, ms);
  }

  lemma SealLeavesDetached(w: World, t: Tables, ws: Text, jobs: seq<Filed>, manifest: Bytes, i: InodeId)
    requires Tree(w.rules, t) && Rebounded(w, t, ws, jobs).Ok? && Detached(t, i)
    ensures var after := Or(Seal(w, t, ws, jobs, manifest), t);
      i in after.inodes && after.inodes[i] == t.inodes[i] && !Linked(after, i)
  {
    hide Tree, HeadObjects, ApplyJobs, NewDigests, Admit;
    JobsAreLocal(w.rules, t, ws, jobs);
  }

  lemma ReleaseLeavesDetached(w: World, t: Tables, other: nat, l: nat)
    requires Tree(w.rules, t) && l in t.leases && l != other && (other in t.leases ==> !LastOnRoot(t, other))
    requires t.leases[l].Unlinked? && Detached(t, t.leases[l].inode)
    ensures var i, after := t.leases[l].inode, Or(ReleaseLease(t, other), t);
      i in after.inodes && after.inodes[i] == t.inodes[i] && !Linked(after, i)
  {
    hide WellFormed, LastOnRoot, Linked, Leased, DropIfOrphaned;
    if other in t.leases {
      var at :| WellFormed(w.rules, t, at);
      Released(w.rules, t, at, other);
      LeasedBy(t.(leases := t.leases - {other}), l);
      SameLinks(t, ReleaseLease(t, other).value);
    }
  }

  lemma CreateLeavesDetached(t: Tables, ws: Text, i: InodeId)
    requires Detached(t, i)
    ensures var after := Or(CreateWorkspace(t, ws), t);
      i in after.inodes && after.inodes[i] == t.inodes[i] && !Linked(after, i)
  {
    hide NextId;
  }

  lemma DeleteLeavesDetached(w: World, t: Tables, ws: Text, l: nat)
    requires Tree(w.rules, t) && l in t.leases && t.leases[l].Unlinked? && t.leases[l].workspace != ws
    requires Detached(t, t.leases[l].inode)
    ensures var i, after := t.leases[l].inode, Or(DeleteWorkspace(t, ws), t);
      i in after.inodes && after.inodes[i] == t.inodes[i] && !Linked(after, i)
  {
    hide WellFormed, Leased;
    var at :| WellFormed(w.rules, t, at);
    Held(w.rules, t, at, l);
  }

  lemma {:induction false} DetachedInodeIsFrozen(w: World, steps: seq<Step>, i: nat, k: nat, l: nat)
    requires Run(w, steps) && i <= k <= |steps| && l in At(w, steps, i).leases && At(w, steps, i).leases[l].Unlinked?
    requires Detached(At(w, steps, i), At(w, steps, i).leases[l].inode)
    requires forall j | i <= j < k :: !Ends(steps[j], l, At(w, steps, i).leases[l])
    ensures var inode := At(w, steps, i).leases[l].inode;
      Detached(At(w, steps, k), inode) && At(w, steps, k).inodes[inode] == At(w, steps, i).inodes[inode]
    decreases k - i
  {
    hide Inv, Next, Ends, Enabled, Linked, Leased;
    if i < k {
      DetachedInodeIsFrozen(w, steps, i, k - 1, l);
      LeaseHolds(w, steps, i, k - 1, l);
      RunKeepsInv(w, steps, k - 1);
      DetachedStep(w, After(w, steps, k - 1), steps[k - 1], l);
    }
  }
}
