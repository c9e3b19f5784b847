/** What each transaction besides the mutations leaves, row by row. */
module WorkspaceSteps {
  import opened Wrappers
  import opened Records
  import opened Rechunk
  import opened Paths
  import opened Workspace
  import opened WorkspaceEffects
  import opened WorkspaceTree
  import opened WorkspaceNames
  import opened WorkspaceAccept
  import opened WorkspaceGc
  import opened WorkspaceReseal

  /** A commit advances its own workspace's generation by one and touches no row but inodes and dirents. */
  lemma CommitMeans(rules: TextRules, t: Tables, ws: Text, ms: seq<Mutation>)
    requires Commit(rules, t, ws, ms).Ok?
    ensures ws in t.workspaces
    ensures var after := Commit(rules, t, ws, ms).value;
      && after.workspaces == t.workspaces[ws := Head(t.workspaces[ws].generation + 1, t.workspaces[ws].root)]
      && after.leases == t.leases && after.snapshots == t.snapshots && after.objects == t.objects
      && after.epoch == t.epoch && after.quarantine == t.quarantine
  {
    hide ApplyAll;
  }

  /** Creation is refused exactly for a taken name; it adds an empty head at generation 0 over one
      new directory, and nothing else. */
  lemma CreateMeans(t: Tables, ws: Text)
    ensures CreateWorkspace(t, ws).Ok? <==> ws !in t.workspaces
    ensures ws !in t.workspaces ==> var after := CreateWorkspace(t, ws).value;
      var root := after.workspaces[ws].root;
      && root !in t.inodes && after.workspaces[ws].generation == 0
      && (forall i :: i in after.inodes <==> i in t.inodes || i == root)
      && after.inodes[root] == Inode(ws, Dir) && (forall i | i in t.inodes :: after.inodes[i] == t.inodes[i])
      && (forall other | other != ws :: Same(t.workspaces, after.workspaces, other))
      && after == t.(workspaces := after.workspaces, inodes := after.inodes)
  {
  }

  /** Deletion is refused exactly for an unknown name; it takes the head, its inodes, their dirents
      and the leases on them, and leaves every other row. */
  lemma DeleteMeans(t: Tables, ws: Text)
    ensures DeleteWorkspace(t, ws).Ok? <==> ws in t.workspaces
    ensures ws in t.workspaces ==> var after := DeleteWorkspace(t, ws).value;
      && ws !in after.workspaces && (forall other | other != ws :: Same(t.workspaces, after.workspaces, other))
      && (forall i :: i in after.inodes <==> i in t.inodes && t.inodes[i].workspace != ws)
      && (forall i | i in after.inodes :: after.inodes[i] == t.inodes[i])
      && (forall s :: s in after.dirents <==> s in t.dirents && !(s.parent in t.inodes && t.inodes[s.parent].workspace == ws))
      && (forall s | s in after.dirents :: after.dirents[s] == t.dirents[s])
      && (forall l :: l in after.leases <==> l in t.leases && !(t.leases[l].Unlinked? && t.leases[l].workspace == ws))
      && (forall l | l in after.leases :: after.leases[l] == t.leases[l])
      && after.snapshots == t.snapshots && after.objects == t.objects && after.epoch == t.epoch && after.quarantine == t.quarantine
  {
  }

  /** A release takes its lease, and the inode it held if neither a dirent nor another lease still does. */
  lemma ReleaseMeans(t: Tables, l: nat)
    requires l in t.leases
    ensures ReleaseLease(t, l).Ok?
    ensures var after := ReleaseLease(t, l).value;
      var gone := if t.leases[l].Unlinked? && !(exists s :: s in t.dirents && t.dirents[s] == t.leases[l].inode)
          && !(exists k :: k != l && k in t.leases && t.leases[k].Unlinked? && t.leases[k].inode == t.leases[l].inode)
        then {t.leases[l].inode} else {};
      && after.leases == t.leases - {l} && after.inodes == t.inodes - gone
      && (forall s :: s in after.dirents <==> s in t.dirents && s.parent !in gone)
      && (forall s | s in after.dirents :: after.dirents[s] == t.dirents[s])
      && after == t.(leases := after.leases, inodes := after.inodes, dirents := after.dirents)
  {
    var rest := t.(leases := t.leases - {l});
    if t.leases[l].Unlinked? {
      var i := t.leases[l].inode;
      assert Linked(rest, i) <==> exists s :: s in t.dirents && t.dirents[s] == i;
      if k :| k != l && k in t.leases && t.leases[k].Unlinked? && t.leases[k].inode == i { assert k in rest.leases; }
      assert Leased(rest, i) <==> exists k :: k != l && k in t.leases && t.leases[k].Unlinked? && t.leases[k].inode == i;
    }
    assert t.inodes - {} == t.inodes;
  }

  /** `after` has one lease more, under a new number, and is otherwise `t`. */
  ghost predicate Leases(t: Tables, after: Tables, lease: Lease) {
    exists l: nat :: l !in t.leases && after == t.(leases := t.leases[l := lease])
  }

  lemma AddedLease(t: Tables, lease: Lease)
    ensures Leases(t, AddLease(t, lease), lease)
  {
    var l := NextId(t.leases.Keys);
    assert l !in t.leases && AddLease(t, lease) == t.(leases := t.leases[l := lease]);
  }

  /** A path lease is taken exactly on a path that is there (the empty path is the root), and holds
      the inode found. */
  lemma PathLeaseMeans(rules: TextRules, t: Tables, ws: Text, path: Text)
    requires Tree(rules, t) && ws in t.workspaces
    ensures var r, seen := AcquireUnlinked(rules, t, ws, path), Seen(t, ws, Segments(path));
      && (r.Ok? <==> path == [] || (ValidPath(rules, path) && seen.Some?))
      && (r.Ok? ==> Leases(t, r.value, Unlinked(ws, if path == [] then t.workspaces[ws].root else seen.value.0)))
  {
    hide WellFormed, ValidPath, Segments, Seen, AddLease, Leases;
    var at :| WellFormed(rules, t, at);
    if path != [] { ResolvedIsSeen(rules, t, at, ws, path); }
    var r := ResolvePath(rules, t, t.workspaces[ws].root, path);
    if r.Ok? { AddedLease(t, Unlinked(ws, r.value)); }
  }

  /** A snapshot lease holds the snapshot and exactly what its stored manifest names; it is refused,
      and changes nothing, for an id that is no snapshot. */
  lemma SnapshotLeaseMeans(w: World, c: Config, id: Digest)
    requires id in c.tables.snapshots ==> Manifest(w, c.tables, id).Some?
    ensures id !in c.tables.snapshots ==> Next(w, c, LeaseSnapshot(id)) == c
    ensures id in c.tables.snapshots ==> exists held ::
      && Next(w, c, LeaseSnapshot(id)) == c.(tables := Next(w, c, LeaseSnapshot(id)).tables)
      && Leases(c.tables, Next(w, c, LeaseSnapshot(id)).tables, PendingSync(held))
      && id in c.tables.objects && forall d :: d in held <==> d == id || StoredNames(w, c.tables.objects[id], d)
  {
    hide AddLease, Leases;
    if id in c.tables.snapshots {
      var held := w.names(c.tables.objects[id]).value + {id};
      AddedLease(c.tables, PendingSync(held));
    }
  }

  /** Storing bytes adds them under their digest unless something is there, and does nothing else. */
  lemma PutMeans(w: World, c: Config, bytes: Bytes)
    ensures var t, after := c.tables, Next(w, c, Put(bytes)).tables;
      && w.hash(bytes) in after.objects && (w.hash(bytes) !in t.objects ==> after.objects[w.hash(bytes)] == bytes)
      && (forall d | d != w.hash(bytes) || d in t.objects :: Same(t.objects, after.objects, d))
      && after == t.(objects := after.objects) && Next(w, c, Put(bytes)).flights == c.flights
  {
  }

  /** Deleting a snapshot takes its row and adopting one adds its row, at generation 0 if it is new. */
  lemma SnapshotRowsMean(w: World, c: Config, id: Digest, bytes: Bytes)
    ensures var t, after := c.tables, Next(w, c, DeleteSnapshot(id)).tables;
      && id !in after.snapshots && (forall other | other != id :: Same(t.snapshots, after.snapshots, other))
      && after == t.(snapshots := after.snapshots) && Next(w, c, DeleteSnapshot(id)).flights == c.flights
    ensures var t, after, row := c.tables, Next(w, c, Adopt(bytes)).tables, w.hash(bytes);
      && row in after.snapshots && (row !in t.snapshots ==> after.snapshots[row] == 0)
      && (forall other | other != row || other in t.snapshots :: Same(t.snapshots, after.snapshots, other))
      && after == t.(snapshots := after.snapshots) && Next(w, c, Adopt(bytes)).flights == c.flights
  {
  }

  // --- sealing ------------------------------------------------------------------------------------------

  ghost predicate LeadsTo(rules: TextRules, t: Tables, ws: Text, filed: Filed, i: InodeId)
    requires ws in t.workspaces
  {
    ResolvePath(rules, t, t.workspaces[ws].root, filed.path) == Ok(i)
  }

  ghost function Stamped(node: Node, job: SealJob): Node
    requires node.File?
  {
    File(node.executable, job.planner, job.contract, if job.updateRecords then job.records else node.records)
  }

  /** One job gives the file its path leads to its planner, its stamp and, if it says so, its records. */
  lemma JobSets(rules: TextRules, t: Tables, ws: Text, filed: Filed, i: InodeId)
    requires ws in t.workspaces && ApplyJob(rules, t, ws, filed).Ok? && i in t.inodes
    ensures var after := ApplyJob(rules, t, ws, filed).value;
      && i in after.inodes
      && after.inodes[i] == if LeadsTo(rules, t, ws, filed, i) && t.inodes[i].node.File?
           then t.inodes[i].(node := Stamped(t.inodes[i].node, filed.job)) else t.inodes[i]
  {
    hide Walk, ValidPath, Segments;
    if filed.job.updateRecords {
      SetWrites(rules, t, ws, filed.path, filed.job.records);
    }
  }

  lemma SameNamesLead(rules: TextRules, t: Tables, after: Tables, ws: Text, filed: Filed, i: InodeId)
    requires SameNames(t, after) && ws in t.workspaces
    ensures LeadsTo(rules, after, ws, filed, i) <==> LeadsTo(rules, t, ws, filed, i)
  {
    hide Walk, ValidPath, Segments;
    SameNamesWalk(t, after, t.workspaces[ws].root, Segments(filed.path));
  }

  /** After all the jobs a file no job leads to is as it was, and one that some job leads to has the
      planner and stamp of the last such job, and its records too where that job writes them. */
  lemma {:induction false} JobsSet(rules: TextRules, t: Tables, ws: Text, jobs: seq<Filed>, i: InodeId)
    requires ws in t.workspaces && ApplyJobs(rules, t, ws, jobs).Ok? && IsFile(t, i)
    ensures IsFile(ApplyJobs(rules, t, ws, jobs).value, i)
    ensures (forall k | 0 <= k < |jobs| :: !LeadsTo(rules, t, ws, jobs[k], i)) ==>
      ApplyJobs(rules, t, ws, jobs).value.inodes[i] == t.inodes[i]
    ensures forall k | 0 <= k < |jobs| && LeadsTo(rules, t, ws, jobs[k], i)
        && (forall later | k < later < |jobs| :: !LeadsTo(rules, t, ws, jobs[later], i)) ::
      Carried(ApplyJobs(rules, t, ws, jobs).value.inodes[i].node, jobs[k].job)
    decreases |jobs|
  {
    hide ApplyJob, LeadsTo;
    if jobs != [] {
      var next := ApplyJob(rules, t, ws, jobs[0]).value;
      JobSets(rules, t, ws, jobs[0], i);
      JobWrites(rules, t, ws, jobs[0]);
      JobsSet(rules, next, ws, jobs[1..], i);
      forall k | 0 <= k < |jobs| - 1 ensures LeadsTo(rules, next, ws, jobs[1..][k], i) <==> LeadsTo(rules, t, ws, jobs[k + 1], i) {
        SameNamesLead(rules, t, next, ws, jobs[k + 1], i);
      }
      forall k | 0 < k < |jobs| && LeadsTo(rules, t, ws, jobs[k], i)
          && (forall later | k < later < |jobs| :: !LeadsTo(rules, t, ws, jobs[later], i))
        ensures Carried(ApplyJobs(rules, t, ws, jobs).value.inodes[i].node, jobs[k].job)
      {
        assert jobs[1..][k - 1] == jobs[k];
        forall later | k - 1 < later < |jobs| - 1 ensures !LeadsTo(rules, next, ws, jobs[1..][later], i) {
          assert jobs[1..][later] == jobs[later + 1];
        }
      }
    }
  }

  ghost predicate Carried(node: Node, job: SealJob) {
    node.File? && node.planner == job.planner && node.contract == job.contract && (job.updateRecords ==> node.records == job.records)
  }

  /** The job's path is there, and leads to a file if the job writes records. */
  ghost predicate Applies(rules: TextRules, t: Tables, ws: Text, filed: Filed)
    requires ws in t.workspaces
  {
    exists i :: LeadsTo(rules, t, ws, filed, i) && (filed.job.updateRecords ==> IsFile(t, i))
  }

  lemma JobAccepted(rules: TextRules, t: Tables, ws: Text, filed: Filed)
    requires ws in t.workspaces
    ensures ApplyJob(rules, t, ws, filed).Ok? <==> Applies(rules, t, ws, filed)
  {
    hide Walk, ValidPath, Segments;
    var r := ResolvePath(rules, t, t.workspaces[ws].root, filed.path);
    if r.Ok? { assert LeadsTo(rules, t, ws, filed, r.value); }
    if filed.job.updateRecords && r.Ok? && IsFile(t, r.value) {
      SetWrites(rules, t, ws, filed.path, filed.job.records);
    }
  }

  lemma JobKeepsOthers(rules: TextRules, t: Tables, ws: Text, filed: Filed, other: Filed)
    requires ws in t.workspaces && ApplyJob(rules, t, ws, filed).Ok?
    ensures Applies(rules, ApplyJob(rules, t, ws, filed).value, ws, other) <==> Applies(rules, t, ws, other)
  {
    hide ApplyJob, LeadsTo;
    var after := ApplyJob(rules, t, ws, filed).value;
    JobWrites(rules, t, ws, filed);
    forall i: InodeId ensures LeadsTo(rules, after, ws, other, i) <==> LeadsTo(rules, t, ws, other, i) {
      SameNamesLead(rules, t, after, ws, other, i);
    }
    forall i: InodeId ensures IsFile(after, i) <==> IsFile(t, i) { if i in t.inodes { JobSets(rules, t, ws, filed, i); } }
  }

  lemma {:induction false} JobsAccepted(rules: TextRules, t: Tables, ws: Text, jobs: seq<Filed>)
    requires ws in t.workspaces
    ensures ApplyJobs(rules, t, ws, jobs).Ok? <==> forall k | 0 <= k < |jobs| :: Applies(rules, t, ws, jobs[k])
    decreases |jobs|
  {
    hide ApplyJob, Applies;
    if jobs != [] {
      JobAccepted(rules, t, ws, jobs[0]);
      if ApplyJob(rules, t, ws, jobs[0]).Ok? {
        var next := ApplyJob(rules, t, ws, jobs[0]).value;
        JobsAccepted(rules, next, ws, jobs[1..]);
        forall k | 0 <= k < |jobs| - 1 ensures Applies(rules, next, ws, jobs[1..][k]) <==> Applies(rules, t, ws, jobs[k + 1]) {
          JobKeepsOthers(rules, t, ws, jobs[0], jobs[k + 1]);
        }
        assert forall k | 0 < k < |jobs| :: jobs[k] == jobs[1..][k - 1];
      }
    }
  }

  /** The seal's transaction is accepted exactly when the workspace is there, every object its jobs
      admitted is still resident, and each job's path still leads where the job needs it. */
  lemma SealAcceptedIff(w: World, t: Tables, ws: Text, jobs: seq<Filed>, manifest: Bytes)
    ensures Seal(w, t, ws, jobs, manifest).Ok? <==>
      && ws in t.workspaces
      && (forall k, d | 0 <= k < |jobs| && d in jobs[k].job.newDigests :: d in t.objects)
      && (forall k | 0 <= k < |jobs| :: Applies(w.rules, t, ws, jobs[k]))
  {
    hide ApplyJobs, Applies;
    if ws in t.workspaces {
      JobsAccepted(w.rules, t, ws, jobs);
      assert NewDigests(jobs) <= t.objects.Keys <==> forall k, d | 0 <= k < |jobs| && d in jobs[k].job.newDigests :: d in t.objects;
    }
  }

  /** A seal roots its manifest at the generation it leaves, which is one more exactly when a job was
      applied; a row already there keeps its generation. */
  lemma SealMeans(w: World, t: Tables, ws: Text, jobs: seq<Filed>, manifest: Bytes)
    requires Seal(w, t, ws, jobs, manifest).Ok?
    ensures ws in t.workspaces && ApplyJobs(w.rules, t, ws, jobs).Ok?
    ensures var after, id := Seal(w, t, ws, jobs, manifest).value, w.hash(manifest);
      && after.workspaces == t.workspaces[ws := Head(t.workspaces[ws].generation + (if jobs == [] then 0 else 1), t.workspaces[ws].root)]
      && id in after.snapshots && (id !in t.snapshots ==> after.snapshots[id] == after.workspaces[ws].generation)
      && (forall s | s != id || s in t.snapshots :: Same(t.snapshots, after.snapshots, s))
      && id in after.objects && (id !in t.objects ==> after.objects[id] == manifest)
      && (forall d | d != id || d in t.objects :: Same(t.objects, after.objects, d))
      && after.leases == t.leases && after.epoch == t.epoch && after.quarantine == t.quarantine && after.dirents == t.dirents
      && after.inodes == ApplyJobs(w.rules, t, ws, jobs).value.inodes
  {
    hide ApplyJobs, NewDigests;
    JobsWrite(w.rules, t, ws, jobs);
    assert jobs == [] ==> ApplyJobs(w.rules, t, ws, jobs).value.workspaces == t.workspaces[ws := t.workspaces[ws]];
  }
}
