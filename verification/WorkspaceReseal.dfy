/** What a seal's last transaction leaves when nothing is known of how its plan was captured:
    the exact condition under which it keeps every named object resident. */
module WorkspaceReseal {
  import opened Wrappers
  import opened Records
  import opened Rechunk
  import opened Paths
  import opened Workspace
  import opened WorkspaceEffects
  import opened WorkspaceGc

  // --- what the jobs write ------------------------------------------------------------------------

  ghost predicate Hits(rules: TextRules, t: Tables, ws: Text, filed: Filed, i: InodeId)
    requires ws in t.workspaces
  {
    filed.job.updateRecords && ResolvePath(rules, t, t.workspaces[ws].root, filed.path) == Ok(i)
  }

  /** The records the last job that writes inode `i` gives it, if any does. */
  ghost function LastWrite(rules: TextRules, t: Tables, ws: Text, jobs: seq<Filed>, i: InodeId): Option<seq<FileRecord>>
    requires ws in t.workspaces
  {
    if jobs == [] then None
    else
      var later := LastWrite(rules, t, ws, jobs[1..], i);
      if later.Some? then later else if Hits(rules, t, ws, jobs[0], i) then Some(jobs[0].job.records) else None
  }

  /** The objects inode `i` names once the jobs are done. */
  ghost function LeftBy(rules: TextRules, t: Tables, ws: Text, jobs: seq<Filed>, i: InodeId): set<Digest>
    requires ws in t.workspaces && i in t.inodes
  {
    var last := LastWrite(rules, t, ws, jobs, i);
    if last.Some? then Digests(last.value) else NodeObjects(t.inodes[i].node)
  }

  /** Every file the jobs write is left naming only objects in `keys`. All of it can be read off
      the tables before the transaction. */
  ghost predicate WritesWithin(rules: TextRules, t: Tables, ws: Text, jobs: seq<Filed>, keys: set<Digest>)
    requires ws in t.workspaces
  {
    forall i | i in t.inodes && LastWrite(rules, t, ws, jobs, i).Some? :: Digests(LastWrite(rules, t, ws, jobs, i).value) <= keys
  }

  /** Same names: no dirent, workspace or kind of inode differs. */
  ghost predicate SameNames(t: Tables, after: Tables) {
    && after.workspaces == t.workspaces && after.dirents == t.dirents && after.inodes.Keys == t.inodes.Keys
    && forall i | i in t.inodes :: (after.inodes[i].node.Dir? <==> t.inodes[i].node.Dir?)
  }

  lemma {:induction false} SameNamesWalk(t: Tables, after: Tables, root: InodeId, p: seq<Text>)
    requires SameNames(t, after)
    ensures Walk(after, root, p) == Walk(t, root, p)
    decreases |p|
  {
    if p != [] {
      SameNamesWalk(t, after, root, p[..|p| - 1]);
    }
  }

  lemma {:induction false} SameNamesWrites(rules: TextRules, t: Tables, after: Tables, ws: Text, jobs: seq<Filed>, i: InodeId)
    requires SameNames(t, after) && ws in t.workspaces
    ensures LastWrite(rules, after, ws, jobs, i) == LastWrite(rules, t, ws, jobs, i)
  {
    hide Walk, ValidPath, Segments;
    if jobs != [] {
      SameNamesWrites(rules, t, after, ws, jobs[1..], i);
      SameNamesWalk(t, after, t.workspaces[ws].root, Segments(jobs[0].path));
    }
  }

  /** `SetRecords` renames nothing and writes the one file its path leads to. */
  lemma SetWrites(rules: TextRules, t: Tables, ws: Text, path: Text, records: seq<FileRecord>)
    requires ws in t.workspaces && ApplyMutation(rules, t, ws, SetRecords(path, records)).Ok?
    ensures var root, next := t.workspaces[ws].root, ApplyMutation(rules, t, ws, SetRecords(path, records)).value;
      && SameNames(t, next) && ResolvePath(rules, t, root, path).Ok? && ResolvePath(rules, next, root, path) == ResolvePath(rules, t, root, path)
      && forall i | i in t.inodes :: NodeObjects(next.inodes[i].node)
           == if ResolvePath(rules, t, root, path) == Ok(i) then Digests(records) else NodeObjects(t.inodes[i].node)
  {
    hide Walk, ValidPath, Segments, Digests;
    var next := ApplyMutation(rules, t, ws, SetRecords(path, records)).value;
    assert SameNames(t, next);
    SameNamesWalk(t, next, t.workspaces[ws].root, Segments(path));
  }

  lemma StampKeeps(t: Tables, i: InodeId, planner: Planner, contract: Stamp)
    requires IsFile(t, i)
    ensures var after := SetNode(t, i, t.inodes[i].node.(planner := planner, contract := contract));
      SameNames(t, after) && forall j | j in t.inodes :: NodeObjects(after.inodes[j].node) == NodeObjects(t.inodes[j].node)
  {
    hide Digests;
  }

  /** One job renames nothing and writes what it hits. */
  lemma JobWrites(rules: TextRules, t: Tables, ws: Text, filed: Filed)
    requires ws in t.workspaces && ApplyJob(rules, t, ws, filed).Ok?
    ensures var after := ApplyJob(rules, t, ws, filed).value;
      && SameNames(t, after)
      && forall i | i in t.inodes :: NodeObjects(after.inodes[i].node)
           == if Hits(rules, t, ws, filed, i) then Digests(filed.job.records) else NodeObjects(t.inodes[i].node)
  {
    hide ApplyMutation, ResolvePath, Digests, NodeObjects, SetNode;
    var m := SetRecords(filed.path, filed.job.records);
    var next := if filed.job.updateRecords then ApplyMutation(rules, t, ws, m).value else t;
    if filed.job.updateRecords {
      SetWrites(rules, t, ws, filed.path, filed.job.records);
    }
    var i := ResolvePath(rules, next, next.workspaces[ws].root, filed.path).value;
    if IsFile(next, i) {
      StampKeeps(next, i, filed.job.planner, filed.job.contract);
    }
  }

  lemma {:induction false} JobsWrite(rules: TextRules, t: Tables, ws: Text, jobs: seq<Filed>)
    requires ws in t.workspaces && ApplyJobs(rules, t, ws, jobs).Ok?
    ensures var after := ApplyJobs(rules, t, ws, jobs).value;
      && SameNames(t, after)
      && forall i | i in t.inodes :: NodeObjects(after.inodes[i].node) == LeftBy(rules, t, ws, jobs, i)
    decreases |jobs|
  {
    hide ApplyJob, NodeObjects, Hits, Digests;
    if jobs != [] {
      var next := ApplyJob(rules, t, ws, jobs[0]).value;
      JobWrites(rules, t, ws, jobs[0]);
      JobsWrite(rules, next, ws, jobs[1..]);
      forall i | i in t.inodes ensures LeftBy(rules, next, ws, jobs[1..], i) == LeftBy(rules, t, ws, jobs, i) {
        SameNamesWrites(rules, t, next, ws, jobs[1..], i);
      }
    }
  }

  // --- exactly when the transaction keeps residency --------------------------------------------------

  /** The head names what the jobs left, and nothing else of the tables moves. */
  lemma ReboundShape(w: World, t: Tables, ws: Text, jobs: seq<Filed>)
    requires Rebounded(w, t, ws, jobs).Ok?
    ensures ws in t.workspaces
    ensures var head := Rebounded(w, t, ws, jobs).value;
      && ws in head.workspaces && head.inodes.Keys == t.inodes.Keys && head.objects == t.objects && head.leases == t.leases
      && head.snapshots == t.snapshots
      && forall i | i in t.inodes :: NodeObjects(head.inodes[i].node) == LeftBy(w.rules, t, ws, jobs, i)
  {
    hide ApplyJobs, NodeObjects, LeftBy, NewDigests;
    JobsWrite(w.rules, t, ws, jobs);
  }

  lemma HeadWithin(w: World, t: Tables, ws: Text, jobs: seq<Filed>, keys: set<Digest>)
    requires Rebounded(w, t, ws, jobs).Ok? && ws in t.workspaces && HeadObjects(t) <= keys
    ensures HeadObjects(Rebounded(w, t, ws, jobs).value) <= keys <==> WritesWithin(w.rules, t, ws, jobs, keys)
  {
    hide Rebounded, NodeObjects, LastWrite, Digests;
    var head := Rebounded(w, t, ws, jobs).value;
    ReboundShape(w, t, ws, jobs);
    forall i | i in t.inodes ensures NodeObjects(t.inodes[i].node) <= keys { InodeObjects(t, i); }
    if HeadObjects(head) <= keys {
      forall i | i in t.inodes && LastWrite(w.rules, t, ws, jobs, i).Some? ensures Digests(LastWrite(w.rules, t, ws, jobs, i).value) <= keys {
        InodeObjects(head, i);
        assert NodeObjects(head.inodes[i].node) == LeftBy(w.rules, t, ws, jobs, i);
      }
    }
    if WritesWithin(w.rules, t, ws, jobs, keys) {
      forall d | d in HeadObjects(head) ensures d in keys {
        var i :| i in head.inodes && d in NodeObjects(head.inodes[i].node);
        assert NodeObjects(head.inodes[i].node) == LeftBy(w.rules, t, ws, jobs, i);
      }
    }
  }

  /** A seal's transaction keeps every named object resident if and only if each file its jobs
      write is left naming objects that are resident, or the manifest itself. Nothing is asked of
      when or of what workspace the plan was captured. */
  lemma SealResidentIff(w: World, t: Tables, ws: Text, jobs: seq<Filed>, manifest: Bytes)
    requires Resident(w, t) && Rebounded(w, t, ws, jobs).Ok? && Agrees(w.hash, t.objects, manifest)
    requires w.names(manifest).Some? && w.names(manifest).value <= LinkedObjects(Rebounded(w, t, ws, jobs).value, ws)
    ensures ws in t.workspaces && Seal(w, t, ws, jobs, manifest).Ok?
    ensures Resident(w, Seal(w, t, ws, jobs, manifest).value)
      <==> WritesWithin(w.rules, t, ws, jobs, t.objects.Keys + {w.hash(manifest)})
  {
    hide Rebounded, HeadObjects, LinkedObjects, WritesWithin, LeaseObjects;
    ReboundShape(w, t, ws, jobs);
    var head, after, id := Rebounded(w, t, ws, jobs).value, Seal(w, t, ws, jobs, manifest).value, w.hash(manifest);
    AdmitExtends(w, t.objects, manifest);
    assert after.objects.Keys == t.objects.Keys + {id};
    HeadWithin(w, t, ws, jobs, after.objects.Keys);
    SameLinkedObjects(head, after, ws);
    LeaseObjectsSame(t, after);
    if HeadObjects(after) <= after.objects.Keys {
      LinkedAreHeads(after, ws);
      forall s | s in after.snapshots ensures SnapshotOk(w, after, s) {
        assert s in t.snapshots ==> SnapshotOk(w, t, s);
      }
    }
  }
}
