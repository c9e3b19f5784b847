/** The metadata store itself: one object whose tables the transactions update in place,
    each method proved against the transaction it stands for. */
module WorkspaceStore {
  import opened Wrappers
  import opened Records
  import opened Paths
  import opened Workspace
  import opened WorkspaceEffects
  import opened WorkspaceGc

  function ToOutcome(r: Result<Tables, Error>): Outcome<Error> { if r.Ok? then Outcome.Pass else Fail(r.error) }

  /** `last_insert_rowid` after an insert: one past the largest id. */
  method NextRow(used: set<nat>) returns (id: nat)
    ensures id == NextId(used)
  {
    id := 1;
    var rest := used;
    while rest != {}
      invariant rest <= used && (forall i | i in used && i !in rest :: i < id) && (id == 1 || (0 < id && id - 1 in used))
      decreases |rest|
    {
      var i :| i in rest;
      if id <= i {
        id := i + 1;
      }
      rest := rest - {i};
    }
    NextIdUnique(used, id);
  }

  lemma NextIdUnique(used: set<nat>, id: nat)
    requires (forall i | i in used :: i < id) && (id == 1 || (0 < id && id - 1 in used))
    ensures id == NextId(used)
  {
  }

  /** A walk that stops at a prefix stops for good. */
  lemma {:induction false} WalkStops(t: Tables, root: InodeId, segments: seq<Text>, k: nat)
    requires k <= |segments| && Walk(t, root, segments[..k]).None?
    ensures Walk(t, root, segments).None?
    decreases |segments| - k
  {
    if k == |segments| {
      assert segments[..k] == segments;
    } else {
      assert segments[..k + 1][..k] == segments[..k];
      WalkStops(t, root, segments, k + 1);
    }
  }

  class Metadata {
    var workspaces: map<Text, Head>
    var inodes: map<InodeId, Inode>
    var dirents: map<Slot, InodeId>
    var snapshots: map<Digest, nat>
    var leases: map<nat, Lease>
    var epoch: nat
    var quarantine: map<Digest, nat>
    var objects: Objects

    function State(): Tables
      reads this
    {
      Tables(workspaces, inodes, dirents, snapshots, leases, epoch, quarantine, objects)
    }

    constructor ()
      ensures State() == EMPTY
    {
      workspaces, inodes, dirents, snapshots := map[], map[], map[], map[];
      leases, epoch, quarantine, objects := map[], 0, map[], map[];
    }

    method ResolvePath(rules: TextRules, root: InodeId, path: Text) returns (r: Result<InodeId, Error>)
      ensures r == Workspace.ResolvePath(rules, State(), root, path)
    {
      if path == [] {
        return Ok(root);
      }
      if !ValidPath(rules, path) {
        return Err(BadPath);
      }
      var segments := Segments(path);
      var current := root;
      for k := 0 to |segments|
        invariant Walk(State(), root, segments[..k]) == Some(current)
      {
        assert segments[..k + 1][..k] == segments[..k];
        var slot := Slot(current, segments[k]);
        if !IsDir(State(), current) || slot !in dirents {
          WalkStops(State(), root, segments, k + 1);
          return Err(Missing);
        }
        current := dirents[slot];
      }
      assert segments[..|segments|] == segments;
      return Ok(current);
    }

    method ParentSlot(rules: TextRules, root: InodeId, path: Text) returns (r: Result<Slot, Error>)
      ensures r == Workspace.ParentSlot(rules, State(), root, path)
    {
      var (parent, name) := SplitParent(path);
      if parent.None? {
        return Ok(Slot(root, name));
      }
      var dir := ResolvePath(rules, root, parent.value);
      return if dir.Ok? then Ok(Slot(dir.value, name)) else Err(dir.error);
    }

    /** Scans the parent's dirents for the exact name, then for a folded twin. */
    method NewLeaf(rules: TextRules, root: InodeId, path: Text) returns (r: Result<Slot, Error>)
      ensures r == Workspace.NewLeaf(rules, State(), root, path)
    {
      if !ValidPath(rules, path) {
        return Err(BadPath);
      }
      var slot := ParentSlot(rules, root, path);
      if slot.Err? {
        return Err(slot.error);
      }
      if !IsDir(State(), slot.value.parent) {
        return Err(NotADirectory);
      }
      if slot.value in dirents {
        return Err(Exists);
      }
      var rows := set s | s in dirents && s.parent == slot.value.parent;
      ghost var all := rows;
      while rows != {}
        invariant rows <= all && forall s | s in all - rows :: rules.fold(s.name) != rules.fold(slot.value.name)
        decreases |rows|
      {
        var s :| s in rows;
        if rules.fold(s.name) == rules.fold(slot.value.name) {
          assert FoldsLikeSibling(rules, State(), slot.value);
          return Err(CaseFoldCollision);
        }
        rows := rows - {s};
      }
      return Ok(slot.value);
    }

    method InsertNode(ws: Text, slot: Slot, node: Node)
      modifies this`inodes, this`dirents
      ensures State() == AddNode(old(State()), ws, slot, node)
    {
      var id := NextRow(inodes.Keys);
      inodes := inodes[id := Inode(ws, node)];
      dirents := dirents[slot := id];
    }

    method DropInodeIfOrphaned(i: InodeId)
      modifies this`inodes, this`dirents
      ensures State() == DropIfOrphaned(old(State()), i)
    {
      var links := set s | s in dirents && dirents[s] == i;
      var held := set l | l in leases && leases[l].Unlinked? && leases[l].inode == i;
      assert Linked(State(), i) <==> links != {} by {
        if links != {} { var s :| s in links; }
        if Linked(State(), i) { var s :| s in dirents && dirents[s] == i; assert s in links; }
      }
      assert Leased(State(), i) <==> held != {} by {
        if held != {} { var l :| l in held; }
        if Leased(State(), i) { var l :| l in leases && leases[l].Unlinked? && leases[l].inode == i; assert l in held; }
      }
      if links == {} && held == {} {
        inodes := inodes - {i};
        dirents := map s | s in dirents && s.parent != i :: dirents[s];
      }
    }

    method InsertLeaf(rules: TextRules, ws: Text, path: Text, node: Node) returns (r: Outcome<Error>)
      requires ws in workspaces
      modifies this`inodes, this`dirents
      ensures var leaf := Workspace.NewLeaf(rules, old(State()), old(workspaces[ws].root), path);
        && r == (if leaf.Ok? then Outcome.Pass else Fail(leaf.error))
        && State() == if leaf.Ok? then AddNode(old(State()), ws, leaf.value, node) else old(State())
    {
      var leaf := NewLeaf(rules, workspaces[ws].root, path);
      if leaf.Err? {
        return Fail(leaf.error);
      }
      InsertNode(ws, leaf.value, node);
      return Outcome.Pass;
    }

    method Truncate(rules: TextRules, ws: Text, path: Text, length: nat) returns (r: Outcome<Error>)
      requires ws in workspaces
      modifies this`inodes
      ensures var next := Workspace.ApplyMutation(rules, old(State()), ws, Mutation.Truncate(path, length));
        r == ToOutcome(next) && State() == Or(next, old(State()))
    {
      hide ValidPath, Segments, Walk, Truncated, ValidRun;
      var i := ResolvePath(rules, workspaces[ws].root, path);
      if i.Err? {
        return Fail(i.error);
      }
      if !IsFile(State(), i.value) {
        return Fail(NotAFile);
      }
      var cut := Truncated(inodes[i.value].node.records, length);
      if cut.None? {
        return Fail(MidRecordTruncate);
      }
      var valid := IsValidRun(cut.value, length);
      if !valid {
        return Fail(BadRecords);
      }
      inodes := inodes[i.value := inodes[i.value].(node := inodes[i.value].node.(records := cut.value))];
      return Outcome.Pass;
    }

    method Rename(rules: TextRules, ws: Text, from: Text, to: Text) returns (r: Outcome<Error>)
      requires ws in workspaces
      modifies this`dirents
      ensures var next := Workspace.ApplyMutation(rules, old(State()), ws, Mutation.Rename(from, to));
        r == ToOutcome(next) && State() == Or(next, old(State()))
    {
      hide ValidPath, Segments, Walk, FoldsLikeSibling, Workspace.NewLeaf, Workspace.ParentSlot;
      var root := workspaces[ws].root;
      var i := ResolvePath(rules, root, from);
      if i.Err? {
        return Fail(i.error);
      }
      if IsDir(State(), i.value) && InSubtree(from, to) {
        return Fail(RenameIntoSelf);
      }
      var target := NewLeaf(rules, root, to);
      if target.Err? {
        return Fail(target.error);
      }
      var source := ParentSlot(rules, root, from);
      if source.Err? {
        return Fail(source.error);
      }
      if source.value in dirents {
        dirents := (dirents - {source.value})[target.value := dirents[source.value]];
      }
      return Outcome.Pass;
    }

    /** `Rmdir` of an empty directory, or `Unlink` of anything else. */
    method Remove(rules: TextRules, ws: Text, path: Text, dir: bool) returns (r: Outcome<Error>)
      requires ws in workspaces
      modifies this`inodes, this`dirents
      ensures var next := Workspace.ApplyMutation(rules, old(State()), ws, if dir then Rmdir(path) else Unlink(path));
        r == ToOutcome(next) && State() == Or(next, old(State()))
    {
      hide ValidPath, Segments, Walk, DropIfOrphaned, Workspace.ParentSlot;
      var root := workspaces[ws].root;
      var i := ResolvePath(rules, root, path);
      if i.Err? {
        return Fail(i.error);
      }
      if IsDir(State(), i.value) != dir {
        return Fail(if dir then NotADirectory else NotAFile);
      }
      if dir {
        var children := set s | s in dirents && s.parent == i.value;
        assert HasChildren(State(), i.value) <==> children != {} by {
          if children != {} { var s :| s in children; }
          if HasChildren(State(), i.value) { var s :| s in dirents && s.parent == i.value; assert s in children; }
        }
        if children != {} {
          return Fail(NotEmpty);
        }
      }
      var slot := ParentSlot(rules, root, path);
      if slot.Err? {
        return Fail(slot.error);
      }
      dirents := dirents - {slot.value};
      DropInodeIfOrphaned(i.value);
      return Outcome.Pass;
    }

    /** Every check comes before the first write, so a refusal changes nothing. */
    method ApplyMutation(rules: TextRules, ws: Text, m: Mutation) returns (r: Outcome<Error>)
      requires ws in workspaces
      modifies this`inodes, this`dirents
      ensures var next := Workspace.ApplyMutation(rules, old(State()), ws, m);
        r == ToOutcome(next) && State() == Or(next, old(State()))
    {
      hide ValidPath, Segments, FoldsLikeSibling, Walk, DropIfOrphaned, Digests, Workspace.NewLeaf, Workspace.ParentSlot;
      var root := workspaces[ws].root;
      match m
      case Mkdir(path) =>
        r := InsertLeaf(rules, ws, path, Dir);
      case CreateFile(path, executable, planner, records) =>
        r := InsertLeaf(rules, ws, path, File(executable, planner, Unstamped, records));
      case MakeSymlink(path, target) =>
        if !ValidTarget(rules, target) {
          return Fail(BadTarget);
        }
        r := InsertLeaf(rules, ws, path, Symlink(target));
      case SetRecords(path, records) =>
        var i := ResolvePath(rules, root, path);
        if i.Err? {
          return Fail(i.error);
        }
        if !IsFile(State(), i.value) {
          return Fail(NotAFile);
        }
        inodes := inodes[i.value := inodes[i.value].(node := inodes[i.value].node.(records := records))];
        return Outcome.Pass;
      case SetExecutable(path, executable) =>
        var i := ResolvePath(rules, root, path);
        if i.Err? {
          return Fail(i.error);
        }
        if !IsFile(State(), i.value) {
          return Fail(NotAFile);
        }
        inodes := inodes[i.value := inodes[i.value].(node := inodes[i.value].node.(executable := executable))];
        return Outcome.Pass;
      case Truncate(path, length) =>
        r := Truncate(rules, ws, path, length);
      case Rename(from, to) =>
        r := Rename(rules, ws, from, to);
      case Unlink(path) =>
        r := Remove(rules, ws, path, false);
      case Rmdir(path) =>
        r := Remove(rules, ws, path, true);
      case Hardlink(path, target) =>
        var i := ResolvePath(rules, root, target);
        if i.Err? {
          return Fail(i.error);
        }
        if !IsFile(State(), i.value) {
          return Fail(NotAFile);
        }
        var slot := NewLeaf(rules, root, path);
        if slot.Err? {
          return Fail(slot.error);
        }
        dirents := dirents[slot.value := i.value];
        return Outcome.Pass;
    }

    /** One batch, one generation: refused whole, or applied whole. */
    method CommitGeneration(rules: TextRules, ws: Text, ms: seq<Mutation>) returns (r: Result<nat, Error>)
      modifies this
      ensures var next := Commit(rules, old(State()), ws, ms);
        && (r.Ok? <==> RunsOk(ms) && next.Ok?)
        && (r.Ok? ==> State() == next.value && r.value == workspaces[ws].generation)
        && (r.Err? ==> State() == old(State()))
    {
      hide Workspace.ApplyMutation, Digests, ValidRun;
      var referenced: set<Digest> := {};
      for k := 0 to |ms|
        invariant State() == old(State())
        invariant RunsOk(ms[..k]) && referenced == Referenced(ms[..k])
      {
        assert ms[..k + 1][..k] == ms[..k] && ms[..k + 1][k] == ms[k];
        if Staged(ms[k]) {
          var length := TotalLength(ms[k].records);
          var ok := IsValidRun(ms[k].records, length);
          if !ok {
            ReferencedSnoc(ms, k);
            return Err(BadRecords);
          }
          referenced := referenced + Digests(ms[k].records);
        }
        ReferencedSnoc(ms, k);
      }
      assert ms[..|ms|] == ms;
      if !(referenced <= objects.Keys) {
        return Err(MissingObject);
      }
      if ws !in workspaces {
        return Err(UnknownWorkspace);
      }
      var savedInodes, savedDirents := inodes, dirents;
      for k := 0 to |ms|
        invariant OnlyTree(old(State()), State())
        invariant ApplyAll(rules, old(State()), ws, ms) == ApplyAll(rules, State(), ws, ms[k..])
      {
        assert ms[k..][1..] == ms[k + 1..];
        var applied := ApplyMutation(rules, ws, ms[k]);
        if applied.Fail? {
          inodes, dirents := savedInodes, savedDirents;
          return Err(applied.error);
        }
      }
      var head := workspaces[ws];
      workspaces := workspaces[ws := head.(generation := head.generation + 1)];
      return Ok(head.generation + 1);
    }

    /** One collection pass and its report. */
    method Collect(w: World) returns (r: Result<GcReport, Error>)
      modifies this`epoch, this`objects, this`quarantine
      ensures var next := WorkspaceGc.Collect(w, old(State()));
        r.Ok? == next.Ok? && State() == Or(next, old(State()))
      ensures r.Ok? ==> Reports(w, old(State()), State(), r.value)
    {
      hide AllReadable, WorkspaceGc.Collect, Reports, Size, Roots;
      if !AllReadable(w, State()) {
        Unreadable(w, State());
        return Err(SnapshotCorrupt);
      }
      var left, rows, report := CollectPass(w, State());
      epoch, objects, quarantine := epoch + 1, left, rows;
      return Ok(report);
    }
  }

  /** What a pass says of itself. */
  datatype GcReport = GcReport(roots: nat, resident: nat, newlyQuarantined: nat, rescued: nat, deleted: nat, bytesDeleted: nat, epoch: nat)

  /** The bytes of every resident object, counted once each. */
  ghost function Size(objects: Objects): nat {
    if objects == map[] then 0 else var d :| d in objects; |objects[d]| + Size(objects - {d})
  }

  lemma {:induction false} SizeRemove(objects: Objects, d: Digest)
    requires d in objects
    ensures Size(objects) == |objects[d]| + Size(objects - {d})
    decreases |objects|
  {
    var first :| first in objects && Size(objects) == |objects[first]| + Size(objects - {first});
    if first != d {
      SizeRemove(objects - {first}, d);
      SizeRemove(objects - {d}, first);
      assert objects - {first} - {d} == objects - {d} - {first};
    }
  }

  /** The report adds up: objects and bytes before are those left and those deleted, and the
      quarantine grows by what is new and loses what is rescued, deleted or no longer there. */
  ghost predicate Reports(w: World, t: Tables, after: Tables, report: GcReport) {
    && report.epoch == after.epoch && report.roots == |Roots(w, t)| && report.resident == |t.objects|
    && report.resident == |after.objects| + report.deleted && Size(t.objects) == Size(after.objects) + report.bytesDeleted
    && report.rescued == |t.quarantine.Keys * Roots(w, t)|
    && report.newlyQuarantined == |t.objects.Keys - (Roots(w, t) + t.quarantine.Keys)|
  }

  lemma ReportHolds(w: World, t: Tables, objects: Objects, quarantine: map<Digest, nat>, report: GcReport)
    requires var gone := Overdue(t.quarantine, t.objects.Keys, Roots(w, t), t.epoch + 1);
      && objects == t.objects - gone && report.deleted == |gone| && Size(t.objects) == Size(objects) + report.bytesDeleted
    requires report.epoch == t.epoch + 1 && report.roots == |Roots(w, t)| && report.resident == |t.objects.Keys|
    requires report.rescued == |t.quarantine.Keys * Roots(w, t)|
    requires report.newlyQuarantined == |t.objects.Keys - (Roots(w, t) + t.quarantine.Keys)|
    ensures Reports(w, t, t.(epoch := t.epoch + 1, objects := objects, quarantine := quarantine), report)
  {
    hide Roots, Overdue, Size;
    OverdueResident(t.quarantine, t.objects.Keys, Roots(w, t), t.epoch + 1);
    Left(t.objects, Overdue(t.quarantine, t.objects.Keys, Roots(w, t), t.epoch + 1));
  }

  /** The counts of the sifting loop once the rows in `seen` are done. */
  ghost predicate Counted(store: Objects, objects: Objects, rooted: set<Digest>, overdue: set<Digest>, seen: set<Digest>,
                          rescued: nat, deleted: nat, bytes: nat) {
    rescued == |rooted * seen| && deleted == |overdue * seen| && Size(store) == Size(objects) + bytes
  }

  lemma CountRow(store: Objects, objects: Objects, rooted: set<Digest>, overdue: set<Digest>, seen: set<Digest>,
                 rescued: nat, deleted: nat, bytes: nat, d: Digest)
    requires Counted(store, objects, rooted, overdue, seen, rescued, deleted, bytes) && d !in seen && (d in overdue ==> d in objects)
    ensures Counted(store, if d in overdue then objects - {d} else objects, rooted, overdue, seen + {d},
      rescued + (if d in rooted then 1 else 0), deleted + (if d in overdue then 1 else 0), bytes + (if d in overdue then |objects[d]| else 0))
  {
    hide Size;
    CountOne(rooted, seen, d);
    CountOne(overdue, seen, d);
    if d in overdue { SizeRemove(objects, d); }
  }

  lemma OverdueResident(was: map<Digest, nat>, resident: set<Digest>, roots: set<Digest>, now: nat)
    ensures Overdue(was, resident, roots, now) <= resident
  {
  }

  lemma Left(store: Objects, gone: set<Digest>)
    requires gone <= store.Keys
    ensures |store| == |store - gone| + |gone|
  {
    assert store.Keys == (store - gone).Keys + gone;
    assert |store.Keys| == |store| && |(store - gone).Keys| == |store - gone|;
  }

  lemma CountOne(all: set<Digest>, seen: set<Digest>, d: Digest)
    requires d !in seen
    ensures |all * (seen + {d})| == |all * seen| + if d in all then 1 else 0
  {
    assert all * (seen + {d}) == if d in all then all * seen + {d} else all * seen;
  }

  lemma Unreadable(w: World, t: Tables)
    requires !AllReadable(w, t)
    ensures WorkspaceGc.Collect(w, t).Err?
  {
  }

  /** The pass over what the tables hold: the objects and quarantine rows it leaves. The
      old rows are read before any of them changes. */
  method CollectPass(w: World, t: Tables) returns (objects: Objects, quarantine: map<Digest, nat>, report: GcReport)
    requires AllReadable(w, t)
    ensures WorkspaceGc.Collect(w, t) == Ok(t.(epoch := t.epoch + 1, objects := objects, quarantine := quarantine))
    ensures Reports(w, t, t.(epoch := t.epoch + 1, objects := objects, quarantine := quarantine), report)
  {
    hide Roots, AllReadable, Overdue, Waiting, Marked, WorkspaceGc.Collect, Quarantined, Size;
    var now, roots, resident, already := t.epoch + 1, Roots(w, t), t.objects.Keys, t.quarantine.Keys;
    var rescued, deleted, bytes, marked;
    objects, quarantine, rescued, deleted, bytes := Sift(t.objects, t.quarantine, roots, now);
    quarantine, marked := Mark(quarantine, resident, roots + already, now);
    report := GcReport(|roots|, |resident|, marked, rescued, deleted, bytes, now);
    hide Reports;
    ReportHolds(w, t, objects, quarantine, report);
    PassIsCollect(w, t, objects, quarantine, now, roots, resident, already);
  }

  /** Over the old rows: rescue what is rooted, forget what is gone, remove what has waited. */
  method Sift(store: Objects, was: map<Digest, nat>, roots: set<Digest>, now: nat)
      returns (objects: Objects, quarantine: map<Digest, nat>, rescued: nat, deleted: nat, bytes: nat)
    ensures objects == store - Overdue(was, store.Keys, roots, now)
    ensures quarantine == Waiting(was, store.Keys, roots, now)
    ensures rescued == |was.Keys * roots| && deleted == |Overdue(was, store.Keys, roots, now)|
    ensures Size(store) == Size(objects) + bytes
  {
    hide Overdue, Waiting, Remaining, Size, Counted;
    ghost var overdue := Overdue(was, store.Keys, roots, now);
    ghost var seen: set<Digest> := {};
    var rows := was.Keys;
    objects, quarantine, rescued, deleted, bytes := store, was, 0, 0, 0;
    SiftStart(was, roots, now, store);
    NoneCounted(store, was.Keys * roots, overdue);
    while rows != {}
      invariant seen + rows == was.Keys && seen !! rows
      invariant objects == store - overdue * seen
      invariant quarantine == Remaining(was, store.Keys, roots, now, seen)
      invariant Counted(store, objects, was.Keys * roots, overdue, seen, rescued, deleted, bytes)
      decreases |rows|
    {
      var d :| d in rows;
      SiftRow(was, store.Keys, roots, now, seen, d);
      RemoveOne(store, overdue, seen, d);
      CountRow(store, objects, was.Keys * roots, overdue, seen, rescued, deleted, bytes, d);
      if d in roots || d !in store {
        if d in roots {
          rescued := rescued + 1;
        }
        quarantine := quarantine - {d};
      } else if was[d] <= now - 2 {
        deleted, bytes := deleted + 1, bytes + |objects[d]|;
        objects := objects - {d};
        quarantine := quarantine - {d};
      }
      rows, seen := rows - {d}, seen + {d};
    }
    SiftEnd(was, store.Keys, roots, now);
    AllCounted(store, objects, was.Keys, roots, overdue, rescued, deleted, bytes);
  }

  lemma NoneCounted(store: Objects, rooted: set<Digest>, overdue: set<Digest>)
    ensures Counted(store, store, rooted, overdue, {}, 0, 0, 0)
  {
    assert rooted * {} == {} && overdue * {} == {};
  }

  lemma AllCounted(store: Objects, objects: Objects, rows: set<Digest>, roots: set<Digest>, overdue: set<Digest>,
                   rescued: nat, deleted: nat, bytes: nat)
    requires Counted(store, objects, rows * roots, overdue, rows, rescued, deleted, bytes) && overdue * rows == overdue
    ensures rescued == |rows * roots| && deleted == |overdue| && Size(store) == Size(objects) + bytes
  {
    hide Size;
    assert rows * roots * rows == rows * roots;
  }

  /** Marks, at this epoch, every resident object not excused. */
  method Mark(was: map<Digest, nat>, resident: set<Digest>, excused: set<Digest>, now: nat)
      returns (quarantine: map<Digest, nat>, marked: nat)
    ensures quarantine == was + Marked(resident - excused, now) && marked == |resident - excused|
  {
    hide Marked;
    ghost var due := resident - excused;
    ghost var seen: set<Digest> := {};
    MarkStart(was, due, now);
    var rows := resident;
    quarantine, marked := was, 0;
    while rows != {}
      invariant seen + rows == resident && seen !! rows
      invariant quarantine == was + Marked(due * seen, now) && marked == |due * seen|
      decreases |rows|
    {
      var d :| d in rows;
      MarkOne(was, due, seen, d, now);
      CountOne(due, seen, d);
      if d !in excused {
        quarantine, marked := quarantine[d := now], marked + 1;
      }
      rows, seen := rows - {d}, seen + {d};
    }
    assert due * seen == due;
  }

  lemma RemoveOne(store: Objects, all: set<Digest>, seen: set<Digest>, d: Digest)
    ensures store - all * (seen + {d}) == (if d in all then store - all * seen - {d} else store - all * seen)
  {
  }

  lemma MarkStart(was: map<Digest, nat>, all: set<Digest>, epoch: nat)
    ensures all * {} == {} && was + Marked({}, epoch) == was
  {
  }

  lemma MarkOne(was: map<Digest, nat>, all: set<Digest>, seen: set<Digest>, d: Digest, epoch: nat)
    ensures was + Marked(all * (seen + {d}), epoch)
      == (if d in all then (was + Marked(all * seen, epoch))[d := epoch] else was + Marked(all * seen, epoch))
  {
    assert d !in all ==> all * (seen + {d}) == all * seen;
  }

  function Marked(digests: set<Digest>, epoch: nat): map<Digest, nat> { map d | d in digests :: epoch }

  function Waiting(quarantine: map<Digest, nat>, resident: set<Digest>, roots: set<Digest>, epoch: nat): map<Digest, nat> {
    map d | d in quarantine && d !in roots && d in resident && quarantine[d] > epoch - 2 :: quarantine[d]
  }

  /** The rows left once those in `seen` have been dealt with. */
  function Remaining(quarantine: map<Digest, nat>, resident: set<Digest>, roots: set<Digest>, epoch: nat, seen: set<Digest>)
    : map<Digest, nat>
  {
    map d | d in quarantine && (d !in seen || (d !in roots && d in resident && quarantine[d] > epoch - 2)) :: quarantine[d]
  }

  lemma SiftStart(was: map<Digest, nat>, roots: set<Digest>, epoch: nat, store: Objects)
    ensures was == Remaining(was, store.Keys, roots, epoch, {})
    ensures Overdue(was, store.Keys, roots, epoch) * {} == {} && store - {} == store
  {
  }

  lemma SiftRow(was: map<Digest, nat>, resident: set<Digest>, roots: set<Digest>, epoch: nat, seen: set<Digest>, d: Digest)
    requires d in was && d !in seen
    ensures d in Overdue(was, resident, roots, epoch) <==> d !in roots && d in resident && was[d] <= epoch - 2
    ensures var now, next := Remaining(was, resident, roots, epoch, seen), Remaining(was, resident, roots, epoch, seen + {d});
      && d in now && now[d] == was[d]
      && next == (if d in roots || d !in resident || was[d] <= epoch - 2 then now - {d} else now)
  {
  }

  lemma SiftEnd(was: map<Digest, nat>, resident: set<Digest>, roots: set<Digest>, epoch: nat)
    ensures Remaining(was, resident, roots, epoch, was.Keys) == Waiting(was, resident, roots, epoch)
    ensures Overdue(was, resident, roots, epoch) * was.Keys == Overdue(was, resident, roots, epoch)
  {
  }

  /** The two loops together are the pass. */
  lemma PassIsCollect(w: World, t: Tables, objects: Objects, quarantine: map<Digest, nat>, now: nat, roots: set<Digest>,
                      resident: set<Digest>, already: set<Digest>)
    requires AllReadable(w, t)
    requires now == t.epoch + 1 && roots == Roots(w, t) && resident == t.objects.Keys && already == t.quarantine.Keys
    requires objects == t.objects - Overdue(t.quarantine, resident, roots, now)
    requires quarantine == Waiting(t.quarantine, resident, roots, now) + Marked(resident - (roots + already), now)
    ensures WorkspaceGc.Collect(w, t) == Ok(t.(epoch := t.epoch + 1, objects := objects, quarantine := quarantine))
  {
    hide Roots, Overdue, Waiting, Marked, Quarantined;
    WaitingAndMarked(w, t, now, roots, resident, already);
  }

  lemma WaitingAndMarked(w: World, t: Tables, now: nat, roots: set<Digest>, resident: set<Digest>, already: set<Digest>)
    requires now == t.epoch + 1 && roots == Roots(w, t) && resident == t.objects.Keys && already == t.quarantine.Keys
    ensures Waiting(t.quarantine, resident, roots, now) + Marked(resident - (roots + already), now) == Quarantined(w, t)
  {
    hide Roots;
  }

  lemma ReferencedSnoc(ms: seq<Mutation>, k: nat)
    requires k < |ms|
    ensures Referenced(ms[..k + 1]) == Referenced(ms[..k]) + NewObjects(ms[k])
    ensures RunsOk(ms[..k]) && (Staged(ms[k]) ==> ValidRun(ms[k].records, Total(ms[k].records))) <==> RunsOk(ms[..k + 1])
    ensures Staged(ms[k]) && !ValidRun(ms[k].records, Total(ms[k].records)) ==> !RunsOk(ms)
  {
    hide Digests, ValidRun;
    var all, init := ms[..k + 1], ms[..k];
    forall d | d in Referenced(all) ensures d in Referenced(init) + NewObjects(ms[k]) {
      var i :| 0 <= i < |all| && Staged(all[i]) && d in Digests(all[i].records);
      if i < k {
        assert init[i] == all[i];
      }
    }
    forall d | d in Referenced(init) ensures d in Referenced(all) {
      var i :| 0 <= i < |init| && Staged(init[i]) && d in Digests(init[i].records);
      assert all[i] == init[i];
    }
    assert all[k] == ms[k];
    forall i | 0 <= i < k ensures all[i] == init[i] {}
  }
}
