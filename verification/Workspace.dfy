/** The workspace metadata tables and the transactions over them.

    Each table is a map keyed by its primary key; one SQL statement is one table
    update, and a refused transaction leaves the tables as they were. */
module Workspace {
  import opened Wrappers
  import opened Records
  import opened Paths

  type InodeId = nat

  datatype Node =
    | Dir
    | File(executable: bool, planner: Planner, contract: Stamp, records: seq<FileRecord>)
    | Symlink(target: Text)

  datatype Inode = Inode(workspace: Text, node: Node)

  /** The primary key of a dirent row. */
  datatype Slot = Slot(parent: InodeId, name: Text)

  datatype Head = Head(generation: nat, root: InodeId)

  datatype Lease = Unlinked(workspace: Text, inode: InodeId) | PendingSync(objects: set<Digest>)

  datatype Tables = Tables(
    workspaces: map<Text, Head>,
    inodes: map<InodeId, Inode>,
    dirents: map<Slot, InodeId>,
    snapshots: map<Digest, nat>,
    leases: map<nat, Lease>,
    epoch: nat,
    quarantine: map<Digest, nat>,
    objects: Objects)

  const EMPTY := Tables(map[], map[], map[], map[], map[], 0, map[], map[])

  datatype Mutation =
    | Mkdir(path: Text)
    | CreateFile(path: Text, executable: bool, planner: Planner, records: seq<FileRecord>)
    | SetRecords(path: Text, records: seq<FileRecord>)
    | Truncate(path: Text, length: nat)
    | Rename(path: Text, to: Text)
    | Unlink(path: Text)
    | Rmdir(path: Text)
    | MakeSymlink(path: Text, target: Text)
    | Hardlink(path: Text, target: Text)
    | SetExecutable(path: Text, executable: bool)

  datatype Error =
    | BadPath | BadTarget | BadRecords | UnknownWorkspace | WorkspaceExists | Missing | Exists | NotADirectory | NotAFile
    | NotEmpty | CaseFoldCollision | MidRecordTruncate | RenameIntoSelf | MissingObject | UnknownSnapshot | UnknownLease
    | SnapshotCorrupt

  /** The next row id: one past the largest in use. */
  ghost function NextId(used: set<nat>): (id: nat)
    ensures forall i | i in used :: i < id
    ensures id == 1 || (0 < id && id - 1 in used)
  {
    if used == {} then 1
    else
      var i :| i in used;
      var rest := NextId(used - {i});
      assert forall j | j in used :: j == i || j in used - {i};
      if i < rest then rest else i + 1
  }

  // --- resolution -------------------------------------------------------------------

  predicate IsDir(t: Tables, i: InodeId) { i in t.inodes && t.inodes[i].node.Dir? }

  predicate IsFile(t: Tables, i: InodeId) { i in t.inodes && t.inodes[i].node.File? }

  /** Follows segments through directories; symlinks are never followed. */
  function Walk(t: Tables, root: InodeId, segments: seq<Text>): Option<InodeId>
    decreases |segments|
  {
    if segments == [] then Some(root)
    else
      var parent :- Walk(t, root, segments[..|segments| - 1]);
      var slot := Slot(parent, segments[|segments| - 1]);
      if IsDir(t, parent) && slot in t.dirents then Some(t.dirents[slot]) else None
  }

  function ResolvePath(rules: TextRules, t: Tables, root: InodeId, path: Text): Result<InodeId, Error> {
    if path == [] then Ok(root)
    else if !ValidPath(rules, path) then Err(BadPath)
    else match Walk(t, root, Segments(path))
      case None => Err(Missing)
      case Some(i) => Ok(i)
  }

  /** The directory that holds a path's last segment, and that segment. */
  function ParentSlot(rules: TextRules, t: Tables, root: InodeId, path: Text): Result<Slot, Error> {
    var (parent, name) := SplitParent(path);
    if parent.None? then Ok(Slot(root, name))
    else
      var dir :- ResolvePath(rules, t, root, parent.value);
      Ok(Slot(dir, name))
  }

  ghost predicate FoldsLikeSibling(rules: TextRules, t: Tables, slot: Slot) {
    exists s :: s in t.dirents && s.parent == slot.parent && rules.fold(s.name) == rules.fold(slot.name)
  }

  /** A free leaf under an existing directory, unique under case folding. */
  ghost function NewLeaf(rules: TextRules, t: Tables, root: InodeId, path: Text): Result<Slot, Error> {
    if !ValidPath(rules, path) then Err(BadPath)
    else
      var slot :- ParentSlot(rules, t, root, path);
      if !IsDir(t, slot.parent) then Err(NotADirectory)
      else if slot in t.dirents then Err(Exists)
      else if FoldsLikeSibling(rules, t, slot) then Err(CaseFoldCollision)
      else Ok(slot)
  }

  function ResolveFile(rules: TextRules, t: Tables, root: InodeId, path: Text): (r: Result<InodeId, Error>)
    ensures r.Ok? ==> IsFile(t, r.value)
  {
    var i :- ResolvePath(rules, t, root, path);
    if IsFile(t, i) then Ok(i) else Err(NotAFile)
  }

  // --- table updates ------------------------------------------------------------------

  ghost function AddNode(t: Tables, ws: Text, slot: Slot, node: Node): Tables {
    var id := NextId(t.inodes.Keys);
    t.(inodes := t.inodes[id := Inode(ws, node)], dirents := t.dirents[slot := id])
  }

  function SetNode(t: Tables, i: InodeId, node: Node): Tables
    requires i in t.inodes
  {
    t.(inodes := t.inodes[i := t.inodes[i].(node := node)])
  }

  function RemoveSlot(t: Tables, slot: Slot): Tables {
    t.(dirents := t.dirents - {slot})
  }

  /** `UPDATE dirents`: a source slot that is not there moves nothing. */
  function MoveSlot(t: Tables, from: Slot, to: Slot): Tables {
    if from in t.dirents then t.(dirents := (t.dirents - {from})[to := t.dirents[from]]) else t
  }

  ghost predicate Linked(t: Tables, i: InodeId) { exists s :: s in t.dirents && t.dirents[s] == i }

  ghost predicate Leased(t: Tables, i: InodeId) {
    exists l :: l in t.leases && t.leases[l].Unlinked? && t.leases[l].inode == i
  }

  /** Deleting an inode row cascades to the dirents it holds. */
  ghost function DropIfOrphaned(t: Tables, i: InodeId): Tables {
    if Linked(t, i) || Leased(t, i) then t
    else t.(inodes := t.inodes - {i}, dirents := map s | s in t.dirents && s.parent != i :: t.dirents[s])
  }

  ghost predicate HasChildren(t: Tables, i: InodeId) { exists s :: s in t.dirents && s.parent == i }

  /** Only the inode and dirent tables may differ. */
  predicate OnlyTree(before: Tables, after: Tables) {
    after == before.(inodes := after.inodes, dirents := after.dirents)
  }

  // --- mutations ------------------------------------------------------------------------

  ghost function ApplyMutation(rules: TextRules, t: Tables, ws: Text, m: Mutation): (r: Result<Tables, Error>)
    requires ws in t.workspaces
    ensures r.Ok? ==> OnlyTree(t, r.value)
  {
    var root := t.workspaces[ws].root;
    match m
    case Mkdir(path) =>
      var slot :- NewLeaf(rules, t, root, path);
      Ok(AddNode(t, ws, slot, Dir))
    case CreateFile(path, executable, planner, records) =>
      var slot :- NewLeaf(rules, t, root, path);
      Ok(AddNode(t, ws, slot, File(executable, planner, Unstamped, records)))
    case SetRecords(path, records) =>
      var i :- ResolveFile(rules, t, root, path);
      Ok(SetNode(t, i, t.inodes[i].node.(records := records)))
    case Truncate(path, length) =>
      var i :- ResolveFile(rules, t, root, path);
      var cut := Truncated(t.inodes[i].node.records, length);
      if cut.None? then Err(MidRecordTruncate)
      else if !ValidRun(cut.value, length) then Err(BadRecords)
      else Ok(SetNode(t, i, t.inodes[i].node.(records := cut.value)))
    case Rename(from, to) =>
      var i :- ResolvePath(rules, t, root, from);
      if IsDir(t, i) && InSubtree(from, to) then Err(RenameIntoSelf)
      else
        var slot :- NewLeaf(rules, t, root, to);
        var source :- ParentSlot(rules, t, root, from);
        Ok(MoveSlot(t, source, slot))
    case Unlink(path) =>
      var i :- ResolvePath(rules, t, root, path);
      if IsDir(t, i) then Err(NotAFile)
      else
        var slot :- ParentSlot(rules, t, root, path);
        Ok(DropIfOrphaned(RemoveSlot(t, slot), i))
    case Rmdir(path) =>
      var i :- ResolvePath(rules, t, root, path);
      if !IsDir(t, i) then Err(NotADirectory)
      else if HasChildren(t, i) then Err(NotEmpty)
      else
        var slot :- ParentSlot(rules, t, root, path);
        Ok(DropIfOrphaned(RemoveSlot(t, slot), i))
    case MakeSymlink(path, target) =>
      if !ValidTarget(rules, target) then Err(BadTarget)
      else
        var slot :- NewLeaf(rules, t, root, path);
        Ok(AddNode(t, ws, slot, Symlink(target)))
    case Hardlink(path, target) =>
      var i :- ResolveFile(rules, t, root, target);
      var slot :- NewLeaf(rules, t, root, path);
      Ok(t.(dirents := t.dirents[slot := i]))
    case SetExecutable(path, executable) =>
      var i :- ResolveFile(rules, t, root, path);
      Ok(SetNode(t, i, t.inodes[i].node.(executable := executable)))
  }

  ghost function ApplyAll(rules: TextRules, t: Tables, ws: Text, ms: seq<Mutation>): (r: Result<Tables, Error>)
    requires ws in t.workspaces
    ensures r.Ok? ==> OnlyTree(t, r.value)
    decreases |ms|
  {
    if ms == [] then Ok(t)
    else
      var next :- ApplyMutation(rules, t, ws, ms[0]);
      ApplyAll(rules, next, ws, ms[1..])
  }

  ghost function Advance(t: Tables, ws: Text): Tables
    requires ws in t.workspaces
  {
    t.(workspaces := t.workspaces[ws := t.workspaces[ws].(generation := t.workspaces[ws].generation + 1)])
  }

  // --- transactions -----------------------------------------------------------------------

  predicate Staged(m: Mutation) { m.CreateFile? || m.SetRecords? }

  /** Every staged run is well formed. */
  ghost predicate RunsOk(ms: seq<Mutation>) {
    forall i | 0 <= i < |ms| && Staged(ms[i]) :: ValidRun(ms[i].records, Total(ms[i].records))
  }

  /** The objects a batch newly names. */
  function Referenced(ms: seq<Mutation>): set<Digest> {
    set i, d | 0 <= i < |ms| && Staged(ms[i]) && d in Digests(ms[i].records) :: d
  }

  /** The transaction half of a commit: presence is checked again inside it. */
  ghost function Commit(rules: TextRules, t: Tables, ws: Text, ms: seq<Mutation>): (r: Result<Tables, Error>)
    ensures r.Ok? ==> ws in t.workspaces && OnlyTree(t.(workspaces := r.value.workspaces), r.value)
  {
    if !(Referenced(ms) <= t.objects.Keys) then Err(MissingObject)
    else if ws !in t.workspaces then Err(UnknownWorkspace)
    else
      var next :- ApplyAll(rules, t, ws, ms);
      Ok(Advance(next, ws))
  }

  ghost function CreateWorkspace(t: Tables, ws: Text): Result<Tables, Error> {
    if ws in t.workspaces then Err(WorkspaceExists)
    else
      var root := NextId(t.inodes.Keys);
      Ok(t.(workspaces := t.workspaces[ws := Head(0, root)], inodes := t.inodes[root := Inode(ws, Dir)]))
  }

  predicate Belongs(t: Tables, ws: Text, i: InodeId) { i in t.inodes && t.inodes[i].workspace == ws }

  /** The row's deletion cascades to its inodes and its leases. */
  function DeleteWorkspace(t: Tables, ws: Text): Result<Tables, Error> {
    if ws !in t.workspaces then Err(UnknownWorkspace)
    else Ok(t.(
      workspaces := t.workspaces - {ws},
      inodes := map i | i in t.inodes && t.inodes[i].workspace != ws :: t.inodes[i],
      dirents := map s | s in t.dirents && !Belongs(t, ws, s.parent) :: t.dirents[s],
      leases := map l | l in t.leases && !(t.leases[l].Unlinked? && t.leases[l].workspace == ws) :: t.leases[l]))
  }

  ghost function AddLease(t: Tables, lease: Lease): Tables {
    t.(leases := t.leases[NextId(t.leases.Keys) := lease])
  }

  ghost function AcquireUnlinked(rules: TextRules, t: Tables, ws: Text, path: Text): Result<Tables, Error> {
    if ws !in t.workspaces then Err(UnknownWorkspace)
    else
      var i :- ResolvePath(rules, t, t.workspaces[ws].root, path);
      Ok(AddLease(t, Unlinked(ws, i)))
  }

  ghost function ReleaseLease(t: Tables, l: nat): Result<Tables, Error> {
    if l !in t.leases then Err(UnknownLease)
    else
      var rest := t.(leases := t.leases - {l});
      Ok(if t.leases[l].Unlinked? then DropIfOrphaned(rest, t.leases[l].inode) else rest)
  }
}
