/** What a mutation leaves alone: other workspaces, inodes no path reaches, and every
    object it does not newly name. */
module WorkspaceEffects {
  import opened Records
  import opened Paths
  import opened Workspace
  import opened WorkspaceTree

  function NodeObjects(node: Node): set<Digest> { if node.File? then Digests(node.records) else {} }

  /** Every object some inode's object map names. */
  function HeadObjects(t: Tables): set<Digest> {
    set i, d | i in t.inodes && d in NodeObjects(t.inodes[i].node) :: d
  }

  lemma InodeObjects(t: Tables, i: InodeId)
    requires i in t.inodes
    ensures NodeObjects(t.inodes[i].node) <= HeadObjects(t)
  {
  }

  /** The dirents of another workspace. */
  predicate Foreign(t: Tables, ws: Text, s: Slot) { s.parent in t.inodes && t.inodes[s.parent].workspace != ws }

  predicate Same<K, V(==)>(a: map<K, V>, b: map<K, V>, k: K) { (k in a <==> k in b) && (k in a ==> a[k] == b[k]) }

  /** A leased inode no dirent leads to. */
  ghost predicate Detached(t: Tables, i: InodeId) { i in t.inodes && !Linked(t, i) && Leased(t, i) }

  ghost predicate Local(t: Tables, ws: Text, after: Tables, added: set<Digest>) {
    && after == t.(inodes := after.inodes, dirents := after.dirents)
    && (forall i | i in t.inodes && t.inodes[i].workspace != ws :: i in after.inodes && after.inodes[i] == t.inodes[i])
    && (forall i | i in after.inodes && i !in t.inodes :: after.inodes[i].workspace == ws)
    && (forall i | i in after.inodes && i in t.inodes :: after.inodes[i].workspace == t.inodes[i].workspace)
    && (forall s | Foreign(t, ws, s) :: Same(t.dirents, after.dirents, s))
    && (forall i | Detached(t, i) :: i in after.inodes && after.inodes[i] == t.inodes[i] && Detached(after, i))
    && HeadObjects(after) <= HeadObjects(t) + added
  }

  lemma LocalRefl(t: Tables, ws: Text)
    ensures Local(t, ws, t, {})
  {
  }

  lemma LocalTrans(t: Tables, ws: Text, u: Tables, v: Tables, a: set<Digest>, b: set<Digest>)
    requires Local(t, ws, u, a) && Local(u, ws, v, b)
    ensures Local(t, ws, v, a + b)
  {
    hide HeadObjects, Detached;
    forall s | Foreign(t, ws, s) ensures Same(t.dirents, v.dirents, s) {
      assert Foreign(u, ws, s) && Same(t.dirents, u.dirents, s) && Same(u.dirents, v.dirents, s);
    }
  }

  lemma AddIsLocal(t: Tables, ws: Text, slot: Slot, node: Node)
    requires Belongs(t, ws, slot.parent) && slot !in t.dirents
    ensures Local(t, ws, AddNode(t, ws, slot, node), NodeObjects(node))
  {
    hide NextId, NodeObjects;
    var after, id := AddNode(t, ws, slot, node), NextId(t.inodes.Keys);
    StaysDetached(t, after, {id});
  }

  /** New links to rows that are not detached leave detached rows detached. */
  lemma StaysDetached(t: Tables, after: Tables, targets: set<InodeId>)
    requires after.leases == t.leases && forall i | i in t.inodes && Detached(t, i) :: i in after.inodes && i !in targets
    requires forall s | s in after.dirents :: after.dirents[s] in targets || (exists u :: u in t.dirents && t.dirents[u] == after.dirents[s])
    ensures forall i | Detached(t, i) :: Detached(after, i)
  {
    forall i | Detached(t, i) ensures Detached(after, i) {
      assert forall s | s in after.dirents :: after.dirents[s] != i;
    }
  }

  lemma LinkIsLocal(t: Tables, ws: Text, slot: Slot, i: InodeId)
    requires Belongs(t, ws, slot.parent) && slot !in t.dirents && Linked(t, i)
    ensures Local(t, ws, t.(dirents := t.dirents[slot := i]), {})
  {
    StaysDetached(t, t.(dirents := t.dirents[slot := i]), {});
  }

  /** Dropping rows names nothing new. */
  lemma FewerHeads(t: Tables, after: Tables)
    requires forall i | i in after.inodes :: i in t.inodes && after.inodes[i] == t.inodes[i]
    ensures HeadObjects(after) <= HeadObjects(t)
  {
    hide NodeObjects;
  }

  lemma MoveIsLocal(t: Tables, ws: Text, from: Slot, to: Slot)
    requires Belongs(t, ws, from.parent) && Belongs(t, ws, to.parent)
    ensures Local(t, ws, MoveSlot(t, from, to), {})
  {
    hide HeadObjects, Linked, Leased;
    var after := MoveSlot(t, from, to);
    FewerHeads(t, after);
    forall s | s in after.dirents ensures exists u :: u in t.dirents && t.dirents[u] == after.dirents[s] {
      assert (if s == to && from in t.dirents then from else s) in t.dirents;
    }
    StaysDetached(t, after, {});
  }

  lemma SetIsLocal(t: Tables, ws: Text, i: InodeId, node: Node, added: set<Digest>)
    requires Belongs(t, ws, i) && Linked(t, i)
    requires NodeObjects(node) <= NodeObjects(t.inodes[i].node) + added
    ensures Local(t, ws, SetNode(t, i, node), added)
  {
    hide NodeObjects, HeadObjects, Linked, Leased;
    var after := SetNode(t, i, node);
    StaysDetached(t, after, {});
    SetNames(t, i, node, added);
  }

  lemma SetNames(t: Tables, i: InodeId, node: Node, added: set<Digest>)
    requires i in t.inodes && NodeObjects(node) <= NodeObjects(t.inodes[i].node) + added
    ensures HeadObjects(SetNode(t, i, node)) <= HeadObjects(t) + added
  {
    hide NodeObjects;
    InodeObjects(t, i);
  }

  lemma RemoveIsLocal(t: Tables, ws: Text, slot: Slot, i: InodeId)
    requires slot in t.dirents && t.dirents[slot] == i && Belongs(t, ws, i) && Belongs(t, ws, slot.parent)
    ensures Local(t, ws, DropIfOrphaned(RemoveSlot(t, slot), i), {})
  {
    hide HeadObjects, DropIfOrphaned, Detached;
    var after := DropIfOrphaned(RemoveSlot(t, slot), i);
    RemoveShape(t, slot, i);
    FewerHeads(t, after);
    forall j | Detached(t, j) ensures j in after.inodes && after.inodes[j] == t.inodes[j] { NotDetached(t, slot, j); }
    StaysDetached(t, after, {});
  }

  lemma NotDetached(t: Tables, slot: Slot, j: InodeId)
    requires slot in t.dirents && Detached(t, j)
    ensures j in t.inodes && j != t.dirents[slot]
  {
  }

  lemma RemoveShape(t: Tables, slot: Slot, i: InodeId)
    ensures var after := DropIfOrphaned(RemoveSlot(t, slot), i);
      && after == t.(inodes := after.inodes, dirents := after.dirents)
      && (forall j | j in after.inodes :: j in t.inodes && after.inodes[j] == t.inodes[j])
      && (forall j | j in t.inodes && j != i :: j in after.inodes)
      && (forall s | s in after.dirents :: s in t.dirents && after.dirents[s] == t.dirents[s])
      && (forall s | s in t.dirents && s != slot && s.parent != i :: s in after.dirents)
  {
    hide Linked, Leased;
  }

  /** A resolved file is reached through a dirent. */
  lemma ResolvedFile(rules: TextRules, t: Tables, at: Places, ws: Text, path: Text)
    requires WellFormed(rules, t, at) && ws in t.workspaces && ResolveFile(rules, t, t.workspaces[ws].root, path).Ok?
    ensures var i := ResolveFile(rules, t, t.workspaces[ws].root, path).value;
      Belongs(t, ws, i) && Linked(t, i)
  {
    hide WellFormed, ValidPath, Segments;
    Root(rules, t, at, ws);
    ResolvedBelongs(rules, t, at, ws, path);
  }

  /** Truncation names no object the run did not name. */
  lemma TruncateNames(records: seq<FileRecord>, length: nat)
    requires Truncated(records, length).Some?
    ensures Digests(Truncated(records, length).value) <= Digests(records)
  {
    KeptDigests(records, length);
    var kept, cut := KeepUpTo(records, length).value, Truncated(records, length).value;
    forall d | d in Digests(cut) ensures d in Digests(kept) {
      var i :| 0 <= i < |cut| && cut[i].Data? && cut[i].digest == d;
      assert kept[i].Data? && kept[i].digest == d;
    }
  }

  function NewObjects(m: Mutation): set<Digest> { if Staged(m) then Digests(m.records) else {} }

  lemma MutationIsLocal(rules: TextRules, t: Tables, ws: Text, m: Mutation)
    requires Tree(rules, t) && ws in t.workspaces && ApplyMutation(rules, t, ws, m).Ok? && !DropsRoot(t, ws, m)
    ensures Local(t, ws, ApplyMutation(rules, t, ws, m).value, NewObjects(m))
  {
    hide WellFormed, ValidPath, Segments, SplitParent, FoldsLikeSibling, NextId, Leased, Linked, HasChildren, DropIfOrphaned,
      Walk, ValidTarget, ValidSegment, Truncated, ValidRun, AddNode, MoveSlot, Digests, Local, RemoveSlot;
    var at :| WellFormed(rules, t, at);
    var root, after := t.workspaces[ws].root, ApplyMutation(rules, t, ws, m).value;
    Root(rules, t, at, ws);
    match m
    case Rename(from, to) =>
      LeafIsFree(rules, t, at, ws, to);
      SourceBelongs(rules, t, at, ws, from);
      MoveIsLocal(t, ws, ParentSlot(rules, t, root, from).value, NewLeaf(rules, t, root, to).value);
    case Unlink(path) =>
      ResolvedSlot(rules, t, at, ws, path);
      RemoveIsLocal(t, ws, ParentSlot(rules, t, root, path).value, ResolvePath(rules, t, root, path).value);
    case Rmdir(path) =>
      if path == [] {
        RmdirOfLeasedRoot(rules, t, at, ws);
        LocalRefl(t, ws);
      } else {
        ResolvedSlot(rules, t, at, ws, path);
        RemoveIsLocal(t, ws, ParentSlot(rules, t, root, path).value, ResolvePath(rules, t, root, path).value);
      }
    case Mkdir(path) =>
      LeafIsFree(rules, t, at, ws, path);
      AddIsLocal(t, ws, NewLeaf(rules, t, root, path).value, Dir);
    case CreateFile(path, executable, planner, records) =>
      LeafIsFree(rules, t, at, ws, path);
      AddIsLocal(t, ws, NewLeaf(rules, t, root, path).value, File(executable, planner, Unstamped, records));
    case MakeSymlink(path, target) =>
      LeafIsFree(rules, t, at, ws, path);
      AddIsLocal(t, ws, NewLeaf(rules, t, root, path).value, Symlink(target));
    case Hardlink(path, target) =>
      LeafIsFree(rules, t, at, ws, path);
      ResolvedFile(rules, t, at, ws, target);
      LinkIsLocal(t, ws, NewLeaf(rules, t, root, path).value, ResolveFile(rules, t, root, target).value);
    case SetRecords(path, records) =>
      ResolvedFile(rules, t, at, ws, path);
      var i := ResolveFile(rules, t, root, path).value;
      SetIsLocal(t, ws, i, t.inodes[i].node.(records := records), Digests(records));
    case Truncate(path, length) =>
      ResolvedFile(rules, t, at, ws, path);
      var i := ResolveFile(rules, t, root, path).value;
      TruncateNames(t.inodes[i].node.records, length);
      SetIsLocal(t, ws, i, t.inodes[i].node.(records := Truncated(t.inodes[i].node.records, length).value), {});
    case SetExecutable(path, executable) =>
      ResolvedFile(rules, t, at, ws, path);
      var i := ResolveFile(rules, t, root, path).value;
      SetIsLocal(t, ws, i, t.inodes[i].node.(executable := executable), {});
  }

  lemma SourceBelongs(rules: TextRules, t: Tables, at: Places, ws: Text, path: Text)
    requires WellFormed(rules, t, at) && ws in t.workspaces && ParentSlot(rules, t, t.workspaces[ws].root, path).Ok?
    ensures Belongs(t, ws, ParentSlot(rules, t, t.workspaces[ws].root, path).value.parent)
  {
    hide WellFormed, ValidPath, Segments, Walk;
    Root(rules, t, at, ws);
    var parent := SplitParent(path).0;
    if parent.Some? {
      ResolvedBelongs(rules, t, at, ws, parent.value);
    }
  }

  lemma {:induction false} BatchIsLocal(rules: TextRules, t: Tables, ws: Text, ms: seq<Mutation>)
    requires Tree(rules, t) && ws in t.workspaces && ApplyAll(rules, t, ws, ms).Ok? && !BatchDropsRoot(t, ws, ms)
    ensures Local(t, ws, ApplyAll(rules, t, ws, ms).value, Referenced(ms))
    decreases |ms|
  {
    hide Tree, ApplyMutation, Local, Digests, BatchDropsRoot;
    if ms == [] {
      LocalRefl(t, ws);
      assert Referenced(ms) == {};
    } else {
      var next := ApplyMutation(rules, t, ws, ms[0]).value;
      BatchStep(rules, t, ws, ms);
      MutationIsLocal(rules, t, ws, ms[0]);
      MutationKeepsTree(rules, t, ws, ms[0]);
      BatchIsLocal(rules, next, ws, ms[1..]);
      LocalTrans(t, ws, next, ApplyAll(rules, t, ws, ms).value, NewObjects(ms[0]), Referenced(ms[1..]));
      ReferencedStep(ms);
    }
  }

  lemma ReferencedStep(ms: seq<Mutation>)
    requires ms != []
    ensures Referenced(ms) == NewObjects(ms[0]) + Referenced(ms[1..])
  {
    hide Digests;
    forall d | d in Referenced(ms) ensures d in NewObjects(ms[0]) + Referenced(ms[1..]) {
      var i :| 0 <= i < |ms| && Staged(ms[i]) && d in Digests(ms[i].records);
      if i > 0 {
        assert ms[1..][i - 1] == ms[i];
      }
    }
    forall d | d in Referenced(ms[1..]) ensures d in Referenced(ms) {
      var i :| 0 <= i < |ms[1..]| && Staged(ms[1..][i]) && d in Digests(ms[1..][i].records);
      assert ms[i + 1] == ms[1..][i];
    }
  }
}
