/** Cloning a snapshot into a fresh workspace: the batch is accepted whole, and the new head
    is the snapshot's tree. */
module Clone {
  import opened Wrappers
  import opened Records
  import opened Paths
  import W = Workspace
  import opened WorkspaceTree
  import opened WorkspaceNames
  import opened Tfm1
  import opened PathOrder
  import opened Tfm1Finish

  // --- the batch ------------------------------------------------------------------------------------

  /** The mutation that recreates entry `i`. */
  ghost function CloneMutation(entries: seq<Item<Entry>>, i: nat): W.Mutation
    requires OrdinalsOk(entries) && i < |entries|
  {
    match entries[i].entry
    case Directory => W.Mkdir(entries[i].path)
    case File(executable, body) => W.CreateFile(entries[i].path, executable, BodyPlanner(body), BodyRecords(body))
    case Symlink(target) => W.MakeSymlink(entries[i].path, target)
    case Hardlink(ordinal) => W.Hardlink(entries[i].path, entries[FileIndex(entries, ordinal, i)].path)
  }

  ghost function CloneBatch(entries: seq<Item<Entry>>): (ms: seq<W.Mutation>)
    requires OrdinalsOk(entries)
    ensures |ms| == |entries| && forall i | 0 <= i < |ms| :: ms[i] == CloneMutation(entries, i)
  {
    seq(|entries|, i requires 0 <= i < |entries| => CloneMutation(entries, i))
  }

  /** What a clone relies on of the text rules: folding a path folds its last segment in place. */
  ghost predicate FoldsBySegment(rules: TextRules) {
    forall p, a, b | rules.fold(a) == rules.fold(b) :: rules.fold(p + [SLASH] + a) == rules.fold(p + [SLASH] + b)
  }

  /** Entries a canonical snapshot may list. */
  ghost predicate Listing(rules: TextRules, entries: seq<Item<Entry>>) {
    && Sorted(entries) && (forall i | 0 <= i < |entries| :: WellListed(rules, entries, i))
    && TreeOk(rules, entries, IsDirectory) && OrdinalsOk(entries)
  }

  // --- the workspace so far --------------------------------------------------------------------------

  function RootOf(t: W.Tables, ws: Text): W.InodeId
    requires ws in t.workspaces
  {
    t.workspaces[ws].root
  }

  /** The inode an entry's path should lead to. */
  ghost predicate NodeIs(node: W.Node, entry: Entry) {
    match entry
    case Directory => node == W.Dir
    case File(executable, body) => node == W.File(executable, BodyPlanner(body), Unstamped, BodyRecords(body))
    case Symlink(target) => node == W.Symlink(target)
    case Hardlink(_) => node.File?
  }

  ghost predicate EntryAt(t: W.Tables, ws: Text, entries: seq<Item<Entry>>, ids: seq<W.InodeId>, i: nat)
    requires ws in t.workspaces && OrdinalsOk(entries) && i < |ids| <= |entries|
  {
    && W.Walk(t, RootOf(t, ws), Segments(entries[i].path)) == Some(ids[i])
    && ids[i] in t.inodes && NodeIs(t.inodes[ids[i]].node, entries[i].entry)
    && (entries[i].entry.Hardlink? ==> ids[i] == ids[FileIndex(entries, entries[i].entry.ordinal, i)])
  }

  ghost predicate Entered(entries: seq<Item<Entry>>, k: nat, segments: seq<Text>)
    requires k <= |entries|
  {
    exists i :: 0 <= i < k && segments == Segments(entries[i].path)
  }

  /** The first `k` entries and nothing else; every entry but a hardlink has an inode of its own. */
  ghost predicate Cloned(t: W.Tables, ws: Text, entries: seq<Item<Entry>>, ids: seq<W.InodeId>)
    requires OrdinalsOk(entries) && |ids| <= |entries|
  {
    && ws in t.workspaces
    && (forall i | 0 <= i < |ids| :: EntryAt(t, ws, entries, ids, i))
    && (forall i, j | 0 <= i < j < |ids| && !entries[j].entry.Hardlink? :: ids[i] != ids[j])
    && (forall segments | segments != [] && W.Walk(t, RootOf(t, ws), segments).Some? :: Entered(entries, |ids|, segments))
  }

  // --- one entry is accepted ------------------------------------------------------------------------------

  lemma {:induction false} PrefixBefore(a: Text, tail: Text)
    requires tail != []
    ensures Before(a, a + tail)
  {
    if a != [] {
      PrefixBefore(a[1..], tail);
      assert (a + tail)[1..] == a[1..] + tail;
    }
  }

  /** An entry's parent directory is listed before it. */
  lemma ParentIndex(rules: TextRules, entries: seq<Item<Entry>>, k: nat) returns (j: nat)
    requires Listing(rules, entries) && k < |entries| && SplitParent(entries[k].path).0.Some?
    ensures j < k && entries[j].path == SplitParent(entries[k].path).0.value && entries[j].entry.Directory?
  {
    hide ValidPath, EntryOk, Before, Count;
    var path := entries[k].path;
    var parent := SplitParent(path).0.value;
    assert ParentListed(entries, IsDirectory, path);
    j :| 0 <= j < |entries| && entries[j].path == parent && IsDirectory(entries[j].entry);
    assert path == parent + ([SLASH] + SplitParent(path).1);
    PrefixBefore(parent, [SLASH] + SplitParent(path).1);
    if j > k { Asymmetric(entries[k].path, entries[j].path); }
    if j == k { Irreflexive(path); }
  }

  /** The directory above entry `k` is already there. */
  lemma ParentResolves(rules: TextRules, t: W.Tables, at: Places, ws: Text, entries: seq<Item<Entry>>, ids: seq<W.InodeId>) returns (slot: W.Slot)
    requires WellFormed(rules, t, at) && Listing(rules, entries) && |ids| < |entries| && Cloned(t, ws, entries, ids)
    ensures W.ParentSlot(rules, t, RootOf(t, ws), entries[|ids|].path) == Ok(slot)
    ensures W.IsDir(t, slot.parent) && slot.parent in at && W.Belongs(t, ws, slot.parent)
    ensures at[slot.parent] + [slot.name] == Segments(entries[|ids|].path)
    ensures W.Walk(t, RootOf(t, ws), at[slot.parent]) == Some(slot.parent)
    ensures slot.name == SplitParent(entries[|ids|].path).1
    ensures SplitParent(entries[|ids|].path).0.None? ==> at[slot.parent] == []
    ensures SplitParent(entries[|ids|].path).0.Some? ==> at[slot.parent] == Segments(SplitParent(entries[|ids|].path).0.value)
  {
    hide WellFormed, Listing, Segments, ValidPath, W.Walk;
    var path := entries[|ids|].path;
    var (parent, name) := SplitParent(path);
    WorkspaceTree.Root(rules, t, at, ws);
    SegmentsOf(path);
    if parent.None? {
      slot := W.Slot(RootOf(t, ws), name);
      WalkEmpty(t, RootOf(t, ws));
    } else {
      var j := ParentIndex(rules, entries, |ids|);
      PathOk(rules, entries, j);
      assert EntryAt(t, ws, entries, ids, j);
      WalkSound(rules, t, at, ws, Segments(parent.value));
      slot := W.Slot(ids[j], name);
      NonEmptyPath(rules, entries, j);
    }
  }

  lemma SegmentsOf(path: Text)
    ensures SplitParent(path).0.None? ==> Segments(path) == [SplitParent(path).1]
    ensures SplitParent(path).0.Some? ==> Segments(path) == Segments(SplitParent(path).0.value) + [SplitParent(path).1]
  {
  }

  lemma PathOk(rules: TextRules, entries: seq<Item<Entry>>, j: nat)
    requires Listing(rules, entries) && j < |entries|
    ensures ValidPath(rules, entries[j].path) && WellListed(rules, entries, j) && OrdinalsOk(entries)
  {
    hide ValidPath, EntryOk, Count;
    assert WellListed(rules, entries, j);
  }

  lemma ListingOrdinals(rules: TextRules, entries: seq<Item<Entry>>)
    requires Listing(rules, entries)
    ensures OrdinalsOk(entries)
  {
  }

  lemma NonEmptyPath(rules: TextRules, entries: seq<Item<Entry>>, j: nat)
    requires Listing(rules, entries) && j < |entries|
    ensures entries[j].path != []
  {
    hide EntryOk, Count, Segments;
    assert WellListed(rules, entries, j);
  }

  /** A path already there was entered. */
  lemma WasEntered(rules: TextRules, t: W.Tables, at: Places, ws: Text, entries: seq<Item<Entry>>, ids: seq<W.InodeId>, s: W.Slot) returns (i: nat)
    requires WellFormed(rules, t, at) && OrdinalsOk(entries) && |ids| <= |entries| && Cloned(t, ws, entries, ids)
    requires s in t.dirents && s.parent in at && W.Walk(t, RootOf(t, ws), at[s.parent]) == Some(s.parent)
    ensures i < |ids| && Segments(entries[i].path) == at[s.parent] + [s.name]
  {
    hide WellFormed, Segments;
    Edge(rules, t, at, s);
    var segments := at[s.parent] + [s.name];
    assert segments[..|segments| - 1] == at[s.parent];
    assert W.Walk(t, RootOf(t, ws), segments).Some?;
    i :| 0 <= i < |ids| && segments == Segments(entries[i].path);
  }

  lemma SameSegmentsSamePath(a: Text, b: Text)
    requires Segments(a) == Segments(b)
    ensures a == b
  {
    JoinSegments(a);
    JoinSegments(b);
  }

  lemma PathsApart(rules: TextRules, entries: seq<Item<Entry>>, i: nat, k: nat)
    requires Listing(rules, entries) && i < k < |entries|
    ensures entries[i].path != entries[k].path && rules.fold(entries[i].path) != rules.fold(entries[k].path)
  {
    hide ValidPath, EntryOk, Count, Before;
    Asymmetric(entries[i].path, entries[k].path);
  }

  /** The leaf for the next entry is free. */
  lemma LeafAccepted(rules: TextRules, t: W.Tables, at: Places, ws: Text, entries: seq<Item<Entry>>, ids: seq<W.InodeId>) returns (slot: W.Slot)
    requires FoldsBySegment(rules) && WellFormed(rules, t, at) && Listing(rules, entries) && |ids| < |entries| && Cloned(t, ws, entries, ids)
    ensures W.NewLeaf(rules, t, RootOf(t, ws), entries[|ids|].path) == Ok(slot)
    ensures Free(rules, t, at, ws, slot) && at[slot.parent] + [slot.name] == Segments(entries[|ids|].path)
  {
    hide WellFormed, Listing, Segments, ValidPath, W.Walk, EntryAt, Entered, ValidSegment, FoldsBySegment, W.ParentSlot, W.IsDir;
    slot := ParentResolves(rules, t, at, ws, entries, ids);
    var k, path := |ids|, entries[|ids|].path;
    PathOk(rules, entries, k);
    if slot in t.dirents {
      var i := WasEntered(rules, t, at, ws, entries, ids, slot);
      SameSegmentsSamePath(entries[i].path, path);
      PathsApart(rules, entries, i, k);
    }
    if W.FoldsLikeSibling(rules, t, slot) {
      var s :| s in t.dirents && s.parent == slot.parent && rules.fold(s.name) == rules.fold(slot.name);
      var i := WasEntered(rules, t, at, ws, entries, ids, s);
      SiblingFolds(rules, entries[i].path, path, at[slot.parent], s.name, slot.name);
      PathsApart(rules, entries, i, k);
    }
    LeafIsFree(rules, t, at, ws, path);
  }

  /** Siblings whose names fold alike have paths that fold alike. */
  lemma SiblingFolds(rules: TextRules, p: Text, q: Text, parent: seq<Text>, a: Text, b: Text)
    requires FoldsBySegment(rules) && Segments(p) == parent + [a] && Segments(q) == parent + [b] && rules.fold(a) == rules.fold(b)
    ensures rules.fold(p) == rules.fold(q)
  {
    JoinSegments(p);
    JoinSegments(q);
    var x, y := parent + [a], parent + [b];
    assert x[..|x| - 1] == parent && y[..|y| - 1] == parent;
    if parent != [] {
      assert p == Join(parent) + [SLASH] + a && q == Join(parent) + [SLASH] + b;
    }
  }

  // --- one entry is entered ---------------------------------------------------------------------------------

  /** The new dirent is the next entry; the rest is as it was. */
  lemma EnterOne(rules: TextRules, t: W.Tables, at: Places, after: W.Tables, ws: Text, entries: seq<Item<Entry>>, ids: seq<W.InodeId>,
                 slot: W.Slot, child: W.InodeId)
    requires WellFormed(rules, t, at) && OrdinalsOk(entries) && |ids| < |entries| && Cloned(t, ws, entries, ids)
    requires Added(t, after, slot, child) && slot.parent in at && W.Belongs(t, ws, slot.parent)
    requires at[slot.parent] + [slot.name] == Segments(entries[|ids|].path)
    requires child in after.inodes && NodeIs(after.inodes[child].node, entries[|ids|].entry)
    requires entries[|ids|].entry.Hardlink? ==> child == ids[FileIndex(entries, entries[|ids|].entry.ordinal, |ids|)]
    requires !entries[|ids|].entry.Hardlink? ==> child !in ids
    ensures Cloned(after, ws, entries, ids + [child])
  {
    hide WellFormed, Segments, NodeIs, Added, W.Walk, EntryAt, Entered, FileIndex, OrdinalsOk, W.Belongs, Count;
    var k, more := |ids|, ids + [child];
    AddedKeeps(t, after, slot, child);
    forall i | 0 <= i < k ensures EntryAt(after, ws, entries, more, i) {
      EntryStays(t, after, ws, entries, ids, slot, child, i);
    }
    EntryArrives(rules, t, at, after, ws, entries, ids, slot, child);
    forall segments | segments != [] && W.Walk(after, RootOf(after, ws), segments).Some? ensures Entered(entries, |more|, segments) {
      OnlyEntries(rules, t, at, after, ws, entries, ids, slot, child, segments);
    }
  }

  lemma EntryStays(t: W.Tables, after: W.Tables, ws: Text, entries: seq<Item<Entry>>, ids: seq<W.InodeId>, slot: W.Slot, child: W.InodeId, i: nat)
    requires ws in t.workspaces && OrdinalsOk(entries) && i < |ids| < |entries| && EntryAt(t, ws, entries, ids, i)
    requires Added(t, after, slot, child) && after.workspaces == t.workspaces
    ensures EntryAt(after, ws, entries, ids + [child], i)
  {
    hide Segments, NodeIs, Added, W.Walk;
    AddedKeeps(t, after, slot, child);
    AddedStays(t, after, slot, child, RootOf(t, ws), Segments(entries[i].path));
  }

  lemma EntryArrives(rules: TextRules, t: W.Tables, at: Places, after: W.Tables, ws: Text, entries: seq<Item<Entry>>, ids: seq<W.InodeId>,
                     slot: W.Slot, child: W.InodeId)
    requires WellFormed(rules, t, at) && OrdinalsOk(entries) && |ids| < |entries| && ws in t.workspaces
    requires Added(t, after, slot, child) && slot.parent in at && W.Belongs(t, ws, slot.parent)
    requires at[slot.parent] + [slot.name] == Segments(entries[|ids|].path)
    requires child in after.inodes && NodeIs(after.inodes[child].node, entries[|ids|].entry)
    requires entries[|ids|].entry.Hardlink? ==> child == ids[FileIndex(entries, entries[|ids|].entry.ordinal, |ids|)]
    ensures after.workspaces == t.workspaces && EntryAt(after, ws, entries, ids + [child], |ids|)
  {
    hide WellFormed, Segments, NodeIs, Added, W.Walk;
    AddedKeeps(t, after, slot, child);
    AddedWalk(rules, t, at, after, ws, slot, child, Segments(entries[|ids|].path));
  }

  lemma OnlyEntries(rules: TextRules, t: W.Tables, at: Places, after: W.Tables, ws: Text, entries: seq<Item<Entry>>, ids: seq<W.InodeId>,
                    slot: W.Slot, child: W.InodeId, segments: seq<Text>)
    requires WellFormed(rules, t, at) && OrdinalsOk(entries) && |ids| < |entries| && Cloned(t, ws, entries, ids)
    requires Added(t, after, slot, child) && slot.parent in at && W.Belongs(t, ws, slot.parent)
    requires at[slot.parent] + [slot.name] == Segments(entries[|ids|].path)
    requires after.workspaces == t.workspaces && segments != [] && W.Walk(after, RootOf(after, ws), segments).Some?
    ensures Entered(entries, |ids| + 1, segments)
  {
    hide WellFormed, Segments, NodeIs, Added, W.Walk, EntryAt;
    AddedWalk(rules, t, at, after, ws, slot, child, segments);
    if W.Walk(t, RootOf(t, ws), segments).Some? {
      assert Entered(entries, |ids|, segments);
    } else {
      assert segments == Segments(entries[|ids|].path);
    }
  }

  lemma AddedKeeps(t: W.Tables, after: W.Tables, slot: W.Slot, child: W.InodeId)
    requires Added(t, after, slot, child)
    ensures after.workspaces == t.workspaces
    ensures forall i | i in t.inodes :: i in after.inodes && after.inodes[i] == t.inodes[i]
  {
  }

  lemma IdsExist(t: W.Tables, ws: Text, entries: seq<Item<Entry>>, ids: seq<W.InodeId>)
    requires OrdinalsOk(entries) && |ids| <= |entries| && Cloned(t, ws, entries, ids)
    ensures forall i | 0 <= i < |ids| :: ids[i] in t.inodes
  {
    hide Segments, W.Walk, NodeIs;
    forall i | 0 <= i < |ids| ensures ids[i] in t.inodes { assert EntryAt(t, ws, entries, ids, i); }
  }

  /** The next entry's mutation is accepted and enters it. */
  lemma CloneStep(rules: TextRules, t: W.Tables, ws: Text, entries: seq<Item<Entry>>, ids: seq<W.InodeId>) returns (more: seq<W.InodeId>)
    requires FoldsBySegment(rules) && Tree(rules, t) && Listing(rules, entries) && |ids| < |entries| && Cloned(t, ws, entries, ids)
    ensures W.ApplyMutation(rules, t, ws, CloneMutation(entries, |ids|)).Ok?
    ensures |more| == |ids| + 1 && Cloned(W.ApplyMutation(rules, t, ws, CloneMutation(entries, |ids|)).value, ws, entries, more)
  {
    hide WellFormed, Listing, Segments, ValidPath, W.Walk, EntryAt, Entered, FoldsBySegment, W.NextId, Added, Free, W.NewLeaf, W.AddNode,
      ValidTarget, FileIndex, BodyRecords;
    var k := |ids|;
    var at :| WellFormed(rules, t, at);
    ListingOrdinals(rules, entries);
    var slot := LeafAccepted(rules, t, at, ws, entries, ids);
    FreeMeans(rules, t, at, ws, slot);
    IdsExist(t, ws, entries, ids);
    PathOk(rules, entries, k);
    match entries[k].entry
    case Hardlink(ordinal) =>
      var j := FileIndex(entries, ordinal, k);
      TargetResolves(rules, t, at, ws, entries, ids, j);
      LinkIsAdded(rules, t, at, ws, slot, ids[j]);
      var after := t.(dirents := t.dirents[slot := ids[j]]);
      EnterOne(rules, t, at, after, ws, entries, ids, slot, ids[j]);
      more := ids + [ids[j]];
    case _ =>
      var node := match entries[k].entry
        case Directory => W.Dir
        case File(executable, body) => W.File(executable, BodyPlanner(body), Unstamped, BodyRecords(body))
        case Symlink(target) => W.Symlink(target);
      TargetIsValid(rules, entries, k);
      NewIsAdded(rules, t, at, ws, slot, node);
      EnterOne(rules, t, at, W.AddNode(t, ws, slot, node), ws, entries, ids, slot, W.NextId(t.inodes.Keys));
      more := ids + [W.NextId(t.inodes.Keys)];
  }

  lemma FreeMeans(rules: TextRules, t: W.Tables, at: Places, ws: Text, slot: W.Slot)
    requires Free(rules, t, at, ws, slot)
    ensures slot.parent in at && W.Belongs(t, ws, slot.parent) && slot !in t.dirents
  {
  }

  lemma TargetIsValid(rules: TextRules, entries: seq<Item<Entry>>, k: nat)
    requires k < |entries| && WellListed(rules, entries, k)
    ensures entries[k].entry.Symlink? ==> ValidTarget(rules, entries[k].entry.target)
  {
    hide ValidPath, Count, ValidTarget;
  }

  lemma TargetResolves(rules: TextRules, t: W.Tables, at: Places, ws: Text, entries: seq<Item<Entry>>, ids: seq<W.InodeId>, j: nat)
    requires WellFormed(rules, t, at) && Listing(rules, entries) && OrdinalsOk(entries) && j < |ids| <= |entries| && Cloned(t, ws, entries, ids)
    requires entries[j].entry.File?
    ensures W.ResolveFile(rules, t, RootOf(t, ws), entries[j].path) == Ok(ids[j])
    ensures W.IsFile(t, ids[j]) && NodeIs(t.inodes[ids[j]].node, entries[j].entry) && W.Belongs(t, ws, ids[j])
  {
    hide WellFormed, Listing, Segments, ValidPath, W.Walk, Entered;
    assert EntryAt(t, ws, entries, ids, j);
    PathOk(rules, entries, j);
    NonEmptyPath(rules, entries, j);
    WalkSound(rules, t, at, ws, Segments(entries[j].path));
  }

  // --- the whole batch ------------------------------------------------------------------------------------------

  lemma {:induction false} CloneRest(rules: TextRules, t: W.Tables, ws: Text, entries: seq<Item<Entry>>, ids: seq<W.InodeId>)
      returns (all: seq<W.InodeId>)
    requires FoldsBySegment(rules) && Tree(rules, t) && Listing(rules, entries) && |ids| <= |entries| && Cloned(t, ws, entries, ids)
    ensures W.ApplyAll(rules, t, ws, CloneBatch(entries)[|ids|..]).Ok?
    ensures |all| == |entries| && Cloned(W.ApplyAll(rules, t, ws, CloneBatch(entries)[|ids|..]).value, ws, entries, all)
    decreases |entries| - |ids|
  {
    hide Tree, Listing, EntryAt, Entered, W.ApplyMutation, FoldsBySegment, CloneMutation;
    ListingOrdinals(rules, entries);
    var k, batch := |ids|, CloneBatch(entries);
    if k == |entries| {
      all := ids;
    } else {
      var more := CloneStep(rules, t, ws, entries, ids);
      var m := CloneMutation(entries, k);
      MutationKeepsTree(rules, t, ws, m) by { CloneKeepsRoot(t, ws, entries, k); }
      CloneKeepsRoot(t, ws, entries, k);
      assert batch[k..][0] == m && batch[k..][1..] == batch[k + 1..];
      all := CloneRest(rules, W.ApplyMutation(rules, t, ws, m).value, ws, entries, more);
    }
  }

  lemma CloneKeepsRoot(t: W.Tables, ws: Text, entries: seq<Item<Entry>>, k: nat)
    requires OrdinalsOk(entries) && k < |entries| && ws in t.workspaces
    ensures !DropsRoot(t, ws, CloneMutation(entries, k))
  {
  }

  // --- the two halves of the theorem ---------------------------------------------------------------------------

  /** The workspace a clone starts from. */
  ghost predicate FreshWorkspace(t: W.Tables, ws: Text) {
    ws in t.workspaces && forall segments | segments != [] :: W.Walk(t, t.workspaces[ws].root, segments).None?
  }

  lemma CreatedIsFresh(rules: TextRules, t: W.Tables, ws: Text)
    requires Tree(rules, t) && ws !in t.workspaces
    ensures FreshWorkspace(W.CreateWorkspace(t, ws).value, ws) && Tree(rules, W.CreateWorkspace(t, ws).value)
  {
    hide WellFormed, W.NextId, ValidSegment;
    var at :| WellFormed(rules, t, at);
    var after := W.CreateWorkspace(t, ws).value;
    CreateKeepsTree(rules, t, at, ws);
    forall segments | segments != [] ensures W.Walk(after, after.workspaces[ws].root, segments).None? {
      EmptyRoot(rules, t, at, ws, segments);
    }
  }

  lemma {:induction false} EmptyRoot(rules: TextRules, t: W.Tables, at: Places, ws: Text, segments: seq<Text>)
    requires WellFormed(rules, t, at) && ws !in t.workspaces && segments != []
    ensures var after := W.CreateWorkspace(t, ws).value;
      W.Walk(after, after.workspaces[ws].root, segments).None?
    decreases |segments|
  {
    hide WellFormed, W.NextId, ValidSegment;
    var after := W.CreateWorkspace(t, ws).value;
    var root, init, name := after.workspaces[ws].root, segments[..|segments| - 1], segments[|segments| - 1];
    if init != [] {
      EmptyRoot(rules, t, at, ws, init);
    } else {
      assert W.Walk(after, root, init) == Some(root);
      if W.Slot(root, name) in t.dirents {
        Edge(rules, t, at, W.Slot(root, name));
      }
    }
  }

  ghost predicate ObjectsResident(objects: Objects, entries: seq<Item<Entry>>) {
    forall i | 0 <= i < |entries| && entries[i].entry.File? :: Digests(BodyRecords(entries[i].entry.body)) <= objects.Keys
  }

  lemma CanonicalLists(rules: TextRules, s: Snapshot)
    requires Canonical(rules, s)
    ensures Listing(rules, s.entries)
  {
    hide EntriesOk, TreeOk, WellListed;
    CanonicalMeans(rules, s.entries);
    WellListedOrdinals(rules, s.entries);
  }

  lemma BatchIsStageable(rules: TextRules, objects: Objects, entries: seq<Item<Entry>>)
    requires Listing(rules, entries) && OrdinalsOk(entries) && ObjectsResident(objects, entries)
    ensures W.RunsOk(CloneBatch(entries)) && W.Referenced(CloneBatch(entries)) <= objects.Keys
  {
    hide Listing, Digests, ValidRun, BodyRecords, BodyOk;
    var batch := CloneBatch(entries);
    forall i | 0 <= i < |batch| && W.Staged(batch[i]) ensures ValidRun(batch[i].records, Records.Total(batch[i].records)) {
      PathOk(rules, entries, i);
      BodyIsOk(rules, entries, i);
      BodyReturns(rules, entries[i].entry.body);
    }
    forall d | d in W.Referenced(batch) ensures d in objects {
      var i :| 0 <= i < |batch| && W.Staged(batch[i]) && d in Digests(batch[i].records);
      assert entries[i].entry.File?;
    }
  }

  lemma BodyIsOk(rules: TextRules, entries: seq<Item<Entry>>, i: nat)
    requires i < |entries| && WellListed(rules, entries, i) && entries[i].entry.File?
    ensures BodyOk(rules, entries[i].entry.body)
  {
    hide ValidPath, Count, BodyOk;
  }

  /** A canonical snapshot whose objects are resident clones without a refusal, and the head
      then holds exactly its entries. */
  lemma CloneNeverRefuses(rules: TextRules, t: W.Tables, ws: Text, s: Snapshot) returns (ids: seq<W.InodeId>)
    requires FoldsBySegment(rules) && Canonical(rules, s) && ObjectsResident(t.objects, s.entries)
    requires Tree(rules, t) && FreshWorkspace(t, ws)
    ensures OrdinalsOk(s.entries) && W.RunsOk(CloneBatch(s.entries))
    ensures W.Commit(rules, t, ws, CloneBatch(s.entries)).Ok?
    ensures |ids| == |s.entries| && Cloned(W.Commit(rules, t, ws, CloneBatch(s.entries)).value, ws, s.entries, ids)
  {
    hide Tree, Canonical, Listing, EntryAt, W.ApplyAll, W.RunsOk, W.Referenced, FoldsBySegment, ObjectsResident;
    CanonicalLists(rules, s);
    ListingOrdinals(rules, s.entries);
    BatchIsStageable(rules, t.objects, s.entries);
    ids := CloneRest(rules, t, ws, s.entries, []);
    var batch := CloneBatch(s.entries);
    assert batch[0..] == batch;
    AdvanceKeepsCloned(W.ApplyAll(rules, t, ws, batch).value, ws, s.entries, ids);
  }

  lemma AdvanceKeepsCloned(t: W.Tables, ws: Text, entries: seq<Item<Entry>>, ids: seq<W.InodeId>)
    requires OrdinalsOk(entries) && |ids| <= |entries| && Cloned(t, ws, entries, ids)
    ensures Cloned(W.Advance(t, ws), ws, entries, ids)
  {
    hide NodeIs, Segments, Entered;
    var after := W.Advance(t, ws);
    forall segments ensures W.Walk(after, RootOf(after, ws), segments) == W.Walk(t, RootOf(t, ws), segments) { SameWalk(t, ws, segments); }
    forall i | 0 <= i < |ids| ensures EntryAt(after, ws, entries, ids, i) { assert EntryAt(t, ws, entries, ids, i); }
  }

  lemma {:induction false} SameWalk(t: W.Tables, ws: Text, segments: seq<Text>)
    requires ws in t.workspaces
    ensures W.Walk(W.Advance(t, ws), RootOf(W.Advance(t, ws), ws), segments) == W.Walk(t, RootOf(t, ws), segments)
    decreases |segments|
  {
    if segments != [] {
      SameWalk(t, ws, segments[..|segments| - 1]);
    }
  }
}
