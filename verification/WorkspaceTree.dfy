/** What every transaction keeps of the directory graph: linked directories form a
    tree under each workspace's root, siblings differ under case folding, and no
    inode but a root lives without a dirent or a lease. */
module WorkspaceTree {
  import opened Wrappers
  import opened Records
  import opened Paths
  import opened Workspace

  /** The path of every linked directory, from its workspace's root. */
  type Places = map<InodeId, seq<Text>>

  predicate IsRoot(t: Tables, i: InodeId) {
    i in t.inodes && t.inodes[i].workspace in t.workspaces && t.workspaces[t.inodes[i].workspace].root == i
  }

  ghost predicate RootOk(t: Tables, at: Places, ws: Text)
    requires ws in t.workspaces
  {
    var root := t.workspaces[ws].root;
    root in t.inodes && t.inodes[root] == Inode(ws, Dir) && root in at && at[root] == []
  }

  /** Only roots sit at the empty path; every other placed directory is linked. */
  ghost predicate PlaceOk(t: Tables, at: Places, i: InodeId)
    requires i in at
  {
    IsDir(t, i) && (if at[i] == [] then IsRoot(t, i) else Linked(t, i))
  }

  ghost predicate InodeOk(t: Tables, i: InodeId)
    requires i in t.inodes
  {
    t.inodes[i].workspace in t.workspaces && (IsRoot(t, i) || Linked(t, i) || Leased(t, i))
  }

  /** A dirent stays inside its workspace, and a directory sits one step below its parent. */
  ghost predicate Nests(rules: TextRules, t: Tables, at: Places, s: Slot, child: InodeId) {
    && s.parent in at && s.parent in t.inodes && child in t.inodes
    && t.inodes[child].workspace == t.inodes[s.parent].workspace
    && SLASH !in s.name && ValidSegment(rules, s.name)
    && (t.inodes[child].node.Dir? ==> child in at && at[child] == at[s.parent] + [s.name])
  }

  ghost predicate Apart(rules: TextRules, a: Slot, b: Slot) {
    a.parent == b.parent && rules.fold(a.name) == rules.fold(b.name) ==> a == b
  }

  ghost predicate LeaseOk(t: Tables, lease: Lease) { lease.Unlinked? ==> Belongs(t, lease.workspace, lease.inode) }

  ghost predicate WellFormed(rules: TextRules, t: Tables, at: Places) {
    && (forall ws | ws in t.workspaces :: RootOk(t, at, ws))
    && (forall i | i in at :: PlaceOk(t, at, i))
    && (forall i | i in t.inodes :: InodeOk(t, i))
    && (forall s | s in t.dirents :: Nests(rules, t, at, s, t.dirents[s]))
    && (forall a, b | a in t.dirents && b in t.dirents :: Apart(rules, a, b))
    && (forall l | l in t.leases :: LeaseOk(t, t.leases[l]))
  }

  ghost predicate Tree(rules: TextRules, t: Tables) { exists at :: WellFormed(rules, t, at) }

  // Each fact at one point, so that a proof need not see the invariant whole.

  lemma Root(rules: TextRules, t: Tables, at: Places, ws: Text)
    requires WellFormed(rules, t, at) && ws in t.workspaces
    ensures RootOk(t, at, ws)
  {
  }

  lemma Place(rules: TextRules, t: Tables, at: Places, i: InodeId)
    requires WellFormed(rules, t, at) && i in at
    ensures PlaceOk(t, at, i)
  {
  }

  lemma Row(rules: TextRules, t: Tables, at: Places, i: InodeId)
    requires WellFormed(rules, t, at) && i in t.inodes
    ensures InodeOk(t, i)
  {
  }

  lemma Edge(rules: TextRules, t: Tables, at: Places, s: Slot)
    requires WellFormed(rules, t, at) && s in t.dirents
    ensures Nests(rules, t, at, s, t.dirents[s]) && IsDir(t, s.parent)
  {
    assert PlaceOk(t, at, s.parent);
  }

  lemma Pair(rules: TextRules, t: Tables, at: Places, a: Slot, b: Slot)
    requires WellFormed(rules, t, at) && a in t.dirents && b in t.dirents
    ensures Apart(rules, a, b)
  {
  }

  lemma Held(rules: TextRules, t: Tables, at: Places, l: nat)
    requires WellFormed(rules, t, at) && l in t.leases
    ensures LeaseOk(t, t.leases[l])
  {
  }

  lemma Assemble(rules: TextRules, t: Tables, at: Places)
    requires forall ws | ws in t.workspaces :: RootOk(t, at, ws)
    requires forall i | i in at :: PlaceOk(t, at, i)
    requires forall i | i in t.inodes :: InodeOk(t, i)
    requires forall s | s in t.dirents :: Nests(rules, t, at, s, t.dirents[s])
    requires forall a, b | a in t.dirents && b in t.dirents :: Apart(rules, a, b)
    requires forall l | l in t.leases :: LeaseOk(t, t.leases[l])
    ensures WellFormed(rules, t, at)
  {
  }

  // --- what the witness means: walking a place finds its directory, and only it ---------

  lemma {:induction false} WalkSound(rules: TextRules, t: Tables, at: Places, ws: Text, segments: seq<Text>)
    requires WellFormed(rules, t, at) && ws in t.workspaces
    requires Walk(t, t.workspaces[ws].root, segments).Some?
    ensures var i := Walk(t, t.workspaces[ws].root, segments).value;
      Belongs(t, ws, i) && (IsDir(t, i) ==> i in at && at[i] == segments)
    decreases |segments|
  {
    hide WellFormed, ValidSegment;
    if segments == [] {
      Root(rules, t, at, ws);
    } else {
      WalkSound(rules, t, at, ws, segments[..|segments| - 1]);
      var parent := Walk(t, t.workspaces[ws].root, segments[..|segments| - 1]).value;
      Edge(rules, t, at, Slot(parent, segments[|segments| - 1]));
      assert segments == segments[..|segments| - 1] + [segments[|segments| - 1]];
    }
  }

  lemma {:induction false} WalkFinds(rules: TextRules, t: Tables, at: Places, i: InodeId)
    requires WellFormed(rules, t, at) && i in at
    ensures t.inodes[i].workspace in t.workspaces
    ensures Walk(t, t.workspaces[t.inodes[i].workspace].root, at[i]) == Some(i)
    decreases |at[i]|
  {
    hide WellFormed, ValidSegment;
    Place(rules, t, at, i);
    Row(rules, t, at, i);
    if at[i] != [] {
      var s :| s in t.dirents && t.dirents[s] == i;
      Edge(rules, t, at, s);
      WalkFinds(rules, t, at, s.parent);
      assert at[i][..|at[i]| - 1] == at[s.parent];
    }
  }

  /** Two linked directories of one workspace never share a path. */
  lemma PlacesUnique(rules: TextRules, t: Tables, at: Places, i: InodeId, j: InodeId)
    requires WellFormed(rules, t, at) && i in at && j in at
    requires t.inodes[i].workspace == t.inodes[j].workspace && at[i] == at[j]
    ensures i == j
  {
    WalkFinds(rules, t, at, i);
    WalkFinds(rules, t, at, j);
  }

  /** A linked directory has exactly one dirent. */
  lemma OneLink(rules: TextRules, t: Tables, at: Places, a: Slot, b: Slot)
    requires WellFormed(rules, t, at) && a in t.dirents && b in t.dirents
    requires t.dirents[a] == t.dirents[b] && IsDir(t, t.dirents[a])
    ensures a == b
  {
    hide WellFormed, ValidSegment;
    var c := t.dirents[a];
    Edge(rules, t, at, a);
    Edge(rules, t, at, b);
    assert at[c][..|at[c]| - 1] == at[a.parent] && at[c][..|at[c]| - 1] == at[b.parent];
    assert at[c][|at[c]| - 1] == a.name && at[c][|at[c]| - 1] == b.name;
    PlacesUnique(rules, t, at, a.parent, b.parent);
  }

  // --- resolution under the invariant ------------------------------------------------------

  /** A slot where a new leaf may go. */
  ghost predicate Free(rules: TextRules, t: Tables, at: Places, ws: Text, slot: Slot) {
    && Belongs(t, ws, slot.parent) && slot.parent in at
    && slot !in t.dirents && !FoldsLikeSibling(rules, t, slot)
    && SLASH !in slot.name && ValidSegment(rules, slot.name)
  }

  lemma LeafIsFree(rules: TextRules, t: Tables, at: Places, ws: Text, path: Text)
    requires WellFormed(rules, t, at) && ws in t.workspaces
    requires NewLeaf(rules, t, t.workspaces[ws].root, path).Ok?
    ensures var slot := NewLeaf(rules, t, t.workspaces[ws].root, path).value;
      Free(rules, t, at, ws, slot) && at[slot.parent] + [slot.name] == Segments(path)
  {
    hide WellFormed, ValidSegment, Walk, FoldsLikeSibling;
    Root(rules, t, at, ws);
    var (parent, name) := SplitParent(path);
    var segments := Segments(path);
    assert segments[|segments| - 1] == name;
    assert ValidSegment(rules, segments[|segments| - 1]);
    if parent.Some? {
      NoLeadingSlash(rules, path);
      WalkSound(rules, t, at, ws, Segments(parent.value));
    }
  }

  /** A resolved non-empty path names the inode its parent slot holds. */
  lemma ResolvedSlot(rules: TextRules, t: Tables, at: Places, ws: Text, path: Text)
    requires WellFormed(rules, t, at) && ws in t.workspaces && path != []
    requires ResolvePath(rules, t, t.workspaces[ws].root, path).Ok?
    requires ParentSlot(rules, t, t.workspaces[ws].root, path).Ok?
    ensures var i := ResolvePath(rules, t, t.workspaces[ws].root, path).value;
      var slot := ParentSlot(rules, t, t.workspaces[ws].root, path).value;
      && slot in t.dirents && t.dirents[slot] == i && Belongs(t, ws, i) && Belongs(t, ws, slot.parent)
      && slot.parent in at && at[slot.parent] + [slot.name] == Segments(path)
  {
    hide WellFormed, ValidPath, ValidSegment, SplitParent;
    Root(rules, t, at, ws);
    var (parent, name) := SplitParent(path);
    var segments := Segments(path);
    var root := t.workspaces[ws].root;
    WalkSound(rules, t, at, ws, segments);
    if parent.Some? {
      assert segments[..|segments| - 1] == Segments(parent.value) && segments[|segments| - 1] == name;
      NoLeadingSlash(rules, path);
      WalkSound(rules, t, at, ws, Segments(parent.value));
    } else {
      assert segments == [name] && segments[..0] == [];
      assert Walk(t, root, []) == Some(root);
    }
  }

  lemma NoLeadingSlash(rules: TextRules, path: Text)
    requires ValidPath(rules, path)
    ensures SplitParent(path).0 != Some([])
  {
    var parent := SplitParent(path).0;
    if parent.Some? {
      assert path[0] == (parent.value + [SLASH])[0];
    }
  }

  // --- table updates keep the tree ------------------------------------------------------------

  /** Rows are only added, and no kept row changes its workspace or its kind. */
  ghost predicate Grows(t: Tables, at: Places, after: Tables, to: Places) {
    && (forall ws | ws in t.workspaces :: ws in after.workspaces && after.workspaces[ws].root == t.workspaces[ws].root)
    && (forall i | i in t.inodes :: i in after.inodes && after.inodes[i].workspace == t.inodes[i].workspace
          && (t.inodes[i].node.Dir? <==> after.inodes[i].node.Dir?))
    && (forall i | i in at :: i in to && to[i] == at[i])
    && (forall s | s in t.dirents :: s in after.dirents && after.dirents[s] == t.dirents[s])
    && (forall l | l in t.leases :: l in after.leases && after.leases[l] == t.leases[l])
  }

  lemma GrowthKeepsTree(rules: TextRules, t: Tables, at: Places, after: Tables, to: Places)
    requires WellFormed(rules, t, at) && Grows(t, at, after, to)
    requires forall ws | ws in after.workspaces && ws !in t.workspaces :: RootOk(after, to, ws)
    requires forall i | i in to && i !in at :: PlaceOk(after, to, i)
    requires forall i | i in after.inodes && i !in t.inodes :: InodeOk(after, i)
    requires forall s | s in after.dirents && s !in t.dirents :: Nests(rules, after, to, s, after.dirents[s])
    requires forall a, b | a in after.dirents && b in after.dirents :: Apart(rules, a, b)
    requires forall l | l in after.leases && l !in t.leases :: LeaseOk(after, after.leases[l])
    ensures WellFormed(rules, after, to)
  {
    hide WellFormed, ValidSegment, Linked, Leased, Apart;
    LinksGrow(t, at, after, to);
    forall ws | ws in after.workspaces ensures RootOk(after, to, ws) { if ws in t.workspaces { Root(rules, t, at, ws); } }
    forall i | i in to ensures PlaceOk(after, to, i) { if i in at { Place(rules, t, at, i); } }
    forall i | i in after.inodes ensures InodeOk(after, i) { if i in t.inodes { Row(rules, t, at, i); } }
    forall s | s in after.dirents ensures Nests(rules, after, to, s, after.dirents[s]) {
      if s in t.dirents { Edge(rules, t, at, s); }
    }
    forall l | l in after.leases ensures LeaseOk(after, after.leases[l]) { if l in t.leases { Held(rules, t, at, l); } }
    Assemble(rules, after, to);
  }

  lemma LinksGrow(t: Tables, at: Places, after: Tables, to: Places)
    requires Grows(t, at, after, to)
    ensures forall i | Linked(t, i) :: Linked(after, i)
    ensures forall i | Leased(t, i) :: Leased(after, i)
  {
    forall i | Linked(t, i) ensures Linked(after, i) {
      var s :| s in t.dirents && t.dirents[s] == i;
      assert s in after.dirents && after.dirents[s] == i;
    }
    forall i | Leased(t, i) ensures Leased(after, i) {
      var l :| l in t.leases && t.leases[l].Unlinked? && t.leases[l].inode == i;
      assert l in after.leases && after.leases[l].inode == i;
    }
  }

  lemma LinkedBy(t: Tables, s: Slot)
    requires s in t.dirents
    ensures Linked(t, t.dirents[s])
  {
  }

  lemma FreeApart(rules: TextRules, t: Tables, at: Places, ws: Text, slot: Slot)
    requires WellFormed(rules, t, at) && Free(rules, t, at, ws, slot)
    ensures forall a, b | (a in t.dirents || a == slot) && (b in t.dirents || b == slot) :: Apart(rules, a, b)
  {
    forall a, b | (a in t.dirents || a == slot) && (b in t.dirents || b == slot) ensures Apart(rules, a, b) {
      if a in t.dirents && b in t.dirents {
        Pair(rules, t, at, a, b);
      }
    }
  }

  lemma AllApart(rules: TextRules, t: Tables, at: Places)
    requires WellFormed(rules, t, at)
    ensures forall a, b | a in t.dirents && b in t.dirents :: Apart(rules, a, b)
  {
  }

  ghost function Placing(t: Tables, at: Places, slot: Slot, node: Node): Places
    requires slot.parent in at
  {
    if node.Dir? then at[NextId(t.inodes.Keys) := at[slot.parent] + [slot.name]] else at
  }

  lemma AddKeepsTree(rules: TextRules, t: Tables, at: Places, ws: Text, slot: Slot, node: Node)
    requires WellFormed(rules, t, at) && Free(rules, t, at, ws, slot)
    ensures WellFormed(rules, AddNode(t, ws, slot, node), Placing(t, at, slot, node))
  {
    hide WellFormed, ValidSegment, NextId, Linked, Leased, FoldsLikeSibling, Apart;
    var after, to, id := AddNode(t, ws, slot, node), Placing(t, at, slot, node), NextId(t.inodes.Keys);
    LinkedBy(after, slot);
    Row(rules, t, at, slot.parent);
    FreeApart(rules, t, at, ws, slot);
    assert id !in at by { if id in at { Place(rules, t, at, id); } }
    GrowthKeepsTree(rules, t, at, after, to);
  }

  lemma LinkKeepsTree(rules: TextRules, t: Tables, at: Places, ws: Text, slot: Slot, i: InodeId)
    requires WellFormed(rules, t, at) && Free(rules, t, at, ws, slot)
    requires Belongs(t, ws, i) && IsFile(t, i)
    ensures WellFormed(rules, t.(dirents := t.dirents[slot := i]), at)
  {
    hide WellFormed, ValidSegment, FoldsLikeSibling, Apart;
    FreeApart(rules, t, at, ws, slot);
    GrowthKeepsTree(rules, t, at, t.(dirents := t.dirents[slot := i]), at);
  }

  lemma SetKeepsTree(rules: TextRules, t: Tables, at: Places, i: InodeId, node: Node)
    requires WellFormed(rules, t, at) && IsFile(t, i) && node.File?
    ensures WellFormed(rules, SetNode(t, i, node), at)
  {
    hide WellFormed, Apart;
    AllApart(rules, t, at);
    GrowthKeepsTree(rules, t, at, SetNode(t, i, node), at);
  }

  lemma AdvanceKeepsTree(rules: TextRules, t: Tables, at: Places, ws: Text)
    requires WellFormed(rules, t, at) && ws in t.workspaces
    ensures WellFormed(rules, Advance(t, ws), at)
  {
    hide WellFormed, Apart;
    AllApart(rules, t, at);
    GrowthKeepsTree(rules, t, at, Advance(t, ws), at);
  }

  lemma LeaseKeepsTree(rules: TextRules, t: Tables, at: Places, lease: Lease)
    requires WellFormed(rules, t, at) && LeaseOk(t, lease)
    ensures WellFormed(rules, AddLease(t, lease), at)
  {
    hide WellFormed, Apart, NextId;
    AllApart(rules, t, at);
    GrowthKeepsTree(rules, t, at, AddLease(t, lease), at);
  }

  lemma CreateKeepsTree(rules: TextRules, t: Tables, at: Places, ws: Text)
    requires WellFormed(rules, t, at) && ws !in t.workspaces
    ensures WellFormed(rules, CreateWorkspace(t, ws).value, at[NextId(t.inodes.Keys) := []])
  {
    hide WellFormed, Apart, NextId, Linked, Leased;
    var root := NextId(t.inodes.Keys);
    AllApart(rules, t, at);
    assert root !in at by { if root in at { Place(rules, t, at, root); } }
    GrowthKeepsTree(rules, t, at, CreateWorkspace(t, ws).value, at[root := []]);
  }

  // --- removals ---------------------------------------------------------------------------

  /** Rows are only removed, and what remains is still held up by what remains. */
  ghost predicate Shrinks(t: Tables, at: Places, after: Tables, to: Places) {
    && (forall ws | ws in after.workspaces :: ws in t.workspaces && after.workspaces[ws] == t.workspaces[ws]
          && after.workspaces[ws].root in after.inodes && after.workspaces[ws].root in to)
    && (forall i | i in after.inodes :: i in t.inodes && after.inodes[i] == t.inodes[i])
    && (forall i | i in to :: i in at && to[i] == at[i] && i in after.inodes)
    && (forall s | s in after.dirents :: s in t.dirents && after.dirents[s] == t.dirents[s]
          && s.parent in to && after.dirents[s] in after.inodes)
    && (forall l | l in after.leases :: l in t.leases && after.leases[l] == t.leases[l])
  }

  lemma RemovalKeepsTree(rules: TextRules, t: Tables, at: Places, after: Tables, to: Places)
    requires WellFormed(rules, t, at) && Shrinks(t, at, after, to)
    requires forall i | i in to :: to[i] != [] ==> Linked(after, i)
    requires forall i | i in after.inodes :: InodeOk(after, i)
    requires forall s | s in after.dirents && IsDir(t, after.dirents[s]) :: after.dirents[s] in to
    requires forall l | l in after.leases :: LeaseOk(after, after.leases[l])
    ensures WellFormed(rules, after, to)
  {
    hide WellFormed, ValidSegment, Linked, Leased;
    forall ws | ws in after.workspaces ensures RootOk(after, to, ws) { Root(rules, t, at, ws); }
    forall i | i in to ensures PlaceOk(after, to, i) { Place(rules, t, at, i); }
    forall s | s in after.dirents ensures Nests(rules, after, to, s, after.dirents[s]) { Edge(rules, t, at, s); }
    forall a, b | a in after.dirents && b in after.dirents ensures Apart(rules, a, b) { Pair(rules, t, at, a, b); }
    Assemble(rules, after, to);
  }

  /** A linked inode is not a root. */
  lemma NotARoot(rules: TextRules, t: Tables, at: Places, slot: Slot)
    requires WellFormed(rules, t, at) && slot in t.dirents
    ensures t.dirents[slot] in t.inodes && !IsRoot(t, t.dirents[slot])
  {
    hide WellFormed, ValidSegment;
    Edge(rules, t, at, slot);
    if IsRoot(t, t.dirents[slot]) {
      Root(rules, t, at, t.inodes[t.dirents[slot]].workspace);
    }
  }

  /** What an orphan check leaves, when the inode it may drop holds no dirents. */
  lemma AfterDrop(t: Tables, i: InodeId)
    requires !HasChildren(t, i)
    ensures var after := DropIfOrphaned(t, i);
      && after == t.(inodes := after.inodes)
      && after.inodes == (if Linked(t, i) || Leased(t, i) then t.inodes else t.inodes - {i})
  {
    assert (map s | s in t.dirents && s.parent != i :: t.dirents[s]) == t.dirents;
  }

  lemma StaysLinked(t: Tables, slot: Slot, j: InodeId)
    requires slot in t.dirents && t.dirents[slot] != j && Linked(t, j)
    ensures Linked(RemoveSlot(t, slot), j)
  {
    var s :| s in t.dirents && t.dirents[s] == j;
    assert s in RemoveSlot(t, slot).dirents;
  }

  /** Taking away a dirent, then its inode if nothing holds it. */
  lemma UnlinkKeepsTree(rules: TextRules, t: Tables, at: Places, slot: Slot)
    requires WellFormed(rules, t, at) && slot in t.dirents && !HasChildren(t, t.dirents[slot])
    ensures WellFormed(rules, DropIfOrphaned(RemoveSlot(t, slot), t.dirents[slot]), at - {t.dirents[slot]})
  {
    hide WellFormed, ValidSegment, Linked, Leased, DropIfOrphaned;
    var i := t.dirents[slot];
    var cut := RemoveSlot(t, slot);
    var after, to := DropIfOrphaned(cut, i), at - {i};
    assert !HasChildren(cut, i);
    AfterDrop(cut, i);
    SameHolds(t, cut, after);
    NotARoot(rules, t, at, slot);
    forall ws | ws in after.workspaces ensures after.workspaces[ws].root in after.inodes && after.workspaces[ws].root in to {
      Root(rules, t, at, ws);
    }
    forall j | j in to ensures j in after.inodes && (to[j] != [] ==> Linked(after, j)) {
      Place(rules, t, at, j);
      if to[j] != [] { StaysLinked(t, slot, j); }
    }
    UnlinkRows(rules, t, at, slot);
    forall s | s in after.dirents
      ensures s.parent in to && after.dirents[s] in after.inodes
      ensures IsDir(t, after.dirents[s]) ==> after.dirents[s] in to
    {
      OtherEdge(rules, t, at, slot, s);
      LinkedBy(cut, s);
    }
    RemovalKeepsTree(rules, t, at, after, to);
  }

  /** What an unlink leaves is held as before. */
  lemma UnlinkRows(rules: TextRules, t: Tables, at: Places, slot: Slot)
    requires WellFormed(rules, t, at) && slot in t.dirents && !HasChildren(t, t.dirents[slot])
    ensures var after := DropIfOrphaned(RemoveSlot(t, slot), t.dirents[slot]);
      && (forall j | j in after.inodes :: InodeOk(after, j))
      && (forall l | l in after.leases :: LeaseOk(after, after.leases[l]))
  {
    hide WellFormed, Linked, Leased, DropIfOrphaned;
    var i := t.dirents[slot];
    var cut := RemoveSlot(t, slot);
    var after := DropIfOrphaned(cut, i);
    assert !HasChildren(cut, i);
    AfterDrop(cut, i);
    SameHolds(t, cut, after);
    NotARoot(rules, t, at, slot);
    forall j | j in after.inodes ensures InodeOk(after, j) {
      Row(rules, t, at, j);
      if j != i && Linked(t, j) { StaysLinked(t, slot, j); }
    }
    forall l | l in after.leases ensures LeaseOk(after, after.leases[l]) {
      Held(rules, t, at, l);
      if t.leases[l].Unlinked? { LeasedBy(cut, l); }
    }
  }

  /** Another dirent neither hangs from the removed child nor, for a directory, leads to it. */
  lemma OtherEdge(rules: TextRules, t: Tables, at: Places, slot: Slot, s: Slot)
    requires WellFormed(rules, t, at) && slot in t.dirents && !HasChildren(t, t.dirents[slot])
    requires s in t.dirents && s != slot
    ensures s.parent in at - {t.dirents[slot]} && t.dirents[s] in t.inodes
    ensures IsDir(t, t.dirents[s]) ==> t.dirents[s] in at - {t.dirents[slot]}
  {
    hide WellFormed, ValidSegment;
    Edge(rules, t, at, s);
    if IsDir(t, t.dirents[s]) && t.dirents[s] == t.dirents[slot] { OneLink(rules, t, at, s, slot); }
  }

  lemma LeasedBy(t: Tables, l: nat)
    requires l in t.leases && t.leases[l].Unlinked?
    ensures Leased(t, t.leases[l].inode)
  {
  }

  /** Links and leases read only their own tables. */
  lemma SameHolds(t: Tables, cut: Tables, after: Tables)
    requires after.dirents == cut.dirents && after.leases == cut.leases == t.leases
    ensures forall i :: Linked(after, i) == Linked(cut, i)
    ensures forall i :: Leased(after, i) == Leased(cut, i) == Leased(t, i)
  {
  }

  /** The lease whose release would drop a root: the last one on it. */
  ghost predicate LastOnRoot(t: Tables, l: nat)
    requires l in t.leases
  {
    t.leases[l].Unlinked? && IsRoot(t, t.leases[l].inode) && !Leased(t.(leases := t.leases - {l}), t.leases[l].inode)
  }

  /** Releasing a lease keeps the tree, unless it was the last one on a root. */
  lemma ReleaseKeepsTree(rules: TextRules, t: Tables, at: Places, l: nat)
    requires WellFormed(rules, t, at) && l in t.leases && !LastOnRoot(t, l)
    ensures WellFormed(rules, ReleaseLease(t, l).value, at)
  {
    hide WellFormed, ValidSegment, Linked, Leased, DropIfOrphaned, LastOnRoot;
    var cut := t.(leases := t.leases - {l});
    var after := ReleaseLease(t, l).value;
    Released(rules, t, at, l);
    SameHolds(cut, cut, after);
    SameLinks(t, cut);
    forall ws | ws in after.workspaces ensures after.workspaces[ws].root in after.inodes && after.workspaces[ws].root in at {
      Root(rules, t, at, ws);
    }
    forall j | j in at ensures j in after.inodes && (at[j] != [] ==> Linked(after, j)) { Place(rules, t, at, j); }
    ReleaseRows(rules, t, at, l);
    forall s | s in after.dirents
      ensures s.parent in at && after.dirents[s] in after.inodes && (IsDir(t, after.dirents[s]) ==> after.dirents[s] in at)
    {
      Edge(rules, t, at, s);
      LinkedBy(t, s);
    }
    RemovalKeepsTree(rules, t, at, after, at);
  }

  /** What a release leaves is held as before. */
  lemma ReleaseRows(rules: TextRules, t: Tables, at: Places, l: nat)
    requires WellFormed(rules, t, at) && l in t.leases && !LastOnRoot(t, l)
    ensures var after := ReleaseLease(t, l).value;
      && (forall j | j in after.inodes :: InodeOk(after, j))
      && (forall k | k in after.leases :: LeaseOk(after, after.leases[k]))
  {
    hide WellFormed, Linked, Leased, DropIfOrphaned, LastOnRoot;
    var cut := t.(leases := t.leases - {l});
    var after := ReleaseLease(t, l).value;
    Released(rules, t, at, l);
    SameHolds(cut, cut, after);
    SameLinks(t, cut);
    forall j | j in after.inodes ensures InodeOk(after, j) {
      Row(rules, t, at, j);
      if Leased(t, j) && !(t.leases[l].Unlinked? && t.leases[l].inode == j) { OtherLease(t, l, j); }
    }
    forall k | k in after.leases ensures LeaseOk(after, after.leases[k]) {
      Held(rules, t, at, k);
      if t.leases[k].Unlinked? { LeasedBy(cut, k); }
    }
  }

  /** A release takes the lease and at most its inode, which then nothing held. */
  lemma Released(rules: TextRules, t: Tables, at: Places, l: nat)
    requires WellFormed(rules, t, at) && l in t.leases && !LastOnRoot(t, l)
    ensures var cut, after := t.(leases := t.leases - {l}), ReleaseLease(t, l).value;
      && after == cut.(inodes := after.inodes)
      && (forall j | j in after.inodes :: j in t.inodes && after.inodes[j] == t.inodes[j])
      && (forall j | j in t.inodes && j !in after.inodes ::
            t.leases[l].Unlinked? && j == t.leases[l].inode && j !in at && !IsRoot(t, j) && !Linked(t, j) && !Leased(cut, j))
      && (t.leases[l].Unlinked? && t.leases[l].inode in after.inodes ==>
            Linked(t, t.leases[l].inode) || Leased(cut, t.leases[l].inode))
  {
    hide WellFormed, Linked, Leased, DropIfOrphaned;
    if t.leases[l].Unlinked? {
      Childless(rules, t, at, l);
      SameLinks(t, t.(leases := t.leases - {l}));
    }
  }

  lemma SameLinks(t: Tables, cut: Tables)
    requires cut.dirents == t.dirents
    ensures forall i :: Linked(cut, i) == Linked(t, i)
  {
  }

  lemma OtherLease(t: Tables, l: nat, j: InodeId)
    requires l in t.leases && Leased(t, j) && !(t.leases[l].Unlinked? && t.leases[l].inode == j)
    ensures Leased(t.(leases := t.leases - {l}), j)
  {
    var k :| k in t.leases && t.leases[k].Unlinked? && t.leases[k].inode == j;
    assert k in t.leases - {l};
  }

  /** A dropped inode was unlinked and not a root, so it held no dirents. */
  lemma Childless(rules: TextRules, t: Tables, at: Places, l: nat)
    requires WellFormed(rules, t, at) && l in t.leases && t.leases[l].Unlinked? && !LastOnRoot(t, l)
    ensures var cut := t.(leases := t.leases - {l});
      var i := t.leases[l].inode;
      var after := DropIfOrphaned(cut, i);
      && after == cut.(inodes := after.inodes)
      && after.inodes == (if Linked(cut, i) || Leased(cut, i) then t.inodes else t.inodes - {i})
      && (i !in after.inodes ==> i !in at && !IsRoot(t, i))
  {
    hide WellFormed, ValidSegment, Linked, Leased;
    var cut, i := t.(leases := t.leases - {l}), t.leases[l].inode;
    Held(rules, t, at, l);
    SameLinks(t, cut);
    if !Linked(cut, i) && !Leased(cut, i) {
      if i in at { Place(rules, t, at, i); }
      if HasChildren(cut, i) {
        var s :| s in cut.dirents && s.parent == i;
        Edge(rules, t, at, s);
      }
      AfterDrop(cut, i);
    }
  }

  ghost function Elsewhere(t: Tables, at: Places, ws: Text): Places {
    map i | i in at && !Belongs(t, ws, i) :: at[i]
  }

  lemma DeleteKeepsTree(rules: TextRules, t: Tables, at: Places, ws: Text)
    requires WellFormed(rules, t, at) && ws in t.workspaces
    ensures WellFormed(rules, DeleteWorkspace(t, ws).value, Elsewhere(t, at, ws))
  {
    hide WellFormed, ValidSegment, Linked, Leased;
    var after, to := DeleteWorkspace(t, ws).value, Elsewhere(t, at, ws);
    forall w | w in after.workspaces ensures after.workspaces[w].root in after.inodes && after.workspaces[w].root in to {
      Root(rules, t, at, w);
    }
    forall j | j in after.inodes ensures InodeOk(after, j) && (Linked(t, j) ==> Linked(after, j)) {
      Row(rules, t, at, j);
      HeldElsewhere(rules, t, at, ws, j);
    }
    forall j | j in to ensures j in after.inodes && (to[j] != [] ==> Linked(after, j)) { Place(rules, t, at, j); }
    forall s | s in after.dirents
      ensures s.parent in to && after.dirents[s] in after.inodes && (IsDir(t, after.dirents[s]) ==> after.dirents[s] in to)
    {
      Edge(rules, t, at, s);
    }
    forall l | l in after.leases ensures LeaseOk(after, after.leases[l]) { Held(rules, t, at, l); }
    RemovalKeepsTree(rules, t, at, after, to);
  }

  lemma HeldElsewhere(rules: TextRules, t: Tables, at: Places, ws: Text, j: InodeId)
    requires WellFormed(rules, t, at) && ws in t.workspaces && j in t.inodes && t.inodes[j].workspace != ws
    ensures Linked(t, j) ==> Linked(DeleteWorkspace(t, ws).value, j)
    ensures Leased(t, j) ==> Leased(DeleteWorkspace(t, ws).value, j)
  {
    hide WellFormed, ValidSegment;
    var after := DeleteWorkspace(t, ws).value;
    if Linked(t, j) {
      var s :| s in t.dirents && t.dirents[s] == j;
      Edge(rules, t, at, s);
      assert s in after.dirents && after.dirents[s] == j;
    }
    if Leased(t, j) {
      var l :| l in t.leases && t.leases[l].Unlinked? && t.leases[l].inode == j;
      Held(rules, t, at, l);
      assert l in after.leases && after.leases[l].inode == j;
    }
  }

  // --- rename ---------------------------------------------------------------------------------

  /** Everything at or under `from` in workspace `ws` moves to `to`. */
  ghost function Rehomed(t: Tables, at: Places, ws: Text, from: seq<Text>, to: seq<Text>): Places {
    map i | i in at :: if Belongs(t, ws, i) && from <= at[i] then to + at[i][|from|..] else at[i]
  }

  /** The places after a dirent moves; only a directory takes others along. */
  ghost function Moved(t: Tables, at: Places, ws: Text, from: Slot, to: Slot): Places
    requires from in t.dirents && to.parent in at
    requires IsDir(t, t.dirents[from]) ==> t.dirents[from] in at
  {
    var i := t.dirents[from];
    if IsDir(t, i) then Rehomed(t, at, ws, at[i], at[to.parent] + [to.name]) else at
  }

  ghost predicate Movable(rules: TextRules, t: Tables, at: Places, ws: Text, from: Slot, to: Slot) {
    && WellFormed(rules, t, at) && from in t.dirents && Belongs(t, ws, from.parent) && Free(rules, t, at, ws, to)
    && (IsDir(t, t.dirents[from]) ==> t.dirents[from] in at && !(at[t.dirents[from]] <= at[to.parent]))
  }

  /** Moving a dirent to a free slot outside its own subtree keeps the tree. */
  lemma MoveKeepsTree(rules: TextRules, t: Tables, at: Places, ws: Text, from: Slot, to: Slot)
    requires Movable(rules, t, at, ws, from, to)
    ensures WellFormed(rules, MoveSlot(t, from, to), Moved(t, at, ws, from, to))
  {
    hide WellFormed, ValidSegment, Linked, Leased, FoldsLikeSibling, Apart, Moved, Nests, MoveSlot;
    var after, places := MoveSlot(t, from, to), Moved(t, at, ws, from, to);
    MoveShape(rules, t, at, ws, from, to);
    forall w | w in after.workspaces ensures RootOk(after, places, w) {
      Root(rules, t, at, w);
      MovedPlace(rules, t, at, ws, from, to, t.workspaces[w].root);
    }
    forall i | i in places ensures PlaceOk(after, places, i) {
      Place(rules, t, at, i);
      MovedPlace(rules, t, at, ws, from, to, i);
    }
    forall i | i in after.inodes ensures InodeOk(after, i) { Row(rules, t, at, i); }
    forall s | s in after.dirents ensures Nests(rules, after, places, s, after.dirents[s]) {
      MovedEdge(rules, t, at, ws, from, to, s);
    }
    FreeApart(rules, t, at, ws, to);
    forall l | l in after.leases ensures LeaseOk(after, after.leases[l]) { Held(rules, t, at, l); }
    Assemble(rules, after, places);
  }

  lemma MoveShape(rules: TextRules, t: Tables, at: Places, ws: Text, from: Slot, to: Slot)
    requires Movable(rules, t, at, ws, from, to)
    ensures Moved(t, at, ws, from, to).Keys == at.Keys
    ensures var after := MoveSlot(t, from, to);
      && after == t.(dirents := after.dirents)
      && (forall s | s in after.dirents :: s in t.dirents || s == to)
      && (forall i | Linked(t, i) :: Linked(after, i)) && (forall i | Leased(t, i) :: Leased(after, i))
  {
    hide WellFormed, Leased, FoldsLikeSibling, ValidSegment;
    var after := MoveSlot(t, from, to);
    SameHolds(t, t.(dirents := after.dirents), after);
    forall i | Linked(t, i) ensures Linked(after, i) {
      var s :| s in t.dirents && t.dirents[s] == i;
      assert if s == from then after.dirents[to] == i else after.dirents[s] == i;
    }
  }

  /** The root keeps its place and nothing else takes it. */
  lemma MovedPlace(rules: TextRules, t: Tables, at: Places, ws: Text, from: Slot, to: Slot, i: InodeId)
    requires Movable(rules, t, at, ws, from, to) && i in at
    ensures i in Moved(t, at, ws, from, to) && (Moved(t, at, ws, from, to)[i] == [] <==> at[i] == [])
  {
    hide WellFormed, ValidSegment, FoldsLikeSibling;
    Edge(rules, t, at, from);
  }

  lemma MovedEdge(rules: TextRules, t: Tables, at: Places, ws: Text, from: Slot, to: Slot, s: Slot)
    requires Movable(rules, t, at, ws, from, to) && s in MoveSlot(t, from, to).dirents
    ensures Nests(rules, MoveSlot(t, from, to), Moved(t, at, ws, from, to), s, MoveSlot(t, from, to).dirents[s])
  {
    hide WellFormed, ValidSegment, FoldsLikeSibling;
    Edge(rules, t, at, from);
    if s != to {
      Edge(rules, t, at, s);
      var i, child := t.dirents[from], t.dirents[s];
      if IsDir(t, i) && IsDir(t, child) && Belongs(t, ws, child) {
        if at[i] == at[child] {
          PlacesUnique(rules, t, at, i, child);
          OneLink(rules, t, at, from, s);
        }
        PrefixSnoc(at[i], at[s.parent], s.name);
      }
    }
  }

  /** Below a longer path, a prefix of the extension is a prefix of what it extends. */
  lemma PrefixSnoc(a: seq<Text>, b: seq<Text>, name: Text)
    requires a != b + [name]
    ensures a <= b + [name] <==> a <= b
    ensures a <= b ==> (b + [name])[|a|..] == b[|a|..] + [name]
  {
    var c := b + [name];
    assert a <= c ==> a == c[..|a|];
    assert c[..|c|] == c;
    if a <= b + [name] {
      assert a == (b + [name])[..|a|] == b[..|a|];
    }
  }

  // --- every mutation and every transaction ------------------------------------------------------

  /** `Rmdir` of the empty path, which resolves to the root, on an unleased workspace root. */
  ghost predicate DropsRoot(t: Tables, ws: Text, m: Mutation)
    requires ws in t.workspaces
  {
    m.Rmdir? && m.path == [] && !Leased(t, t.workspaces[ws].root)
  }

  /** An accepted mutation keeps the tree exactly when it does not remove the root. */
  lemma MutationKeepsTree(rules: TextRules, t: Tables, ws: Text, m: Mutation)
    requires Tree(rules, t) && ws in t.workspaces && ApplyMutation(rules, t, ws, m).Ok?
    ensures Tree(rules, ApplyMutation(rules, t, ws, m).value) <==> !DropsRoot(t, ws, m)
  {
    hide WellFormed, ValidPath, Segments, SplitParent, FoldsLikeSibling, NextId, Leased, HasChildren, DropIfOrphaned,
      Walk, ValidTarget, Truncated, ValidRun, Free, AddNode, MoveSlot;
    var at :| WellFormed(rules, t, at);
    var root, after := t.workspaces[ws].root, ApplyMutation(rules, t, ws, m).value;
    match m
    case Rename(from, to) =>
      RenameKeepsTree(rules, t, at, ws, from, to);
    case Unlink(path) =>
      Root(rules, t, at, ws);
      RemoveKeepsTree(rules, t, at, ws, path);
    case Rmdir(path) =>
      if path == [] {
        RmdirOfRoot(rules, t, at, ws);
      } else {
        RemoveKeepsTree(rules, t, at, ws, path);
      }
    case Mkdir(path) =>
      LeafIsFree(rules, t, at, ws, path);
      AddKeepsTree(rules, t, at, ws, NewLeaf(rules, t, root, path).value, Dir);
    case CreateFile(path, executable, planner, records) =>
      LeafIsFree(rules, t, at, ws, path);
      AddKeepsTree(rules, t, at, ws, NewLeaf(rules, t, root, path).value, File(executable, planner, Unstamped, records));
    case MakeSymlink(path, target) =>
      LeafIsFree(rules, t, at, ws, path);
      AddKeepsTree(rules, t, at, ws, NewLeaf(rules, t, root, path).value, Symlink(target));
    case Hardlink(path, target) =>
      LeafIsFree(rules, t, at, ws, path);
      ResolvedBelongs(rules, t, at, ws, target);
      LinkKeepsTree(rules, t, at, ws, NewLeaf(rules, t, root, path).value, ResolveFile(rules, t, root, target).value);
    case SetRecords(path, records) =>
      SetKeepsTree(rules, t, at, ResolveFile(rules, t, root, path).value, after.inodes[ResolveFile(rules, t, root, path).value].node);
    case Truncate(path, length) =>
      SetKeepsTree(rules, t, at, ResolveFile(rules, t, root, path).value, after.inodes[ResolveFile(rules, t, root, path).value].node);
    case SetExecutable(path, executable) =>
      SetKeepsTree(rules, t, at, ResolveFile(rules, t, root, path).value, after.inodes[ResolveFile(rules, t, root, path).value].node);
  }

  lemma ResolvedBelongs(rules: TextRules, t: Tables, at: Places, ws: Text, path: Text)
    requires WellFormed(rules, t, at) && ws in t.workspaces && ResolvePath(rules, t, t.workspaces[ws].root, path).Ok?
    ensures Belongs(t, ws, ResolvePath(rules, t, t.workspaces[ws].root, path).value)
  {
    hide WellFormed, ValidPath, Segments, Walk;
    Root(rules, t, at, ws);
    if path != [] {
      WalkSound(rules, t, at, ws, Segments(path));
    }
  }

  lemma RenameKeepsTree(rules: TextRules, t: Tables, at: Places, ws: Text, from: Text, to: Text)
    requires WellFormed(rules, t, at) && ws in t.workspaces && ApplyMutation(rules, t, ws, Rename(from, to)).Ok?
    ensures Tree(rules, ApplyMutation(rules, t, ws, Rename(from, to)).value)
  {
    hide WellFormed, ValidPath, ValidSegment, Segments, FoldsLikeSibling, Walk, Moved;
    var root, after := t.workspaces[ws].root, ApplyMutation(rules, t, ws, Rename(from, to)).value;
    var i, target := ResolvePath(rules, t, root, from).value, NewLeaf(rules, t, root, to).value;
    var source := ParentSlot(rules, t, root, from).value;
    if from == [] {
      NoEmptyName(rules, t, at, source);
      assert after == t;
    } else {
      LeafIsFree(rules, t, at, ws, to);
      ResolvedSlot(rules, t, at, ws, from);
      if IsDir(t, i) {
        Edge(rules, t, at, source);
        if at[i] <= at[target.parent] {
          assert at[i] <= Segments(to);
          PrefixIsSubtree(from, to);
        }
      }
      MoveKeepsTree(rules, t, at, ws, source, target);
    }
  }

  lemma NoEmptyName(rules: TextRules, t: Tables, at: Places, s: Slot)
    requires WellFormed(rules, t, at) && s.name == []
    ensures s !in t.dirents
  {
    hide WellFormed;
    if s in t.dirents {
      Edge(rules, t, at, s);
    }
  }

  lemma RemoveKeepsTree(rules: TextRules, t: Tables, at: Places, ws: Text, path: Text)
    requires WellFormed(rules, t, at) && ws in t.workspaces && path != []
    requires ResolvePath(rules, t, t.workspaces[ws].root, path).Ok? && ParentSlot(rules, t, t.workspaces[ws].root, path).Ok?
    requires IsDir(t, ResolvePath(rules, t, t.workspaces[ws].root, path).value)
      ==> !HasChildren(t, ResolvePath(rules, t, t.workspaces[ws].root, path).value)
    ensures var i := ResolvePath(rules, t, t.workspaces[ws].root, path).value;
      var slot := ParentSlot(rules, t, t.workspaces[ws].root, path).value;
      Tree(rules, DropIfOrphaned(RemoveSlot(t, slot), i))
  {
    hide WellFormed, ValidPath, Segments, Walk, DropIfOrphaned, RemoveSlot;
    var i := ResolvePath(rules, t, t.workspaces[ws].root, path).value;
    ResolvedSlot(rules, t, at, ws, path);
    if HasChildren(t, i) {
      var s :| s in t.dirents && s.parent == i;
      Edge(rules, t, at, s);
    }
    UnlinkKeepsTree(rules, t, at, ParentSlot(rules, t, t.workspaces[ws].root, path).value);
  }

  lemma RmdirOfRoot(rules: TextRules, t: Tables, at: Places, ws: Text)
    requires WellFormed(rules, t, at) && ws in t.workspaces && ApplyMutation(rules, t, ws, Rmdir([])).Ok?
    ensures var after := ApplyMutation(rules, t, ws, Rmdir([])).value;
      Tree(rules, after) <==> Leased(t, t.workspaces[ws].root)
  {
    hide WellFormed, Leased, Walk;
    var root, after := t.workspaces[ws].root, ApplyMutation(rules, t, ws, Rmdir([])).value;
    var slot := Slot(root, []);
    NoEmptyName(rules, t, at, slot);
    assert RemoveSlot(t, slot) == t;
    if !Leased(t, root) {
      RootUnlinked(rules, t, at, ws);
      NoRootNoTree(rules, after, ws);
    }
  }

  lemma RootUnlinked(rules: TextRules, t: Tables, at: Places, ws: Text)
    requires WellFormed(rules, t, at) && ws in t.workspaces
    ensures !Linked(t, t.workspaces[ws].root)
  {
    hide WellFormed;
    Root(rules, t, at, ws);
    if Linked(t, t.workspaces[ws].root) {
      var s :| s in t.dirents && t.dirents[s] == t.workspaces[ws].root;
      NotARoot(rules, t, at, s);
    }
  }

  lemma NoRootNoTree(rules: TextRules, t: Tables, ws: Text)
    requires ws in t.workspaces && t.workspaces[ws].root !in t.inodes
    ensures !Tree(rules, t)
  {
    hide WellFormed;
    if Tree(rules, t) {
      var at :| WellFormed(rules, t, at);
      Root(rules, t, at, ws);
    }
  }

  /** A release keeps the tree exactly when the lease was not the last one on a root. */
  lemma ReleaseKeepsTreeIff(rules: TextRules, t: Tables, l: nat)
    requires Tree(rules, t) && l in t.leases
    ensures Tree(rules, ReleaseLease(t, l).value) <==> !LastOnRoot(t, l)
  {
    hide WellFormed, Leased;
    var at :| WellFormed(rules, t, at);
    if LastOnRoot(t, l) {
      var i := t.leases[l].inode;
      RootUnlinked(rules, t, at, t.inodes[i].workspace);
      SameLinks(t, t.(leases := t.leases - {l}));
      NoRootNoTree(rules, ReleaseLease(t, l).value, t.inodes[i].workspace);
    } else {
      ReleaseKeepsTree(rules, t, at, l);
    }
  }

  /** A batch that calls `Rmdir` on the empty path while no lease holds the root. Mutations change
      neither the leases nor the root, so this is decided before the first of them. */
  ghost predicate BatchDropsRoot(t: Tables, ws: Text, ms: seq<Mutation>)
    requires ws in t.workspaces
  {
    exists i :: 0 <= i < |ms| && DropsRoot(t, ws, ms[i])
  }

  lemma BatchStep(rules: TextRules, t: Tables, ws: Text, ms: seq<Mutation>)
    requires ws in t.workspaces && ms != [] && ApplyMutation(rules, t, ws, ms[0]).Ok?
    ensures BatchDropsRoot(t, ws, ms) <==>
      DropsRoot(t, ws, ms[0]) || BatchDropsRoot(ApplyMutation(rules, t, ws, ms[0]).value, ws, ms[1..])
  {
    hide ApplyMutation;
    var next := ApplyMutation(rules, t, ws, ms[0]).value;
    assert Leased(next, t.workspaces[ws].root) <==> Leased(t, t.workspaces[ws].root);
    hide Leased;
    forall i | 0 <= i < |ms| - 1 ensures DropsRoot(next, ws, ms[1..][i]) <==> DropsRoot(t, ws, ms[i + 1]) {}
    if i :| 0 <= i < |ms| && DropsRoot(t, ws, ms[i]) {
      assert i > 0 ==> DropsRoot(next, ws, ms[1..][i - 1]);
    }
    if i :| 0 <= i < |ms| - 1 && DropsRoot(next, ws, ms[1..][i]) {
      assert DropsRoot(t, ws, ms[i + 1]);
    }
  }

  /** On a leased root, `Rmdir` of the empty path changes nothing. */
  lemma RmdirOfLeasedRoot(rules: TextRules, t: Tables, at: Places, ws: Text)
    requires WellFormed(rules, t, at) && ws in t.workspaces && ApplyMutation(rules, t, ws, Rmdir([])).Ok?
    requires Leased(t, t.workspaces[ws].root)
    ensures ApplyMutation(rules, t, ws, Rmdir([])) == Ok(t)
  {
    hide WellFormed, Leased, Walk;
    NoEmptyName(rules, t, at, Slot(t.workspaces[ws].root, []));
    assert RemoveSlot(t, Slot(t.workspaces[ws].root, [])) == t;
  }

  lemma {:induction false} BatchKeepsTree(rules: TextRules, t: Tables, ws: Text, ms: seq<Mutation>)
    requires Tree(rules, t) && ws in t.workspaces && ApplyAll(rules, t, ws, ms).Ok? && !BatchDropsRoot(t, ws, ms)
    ensures Tree(rules, ApplyAll(rules, t, ws, ms).value)
    decreases |ms|
  {
    hide Tree, ApplyMutation, BatchDropsRoot;
    if ms != [] {
      BatchStep(rules, t, ws, ms);
      MutationKeepsTree(rules, t, ws, ms[0]);
      BatchKeepsTree(rules, ApplyMutation(rules, t, ws, ms[0]).value, ws, ms[1..]);
    }
  }

  /** The tables after the first `k` mutations of a batch are not a tree. */
  ghost predicate BrokenAfter(rules: TextRules, t: Tables, ws: Text, ms: seq<Mutation>, k: nat)
    requires ws in t.workspaces && k <= |ms|
  {
    ApplyAll(rules, t, ws, ms[..k]).Ok? && !Tree(rules, ApplyAll(rules, t, ws, ms[..k]).value)
  }

  lemma {:induction false} PrefixApplies(rules: TextRules, t: Tables, ws: Text, ms: seq<Mutation>, k: nat)
    requires ws in t.workspaces && ApplyAll(rules, t, ws, ms).Ok? && k <= |ms|
    ensures ApplyAll(rules, t, ws, ms[..k]).Ok?
    decreases |ms|
  {
    hide ApplyMutation;
    if k > 0 {
      PrefixApplies(rules, ApplyMutation(rules, t, ws, ms[0]).value, ws, ms[1..], k - 1);
      assert ms[..k][1..] == ms[1..][..k - 1];
    }
  }

  lemma {:induction false} FirstDrop(rules: TextRules, t: Tables, ws: Text, ms: seq<Mutation>) returns (k: nat)
    requires Tree(rules, t) && ws in t.workspaces && ApplyAll(rules, t, ws, ms).Ok? && BatchDropsRoot(t, ws, ms)
    ensures k <= |ms| && BrokenAfter(rules, t, ws, ms, k)
    decreases |ms|
  {
    hide Tree, ApplyMutation, DropsRoot;
    var next := ApplyMutation(rules, t, ws, ms[0]).value;
    BatchStep(rules, t, ws, ms);
    hide BatchDropsRoot;
    MutationKeepsTree(rules, t, ws, ms[0]);
    if DropsRoot(t, ws, ms[0]) {
      k := 1;
      assert ms[..1] == [ms[0]] && ms[..1][1..] == [];
      assert ApplyAll(rules, next, ws, []) == Ok(next);
    } else {
      var rest := FirstDrop(rules, next, ws, ms[1..]);
      k := rest + 1;
      assert ms[..k][1..] == ms[1..][..rest];
    }
  }

  /** An accepted batch removes the root if and only if it leaves the tree broken at some point; a
      batch that does not, keeps it to the end. */
  lemma CommitKeepsTree(rules: TextRules, t: Tables, ws: Text, ms: seq<Mutation>)
    requires Tree(rules, t) && Commit(rules, t, ws, ms).Ok?
    ensures BatchDropsRoot(t, ws, ms) <==> exists k :: 0 <= k <= |ms| && BrokenAfter(rules, t, ws, ms, k)
    ensures !BatchDropsRoot(t, ws, ms) ==> Tree(rules, Commit(rules, t, ws, ms).value)
  {
    hide WellFormed, ApplyMutation;
    if BatchDropsRoot(t, ws, ms) {
      var k := FirstDrop(rules, t, ws, ms);
    } else {
      forall k | 0 <= k <= |ms| ensures !BrokenAfter(rules, t, ws, ms, k) {
        PrefixApplies(rules, t, ws, ms, k);
        assert forall i | 0 <= i < k :: !DropsRoot(t, ws, ms[i]);
        BatchKeepsTree(rules, t, ws, ms[..k]);
      }
      BatchKeepsTree(rules, t, ws, ms);
      var next := ApplyAll(rules, t, ws, ms).value;
      var at :| WellFormed(rules, next, at);
      AdvanceKeepsTree(rules, next, at, ws);
    }
  }

  // --- two accepted calls that break it ---------------------------------------------------------

  lemma EmptyIsTree(rules: TextRules)
    ensures WellFormed(rules, EMPTY, map[])
  {
  }

  /** A new workspace accepts `Rmdir` of the empty path and loses its root. */
  lemma RmdirCanRemoveTheRoot(rules: TextRules, ws: Text)
    ensures var t := CreateWorkspace(EMPTY, ws).value;
      Tree(rules, t) && ApplyMutation(rules, t, ws, Rmdir([])).Ok? && !Tree(rules, ApplyMutation(rules, t, ws, Rmdir([])).value)
  {
    hide WellFormed;
    EmptyIsTree(rules);
    CreateKeepsTree(rules, EMPTY, map[], ws);
    MutationKeepsTree(rules, CreateWorkspace(EMPTY, ws).value, ws, Rmdir([]));
  }

  /** A lease taken on the empty path removes the root when it is released. */
  lemma ReleaseCanRemoveTheRoot(rules: TextRules, ws: Text)
    ensures var t := CreateWorkspace(EMPTY, ws).value;
      var leased := AcquireUnlinked(rules, t, ws, []);
      && leased.Ok? && NextId({}) in leased.value.leases
      && Tree(rules, leased.value) && !Tree(rules, ReleaseLease(leased.value, NextId({})).value)
  {
    hide WellFormed;
    var t := CreateWorkspace(EMPTY, ws).value;
    var leased := AcquireUnlinked(rules, t, ws, []).value;
    assert t.leases.Keys == {};
    EmptyIsTree(rules);
    CreateKeepsTree(rules, EMPTY, map[], ws);
    LeaseKeepsTree(rules, t, map[NextId(EMPTY.inodes.Keys) := []], Unlinked(ws, t.workspaces[ws].root));
    ReleaseKeepsTreeIff(rules, leased, NextId({}));
  }
}
