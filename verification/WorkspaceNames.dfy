/** What every mutation does to the names of a workspace: at each path, which inode is found
    there afterwards and what it holds. */
module WorkspaceNames {
  import opened Wrappers
  import opened Records
  import opened Paths
  import opened Workspace
  import opened WorkspaceTree

  /** The inode a path leads to, and its row. */
  ghost function Seen(t: Tables, ws: Text, p: seq<Text>): Option<(InodeId, Inode)>
    requires ws in t.workspaces
  {
    var i :- Walk(t, t.workspaces[ws].root, p);
    if i in t.inodes then Some((i, t.inodes[i])) else None
  }

  // --- what a mutation should mean, path by path ----------------------------------------------------

  ghost function WithNew(t: Tables, ws: Text, path: Text, node: Node, p: seq<Text>): Option<(InodeId, Inode)>
    requires ws in t.workspaces
  {
    if p == Segments(path) then Some((NextId(t.inodes.Keys), Inode(ws, node))) else Seen(t, ws, p)
  }

  /** Every path to inode `i` sees its new node. */
  ghost function WithNode(t: Tables, ws: Text, i: InodeId, node: Node, p: seq<Text>): Option<(InodeId, Inode)>
    requires ws in t.workspaces
  {
    var seen :- Seen(t, ws, p);
    if seen.0 == i then Some((i, seen.1.(node := node))) else Some(seen)
  }

  ghost function Without(t: Tables, ws: Text, path: Text, p: seq<Text>): Option<(InodeId, Inode)>
    requires ws in t.workspaces
  {
    if p == Segments(path) then None else Seen(t, ws, p)
  }

  /** What lay at or under `a` is found at or under `b`, and no longer at `a`. */
  ghost function Relocated(t: Tables, ws: Text, a: seq<Text>, b: seq<Text>, p: seq<Text>): Option<(InodeId, Inode)>
    requires ws in t.workspaces
  {
    if b <= p then Seen(t, ws, a + p[|b|..]) else if a <= p then None else Seen(t, ws, p)
  }

  ghost function Means(t: Tables, ws: Text, m: Mutation, p: seq<Text>): Option<(InodeId, Inode)>
    requires ws in t.workspaces
  {
    match m
    case Mkdir(path) => WithNew(t, ws, path, Dir, p)
    case CreateFile(path, executable, planner, records) => WithNew(t, ws, path, File(executable, planner, Unstamped, records), p)
    case MakeSymlink(path, target) => WithNew(t, ws, path, Symlink(target), p)
    case Hardlink(path, target) => if p == Segments(path) then Seen(t, ws, Segments(target)) else Seen(t, ws, p)
    case Unlink(path) => Without(t, ws, path, p)
    case Rmdir(path) => Without(t, ws, path, p)
    case Rename(from, to) => if from == [] then Seen(t, ws, p) else Relocated(t, ws, Segments(from), Segments(to), p)
    case SetRecords(path, records) =>
      var f := Seen(t, ws, Segments(path));
      if f.Some? && f.value.1.node.File? then WithNode(t, ws, f.value.0, f.value.1.node.(records := records), p) else None
    case SetExecutable(path, executable) =>
      var f := Seen(t, ws, Segments(path));
      if f.Some? && f.value.1.node.File? then WithNode(t, ws, f.value.0, f.value.1.node.(executable := executable), p) else None
    case Truncate(path, length) =>
      var f := Seen(t, ws, Segments(path));
      if f.Some? && f.value.1.node.File? && Truncated(f.value.1.node.records, length).Some?
      then WithNode(t, ws, f.value.0, f.value.1.node.(records := Truncated(f.value.1.node.records, length).value), p) else None
  }

  // --- walking ---------------------------------------------------------------------------------------

  lemma WalkSnoc(t: Tables, root: InodeId, q: seq<Text>, name: Text)
    ensures Walk(t, root, q + [name]) ==
      var d := Walk(t, root, q);
      if d.Some? && IsDir(t, d.value) && Slot(d.value, name) in t.dirents then Some(t.dirents[Slot(d.value, name)]) else None
  {
    assert (q + [name])[..|q|] == q;
  }

  /** A path that leads somewhere leads through a directory at each proper prefix. */
  lemma {:induction false} WalkThrough(t: Tables, root: InodeId, a: seq<Text>, p: seq<Text>)
    requires a <= p && a != p && Walk(t, root, p).Some?
    ensures Walk(t, root, a).Some? && IsDir(t, Walk(t, root, a).value)
    decreases |p|
  {
    var q, name := p[..|p| - 1], p[|p| - 1];
    assert p == q + [name];
    WalkSnoc(t, root, q, name);
    PrefixSnoc(a, q, name);
    if a != q {
      WalkThrough(t, root, a, q);
    }
  }

  // --- one more name -------------------------------------------------------------------------------------

  /** `after` is `t` with one more dirent, to a child nothing hangs from. */
  ghost predicate Added(t: Tables, after: Tables, slot: Slot, child: InodeId) {
    && after.workspaces == t.workspaces && after.dirents == t.dirents[slot := child] && slot !in t.dirents
    && (forall i | i in t.inodes :: i in after.inodes && after.inodes[i] == t.inodes[i])
    && (forall i | i in after.inodes :: i in t.inodes || i == child)
    && (forall s | s in after.dirents && s.parent == child :: !IsDir(after, child))
  }

  lemma {:induction false} AddedStays(t: Tables, after: Tables, slot: Slot, child: InodeId, root: InodeId, p: seq<Text>)
    requires Added(t, after, slot, child) && Walk(t, root, p).Some?
    ensures Walk(after, root, p) == Walk(t, root, p)
    decreases |p|
  {
    if p != [] {
      AddedStays(t, after, slot, child, root, p[..|p| - 1]);
    }
  }

  lemma {:induction false} AddedWalk(rules: TextRules, t: Tables, at: Places, after: Tables, ws: Text, slot: Slot, child: InodeId, p: seq<Text>)
    requires WellFormed(rules, t, at) && ws in t.workspaces && Added(t, after, slot, child) && slot.parent in at && Belongs(t, ws, slot.parent)
    ensures Walk(after, t.workspaces[ws].root, p)
      == if p == at[slot.parent] + [slot.name] then Some(child) else Walk(t, t.workspaces[ws].root, p)
    decreases |p|
  {
    hide WellFormed;
    var root := t.workspaces[ws].root;
    if p != [] {
      var q, name := p[..|p| - 1], p[|p| - 1];
      assert p == q + [name];
      WalkSnoc(t, root, q, name);
      WalkSnoc(after, root, q, name);
      AddedWalk(rules, t, at, after, ws, slot, child, q);
      WalkFinds(rules, t, at, slot.parent);
      Place(rules, t, at, slot.parent);
      if q == at[slot.parent] + [slot.name] {
        WalkSnoc(t, root, at[slot.parent], slot.name);
      } else if Walk(t, root, q).Some? {
        WalkSound(rules, t, at, ws, q);
      }
    }
  }

  /** A new inode, and the dirent that leads to it. */
  lemma NewIsAdded(rules: TextRules, t: Tables, at: Places, ws: Text, slot: Slot, node: Node)
    requires WellFormed(rules, t, at) && Free(rules, t, at, ws, slot)
    ensures var child := NextId(t.inodes.Keys);
      && Added(t, AddNode(t, ws, slot, node), slot, child) && child !in t.inodes
      && child in AddNode(t, ws, slot, node).inodes && AddNode(t, ws, slot, node).inodes[child] == Inode(ws, node)
  {
    hide WellFormed, NextId, ValidSegment, FoldsLikeSibling;
    var child := NextId(t.inodes.Keys);
    var after := AddNode(t, ws, slot, node);
    forall s | s in after.dirents ensures s.parent != child {
      if s in t.dirents {
        Edge(rules, t, at, s);
      }
    }
  }

  lemma LinkIsAdded(rules: TextRules, t: Tables, at: Places, ws: Text, slot: Slot, child: InodeId)
    requires Free(rules, t, at, ws, slot) && IsFile(t, child)
    ensures Added(t, t.(dirents := t.dirents[slot := child]), slot, child)
  {
    hide ValidSegment, FoldsLikeSibling;
  }

  lemma AddedSeen(rules: TextRules, t: Tables, at: Places, after: Tables, ws: Text, slot: Slot, child: InodeId, p: seq<Text>)
    requires WellFormed(rules, t, at) && ws in t.workspaces && Added(t, after, slot, child) && child in after.inodes
    requires slot.parent in at && Belongs(t, ws, slot.parent)
    ensures Seen(after, ws, p) == if p == at[slot.parent] + [slot.name] then Some((child, after.inodes[child])) else Seen(t, ws, p)
  {
    hide WellFormed, Walk;
    AddedWalk(rules, t, at, after, ws, slot, child, p);
    if Walk(t, t.workspaces[ws].root, p).Some? {
      WalkSound(rules, t, at, ws, p);
    }
  }

  // --- one node rewritten ------------------------------------------------------------------------------------

  lemma {:induction false} SetWalk(t: Tables, i: InodeId, node: Node, root: InodeId, p: seq<Text>)
    requires i in t.inodes && !t.inodes[i].node.Dir? && !node.Dir?
    ensures Walk(SetNode(t, i, node), root, p) == Walk(t, root, p)
    decreases |p|
  {
    if p != [] {
      SetWalk(t, i, node, root, p[..|p| - 1]);
    }
  }

  lemma SetSeen(t: Tables, ws: Text, i: InodeId, node: Node, p: seq<Text>)
    requires ws in t.workspaces && i in t.inodes && !t.inodes[i].node.Dir? && !node.Dir?
    ensures Seen(SetNode(t, i, node), ws, p) == WithNode(t, ws, i, node, p)
  {
    hide Walk;
    SetWalk(t, i, node, t.workspaces[ws].root, p);
  }

  // --- one name fewer ------------------------------------------------------------------------------------------

  /** The inode at `slot` may go: nothing hangs from it. */
  ghost predicate Removable(rules: TextRules, t: Tables, at: Places, ws: Text, slot: Slot) {
    && WellFormed(rules, t, at) && ws in t.workspaces && slot in t.dirents && Belongs(t, ws, slot.parent)
    && !HasChildren(t, t.dirents[slot])
  }

  /** What a removal leaves: every other dirent, and every row but perhaps the inode's own. */
  lemma RemovedShape(t: Tables, slot: Slot)
    requires slot in t.dirents && !HasChildren(t, t.dirents[slot])
    ensures var i := t.dirents[slot];
      var after := DropIfOrphaned(RemoveSlot(t, slot), i);
      && after.workspaces == t.workspaces && after.dirents == t.dirents - {slot}
      && (forall j | j in t.inodes && (j != i || Linked(RemoveSlot(t, slot), i)) :: j in after.inodes)
      && (forall j | j in after.inodes :: j in t.inodes && after.inodes[j] == t.inodes[j])
  {
    hide Linked, Leased;
    var cut := RemoveSlot(t, slot);
    assert (map s | s in cut.dirents && s.parent != t.dirents[slot] :: cut.dirents[s]) == cut.dirents;
  }

  lemma {:induction false} RemovedWalk(rules: TextRules, t: Tables, at: Places, ws: Text, slot: Slot, p: seq<Text>)
    requires Removable(rules, t, at, ws, slot)
    ensures slot.parent in at
    ensures Walk(DropIfOrphaned(RemoveSlot(t, slot), t.dirents[slot]), t.workspaces[ws].root, p)
      == if p == at[slot.parent] + [slot.name] then None else Walk(t, t.workspaces[ws].root, p)
    decreases |p|
  {
    hide WellFormed, DropIfOrphaned, Linked, ValidSegment;
    Edge(rules, t, at, slot);
    var i, root, place := t.dirents[slot], t.workspaces[ws].root, at[slot.parent] + [slot.name];
    var after := DropIfOrphaned(RemoveSlot(t, slot), i);
    RemovedShape(t, slot);
    if p != [] {
      var q, name := p[..|p| - 1], p[|p| - 1];
      assert p == q + [name];
      WalkSnoc(t, root, q, name);
      WalkSnoc(after, root, q, name);
      RemovedWalk(rules, t, at, ws, slot, q);
      WalkFinds(rules, t, at, slot.parent);
      if q == place {
        WalkSnoc(t, root, at[slot.parent], slot.name);
        assert Slot(i, name) !in t.dirents;
      } else if Walk(t, root, q).Some? {
        WalkSound(rules, t, at, ws, q);
      }
    }
  }

  lemma RemovedSeen(rules: TextRules, t: Tables, at: Places, ws: Text, slot: Slot, p: seq<Text>)
    requires Removable(rules, t, at, ws, slot)
    ensures slot.parent in at
    ensures Seen(DropIfOrphaned(RemoveSlot(t, slot), t.dirents[slot]), ws, p)
      == if p == at[slot.parent] + [slot.name] then None else Seen(t, ws, p)
  {
    hide WellFormed, DropIfOrphaned, Linked;
    var root, after := t.workspaces[ws].root, DropIfOrphaned(RemoveSlot(t, slot), t.dirents[slot]);
    RemovedWalk(rules, t, at, ws, slot, p);
    RemovedShape(t, slot);
    if p != at[slot.parent] + [slot.name] && Walk(t, root, p) == Some(t.dirents[slot]) {
      StillLinked(rules, t, at, ws, slot, p);
    }
  }

  /** An inode that another path leads to keeps a dirent. */
  lemma StillLinked(rules: TextRules, t: Tables, at: Places, ws: Text, slot: Slot, p: seq<Text>)
    requires Removable(rules, t, at, ws, slot) && slot.parent in at && p != at[slot.parent] + [slot.name]
    requires Walk(t, t.workspaces[ws].root, p) == Some(t.dirents[slot])
    ensures Linked(RemoveSlot(t, slot), t.dirents[slot])
  {
    hide WellFormed, ValidSegment;
    var root := t.workspaces[ws].root;
    if p == [] {
      WorkspaceTree.Root(rules, t, at, ws);
      Edge(rules, t, at, slot);
    } else {
      var q, name := p[..|p| - 1], p[|p| - 1];
      assert p == q + [name];
      WalkSnoc(t, root, q, name);
      WalkSound(rules, t, at, ws, q);
      var other := Slot(Walk(t, root, q).value, name);
      assert other != slot && other in RemoveSlot(t, slot).dirents;
    }
  }

  // --- a subtree moved ---------------------------------------------------------------------------------------------

  /** A move is never to below what moves. */
  lemma MoveIsOutside(rules: TextRules, t: Tables, at: Places, ws: Text, from: Slot, to: Slot)
    requires Movable(rules, t, at, ws, from, to) && ws in t.workspaces
    ensures from.parent in at && IsDir(t, from.parent) && IsDir(t, to.parent)
    ensures Walk(t, t.workspaces[ws].root, at[from.parent]) == Some(from.parent)
    ensures Walk(t, t.workspaces[ws].root, at[to.parent]) == Some(to.parent)
    ensures Walk(t, t.workspaces[ws].root, at[from.parent] + [from.name]) == Some(t.dirents[from])
    ensures !(at[from.parent] + [from.name] <= at[to.parent]) && from != to
  {
    hide WellFormed, ValidSegment, FoldsLikeSibling;
    Edge(rules, t, at, from);
    var root, a := t.workspaces[ws].root, at[from.parent] + [from.name];
    WalkFinds(rules, t, at, from.parent);
    WalkFinds(rules, t, at, to.parent);
    Place(rules, t, at, to.parent);
    WalkSnoc(t, root, at[from.parent], from.name);
    if a <= at[to.parent] && a != at[to.parent] {
      WalkThrough(t, root, a, at[to.parent]);
    }
  }

  lemma {:induction false} MovedWalk(rules: TextRules, t: Tables, at: Places, ws: Text, from: Slot, to: Slot, p: seq<Text>)
    requires Movable(rules, t, at, ws, from, to) && ws in t.workspaces && from.parent in at
    ensures var root, a, b := t.workspaces[ws].root, at[from.parent] + [from.name], at[to.parent] + [to.name];
      Walk(MoveSlot(t, from, to), root, p) == if b <= p then Walk(t, root, a + p[|b|..]) else if a <= p then None else Walk(t, root, p)
    decreases |p|
  {
    hide WellFormed, Movable, Walk;
    MovableMeans(rules, t, at, ws, from, to);
    var root, a, b := t.workspaces[ws].root, at[from.parent] + [from.name], at[to.parent] + [to.name];
    MoveIsOutside(rules, t, at, ws, from, to);
    if p == [] {
      WalkEmpty(t, root);
      WalkEmpty(MoveSlot(t, from, to), root);
    } else {
      var q, name := p[..|p| - 1], p[|p| - 1];
      assert p == q + [name];
      MovedWalk(rules, t, at, ws, from, to, q);
      WalkSnoc(MoveSlot(t, from, to), root, q, name);
      if b <= q {
        PrefixSnoc(b, q, name);
        UnderTarget(rules, t, at, ws, from, to, q, name);
      } else if b == p {
        assert q == at[to.parent] && a + p[|b|..] == a;
      } else {
        PrefixSnoc(b, q, name);
        OutsideMove(rules, t, at, ws, from, to, q, name);
      }
    }
  }

  lemma WalkEmpty(t: Tables, root: InodeId)
    ensures Walk(t, root, []) == Some(root)
  {
  }

  lemma MovableMeans(rules: TextRules, t: Tables, at: Places, ws: Text, from: Slot, to: Slot)
    requires Movable(rules, t, at, ws, from, to)
    ensures WellFormed(rules, t, at) && from in t.dirents && to.parent in at && Belongs(t, ws, from.parent) && Belongs(t, ws, to.parent)
    ensures to !in t.dirents
  {
    hide WellFormed;
  }

  /** Below the target, each step reads as it did below the source. */
  lemma UnderTarget(rules: TextRules, t: Tables, at: Places, ws: Text, from: Slot, to: Slot, q: seq<Text>, name: Text)
    requires Movable(rules, t, at, ws, from, to) && ws in t.workspaces && from.parent in at && at[to.parent] + [to.name] <= q
    requires Walk(MoveSlot(t, from, to), t.workspaces[ws].root, q)
      == Walk(t, t.workspaces[ws].root, at[from.parent] + [from.name] + q[|at[to.parent]| + 1..])
    ensures Walk(MoveSlot(t, from, to), t.workspaces[ws].root, q + [name])
      == Walk(t, t.workspaces[ws].root, at[from.parent] + [from.name] + (q + [name])[|at[to.parent]| + 1..])
  {
    hide WellFormed, Movable, Walk;
    MovableMeans(rules, t, at, ws, from, to);
    var root, a := t.workspaces[ws].root, at[from.parent] + [from.name];
    var before := a + q[|at[to.parent]| + 1..];
    MoveIsOutside(rules, t, at, ws, from, to);
    assert a + (q + [name])[|at[to.parent]| + 1..] == before + [name];
    WalkSnoc(MoveSlot(t, from, to), root, q, name);
    WalkSnoc(t, root, before, name);
    if Walk(t, root, before).Some? {
      WalkSound(rules, t, at, ws, before);
      assert a <= before && |before| >= |a| > |at[from.parent]|;
    }
  }

  /** Outside the source and the target nothing changes, and the source itself is gone. */
  lemma OutsideMove(rules: TextRules, t: Tables, at: Places, ws: Text, from: Slot, to: Slot, q: seq<Text>, name: Text)
    requires Movable(rules, t, at, ws, from, to) && ws in t.workspaces && from.parent in at
    requires !(at[to.parent] + [to.name] <= q + [name])
    requires Walk(MoveSlot(t, from, to), t.workspaces[ws].root, q)
      == if at[from.parent] + [from.name] <= q then None else Walk(t, t.workspaces[ws].root, q)
    ensures Walk(MoveSlot(t, from, to), t.workspaces[ws].root, q + [name])
      == if at[from.parent] + [from.name] <= q + [name] then None else Walk(t, t.workspaces[ws].root, q + [name])
  {
    hide WellFormed, Movable, Walk;
    var root, a := t.workspaces[ws].root, at[from.parent] + [from.name];
    MovableMeans(rules, t, at, ws, from, to);
    MoveIsOutside(rules, t, at, ws, from, to);
    WalkSnoc(MoveSlot(t, from, to), root, q, name);
    WalkSnoc(t, root, q, name);
    if a != q + [name] {
      PrefixSnoc(a, q, name);
    } else {
      assert a[..|a| - 1] == (q + [name])[..|q|] && a[..|a| - 1] == at[from.parent] && (q + [name])[..|q|] == q;
      assert a[|a| - 1] == from.name && (q + [name])[|q|] == name;
    }
    if Walk(t, root, q).Some? {
      WalkSound(rules, t, at, ws, q);
    }
  }

  lemma MovedSeen(rules: TextRules, t: Tables, at: Places, ws: Text, from: Slot, to: Slot, p: seq<Text>)
    requires Movable(rules, t, at, ws, from, to) && ws in t.workspaces && from.parent in at
    ensures to.parent in at
    ensures Seen(MoveSlot(t, from, to), ws, p) == Relocated(t, ws, at[from.parent] + [from.name], at[to.parent] + [to.name], p)
  {
    hide WellFormed, Movable, Walk;
    MovableMeans(rules, t, at, ws, from, to);
    MovedWalk(rules, t, at, ws, from, to, p);
  }

  // --- every mutation means what it says -------------------------------------------------------------------------------

  lemma NewMeans(rules: TextRules, t: Tables, at: Places, ws: Text, path: Text, node: Node, p: seq<Text>)
    requires WellFormed(rules, t, at) && ws in t.workspaces && NewLeaf(rules, t, t.workspaces[ws].root, path).Ok?
    ensures Seen(AddNode(t, ws, NewLeaf(rules, t, t.workspaces[ws].root, path).value, node), ws, p) == WithNew(t, ws, path, node, p)
  {
    hide WellFormed, NewLeaf, Segments, Walk, AddNode, Added, NextId, FoldsLikeSibling, ValidSegment;
    LeafIsFree(rules, t, at, ws, path);
    var slot := NewLeaf(rules, t, t.workspaces[ws].root, path).value;
    NewIsAdded(rules, t, at, ws, slot, node);
    AddedSeen(rules, t, at, AddNode(t, ws, slot, node), ws, slot, NextId(t.inodes.Keys), p);
  }

  lemma LinkMeans(rules: TextRules, t: Tables, at: Places, ws: Text, path: Text, target: Text, p: seq<Text>)
    requires WellFormed(rules, t, at) && ws in t.workspaces && ApplyMutation(rules, t, ws, Hardlink(path, target)).Ok?
    ensures Seen(ApplyMutation(rules, t, ws, Hardlink(path, target)).value, ws, p) == Means(t, ws, Hardlink(path, target), p)
  {
    hide WellFormed, NewLeaf, Segments, Walk, Added, FoldsLikeSibling, ValidSegment, ValidPath;
    var root := t.workspaces[ws].root;
    LeafIsFree(rules, t, at, ws, path);
    FileIsSeen(rules, t, at, ws, target);
    var slot, i := NewLeaf(rules, t, root, path).value, ResolveFile(rules, t, root, target).value;
    LinkIsAdded(rules, t, at, ws, slot, i);
    AddedSeen(rules, t, at, t.(dirents := t.dirents[slot := i]), ws, slot, i, p);
  }

  lemma FileIsSeen(rules: TextRules, t: Tables, at: Places, ws: Text, path: Text)
    requires WellFormed(rules, t, at) && ws in t.workspaces && ResolveFile(rules, t, t.workspaces[ws].root, path).Ok?
    ensures var i := ResolveFile(rules, t, t.workspaces[ws].root, path).value;
      i in t.inodes && t.inodes[i].node.File? && Seen(t, ws, Segments(path)) == Some((i, t.inodes[i]))
  {
    hide WellFormed, Segments, Walk, ValidPath;
    WorkspaceTree.Root(rules, t, at, ws);
  }

  lemma RemoveMeans(rules: TextRules, t: Tables, at: Places, ws: Text, path: Text, p: seq<Text>)
    requires WellFormed(rules, t, at) && ws in t.workspaces && path != []
    requires ResolvePath(rules, t, t.workspaces[ws].root, path).Ok? && ParentSlot(rules, t, t.workspaces[ws].root, path).Ok?
    requires IsDir(t, ResolvePath(rules, t, t.workspaces[ws].root, path).value)
      ==> !HasChildren(t, ResolvePath(rules, t, t.workspaces[ws].root, path).value)
    ensures var i := ResolvePath(rules, t, t.workspaces[ws].root, path).value;
      var slot := ParentSlot(rules, t, t.workspaces[ws].root, path).value;
      Seen(DropIfOrphaned(RemoveSlot(t, slot), i), ws, p) == Without(t, ws, path, p)
  {
    hide WellFormed, ValidPath, Segments, Walk, DropIfOrphaned, RemoveSlot, ResolvePath, ParentSlot;
    var i := ResolvePath(rules, t, t.workspaces[ws].root, path).value;
    ResolvedSlot(rules, t, at, ws, path);
    if HasChildren(t, i) {
      var s :| s in t.dirents && s.parent == i;
      Edge(rules, t, at, s);
    }
    RemovedSeen(rules, t, at, ws, ParentSlot(rules, t, t.workspaces[ws].root, path).value, p);
  }

  lemma RenameMeans(rules: TextRules, t: Tables, at: Places, ws: Text, from: Text, to: Text, p: seq<Text>)
    requires WellFormed(rules, t, at) && ws in t.workspaces && ApplyMutation(rules, t, ws, Rename(from, to)).Ok?
    ensures Seen(ApplyMutation(rules, t, ws, Rename(from, to)).value, ws, p) == Means(t, ws, Rename(from, to), p)
  {
    hide WellFormed, ValidPath, ValidSegment, Segments, FoldsLikeSibling, Walk, Relocated;
    var root := t.workspaces[ws].root;
    var i, target := ResolvePath(rules, t, root, from).value, NewLeaf(rules, t, root, to).value;
    var source := ParentSlot(rules, t, root, from).value;
    if from == [] {
      NoEmptyName(rules, t, at, source);
    } else {
      LeafIsFree(rules, t, at, ws, to);
      ResolvedSlot(rules, t, at, ws, from);
      if IsDir(t, i) {
        Edge(rules, t, at, source);
        if at[i] <= at[target.parent] {
          assert at[i] <= Segments(to);
          PrefixIsSubtree(from, to);
        }
      }
      MovedSeen(rules, t, at, ws, source, target, p);
    }
  }

  lemma SetMeans(rules: TextRules, t: Tables, at: Places, ws: Text, m: Mutation, p: seq<Text>)
    requires WellFormed(rules, t, at) && ws in t.workspaces && ApplyMutation(rules, t, ws, m).Ok?
    requires m.SetRecords? || m.Truncate? || m.SetExecutable?
    ensures Seen(ApplyMutation(rules, t, ws, m).value, ws, p) == Means(t, ws, m, p)
  {
    hide WellFormed, Segments, Walk, ValidPath, Truncated, ValidRun, ResolveFile, Seen, SetNode, WithNode;
    FileIsSeen(rules, t, at, ws, m.path);
    var i := ResolveFile(rules, t, t.workspaces[ws].root, m.path).value;
    var node := t.inodes[i].node;
    var changed := match m
      case SetRecords(_, records) => node.(records := records)
      case SetExecutable(_, executable) => node.(executable := executable)
      case Truncate(_, length) => node.(records := Truncated(node.records, length).value);
    SetSeen(t, ws, i, changed, p);
  }

  lemma NothingAtEmptyName(rules: TextRules, t: Tables, at: Places, ws: Text)
    requires WellFormed(rules, t, at) && ws in t.workspaces
    ensures Seen(t, ws, Segments([])) == None && forall p :: Without(t, ws, [], p) == Seen(t, ws, p)
  {
    hide WellFormed;
    NoEmptyName(rules, t, at, Slot(t.workspaces[ws].root, []));
    assert Segments([]) == [[]];
    WalkSnoc(t, t.workspaces[ws].root, [], []);
    assert [] + [[]] == Segments([]);
  }

  /** At every path of its workspace, an accepted mutation leaves exactly what it says: the one
      new name, the one name gone, the subtree moved, or the one inode rewritten under all of
      its names, and everything else as it was. */
  lemma MutationMeans(rules: TextRules, t: Tables, ws: Text, m: Mutation, p: seq<Text>)
    requires Tree(rules, t) && ws in t.workspaces && ApplyMutation(rules, t, ws, m).Ok? && !DropsRoot(t, ws, m)
    ensures Seen(ApplyMutation(rules, t, ws, m).value, ws, p) == Means(t, ws, m, p)
  {
    hide WellFormed, ValidPath, Segments, SplitParent, FoldsLikeSibling, NextId, Leased, HasChildren, DropIfOrphaned, Walk, ValidTarget,
      Truncated, ValidRun, AddNode, MoveSlot, NewLeaf, ParentSlot, Seen, WithNew, Without, Relocated, WithNode, ResolveFile;
    var at :| WellFormed(rules, t, at);
    match m
    case Mkdir(path) => NewMeans(rules, t, at, ws, path, Dir, p);
    case CreateFile(path, executable, planner, records) =>
      NewMeans(rules, t, at, ws, path, File(executable, planner, Unstamped, records), p);
    case MakeSymlink(path, target) => NewMeans(rules, t, at, ws, path, Symlink(target), p);
    case Hardlink(path, target) => LinkMeans(rules, t, at, ws, path, target, p);
    case Rename(from, to) => RenameMeans(rules, t, at, ws, from, to, p);
    case Unlink(path) =>
      WorkspaceTree.Root(rules, t, at, ws);
      RemoveMeans(rules, t, at, ws, path, p);
    case Rmdir(path) =>
      if path == [] {
        RmdirOfLeasedRoot(rules, t, at, ws);
        NothingAtEmptyName(rules, t, at, ws);
      } else {
        RemoveMeans(rules, t, at, ws, path, p);
      }
    case _ => SetMeans(rules, t, at, ws, m, p);
  }
}
