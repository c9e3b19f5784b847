/** The stack walk that stages a committed tree: it ends, and it emits every path once. */
module WorkspaceStage {
  import opened Wrappers
  import opened Paths
  import opened Workspace
  import opened WorkspaceTree

  datatype Staged = Staged(path: Text, inode: InodeId)

  /** `prefix/name`, or `name` at the root. */
  function Extend(prefix: Text, name: Text): Text { if prefix == [] then name else prefix + [SLASH] + name }

  // --- paths of places --------------------------------------------------------------------------

  ghost predicate Clean(segments: seq<Text>) { forall k | 0 <= k < |segments| :: SLASH !in segments[k] && segments[k] != [] }

  lemma {:induction false} PlaceIsClean(rules: TextRules, t: Tables, at: Places, i: InodeId)
    requires WellFormed(rules, t, at) && i in at
    ensures Clean(at[i])
    decreases |at[i]|
  {
    hide WellFormed;
    Place(rules, t, at, i);
    if at[i] != [] {
      var s :| s in t.dirents && t.dirents[s] == i;
      Edge(rules, t, at, s);
      PlaceIsClean(rules, t, at, s.parent);
    }
  }

  ghost function PlaceText(segments: seq<Text>): Text { if segments == [] then [] else Join(segments) }

  ghost function SlotSegments(at: Places, s: Slot): seq<Text>
    requires s.parent in at
  {
    at[s.parent] + [s.name]
  }

  lemma JoinNonEmpty(segments: seq<Text>)
    requires segments != [] && Clean(segments)
    ensures Join(segments) != []
  {
    assert segments[0] != [];
  }

  lemma ExtendIsJoin(segments: seq<Text>, name: Text)
    requires Clean(segments)
    ensures Extend(PlaceText(segments), name) == Join(segments + [name])
  {
    var all := segments + [name];
    assert all[..|all| - 1] == segments;
    if segments != [] {
      JoinNonEmpty(segments);
    }
  }

  // --- what a staged sequence of dirents means -----------------------------------------------------

  ghost predicate InWorkspace(t: Tables, ws: Text, s: Slot) { s in t.dirents && Belongs(t, ws, s.parent) }

  ghost predicate Distinct<T(!new)>(s: seq<T>) { forall i, j | 0 <= i < j < |s| :: s[i] != s[j] }

  /** Entry `k` is dirent `slots[k]`, by its full path. */
  ghost predicate Reflects(rules: TextRules, t: Tables, at: Places, ws: Text, staged: seq<Staged>, slots: seq<Slot>) {
    && |staged| == |slots| && Distinct(slots)
    && forall k | 0 <= k < |slots| :: EntryOk(t, at, ws, staged[k], slots[k])
  }

  ghost predicate EntryOk(t: Tables, at: Places, ws: Text, entry: Staged, s: Slot) {
    && InWorkspace(t, ws, s) && s.parent in at
    && entry.path == Join(SlotSegments(at, s)) && entry.inode == t.dirents[s]
  }

  lemma EntryResolves(rules: TextRules, t: Tables, at: Places, ws: Text, entry: Staged, s: Slot)
    requires WellFormed(rules, t, at) && ws in t.workspaces && EntryOk(t, at, ws, entry, s)
    ensures Segments(entry.path) == SlotSegments(at, s)
    ensures Walk(t, t.workspaces[ws].root, Segments(entry.path)) == Some(entry.inode)
  {
    hide WellFormed, ValidSegment, Segments;
    Edge(rules, t, at, s);
    PlaceIsClean(rules, t, at, s.parent);
    WalkFinds(rules, t, at, s.parent);
    var all := SlotSegments(at, s);
    assert all[..|all| - 1] == at[s.parent] && all[|all| - 1] == s.name;
    SegmentsJoin(all);
  }

  /** Distinct dirents have distinct paths. */
  lemma SamePathSameSlot(rules: TextRules, t: Tables, at: Places, ws: Text, a: Staged, b: Staged, s: Slot, u: Slot)
    requires WellFormed(rules, t, at) && ws in t.workspaces
    requires EntryOk(t, at, ws, a, s) && EntryOk(t, at, ws, b, u) && a.path == b.path
    ensures s == u
  {
    hide WellFormed, Segments, Walk;
    EntryResolves(rules, t, at, ws, a, s);
    EntryResolves(rules, t, at, ws, b, u);
    var all := SlotSegments(at, s);
    assert all[..|all| - 1] == at[s.parent] && all[|all| - 1] == s.name;
    assert all[..|all| - 1] == at[u.parent] && all[|all| - 1] == u.name;
    PlacesUnique(rules, t, at, s.parent, u.parent);
  }

  /** A walk that arrives through a last segment arrives through a dirent. */
  lemma WalkedSlot(rules: TextRules, t: Tables, at: Places, ws: Text, segments: seq<Text>)
    requires WellFormed(rules, t, at) && ws in t.workspaces && segments != []
    requires Walk(t, t.workspaces[ws].root, segments).Some?
    ensures exists s :: InWorkspace(t, ws, s) && s.parent in at && SlotSegments(at, s) == segments && Walk(t, t.workspaces[ws].root, segments) == Some(t.dirents[s])
  {
    hide WellFormed;
    var init, name := segments[..|segments| - 1], segments[|segments| - 1];
    WalkSound(rules, t, at, ws, init);
    var parent := Walk(t, t.workspaces[ws].root, init).value;
    assert segments == init + [name];
    assert InWorkspace(t, ws, Slot(parent, name));
  }

  // --- the walk ---------------------------------------------------------------------------------------

  datatype Visit = Visit(inode: InodeId, prefix: Text)

  ghost predicate VisitOk(t: Tables, at: Places, ws: Text, v: Visit) {
    v.inode in at && Belongs(t, ws, v.inode) && v.prefix == PlaceText(at[v.inode])
  }

  ghost predicate OnStack(stack: seq<Visit>, i: InodeId) { exists k :: 0 <= k < |stack| && stack[k].inode == i }

  /** The stack holds distinct directories of the workspace, none of them done. */
  ghost predicate StackOk(t: Tables, at: Places, ws: Text, stack: seq<Visit>, done: set<InodeId>) {
    && (forall k | 0 <= k < |stack| :: VisitOk(t, at, ws, stack[k]) && stack[k].inode !in done)
    && (forall j, k | 0 <= j < k < |stack| :: stack[j].inode != stack[k].inode)
  }

  ghost predicate Reached(stack: seq<Visit>, done: set<InodeId>, i: InodeId) { OnStack(stack, i) || i in done }

  ghost predicate LedTo(t: Tables, slots: seq<Slot>, i: InodeId) { exists s :: s in slots && s in t.dirents && t.dirents[s] == i }

  /** A directory is reached exactly when it is the root or a dirent that leads to it has been emitted. */
  ghost predicate Frontier(t: Tables, stack: seq<Visit>, done: set<InodeId>, slots: seq<Slot>, root: InodeId) {
    && Reached(stack, done, root)
    && (forall i | IsDir(t, i) && LedTo(t, slots, i) :: Reached(stack, done, i))
    && (forall i | Reached(stack, done, i) && i != root :: LedTo(t, slots, i))
  }

  lemma FrontierPop(t: Tables, stack: seq<Visit>, done: set<InodeId>, slots: seq<Slot>, root: InodeId)
    requires stack != [] && Frontier(t, stack, done, slots, root)
    ensures Frontier(t, stack[..|stack| - 1], done + {stack[|stack| - 1].inode}, slots, root)
  {
    hide LedTo;
    var rest, more := stack[..|stack| - 1], done + {stack[|stack| - 1].inode};
    forall i ensures Reached(stack, done, i) <==> Reached(rest, more, i) {
      if OnStack(stack, i) {
        var k :| 0 <= k < |stack| && stack[k].inode == i;
        assert k < |rest| ==> rest[k].inode == i;
      }
      if OnStack(rest, i) {
        var k :| 0 <= k < |rest| && rest[k].inode == i;
        assert stack[k].inode == i;
      }
    }
  }

  /** Emitting a dirent, and pushing its child when that is a directory, keeps the frontier. */
  lemma FrontierEmit(t: Tables, stack: seq<Visit>, done: set<InodeId>, slots: seq<Slot>, root: InodeId, s: Slot, path: Text)
    requires Frontier(t, stack, done, slots, root) && s in t.dirents
    ensures var next := if IsDir(t, t.dirents[s]) then stack + [Visit(t.dirents[s], path)] else stack;
      Frontier(t, next, done, slots + [s], root)
  {
    var child := t.dirents[s];
    var next, more := if IsDir(t, child) then stack + [Visit(child, path)] else stack, slots + [s];
    forall i ensures LedTo(t, more, i) <==> LedTo(t, slots, i) || i == child {
      assert s in more && forall u | u in slots :: u in more;
    }
    forall i ensures Reached(next, done, i) <==> Reached(stack, done, i) || (IsDir(t, child) && i == child) {
      PushReaches(stack, Visit(child, path), done, i);
    }
  }

  lemma PushReaches(stack: seq<Visit>, v: Visit, done: set<InodeId>, i: InodeId)
    ensures Reached(stack + [v], done, i) <==> Reached(stack, done, i) || i == v.inode
  {
    var next := stack + [v];
    assert next[|stack|] == v;
    if OnStack(stack, i) {
      var k :| 0 <= k < |stack| && stack[k].inode == i;
      assert next[k].inode == i;
    }
  }

  /** A directory whose dirent is still to be emitted has not been reached. */
  lemma NotYetReached(rules: TextRules, t: Tables, at: Places, stack: seq<Visit>, done: set<InodeId>, slots: seq<Slot>, root: InodeId, s: Slot)
    requires WellFormed(rules, t, at) && IsRoot(t, root) && Frontier(t, stack, done, slots, root)
    requires s in t.dirents && s !in slots && IsDir(t, t.dirents[s])
    ensures !Reached(stack, done, t.dirents[s])
  {
    hide WellFormed, Reached;
    var child := t.dirents[s];
    NotARoot(rules, t, at, s);
    if Reached(stack, done, child) {
      var u :| u in slots && u in t.dirents && t.dirents[u] == child;
      OneLink(rules, t, at, s, u);
    }
  }

  lemma EntryIsOk(rules: TextRules, t: Tables, at: Places, ws: Text, v: Visit, s: Slot)
    requires WellFormed(rules, t, at) && VisitOk(t, at, ws, v) && s in t.dirents && s.parent == v.inode
    ensures EntryOk(t, at, ws, Staged(Extend(v.prefix, s.name), t.dirents[s]), s)
    ensures IsDir(t, t.dirents[s]) ==> VisitOk(t, at, ws, Visit(t.dirents[s], Extend(v.prefix, s.name)))
  {
    hide WellFormed, ValidSegment, Join;
    Edge(rules, t, at, s);
    PlaceIsClean(rules, t, at, v.inode);
    ExtendIsJoin(at[v.inode], s.name);
  }

  lemma {:induction false} AllDone(rules: TextRules, t: Tables, at: Places, ws: Text, done: set<InodeId>, slots: seq<Slot>, i: InodeId)
    requires WellFormed(rules, t, at) && ws in t.workspaces && Frontier(t, [], done, slots, t.workspaces[ws].root)
    requires forall s | InWorkspace(t, ws, s) :: s in slots <==> s.parent in done
    requires i in at && Belongs(t, ws, i)
    ensures i in done
    decreases |at[i]|
  {
    hide WellFormed, ValidSegment;
    Place(rules, t, at, i);
    if at[i] != [] {
      var s :| s in t.dirents && t.dirents[s] == i;
      Edge(rules, t, at, s);
      AllDone(rules, t, at, ws, done, slots, s.parent);
      assert InWorkspace(t, ws, s);
      assert LedTo(t, slots, i);
    }
  }

  /** Every entry a finished walk holds, and every path it should hold. */
  lemma Complete(rules: TextRules, t: Tables, at: Places, ws: Text, staged: seq<Staged>, slots: seq<Slot>, segments: seq<Text>)
    requires WellFormed(rules, t, at) && ws in t.workspaces && Reflects(rules, t, at, ws, staged, slots)
    requires forall s | InWorkspace(t, ws, s) :: s in slots
    requires segments != [] && Walk(t, t.workspaces[ws].root, segments).Some?
    ensures Staged(Join(segments), Walk(t, t.workspaces[ws].root, segments).value) in staged
  {
    hide WellFormed, Walk, Join;
    WalkedSlot(rules, t, at, ws, segments);
    var s :| InWorkspace(t, ws, s) && s.parent in at && SlotSegments(at, s) == segments
      && Walk(t, t.workspaces[ws].root, segments) == Some(t.dirents[s]);
    var k :| 0 <= k < |slots| && slots[k] == s;
    assert EntryOk(t, at, ws, staged[k], slots[k]);
  }

  /** The path's parent, if it has one, was staged as a directory. */
  ghost predicate ParentStaged(t: Tables, staged: seq<Staged>, path: Text) {
    SplitParent(path).0.Some? ==>
      exists k :: 0 <= k < |staged| && staged[k].path == SplitParent(path).0.value && IsDir(t, staged[k].inode)
  }

  lemma ParentIsStaged(rules: TextRules, t: Tables, at: Places, ws: Text, staged: seq<Staged>, slots: seq<Slot>, k: nat)
    requires WellFormed(rules, t, at) && ws in t.workspaces && Reflects(rules, t, at, ws, staged, slots)
    requires (forall s | InWorkspace(t, ws, s) :: s in slots) && k < |staged|
    ensures ParentStaged(t, staged, staged[k].path)
  {
    hide WellFormed, Join, SplitParent, ValidSegment, Segments;
    var root, path, s := t.workspaces[ws].root, staged[k].path, slots[k];
    assert EntryOk(t, at, ws, staged[k], s);
    if SplitParent(path).0.Some? {
      EntryResolves(rules, t, at, ws, staged[k], s);
      WalkFinds(rules, t, at, s.parent);
      Edge(rules, t, at, s);
      ParentSegments(path);
      var init := Segments(SplitParent(path).0.value);
      assert SlotSegments(at, s)[..|SlotSegments(at, s)| - 1] == at[s.parent];
      Complete(rules, t, at, ws, staged, slots, init);
      JoinSegments(SplitParent(path).0.value);
      var j :| 0 <= j < |staged| && staged[j] == Staged(Join(init), s.parent);
    }
  }

  lemma ParentSegments(path: Text)
    requires SplitParent(path).0.Some?
    ensures Segments(SplitParent(path).0.value) == Segments(path)[..|Segments(path)| - 1]
  {
  }

  /** Walks the dirent graph from the root with an explicit stack. */
  method StageTree(rules: TextRules, t: Tables, ws: Text) returns (staged: seq<Staged>)
    requires Tree(rules, t) && ws in t.workspaces
    ensures forall k | 0 <= k < |staged| :: Walk(t, t.workspaces[ws].root, Segments(staged[k].path)) == Some(staged[k].inode)
    ensures forall segments: seq<Text> | segments != [] && Walk(t, t.workspaces[ws].root, segments).Some? ::
      Staged(Join(segments), Walk(t, t.workspaces[ws].root, segments).value) in staged
    ensures forall j, k | 0 <= j < k < |staged| :: staged[j].path != staged[k].path
    ensures forall k | 0 <= k < |staged| :: ParentStaged(t, staged, staged[k].path)
  {
    hide WellFormed, Segments, Walk, ValidSegment, Join, Frontier, StackOk, EntryOk, ParentStaged, SplitParent;
    ghost var at :| WellFormed(rules, t, at);
    var root := t.workspaces[ws].root;
    var stack := [Visit(root, [])];
    ghost var slots: seq<Slot>, done: set<InodeId> := [], {};
    staged := [];
    WalkStart(rules, t, at, ws);
    while stack != []
      invariant Reflects(rules, t, at, ws, staged, slots)
      invariant StackOk(t, at, ws, stack, done) && Frontier(t, stack, done, slots, root)
      invariant forall s | InWorkspace(t, ws, s) :: s in slots <==> s.parent in done
      decreases at.Keys - done
    {
      var v := stack[|stack| - 1];
      StackPop(t, at, ws, stack, done);
      FrontierPop(t, stack, done, slots, root);
      stack := stack[..|stack| - 1];
      ghost var before := done;
      done := done + {v.inode};
      var rows := set s | s in t.dirents && s.parent == v.inode;
      while rows != {}
        invariant forall s | s in rows :: s in t.dirents && s.parent == v.inode
        invariant Reflects(rules, t, at, ws, staged, slots)
        invariant StackOk(t, at, ws, stack, done) && Frontier(t, stack, done, slots, root)
        invariant forall s | InWorkspace(t, ws, s) :: s in slots <==> s.parent in done && s !in rows
        decreases |rows|
      {
        var s :| s in rows;
        var path, child := Extend(v.prefix, s.name), t.dirents[s];
        EntryIsOk(rules, t, at, ws, v, s);
        FrontierEmit(t, stack, done, slots, root, s, path);
        assert InWorkspace(t, ws, s);
        if IsDir(t, child) {
          RootIsRoot(rules, t, at, ws);
          NotYetReached(rules, t, at, stack, done, slots, root, s);
          StackPush(t, at, ws, stack, done, Visit(child, path));
          stack := stack + [Visit(child, path)];
        }
        staged, slots := staged + [Staged(path, child)], slots + [s];
        rows := rows - {s};
      }
    }
    forall s | InWorkspace(t, ws, s) ensures s in slots {
      Edge(rules, t, at, s);
      AllDone(rules, t, at, ws, done, slots, s.parent);
    }
    WalkEnd(rules, t, at, ws, staged, slots);
  }

  lemma RootIsRoot(rules: TextRules, t: Tables, at: Places, ws: Text)
    requires WellFormed(rules, t, at) && ws in t.workspaces
    ensures IsRoot(t, t.workspaces[ws].root)
  {
    Root(rules, t, at, ws);
  }

  lemma WalkStart(rules: TextRules, t: Tables, at: Places, ws: Text)
    requires WellFormed(rules, t, at) && ws in t.workspaces
    ensures var stack := [Visit(t.workspaces[ws].root, [])];
      StackOk(t, at, ws, stack, {}) && Frontier(t, stack, {}, [], t.workspaces[ws].root)
  {
    hide WellFormed;
    Root(rules, t, at, ws);
    var root := t.workspaces[ws].root;
    var stack := [Visit(root, [])];
    assert stack[0].inode == root;
  }

  lemma StackPop(t: Tables, at: Places, ws: Text, stack: seq<Visit>, done: set<InodeId>)
    requires stack != [] && StackOk(t, at, ws, stack, done)
    ensures var v := stack[|stack| - 1];
      VisitOk(t, at, ws, v) && v.inode !in done && StackOk(t, at, ws, stack[..|stack| - 1], done + {v.inode})
  {
    hide VisitOk;
  }

  lemma StackPush(t: Tables, at: Places, ws: Text, stack: seq<Visit>, done: set<InodeId>, v: Visit)
    requires StackOk(t, at, ws, stack, done) && VisitOk(t, at, ws, v) && !Reached(stack, done, v.inode)
    ensures StackOk(t, at, ws, stack + [v], done)
  {
    hide VisitOk;
    forall k | 0 <= k < |stack| ensures stack[k].inode != v.inode {}
  }

  lemma WalkEnd(rules: TextRules, t: Tables, at: Places, ws: Text, staged: seq<Staged>, slots: seq<Slot>)
    requires WellFormed(rules, t, at) && ws in t.workspaces && Reflects(rules, t, at, ws, staged, slots)
    requires forall s | InWorkspace(t, ws, s) :: s in slots
    ensures forall k | 0 <= k < |staged| :: Walk(t, t.workspaces[ws].root, Segments(staged[k].path)) == Some(staged[k].inode)
    ensures forall segments: seq<Text> | segments != [] && Walk(t, t.workspaces[ws].root, segments).Some? ::
      Staged(Join(segments), Walk(t, t.workspaces[ws].root, segments).value) in staged
    ensures forall j, k | 0 <= j < k < |staged| :: staged[j].path != staged[k].path
    ensures forall k | 0 <= k < |staged| :: ParentStaged(t, staged, staged[k].path)
  {
    hide WellFormed, Segments, Walk, Join, EntryOk, ParentStaged, SplitParent, InWorkspace;
    forall k | 0 <= k < |staged|
      ensures Walk(t, t.workspaces[ws].root, Segments(staged[k].path)) == Some(staged[k].inode)
      ensures ParentStaged(t, staged, staged[k].path)
    {
      EntryResolves(rules, t, at, ws, staged[k], slots[k]);
      ParentIsStaged(rules, t, at, ws, staged, slots, k);
    }
    forall segments: seq<Text> | segments != [] && Walk(t, t.workspaces[ws].root, segments).Some?
      ensures Staged(Join(segments), Walk(t, t.workspaces[ws].root, segments).value) in staged
    {
      Complete(rules, t, at, ws, staged, slots, segments);
    }
    forall j, k | 0 <= j < k < |staged| ensures staged[j].path != staged[k].path {
      if staged[j].path == staged[k].path {
        SamePathSameSlot(rules, t, at, ws, staged[j], staged[k], slots[j], slots[k]);
      }
    }
  }
}
