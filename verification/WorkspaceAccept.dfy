/** When a mutation is accepted: for each one a condition on the paths of the tree and the path
    rules, and from them when a whole batch commits. */
module WorkspaceAccept {
  import opened Wrappers
  import opened Records
  import opened Paths
  import opened Workspace
  import opened WorkspaceTree
  import opened WorkspaceNames

  /** The path and the directory part of it satisfy the path rules. */
  ghost predicate WellNamed(rules: TextRules, path: Text) {
    ValidPath(rules, path) && (SplitParent(path).0.Some? ==> ValidPath(rules, SplitParent(path).0.value))
  }

  ghost function Above(path: Text): seq<Text> { Segments(path)[..|Segments(path)| - 1] }

  ghost function LastName(path: Text): Text { Segments(path)[|Segments(path)| - 1] }

  ghost predicate SeenDir(t: Tables, ws: Text, p: seq<Text>)
    requires ws in t.workspaces
  {
    Seen(t, ws, p).Some? && Seen(t, ws, p).value.1.node.Dir?
  }

  /** A new name may go here: a well-named path in a directory that is seen, where no name folds like it. */
  ghost predicate Vacant(rules: TextRules, t: Tables, ws: Text, path: Text)
    requires ws in t.workspaces
  {
    && WellNamed(rules, path) && SeenDir(t, ws, Above(path))
    && forall name | Seen(t, ws, Above(path) + [name]).Some? :: rules.fold(name) != rules.fold(LastName(path))
  }

  ghost predicate HoldsFile(rules: TextRules, t: Tables, ws: Text, path: Text)
    requires ws in t.workspaces
  {
    ValidPath(rules, path) && Seen(t, ws, Segments(path)).Some? && Seen(t, ws, Segments(path)).value.1.node.File?
  }

  ghost predicate Empty(t: Tables, ws: Text, p: seq<Text>)
    requires ws in t.workspaces
  {
    forall name :: Seen(t, ws, p + [name]).None?
  }

  /** When each mutation is accepted. The empty path is the root: it is a directory that is always
      there, and renaming it moves nothing. */
  ghost predicate Allowed(rules: TextRules, t: Tables, ws: Text, m: Mutation)
    requires ws in t.workspaces
  {
    match m
    case Mkdir(path) => Vacant(rules, t, ws, path)
    case CreateFile(path, _, _, _) => Vacant(rules, t, ws, path)
    case MakeSymlink(path, target) => ValidTarget(rules, target) && Vacant(rules, t, ws, path)
    case Hardlink(path, target) => HoldsFile(rules, t, ws, target) && Vacant(rules, t, ws, path)
    case SetRecords(path, _) => HoldsFile(rules, t, ws, path)
    case SetExecutable(path, _) => HoldsFile(rules, t, ws, path)
    case Truncate(path, length) => HoldsFile(rules, t, ws, path) && Truncatable(Seen(t, ws, Segments(path)).value.1.node.records, length)
    case Unlink(path) => WellNamed(rules, path) && Seen(t, ws, Segments(path)).Some? && !SeenDir(t, ws, Segments(path))
    case Rmdir(path) =>
      if path == [] then Empty(t, ws, [])
      else WellNamed(rules, path) && SeenDir(t, ws, Segments(path)) && Empty(t, ws, Segments(path))
    case Rename(from, to) =>
      && Vacant(rules, t, ws, to)
      && (from != [] ==>
            && WellNamed(rules, from) && Seen(t, ws, Segments(from)).Some?
            && !(SeenDir(t, ws, Segments(from)) && Segments(from) <= Segments(to)))
  }

  /** The cut falls between records or in a hole, and the run that results is a valid one. */
  ghost predicate Truncatable(records: seq<FileRecord>, length: nat) {
    Truncated(records, length).Some? && ValidRun(Truncated(records, length).value, length)
  }

  lemma {:induction false} KeptLength(records: seq<FileRecord>, length: nat)
    requires PositiveLengths(records) && KeepUpTo(records, length).Some?
    ensures |KeepUpTo(records, length).value| <= |records|
    ensures length >= Total(records) ==> KeepUpTo(records, length).value == records
  {
    if records != [] && length != 0 && records[0].length <= length {
      KeptLength(records[1..], length - records[0].length);
      assert records == [records[0]] + records[1..];
    }
  }

  /** A file's run is truncated exactly when the cut is not inside a data record, the length fits in
      64 bits, and growing does not need a record past the limit. */
  lemma TruncatableIff(records: seq<FileRecord>, length: nat)
    requires ValidRun(records, Total(records))
    ensures Truncatable(records, length) <==>
      && !CutsData(records, length) && length < U64
      && !(length > Total(records) && |records| == MAX_FILE_RECORDS && records[|records| - 1].Data?)
  {
    hide CutsData, Total, KeepUpTo;
    KeepRefusesExactlyInsideData(records, length);
    if KeepUpTo(records, length).Some? {
      var kept := KeepUpTo(records, length).value;
      KeptLength(records, length);
      KeptShape(records, length);
      KeptTotal(records, length);
      GrownIsValid(kept, length - Total(kept));
      GrownTotal(kept, length - Total(kept));
    }
  }

  lemma {:induction false} KeptTotal(records: seq<FileRecord>, length: nat)
    requires KeepUpTo(records, length).Some?
    ensures Total(KeepUpTo(records, length).value) == if length <= Total(records) then length else Total(records)
  {
    if records != [] && length != 0 && records[0].length <= length {
      KeptTotal(records[1..], length - records[0].length);
      var rest := KeepUpTo(records[1..], length - records[0].length).value;
      assert ([records[0]] + rest)[1..] == rest;
    }
  }

  lemma GrownTotal(kept: seq<FileRecord>, missing: nat)
    ensures Total(Grown(kept, missing)) == Total(kept) + missing
  {
    hide Total;
    if missing > 0 {
      var n := |kept| - 1;
      if EndsInHole(kept) {
        assert kept == kept[..n] + [kept[n]];
        TotalAppend(kept[..n], [kept[n]]);
        TotalAppend(kept[..n], [Hole(kept[n].length + missing)]);
        OneTotal([kept[n]]);
        OneTotal([Hole(kept[n].length + missing)]);
      } else {
        TotalAppend(kept, [Hole(missing)]);
        OneTotal([Hole(missing)]);
      }
    }
  }

  // --- the conditions are what the code tests ---------------------------------------------------------

  lemma SplitIsLast(path: Text)
    ensures var (parent, name) := SplitParent(path);
      LastName(path) == name && Above(path) == (if parent.Some? then Segments(parent.value) else [])
  {
  }

  /** Resolving is seeing. */
  lemma ResolvedIsSeen(rules: TextRules, t: Tables, at: Places, ws: Text, path: Text)
    requires WellFormed(rules, t, at) && ws in t.workspaces && path != []
    ensures var r := ResolvePath(rules, t, t.workspaces[ws].root, path);
      && (r.Ok? <==> ValidPath(rules, path) && Seen(t, ws, Segments(path)).Some?)
      && (r.Ok? ==> Seen(t, ws, Segments(path)).value.0 == r.value && r.value in t.inodes && Seen(t, ws, Segments(path)).value.1 == t.inodes[r.value])
  {
    hide WellFormed, ValidPath, Segments, Walk;
    if Walk(t, t.workspaces[ws].root, Segments(path)).Some? { WalkSound(rules, t, at, ws, Segments(path)); }
  }

  lemma RootIsSeen(rules: TextRules, t: Tables, at: Places, ws: Text)
    requires WellFormed(rules, t, at) && ws in t.workspaces
    ensures SeenDir(t, ws, []) && Seen(t, ws, []).value.0 == t.workspaces[ws].root && IsDir(t, t.workspaces[ws].root)
  {
    hide WellFormed;
    Root(rules, t, at, ws);
  }

  /** A name under a directory is seen exactly when the directory has a dirent for it. */
  lemma ChildIsSeen(rules: TextRules, t: Tables, at: Places, ws: Text, p: seq<Text>, name: Text)
    requires WellFormed(rules, t, at) && ws in t.workspaces && SeenDir(t, ws, p)
    ensures Seen(t, ws, p + [name]).Some? <==> Slot(Seen(t, ws, p).value.0, name) in t.dirents
  {
    hide WellFormed, Walk;
    var root := t.workspaces[ws].root;
    WalkSnoc(t, root, p, name);
    if Walk(t, root, p + [name]).Some? { WalkSound(rules, t, at, ws, p + [name]); }
  }

  lemma ChildlessIsEmpty(rules: TextRules, t: Tables, at: Places, ws: Text, p: seq<Text>)
    requires WellFormed(rules, t, at) && ws in t.workspaces && SeenDir(t, ws, p)
    ensures HasChildren(t, Seen(t, ws, p).value.0) <==> !Empty(t, ws, p)
  {
    hide WellFormed, Seen;
    forall name ensures Seen(t, ws, p + [name]).Some? <==> Slot(Seen(t, ws, p).value.0, name) in t.dirents {
      ChildIsSeen(rules, t, at, ws, p, name);
    }
    if s :| s in t.dirents && s.parent == Seen(t, ws, p).value.0 {
      assert s == Slot(Seen(t, ws, p).value.0, s.name);
    }
  }

  lemma SiblingsFold(rules: TextRules, t: Tables, at: Places, ws: Text, p: seq<Text>, name: Text)
    requires WellFormed(rules, t, at) && ws in t.workspaces && SeenDir(t, ws, p)
    ensures (Slot(Seen(t, ws, p).value.0, name) in t.dirents || FoldsLikeSibling(rules, t, Slot(Seen(t, ws, p).value.0, name)))
      <==> !forall other | Seen(t, ws, p + [other]).Some? :: rules.fold(other) != rules.fold(name)
  {
    hide WellFormed, Seen;
    forall other ensures Seen(t, ws, p + [other]).Some? <==> Slot(Seen(t, ws, p).value.0, other) in t.dirents {
      ChildIsSeen(rules, t, at, ws, p, other);
    }
    if s :| s in t.dirents && s.parent == Seen(t, ws, p).value.0 && rules.fold(s.name) == rules.fold(name) {
      assert s == Slot(Seen(t, ws, p).value.0, s.name) && Seen(t, ws, p + [s.name]).Some?;
    }
  }

  /** Finding the parent slot of a path. */
  lemma ParentIsSeen(rules: TextRules, t: Tables, at: Places, ws: Text, path: Text)
    requires WellFormed(rules, t, at) && ws in t.workspaces && ValidPath(rules, path)
    ensures var r := ParentSlot(rules, t, t.workspaces[ws].root, path);
      && (r.Ok? <==> WellNamed(rules, path) && Seen(t, ws, Above(path)).Some?)
      && (r.Ok? ==> r.value == Slot(Seen(t, ws, Above(path)).value.0, LastName(path)))
      && (r.Ok? ==> (IsDir(t, r.value.parent) <==> SeenDir(t, ws, Above(path))))
  {
    hide WellFormed, ValidPath, Segments, Walk, SplitParent, Seen;
    SplitIsLast(path);
    RootIsSeen(rules, t, at, ws);
    var parent := SplitParent(path).0;
    if parent.Some? {
      NoLeadingSlash(rules, path);
      ResolvedIsSeen(rules, t, at, ws, parent.value);
    }
  }

  lemma NewLeafIff(rules: TextRules, t: Tables, at: Places, ws: Text, path: Text)
    requires WellFormed(rules, t, at) && ws in t.workspaces
    ensures NewLeaf(rules, t, t.workspaces[ws].root, path).Ok? <==> Vacant(rules, t, ws, path)
  {
    hide WellFormed, ValidPath, Segments, Walk, SplitParent, Seen, ParentSlot, FoldsLikeSibling, Above, LastName;
    if ValidPath(rules, path) {
      ParentIsSeen(rules, t, at, ws, path);
      if SeenDir(t, ws, Above(path)) { SiblingsFold(rules, t, at, ws, Above(path), LastName(path)); }
    }
  }

  lemma ResolveFileIff(rules: TextRules, t: Tables, at: Places, ws: Text, path: Text)
    requires WellFormed(rules, t, at) && ws in t.workspaces
    ensures var r := ResolveFile(rules, t, t.workspaces[ws].root, path);
      && (r.Ok? <==> HoldsFile(rules, t, ws, path))
      && (r.Ok? ==> t.inodes[r.value] == Seen(t, ws, Segments(path)).value.1)
  {
    hide WellFormed, Segments, Walk, Seen;
    if path == [] {
      RootIsSeen(rules, t, at, ws);
    } else {
      hide ValidPath;
      ResolvedIsSeen(rules, t, at, ws, path);
    }
  }

  /** A path that is seen has a seen directory above it. */
  lemma SeenAbove(rules: TextRules, t: Tables, at: Places, ws: Text, path: Text)
    requires WellFormed(rules, t, at) && ws in t.workspaces && Seen(t, ws, Segments(path)).Some?
    ensures SeenDir(t, ws, Above(path))
  {
    hide WellFormed, Segments;
    assert Segments(path) == Above(path) + [LastName(path)];
    WalkSnoc(t, t.workspaces[ws].root, Above(path), LastName(path));
  }

  lemma RemoveIff(rules: TextRules, t: Tables, at: Places, ws: Text, m: Mutation)
    requires WellFormed(rules, t, at) && ws in t.workspaces && (m.Unlink? || m.Rmdir?)
    ensures ApplyMutation(rules, t, ws, m).Ok? <==> Allowed(rules, t, ws, m)
  {
    hide WellFormed, Segments, Walk, Seen, SplitParent, HasChildren, DropIfOrphaned, RemoveSlot, ParentSlot, Empty;
    RootIsSeen(rules, t, at, ws);
    if m.path == [] {
      ChildlessIsEmpty(rules, t, at, ws, []);
      EmptyParent(rules, t, t.workspaces[ws].root);
    } else {
      hide ValidPath;
      ResolvedIsSeen(rules, t, at, ws, m.path);
      if ValidPath(rules, m.path) && Seen(t, ws, Segments(m.path)).Some? {
        SeenAbove(rules, t, at, ws, m.path);
        ParentIsSeen(rules, t, at, ws, m.path);
        if SeenDir(t, ws, Segments(m.path)) { ChildlessIsEmpty(rules, t, at, ws, Segments(m.path)); }
      }
    }
  }

  lemma EmptyParent(rules: TextRules, t: Tables, root: InodeId)
    ensures ParentSlot(rules, t, root, []) == Ok(Slot(root, []))
  {
  }

  lemma RenameIff(rules: TextRules, t: Tables, at: Places, ws: Text, from: Text, to: Text)
    requires WellFormed(rules, t, at) && ws in t.workspaces
    ensures ApplyMutation(rules, t, ws, Rename(from, to)).Ok? <==> Allowed(rules, t, ws, Rename(from, to))
  {
    hide WellFormed, Segments, Walk, Seen, SplitParent, MoveSlot, ParentSlot, NewLeaf, Vacant;
    var root := t.workspaces[ws].root;
    RootIsSeen(rules, t, at, ws);
    NewLeafIff(rules, t, at, ws, to);
    PrefixIsSubtree(from, to);
    if from == [] {
      EmptyParent(rules, t, root);
      if Vacant(rules, t, ws, to) { VacantIsValid(rules, t, ws, to); }
    } else {
      hide ValidPath, InSubtree;
      ResolvedIsSeen(rules, t, at, ws, from);
      if ValidPath(rules, from) && Seen(t, ws, Segments(from)).Some? {
        SeenAbove(rules, t, at, ws, from);
        ParentIsSeen(rules, t, at, ws, from);
      }
    }
  }

  lemma VacantIsValid(rules: TextRules, t: Tables, ws: Text, path: Text)
    requires ws in t.workspaces && Vacant(rules, t, ws, path)
    ensures ValidPath(rules, path) && !InSubtree([], path)
  {
    assert path != [] && path[0] != SLASH;
  }

  /** Over a tree, every mutation is accepted if and only if its condition holds. */
  lemma MutationAcceptedIff(rules: TextRules, t: Tables, ws: Text, m: Mutation)
    requires Tree(rules, t) && ws in t.workspaces
    ensures ApplyMutation(rules, t, ws, m).Ok? <==> Allowed(rules, t, ws, m)
  {
    hide WellFormed, ValidPath, Segments, SplitParent, NewLeaf, ParentSlot, ResolveFile, Walk, Seen, Vacant, HoldsFile, ValidTarget, AddNode,
      Truncated, ValidRun;
    var at :| WellFormed(rules, t, at);
    match m
    case Rename(from, to) => RenameIff(rules, t, at, ws, from, to);
    case Unlink(_) => RemoveIff(rules, t, at, ws, m);
    case Rmdir(_) => RemoveIff(rules, t, at, ws, m);
    case Mkdir(path) => NewLeafIff(rules, t, at, ws, path);
    case CreateFile(path, _, _, _) => NewLeafIff(rules, t, at, ws, path);
    case MakeSymlink(path, _) => NewLeafIff(rules, t, at, ws, path);
    case Hardlink(path, target) =>
      NewLeafIff(rules, t, at, ws, path);
      ResolveFileIff(rules, t, at, ws, target);
    case _ => ResolveFileIff(rules, t, at, ws, m.path);
  }

  // --- batches ------------------------------------------------------------------------------------------

  /** Each mutation meets its condition in turn, on what the ones before it left. */
  ghost predicate AllAllowed(rules: TextRules, t: Tables, ws: Text, ms: seq<Mutation>)
    requires ws in t.workspaces
    decreases |ms|
  {
    ms == [] || (Allowed(rules, t, ws, ms[0])
      && (ApplyMutation(rules, t, ws, ms[0]).Ok? ==> AllAllowed(rules, ApplyMutation(rules, t, ws, ms[0]).value, ws, ms[1..])))
  }

  lemma {:induction false} BatchAcceptedIff(rules: TextRules, t: Tables, ws: Text, ms: seq<Mutation>)
    requires Tree(rules, t) && ws in t.workspaces && !BatchDropsRoot(t, ws, ms)
    ensures ApplyAll(rules, t, ws, ms).Ok? <==> AllAllowed(rules, t, ws, ms)
    decreases |ms|
  {
    hide Tree, ApplyMutation, BatchDropsRoot, DropsRoot, Allowed;
    if ms != [] {
      MutationAcceptedIff(rules, t, ws, ms[0]);
      if ApplyMutation(rules, t, ws, ms[0]).Ok? {
        BatchStep(rules, t, ws, ms);
        MutationKeepsTree(rules, t, ws, ms[0]);
        BatchAcceptedIff(rules, ApplyMutation(rules, t, ws, ms[0]).value, ws, ms[1..]);
      }
    }
  }

  /** A batch commits if and only if its workspace exists, every object it newly names is resident,
      and every mutation meets its condition in turn. */
  lemma CommitAcceptedIff(rules: TextRules, t: Tables, ws: Text, ms: seq<Mutation>)
    requires Tree(rules, t) && (ws in t.workspaces ==> !BatchDropsRoot(t, ws, ms))
    ensures Commit(rules, t, ws, ms).Ok? <==>
      && ws in t.workspaces && AllAllowed(rules, t, ws, ms)
      && forall i, k | 0 <= i < |ms| && Staged(ms[i]) && 0 <= k < |ms[i].records| && ms[i].records[k].Data? ::
           ms[i].records[k].digest in t.objects
  {
    hide Tree, AllAllowed, BatchDropsRoot, ApplyAll;
    if ws in t.workspaces { BatchAcceptedIff(rules, t, ws, ms); }
    forall i, k | Referenced(ms) <= t.objects.Keys && 0 <= i < |ms| && Staged(ms[i]) && 0 <= k < |ms[i].records| && ms[i].records[k].Data?
      ensures ms[i].records[k].digest in t.objects
    {
      assert ms[i].records[k].digest in Digests(ms[i].records);
      assert ms[i].records[k].digest in Referenced(ms);
    }
  }
}
