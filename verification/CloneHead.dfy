/** Reading a cloned head back: staging, resolving, and the snapshot's own listing again. */
module CloneHead {
  import opened Wrappers
  import opened Records
  import opened Paths
  import W = Workspace
  import opened WorkspaceTree
  import WorkspaceStage
  import opened Tfm1
  import opened PathOrder
  import opened Tfm1Builder
  import opened Tfm1Resolve
  import opened Tfm1Finish
  import opened Clone

  // --- staging a head ------------------------------------------------------------------------------

  ghost function At(t: W.Tables, ws: Text, p: Text): Option<W.InodeId>
    requires ws in t.workspaces
  {
    W.Walk(t, RootOf(t, ws), Segments(p))
  }

  function FileOf(node: W.Node): Pending
    requires node.File?
  {
    FileAt(node.executable, node.planner, node.contract, node.records)
  }

  /** A path is declared as what it leads to; a file by its body or as a link to the path that has it. */
  ghost predicate StagedAt(t: W.Tables, ws: Text, decl: Declared, p: Text)
    requires ws in t.workspaces && p in decl
  {
    && At(t, ws, p).Some? && At(t, ws, p).value in t.inodes
    && match t.inodes[At(t, ws, p).value].node
       case Dir => decl[p] == DirectoryAt
       case Symlink(target) => decl[p] == SymlinkTo(target)
       case File(executable, planner, contract, records) =>
         decl[p] == FileAt(executable, planner, contract, records)
         || (decl[p].HardlinkTo? && decl[p].target in decl && At(t, ws, decl[p].target) == At(t, ws, p)
             && decl[decl[p].target] == FileAt(executable, planner, contract, records))
  }

  /** Every path of the head is declared, and each file's body once. */
  ghost predicate Stages(t: W.Tables, ws: Text, decl: Declared)
    requires ws in t.workspaces
  {
    && (forall p :: p in decl <==> At(t, ws, p).Some?)
    && (forall p | p in decl :: StagedAt(t, ws, decl, p))
    && (forall p, q | p in decl && q in decl && decl[p].FileAt? && decl[q].FileAt? && At(t, ws, p) == At(t, ws, q) :: p == q)
  }

  lemma StagedLinksOk(t: W.Tables, ws: Text, decl: Declared)
    requires ws in t.workspaces && Stages(t, ws, decl)
    ensures LinksOk(decl)
  {
    hide At;
    forall p | p in decl ensures LinkOk(decl, p) { assert StagedAt(t, ws, decl, p); }
  }

  /** Paths share a body exactly when they lead to the same inode. */
  lemma StagedGroup(t: W.Tables, ws: Text, decl: Declared, p: Text, q: Text)
    requires ws in t.workspaces && Stages(t, ws, decl) && LinksOk(decl) && Shares(decl, p) && Shares(decl, q)
    ensures q in Group(decl, p) <==> At(t, ws, q) == At(t, ws, p)
    ensures At(t, ws, Origin(decl, p)) == At(t, ws, p)
  {
    hide At, LinksOk;
    assert StagedAt(t, ws, decl, p) && StagedAt(t, ws, decl, q);
  }

  // --- a cloned head -----------------------------------------------------------------------------------

  ghost predicate WholeClone(rules: TextRules, t: W.Tables, ws: Text, entries: seq<Item<Entry>>, ids: seq<W.InodeId>, decl: Declared) {
    && Listing(rules, entries) && OrdinalsOk(entries) && |ids| == |entries| && Cloned(t, ws, entries, ids)
    && Stages(t, ws, decl)
  }

  predicate Filed(entry: Entry) { entry.File? || entry.Hardlink? }

  /** Where an entry's file is listed: itself, or what it links to. */
  ghost function FileFor(entries: seq<Item<Entry>>, i: nat): (f: nat)
    requires OrdinalsOk(entries) && i < |entries| && Filed(entries[i].entry)
    ensures f <= i && entries[f].entry.File?
  {
    if entries[i].entry.File? then i else FileIndex(entries, entries[i].entry.ordinal, i)
  }

  lemma EntryPath(rules: TextRules, t: W.Tables, ws: Text, entries: seq<Item<Entry>>, ids: seq<W.InodeId>, decl: Declared, i: nat)
    requires WholeClone(rules, t, ws, entries, ids, decl) && i < |entries|
    ensures At(t, ws, entries[i].path) == Some(ids[i]) && entries[i].path in decl
    ensures ids[i] in t.inodes && NodeIs(t.inodes[ids[i]].node, entries[i].entry)
    ensures Filed(entries[i].entry) ==> ids[i] == ids[FileFor(entries, i)]
    ensures Filed(entries[i].entry) <==> Shares(decl, entries[i].path)
  {
    hide Listing, Segments, Entered, W.Walk;
    assert EntryAt(t, ws, entries, ids, i);
    assert StagedAt(t, ws, decl, entries[i].path);
  }

  lemma PathEntry(rules: TextRules, t: W.Tables, ws: Text, entries: seq<Item<Entry>>, ids: seq<W.InodeId>, decl: Declared, p: Text) returns (i: nat)
    requires WholeClone(rules, t, ws, entries, ids, decl) && p in decl
    ensures i < |entries| && entries[i].path == p
  {
    hide Listing, Segments, W.Walk, EntryAt, StagedAt;
    assert At(t, ws, p).Some?;
    SomeSegments(p);
    assert Entered(entries, |ids|, Segments(p));
    i :| 0 <= i < |entries| && Segments(p) == Segments(entries[i].path);
    SameSegmentsSamePath(p, entries[i].path);
  }

  lemma SomeSegments(p: Text)
    ensures Segments(p) != []
  {
  }

  lemma SameInodeSameFile(rules: TextRules, t: W.Tables, ws: Text, entries: seq<Item<Entry>>, ids: seq<W.InodeId>, decl: Declared, i: nat, j: nat)
    requires WholeClone(rules, t, ws, entries, ids, decl) && i < |entries| && j < |entries|
    requires Filed(entries[i].entry) && Filed(entries[j].entry)
    ensures ids[i] == ids[j] <==> FileFor(entries, i) == FileFor(entries, j)
  {
    hide Listing, EntryAt, Entered, FileFor, Stages;
    EntryPath(rules, t, ws, entries, ids, decl, i);
    EntryPath(rules, t, ws, entries, ids, decl, j);
    var f, g := FileFor(entries, i), FileFor(entries, j);
    assert f < g ==> ids[f] != ids[g];
    assert g < f ==> ids[g] != ids[f];
  }

  /** The carrier of a cloned group is the file the snapshot lists. */
  lemma CloneCarrier(rules: TextRules, t: W.Tables, ws: Text, entries: seq<Item<Entry>>, ids: seq<W.InodeId>, decl: Declared, i: nat)
    requires WholeClone(rules, t, ws, entries, ids, decl) && LinksOk(decl) && i < |entries| && Filed(entries[i].entry)
    ensures Shares(decl, entries[i].path) && Carrier(decl, entries[i].path) == entries[FileFor(entries, i)].path
  {
    hide WholeClone, LinksOk, Group, At, FileFor, Before;
    OfClone(rules, t, ws, entries, ids, decl);
    var p, f := entries[i].path, FileFor(entries, i);
    EntryPath(rules, t, ws, entries, ids, decl, i);
    EntryPath(rules, t, ws, entries, ids, decl, f);
    StagedGroup(t, ws, decl, p, entries[f].path);
    forall q | q in Group(decl, p) ensures q == entries[f].path || Before(entries[f].path, q) {
      InOwnGroup(decl, p, q);
      var j := PathEntry(rules, t, ws, entries, ids, decl, q);
      EntryPath(rules, t, ws, entries, ids, decl, j);
      StagedGroup(t, ws, decl, p, q);
      SameInodeSameFile(rules, t, ws, entries, ids, decl, i, j);
      assert f < j ==> Before(entries[f].path, entries[j].path);
    }
    LeastUnique(Carrier(decl, p), entries[f].path, Group(decl, p));
  }

  lemma OfClone(rules: TextRules, t: W.Tables, ws: Text, entries: seq<Item<Entry>>, ids: seq<W.InodeId>, decl: Declared)
    requires WholeClone(rules, t, ws, entries, ids, decl)
    ensures Sorted(entries) && OrdinalsOk(entries) && |ids| == |entries| && ws in t.workspaces && Stages(t, ws, decl)
  {
  }

  lemma InOwnGroup(decl: Declared, p: Text, q: Text)
    requires LinksOk(decl) && Shares(decl, p) && q in Group(decl, p)
    ensures Shares(decl, q) && q in decl
  {
  }

  /** What the re-rooted tree says of entry `i`. */
  ghost function Rebuilt(entries: seq<Item<Entry>>, i: nat): Pending
    requires OrdinalsOk(entries) && i < |entries|
  {
    match entries[i].entry
    case Directory => DirectoryAt
    case File(executable, body) => FileAt(executable, BodyPlanner(body), Unstamped, BodyRecords(body))
    case Symlink(target) => SymlinkTo(target)
    case Hardlink(_) => HardlinkTo(entries[FileFor(entries, i)].path)
  }

  lemma CloneRerooted(rules: TextRules, t: W.Tables, ws: Text, entries: seq<Item<Entry>>, ids: seq<W.InodeId>, decl: Declared, i: nat)
    requires WholeClone(rules, t, ws, entries, ids, decl) && LinksOk(decl) && i < |entries|
    ensures entries[i].path in decl && Rerooted(decl)[entries[i].path] == Rebuilt(entries, i)
  {
    hide WholeClone, LinksOk, Group, At, Carrier, Before, Stages, BodyRecords;
    OfClone(rules, t, ws, entries, ids, decl);
    EntryPath(rules, t, ws, entries, ids, decl, i);
    var p := entries[i].path;
    StagedOne(t, ws, decl, p);
    if Filed(entries[i].entry) {
      CloneCarrier(rules, t, ws, entries, ids, decl, i);
      var f := FileFor(entries, i);
      SamePathSameIndexIf(entries, i, f);
      StagedGroup(t, ws, decl, p, p);
      StagedOne(t, ws, decl, Origin(decl, p));
    }
  }

  lemma StagedOne(t: W.Tables, ws: Text, decl: Declared, p: Text)
    requires ws in t.workspaces && Stages(t, ws, decl) && p in decl
    ensures StagedAt(t, ws, decl, p)
  {
  }

  lemma SamePathSameIndexIf(entries: seq<Item<Entry>>, i: nat, f: nat)
    requires Sorted(entries) && i < |entries| && f < |entries|
    ensures entries[f].path == entries[i].path <==> f == i
  {
    if entries[f].path == entries[i].path {
      SamePathSameIndex(entries, i, f);
    }
  }

  // --- the listing comes back ------------------------------------------------------------------------------

  lemma {:induction false} SortedPathsUnique<E, F>(a: seq<Item<E>>, b: seq<Item<F>>)
    requires Sorted(a) && Sorted(b) && PathsOf(a) == PathsOf(b)
    ensures |a| == |b| && forall i | 0 <= i < |a| :: a[i].path == b[i].path
  {
    hide Before;
    assert a != [] ==> a[0].path in PathsOf(a);
    assert b != [] ==> b[0].path in PathsOf(b);
    if a != [] && b != [] {
      HeadIsLeast(a);
      HeadIsLeast(b);
      LeastUnique(a[0].path, b[0].path, PathsOf(a));
      TailPaths(a);
      TailPaths(b);
      SortedPathsUnique(a[1..], b[1..]);
      forall i | 0 <= i < |a| ensures a[i].path == b[i].path {
        assert i > 0 ==> a[i] == a[1..][i - 1] && b[i] == b[1..][i - 1];
      }
    }
  }

  /** An entry as the head lists it: its body as a record run, its stamp gone. */
  function HeadEntry(entry: Entry): TreeEntry {
    match entry
    case Directory => TreeDirectory
    case File(executable, body) => TreeFile(executable, BodyPlanner(body), Unstamped, BodyRecords(body))
    case Symlink(target) => TreeSymlink(target)
    case Hardlink(ordinal) => TreeHardlink(ordinal)
  }

  /** The listing of a cloned head, entry by entry, before ordinals are counted. */
  lemma ListedKind(rules: TextRules, t: W.Tables, ws: Text, entries: seq<Item<Entry>>, ids: seq<W.InodeId>, decl: Declared,
                   items: seq<Item<TreeEntry>>, i: nat)
    requires WholeClone(rules, t, ws, entries, ids, decl) && LinksOk(decl) && Lists(Rerooted(decl), items) && i < |items| == |entries|
    requires items[i].path == entries[i].path
    ensures items[i].entry.TreeFile? <==> entries[i].entry.File?
    ensures !entries[i].entry.Hardlink? ==> items[i].entry == HeadEntry(entries[i].entry)
    ensures entries[i].entry.Hardlink? ==>
      items[i].entry == TreeHardlink(OrdinalOf(Rerooted(decl), entries[FileFor(entries, i)].path))
  {
    hide WholeClone, LinksOk, Rerooted, OrdinalOf, Sorted, PathsOf, BodyRecords, FileFor;
    OfClone(rules, t, ws, entries, ids, decl);
    CloneRerooted(rules, t, ws, entries, ids, decl, i);
    assert items[i].entry == Tfm1Builder.Listed(Rerooted(decl), items[i].path);
  }

  lemma ClonePaths(rules: TextRules, t: W.Tables, ws: Text, entries: seq<Item<Entry>>, ids: seq<W.InodeId>, decl: Declared, items: seq<Item<TreeEntry>>)
    requires WholeClone(rules, t, ws, entries, ids, decl) && LinksOk(decl) && Lists(Rerooted(decl), items)
    ensures |items| == |entries| && forall i | 0 <= i < |items| :: items[i].path == entries[i].path
  {
    hide WholeClone, LinksOk, Rerooted, Tfm1Builder.Listed, Sorted, FileFor;
    OfClone(rules, t, ws, entries, ids, decl);
    SharedKeys(decl);
    forall p | p in PathsOf(entries) ensures p in decl {
      var i :| 0 <= i < |entries| && entries[i].path == p;
      EntryPath(rules, t, ws, entries, ids, decl, i);
    }
    forall p | p in decl ensures p in PathsOf(entries) { var i := PathEntry(rules, t, ws, entries, ids, decl, p); }
    assert PathsOf(items) == PathsOf(entries);
    SortedPathsUnique(items, entries);
  }

  lemma {:induction false} CloneCounts(rules: TextRules, t: W.Tables, ws: Text, entries: seq<Item<Entry>>, ids: seq<W.InodeId>, decl: Declared,
                                       items: seq<Item<TreeEntry>>, n: nat)
    requires WholeClone(rules, t, ws, entries, ids, decl) && LinksOk(decl) && Lists(Rerooted(decl), items) && n <= |items| == |entries|
    requires forall i | 0 <= i < |items| :: items[i].path == entries[i].path
    ensures Count(items, IsTreeFile, n) == Count(entries, IsFile, n)
  {
    hide WholeClone, LinksOk, Rerooted, Lists;
    if n > 0 {
      CloneCounts(rules, t, ws, entries, ids, decl, items, n - 1);
      ListedKind(rules, t, ws, entries, ids, decl, items, n - 1);
    }
  }

  /** Whatever order staging used, the cloned head lists the snapshot's own entries: paths, kinds,
      bits, planners, records, targets and hardlink ordinals; only stamps are gone. */
  lemma CloneReturnsTree(rules: TextRules, t: W.Tables, ws: Text, entries: seq<Item<Entry>>, ids: seq<W.InodeId>, decl: Declared,
                         items: seq<Item<TreeEntry>>)
    requires WholeClone(rules, t, ws, entries, ids, decl) && LinksOk(decl) && Lists(Rerooted(decl), items)
    ensures |items| == |entries|
    ensures forall i | 0 <= i < |items| :: items[i] == Item(entries[i].path, HeadEntry(entries[i].entry))
  {
    hide WholeClone, LinksOk, Rerooted, Lists, OrdinalOf, Count, BodyRecords;
    OfClone(rules, t, ws, entries, ids, decl);
    ClonePaths(rules, t, ws, entries, ids, decl, items);
    forall i | 0 <= i < |items| ensures items[i] == Item(entries[i].path, HeadEntry(entries[i].entry)) {
      ListedKind(rules, t, ws, entries, ids, decl, items, i);
      if entries[i].entry.Hardlink? {
        var f := FileFor(entries, i);
        OrdinalIsCount(Rerooted(decl), items, f);
        CloneCounts(rules, t, ws, entries, ids, decl, items, f);
        assert Count(entries, IsFile, f) == entries[i].entry.ordinal;
      }
    }
  }

  // --- the head tree as it is read ---------------------------------------------------------------------------

  /** All the staged paths of one inode. */
  function PathsOfInode(staged: seq<WorkspaceStage.Staged>, inode: W.InodeId): set<Text> {
    set k | 0 <= k < |staged| && staged[k].inode == inode :: staged[k].path
  }

  /** What staging declares of one entry: a file's body at its first path, a link from any other. */
  ghost predicate DeclaresStaged(t: W.Tables, staged: seq<WorkspaceStage.Staged>, k: nat, d: Declaration)
    requires k < |staged| && staged[k].inode in t.inodes
  {
    && d.path == staged[k].path
    && match t.inodes[staged[k].inode].node
       case Dir => d.pending == DirectoryAt
       case Symlink(target) => d.pending == SymlinkTo(target)
       case File(_, _, _, _) =>
         exists c :: IsLeast(c, PathsOfInode(staged, staged[k].inode))
           && d.pending == (if c == d.path then FileOf(t.inodes[staged[k].inode].node) else HardlinkTo(c))
  }

  method DeclareStaged(t: W.Tables, staged: seq<WorkspaceStage.Staged>) returns (pending: seq<Declaration>)
    requires forall k | 0 <= k < |staged| :: staged[k].inode in t.inodes
    ensures |pending| == |staged| && forall k | 0 <= k < |staged| :: DeclaresStaged(t, staged, k, pending[k])
  {
    pending := [];
    for k := 0 to |staged|
      invariant |pending| == k && forall j | 0 <= j < k :: DeclaresStaged(t, staged, j, pending[j])
    {
      var path, node := staged[k].path, t.inodes[staged[k].inode].node;
      var what;
      match node {
        case Dir => what := DirectoryAt;
        case Symlink(target) => what := SymlinkTo(target);
        case File(_, _, _, _) =>
          assert path in PathsOfInode(staged, staged[k].inode);
          var carrier := LeastOf(PathsOfInode(staged, staged[k].inode));
          what := if carrier == path then FileOf(node) else HardlinkTo(carrier);
      }
      pending := pending + [Declaration(path, what)];
    }
  }

  /** The staged sequence covers the head once. */
  ghost predicate Covers(t: W.Tables, ws: Text, staged: seq<WorkspaceStage.Staged>)
    requires ws in t.workspaces
  {
    && (forall k | 0 <= k < |staged| :: At(t, ws, staged[k].path) == Some(staged[k].inode) && staged[k].inode in t.inodes)
    && (forall p | At(t, ws, p).Some? :: exists k :: 0 <= k < |staged| && staged[k].path == p)
    && (forall j, k | 0 <= j < k < |staged| :: staged[j].path != staged[k].path)
  }

  lemma StagedDeclares(t: W.Tables, ws: Text, staged: seq<WorkspaceStage.Staged>, pending: seq<Declaration>)
    requires ws in t.workspaces && Covers(t, ws, staged) && |pending| == |staged|
    requires forall k | 0 <= k < |staged| :: DeclaresStaged(t, staged, k, pending[k])
    ensures DistinctPaths(pending) && Stages(t, ws, Declare(pending))
  {
    hide At, DeclaresStaged, StagedAt, Declare, Before;
    var decl := Declare(pending);
    forall k | 0 <= k < |staged| ensures pending[k].path == staged[k].path { SamePath(t, staged, k, pending[k]); }
    forall k | 0 <= k < |staged| ensures staged[k].path in decl && decl[staged[k].path] == pending[k].pending { DeclareAt(pending, k); }
    forall p ensures p in decl <==> At(t, ws, p).Some? {
      if p in decl { DeclareFrom(pending, p); }
    }
    forall p | p in decl ensures StagedAt(t, ws, decl, p) {
      var k :| 0 <= k < |staged| && staged[k].path == p;
      StagedFrom(t, ws, staged, pending, decl, k);
    }
    forall p, q | p in decl && q in decl && decl[p].FileAt? && decl[q].FileAt? && At(t, ws, p) == At(t, ws, q) ensures p == q {
      var j :| 0 <= j < |staged| && staged[j].path == p;
      var k :| 0 <= k < |staged| && staged[k].path == q;
      FileIsLeast(t, staged, j, pending[j]);
      FileIsLeast(t, staged, k, pending[k]);
      LeastUnique(p, q, PathsOfInode(staged, staged[j].inode));
    }
  }

  lemma SamePath(t: W.Tables, staged: seq<WorkspaceStage.Staged>, k: nat, d: Declaration)
    requires k < |staged| && staged[k].inode in t.inodes && DeclaresStaged(t, staged, k, d)
    ensures d.path == staged[k].path
  {
  }

  lemma FileIsLeast(t: W.Tables, staged: seq<WorkspaceStage.Staged>, k: nat, d: Declaration)
    requires k < |staged| && staged[k].inode in t.inodes && DeclaresStaged(t, staged, k, d) && d.pending.FileAt?
    ensures IsLeast(d.path, PathsOfInode(staged, staged[k].inode))
  {
    hide IsLeast, PathsOfInode;
  }

  lemma StagedFrom(t: W.Tables, ws: Text, staged: seq<WorkspaceStage.Staged>, pending: seq<Declaration>, decl: Declared, k: nat)
    requires ws in t.workspaces && Covers(t, ws, staged) && |pending| == |staged| && k < |staged|
    requires forall i | 0 <= i < |staged| :: staged[i].inode in t.inodes && DeclaresStaged(t, staged, i, pending[i])
    requires forall i | 0 <= i < |staged| :: staged[i].path in decl && decl[staged[i].path] == pending[i].pending
    ensures StagedAt(t, ws, decl, staged[k].path)
  {
    hide At, IsLeast, PathsOfInode, DeclaresStaged, Covers;
    CoveredAt(t, ws, staged, k);
    if t.inodes[staged[k].inode].node.File? {
      var c := CarrierOf(t, staged, k, pending[k]);
      var j := LeastIndex(staged, staged[k].inode, c);
      CoveredAt(t, ws, staged, j);
      var e := CarrierOf(t, staged, j, pending[j]);
      LeastUnique(c, e, PathsOfInode(staged, staged[k].inode));
      assert decl[c] == FileOf(t.inodes[staged[k].inode].node);
    } else {
      NoCarrier(t, staged, k, pending[k]);
    }
  }

  lemma CoveredAt(t: W.Tables, ws: Text, staged: seq<WorkspaceStage.Staged>, k: nat)
    requires ws in t.workspaces && Covers(t, ws, staged) && k < |staged|
    ensures At(t, ws, staged[k].path) == Some(staged[k].inode) && staged[k].inode in t.inodes
  {
  }

  lemma CarrierOf(t: W.Tables, staged: seq<WorkspaceStage.Staged>, k: nat, d: Declaration) returns (c: Text)
    requires k < |staged| && staged[k].inode in t.inodes && DeclaresStaged(t, staged, k, d) && t.inodes[staged[k].inode].node.File?
    ensures IsLeast(c, PathsOfInode(staged, staged[k].inode)) && d.path == staged[k].path
    ensures d.pending == (if c == d.path then FileOf(t.inodes[staged[k].inode].node) else HardlinkTo(c))
  {
    hide IsLeast, PathsOfInode;
    c :| IsLeast(c, PathsOfInode(staged, staged[k].inode))
      && d.pending == (if c == d.path then FileOf(t.inodes[staged[k].inode].node) else HardlinkTo(c));
  }

  lemma NoCarrier(t: W.Tables, staged: seq<WorkspaceStage.Staged>, k: nat, d: Declaration)
    requires k < |staged| && staged[k].inode in t.inodes && DeclaresStaged(t, staged, k, d) && !t.inodes[staged[k].inode].node.File?
    ensures t.inodes[staged[k].inode].node.Dir? ==> d.pending == DirectoryAt
    ensures t.inodes[staged[k].inode].node.Symlink? ==> d.pending == SymlinkTo(t.inodes[staged[k].inode].node.target)
  {
  }

  lemma LeastIndex(staged: seq<WorkspaceStage.Staged>, inode: W.InodeId, c: Text) returns (j: nat)
    requires IsLeast(c, PathsOfInode(staged, inode))
    ensures j < |staged| && staged[j].inode == inode && staged[j].path == c
  {
    j :| 0 <= j < |staged| && staged[j].inode == inode && staged[j].path == c;
  }

  /** Stages the committed head and resolves it into its listing. */
  method HeadTree(rules: TextRules, t: W.Tables, ws: Text) returns (r: Option<seq<Item<TreeEntry>>>, ghost pending: seq<Declaration>)
    requires Tree(rules, t) && ws in t.workspaces
    ensures DistinctPaths(pending) && Stages(t, ws, Declare(pending))
    ensures r.Some? <==> Buildable(rules, pending)
    ensures r.Some? ==> LinksOk(Declare(pending)) && Lists(Rerooted(Declare(pending)), r.value)
  {
    hide Tree, Stages, Buildable, Lists, Rerooted, Declare, LinksOk, W.Walk, DeclaresStaged, DistinctPaths;
    var staged := WorkspaceStage.StageTree(rules, t, ws);
    StagedCovers(rules, t, ws, staged);
    var declared := DeclareStaged(t, staged);
    pending := declared;
    StagedDeclares(t, ws, staged, pending);
    r := Resolve(rules, declared);
  }

  lemma StagedCovers(rules: TextRules, t: W.Tables, ws: Text, staged: seq<WorkspaceStage.Staged>)
    requires Tree(rules, t) && ws in t.workspaces
    requires forall k | 0 <= k < |staged| :: W.Walk(t, t.workspaces[ws].root, Segments(staged[k].path)) == Some(staged[k].inode)
    requires forall segments: seq<Text> | segments != [] && W.Walk(t, t.workspaces[ws].root, segments).Some? ::
      WorkspaceStage.Staged(Join(segments), W.Walk(t, t.workspaces[ws].root, segments).value) in staged
    requires forall j, k | 0 <= j < k < |staged| :: staged[j].path != staged[k].path
    ensures Covers(t, ws, staged)
  {
    hide WellFormed, W.Walk, Segments, Join;
    var at :| WellFormed(rules, t, at);
    forall k | 0 <= k < |staged| ensures staged[k].inode in t.inodes { WalkSound(rules, t, at, ws, Segments(staged[k].path)); }
    forall p | At(t, ws, p).Some? ensures exists k :: 0 <= k < |staged| && staged[k].path == p {
      SomeSegments(p);
      JoinSegments(p);
      var e := WorkspaceStage.Staged(Join(Segments(p)), At(t, ws, p).value);
      assert e in staged;
    }
  }

  // --- reading a clone never refuses ----------------------------------------------------------------------------

  lemma CloneTopology(rules: TextRules, t: W.Tables, ws: Text, entries: seq<Item<Entry>>, ids: seq<W.InodeId>, decl: Declared)
    requires WholeClone(rules, t, ws, entries, ids, decl)
    ensures Topology(rules, decl)
  {
    hide WholeClone, SplitParent;
    OfClone(rules, t, ws, entries, ids, decl);
    CloneListing(rules, t, ws, entries, ids, decl);
    forall p, q | p in decl && q in decl && rules.fold(p) == rules.fold(q) ensures p == q {
      var i := PathEntry(rules, t, ws, entries, ids, decl, p);
      var j := PathEntry(rules, t, ws, entries, ids, decl, q);
      FoldApart(rules, entries, i, j);
    }
    forall p | p in decl && SplitParent(p).0.Some? ensures SplitParent(p).0.value in decl && decl[SplitParent(p).0.value].DirectoryAt? {
      var i := PathEntry(rules, t, ws, entries, ids, decl, p);
      var j := ParentIndex(rules, entries, i);
      EntryPath(rules, t, ws, entries, ids, decl, j);
      StagedOne(t, ws, decl, entries[j].path);
    }
  }

  lemma CloneListing(rules: TextRules, t: W.Tables, ws: Text, entries: seq<Item<Entry>>, ids: seq<W.InodeId>, decl: Declared)
    requires WholeClone(rules, t, ws, entries, ids, decl)
    ensures Listing(rules, entries)
  {
  }

  lemma FoldApart(rules: TextRules, entries: seq<Item<Entry>>, i: nat, j: nat)
    requires Listing(rules, entries) && i < |entries| && j < |entries| && rules.fold(entries[i].path) == rules.fold(entries[j].path)
    ensures i == j
  {
    hide Listing;
    if i < j { PathsApart(rules, entries, i, j); }
    if j < i { PathsApart(rules, entries, j, i); }
  }

  /** Every declaration a cloned head stages is well formed. */
  lemma CloneDeclaration(rules: TextRules, t: W.Tables, ws: Text, entries: seq<Item<Entry>>, ids: seq<W.InodeId>, decl: Declared, p: Text)
    requires WholeClone(rules, t, ws, entries, ids, decl) && p in decl
    ensures DeclarationOk(rules, Declaration(p, decl[p]))
    ensures decl[p].FileAt? ==> ValidRun(decl[p].records, Records.Total(decl[p].records))
  {
    hide WholeClone, ValidPath, ValidRun, ValidTarget, Stages, BodyRecords, BodyOk, At, CanonicalBody;
    OfClone(rules, t, ws, entries, ids, decl);
    CloneListing(rules, t, ws, entries, ids, decl);
    var i := PathEntry(rules, t, ws, entries, ids, decl, p);
    EntryPath(rules, t, ws, entries, ids, decl, i);
    StagedOne(t, ws, decl, p);
    PathOk(rules, entries, i);
    TargetIsValid(rules, entries, i);
    if Filed(entries[i].entry) {
      var f := FileFor(entries, i);
      PathOk(rules, entries, f);
      BodyIsOk(rules, entries, f);
      BodyReturns(rules, entries[f].entry.body);
      EntryPath(rules, t, ws, entries, ids, decl, f);
    }
  }

  /** Reading a cloned head back is never refused. */
  lemma CloneIsBuildable(rules: TextRules, t: W.Tables, ws: Text, entries: seq<Item<Entry>>, ids: seq<W.InodeId>, pending: seq<Declaration>)
    requires WholeClone(rules, t, ws, entries, ids, Declare(pending)) && DistinctPaths(pending)
    ensures Buildable(rules, pending)
  {
    hide WholeClone, DeclarationOk, Topology, LinksOk, ValidRun, Declare, DistinctPaths;
    var decl := Declare(pending);
    OfClone(rules, t, ws, entries, ids, decl);
    StagedLinksOk(t, ws, decl);
    CloneTopology(rules, t, ws, entries, ids, decl);
    forall i | 0 <= i < |pending| ensures DeclarationOk(rules, pending[i]) {
      DeclareAt(pending, i);
      CloneDeclaration(rules, t, ws, entries, ids, decl, pending[i].path);
    }
    forall p | p in decl && decl[p].FileAt? ensures ValidRun(decl[p].records, Records.Total(decl[p].records)) {
      CloneDeclaration(rules, t, ws, entries, ids, decl, p);
    }
  }

  // --- clone, then read -----------------------------------------------------------------------------------------

  /** `create_workspace_from_snapshot` took tables `t` to tables `after`. */
  ghost predicate ClonedInto(rules: TextRules, t: W.Tables, ws: Text, s: Snapshot, after: W.Tables) {
    && ws !in t.workspaces && OrdinalsOk(s.entries)
    && W.Commit(rules, W.CreateWorkspace(t, ws).value, ws, CloneBatch(s.entries)) == Ok(after)
  }

  /** Cloning into a new workspace always goes through, and holds the snapshot's entries. */
  lemma CloneArrives(rules: TextRules, t: W.Tables, ws: Text, s: Snapshot) returns (after: W.Tables, ids: seq<W.InodeId>)
    requires FoldsBySegment(rules) && Canonical(rules, s) && ObjectsResident(t.objects, s.entries)
    requires Tree(rules, t) && ws !in t.workspaces
    ensures ClonedInto(rules, t, ws, s, after) && Tree(rules, after) && ws in after.workspaces
    ensures |ids| == |s.entries| && Cloned(after, ws, s.entries, ids) && Listing(rules, s.entries)
  {
    hide Tree, Canonical, FoldsBySegment, ObjectsResident, FreshWorkspace, Listing;
    CreatedIsFresh(rules, t, ws);
    var created := W.CreateWorkspace(t, ws).value;
    ids := CloneNeverRefuses(rules, created, ws, s);
    after := W.Commit(rules, created, ws, CloneBatch(s.entries)).value;
    CommitKeepsTree(rules, created, ws, CloneBatch(s.entries));
    CanonicalLists(rules, s);
  }

  /** Reading the head of a clone gives the snapshot's own listing, stamps aside. */
  method HeadOfClone(rules: TextRules, ghost t: W.Tables, ws: Text, ghost s: Snapshot, after: W.Tables) returns (r: Option<seq<Item<TreeEntry>>>)
    requires FoldsBySegment(rules) && Canonical(rules, s) && ObjectsResident(t.objects, s.entries)
    requires Tree(rules, t) && ClonedInto(rules, t, ws, s, after)
    ensures r.Some? && |r.value| == |s.entries|
    ensures forall i | 0 <= i < |s.entries| :: r.value[i] == Item(s.entries[i].path, HeadEntry(s.entries[i].entry))
  {
    hide Tree, Canonical, FoldsBySegment, ObjectsResident, Listing, Cloned, Stages, Buildable, Lists, Rerooted, Declare, LinksOk;
    ghost var again, ids := CloneArrives(rules, t, ws, s);
    assert again == after;
    ghost var pending;
    r, pending := HeadTree(rules, after, ws);
    CloneIsBuildable(rules, after, ws, s.entries, ids, pending);
    CloneReturnsTree(rules, after, ws, s.entries, ids, Declare(pending), r.value);
  }
}
