/** From listing to manifest: what a build writes is canonical, and every canonical
    manifest is what some build writes. */
module Tfm1Finish {
  import opened Wrappers
  import opened Wire
  import opened Records
  import opened Paths
  import opened Tfm1
  import opened Tfm1Proof
  import opened Tfm1Decode
  import opened PathOrder
  import opened Tfm1Builder
  import opened Tfm1Resolve

  // --- canonical bodies -------------------------------------------------------------------------------

  /** A tensor keeps its checked records; anything else is empty or one whole-file object. */
  ghost function CanonicalBody(planner: Planner, contract: Stamp, records: seq<FileRecord>): Option<FileBody> {
    if !planner.BlobV1? then
      if RecordsOk(records, Records.Total(records)) then Some(Tensor(planner, contract, Records.Total(records), records)) else None
    else if records == [] then Some(Blob(0, EMPTY_BLOB_DIGEST))
    else if |records| == 1 && records[0].Data? then Some(Blob(records[0].length, records[0].digest))
    else None
  }

  ghost function CanonicalEntry(entry: TreeEntry): Option<Entry> {
    match entry
    case TreeDirectory => Some(Directory)
    case TreeFile(executable, planner, contract, records) =>
      var body :- CanonicalBody(planner, contract, records);
      Some(File(executable, body))
    case TreeSymlink(target) => Some(Symlink(target))
    case TreeHardlink(ordinal) => Some(Hardlink(ordinal))
  }

  ghost predicate Canonicalizes(items: seq<Item<TreeEntry>>, entries: seq<Item<Entry>>) {
    && |items| == |entries|
    && forall i | 0 <= i < |items| :: CanonicalAt(items[i], entries[i])
  }

  ghost predicate CanonicalAt(item: Item<TreeEntry>, entry: Item<Entry>) {
    item.path == entry.path && CanonicalEntry(item.entry) == Some(entry.entry)
  }

  /** The build of `pending` under `parent` is `s`, by way of the listing `items`. */
  ghost predicate BuildsVia(rules: TextRules, parent: Option<Digest>, pending: seq<Declaration>, s: Snapshot, items: seq<Item<TreeEntry>>) {
    && Buildable(rules, pending) && Lists(Rerooted(Declare(pending)), items)
    && Canonicalizes(items, s.entries) && s.parent == parent
  }

  ghost predicate Builds(rules: TextRules, parent: Option<Digest>, pending: seq<Declaration>, s: Snapshot) {
    exists items :: BuildsVia(rules, parent, pending, s, items)
  }

  method Finish(rules: TextRules, parent: Option<Digest>, pending: seq<Declaration>) returns (r: Option<Snapshot>)
    ensures forall s :: r == Some(s) <==> Builds(rules, parent, pending, s)
  {
    hide Buildable, Lists, Rerooted, Declare, CanonicalEntry, CanonicalBody, LinksOk;
    var items := Resolve(rules, pending);
    if items.None? {
      return None;
    }
    var entries: seq<Item<Entry>> := [];
    for i := 0 to |items.value|
      invariant |entries| == i && forall k | 0 <= k < i :: CanonicalAt(items.value[k], entries[k])
    {
      var entry := Canonicalize(items.value[i].entry);
      if entry.None? {
        forall s ensures !Builds(rules, parent, pending, s) { NoBuild(rules, parent, pending, s, items.value, i); }
        return None;
      }
      entries := entries + [Item(items.value[i].path, entry.value)];
    }
    r := Some(Snapshot(parent, entries));
    assert BuildsVia(rules, parent, pending, r.value, items.value);
    forall s | Builds(rules, parent, pending, s) ensures s == r.value { BuildsUnique(rules, parent, pending, s, r.value); }
  }

  method Canonicalize(entry: TreeEntry) returns (r: Option<Entry>)
    ensures r == CanonicalEntry(entry)
  {
    hide RecordsOk, Records.Total;
    match entry
    case TreeDirectory => r := Some(Directory);
    case TreeSymlink(target) => r := Some(Symlink(target));
    case TreeHardlink(ordinal) => r := Some(Hardlink(ordinal));
    case TreeFile(executable, planner, contract, records) =>
      if !planner.BlobV1? {
        var size := TotalLength(records);
        if size >= U64 {
          TooLong(records);
          return None;
        }
        var ok := ValidateRecords(records, size);
        return if ok then Some(File(executable, Tensor(planner, contract, size, records))) else None;
      }
      if records == [] {
        return Some(File(executable, Blob(0, EMPTY_BLOB_DIGEST)));
      }
      if |records| == 1 && records[0].Data? {
        return Some(File(executable, Blob(records[0].length, records[0].digest)));
      }
      return None;
  }

  lemma TooLong(records: seq<FileRecord>)
    requires Records.Total(records) >= U64
    ensures !RecordsOk(records, Records.Total(records))
  {
  }

  lemma NoBuild(rules: TextRules, parent: Option<Digest>, pending: seq<Declaration>, s: Snapshot, items: seq<Item<TreeEntry>>, i: nat)
    requires LinksOk(Declare(pending)) && Lists(Rerooted(Declare(pending)), items) && i < |items| && CanonicalEntry(items[i].entry).None?
    ensures !Builds(rules, parent, pending, s)
  {
    hide Buildable, Lists, Rerooted, Declare, CanonicalEntry, LinksOk;
    if Builds(rules, parent, pending, s) {
      var other :| BuildsVia(rules, parent, pending, s, other);
      OneListing(pending, items, other);
    }
  }

  lemma OneListing(pending: seq<Declaration>, x: seq<Item<TreeEntry>>, y: seq<Item<TreeEntry>>)
    requires LinksOk(Declare(pending)) && Lists(Rerooted(Declare(pending)), x) && Lists(Rerooted(Declare(pending)), y)
    ensures x == y
  {
    hide Rerooted, LinksOk, Declare;
    SameTreeRefl(Declare(pending));
    ListingDependsOnTree(Declare(pending), Declare(pending), x, y);
  }

  lemma SameTreeRefl(a: Declared)
    requires LinksOk(a)
    ensures SameTree(a, a)
  {
  }

  /** Two builds of one tree write the same snapshot, whatever the order of declaration and
      whichever member of a link group was declared as its file. */
  lemma BuildDependsOnTree(rules: TextRules, parent: Option<Digest>, a: seq<Declaration>, b: seq<Declaration>, s: Snapshot, t: Snapshot)
    requires LinksOk(Declare(a)) && LinksOk(Declare(b)) && SameTree(Declare(a), Declare(b))
    requires Builds(rules, parent, a, s) && Builds(rules, parent, b, t)
    ensures s == t && Emit(s) == Emit(t)
  {
    hide Buildable, Lists, Rerooted, Declare, CanonicalEntry, SameTree, LinksOk;
    var x :| BuildsVia(rules, parent, a, s, x);
    var y :| BuildsVia(rules, parent, b, t, y);
    ListingDependsOnTree(Declare(a), Declare(b), x, y);
    forall i | 0 <= i < |x| ensures s.entries[i] == t.entries[i] {
      assert CanonicalAt(x[i], s.entries[i]) && CanonicalAt(y[i], t.entries[i]);
    }
  }

  lemma BuildsUnique(rules: TextRules, parent: Option<Digest>, pending: seq<Declaration>, s: Snapshot, t: Snapshot)
    requires LinksOk(Declare(pending)) && Builds(rules, parent, pending, s) && Builds(rules, parent, pending, t)
    ensures s == t
  {
    hide Builds, Declare, SameTree, LinksOk;
    SameTreeRefl(Declare(pending));
    BuildDependsOnTree(rules, parent, pending, pending, s, t);
  }

  // --- counting files ----------------------------------------------------------------------------------

  predicate IsFile(entry: Entry) { entry.File? }
  predicate IsTreeFile(entry: TreeEntry) { entry.TreeFile? }

  function Count<E>(items: seq<Item<E>>, file: E -> bool, n: nat): nat
    requires n <= |items|
  {
    if n == 0 then 0 else Count(items, file, n - 1) + (if file(items[n - 1].entry) then 1 else 0)
  }

  ghost function FilePaths<E>(items: seq<Item<E>>, file: E -> bool, n: nat): set<Text>
    requires n <= |items|
  {
    set i | 0 <= i < n && file(items[i].entry) :: items[i].path
  }

  lemma {:induction false} CountIsSize<E>(items: seq<Item<E>>, file: E -> bool, n: nat)
    requires n <= |items| && Sorted(items)
    ensures |FilePaths(items, file, n)| == Count(items, file, n)
  {
    if n > 0 {
      CountIsSize(items, file, n - 1);
      var last := items[n - 1];
      forall i | 0 <= i < n - 1 ensures items[i].path != last.path { Asymmetric(items[i].path, last.path); }
      assert FilePaths(items, file, n) == FilePaths(items, file, n - 1) + (if file(last.entry) then {last.path} else {});
    } else {
      assert FilePaths(items, file, n) == {};
    }
  }

  /** A path's ordinal in a listing is the number of files listed before it. */
  lemma OrdinalIsCount(tree: Declared, items: seq<Item<TreeEntry>>, j: nat)
    requires Lists(tree, items) && j < |items|
    ensures OrdinalOf(tree, items[j].path) == Count(items, IsTreeFile, j)
  {
    hide Count, Before;
    CountIsSize(items, IsTreeFile, j);
    var before := set q | q in tree && tree[q].FileAt? && Before(q, items[j].path);
    forall q | q in before ensures q in FilePaths(items, IsTreeFile, j) {
      assert q in PathsOf(items);
      var i :| 0 <= i < |items| && items[i].path == q;
      if i == j { Irreflexive(q); }
      if i > j { Asymmetric(items[j].path, q); }
    }
    forall q | q in FilePaths(items, IsTreeFile, j) ensures q in before {
      var i :| 0 <= i < j && IsTreeFile(items[i].entry) && items[i].path == q;
    }
    assert before == FilePaths(items, IsTreeFile, j);
  }

  lemma {:induction false} CountGrows<E>(items: seq<Item<E>>, file: E -> bool, i: nat, j: nat)
    requires i <= j <= |items|
    ensures Count(items, file, i) <= Count(items, file, j) <= Count(items, file, i) + (j - i)
    decreases j
  {
    if i < j {
      CountGrows(items, file, i, j - 1);
    }
  }

  lemma {:induction false} SameCounts(items: seq<Item<TreeEntry>>, entries: seq<Item<Entry>>, n: nat)
    requires Canonicalizes(items, entries) && n <= |items|
    ensures Count(items, IsTreeFile, n) == Count(entries, IsFile, n)
  {
    if n > 0 {
      SameCounts(items, entries, n - 1);
      assert CanonicalAt(items[n - 1], entries[n - 1]);
    }
  }

  // --- what a build writes is canonical -----------------------------------------------------------------

  /** What the types of the arguments already promise: paths and targets are text, stamps
      are well formed, and a vector's length is a machine word. */
  ghost predicate Typed(rules: TextRules, pending: seq<Declaration>) {
    |pending| < U64 && forall i | 0 <= i < |pending| :: TypedAt(rules, pending[i])
  }

  ghost predicate TypedAt(rules: TextRules, d: Declaration) {
    && rules.utf8(d.path) && (d.pending.SymlinkTo? ==> rules.utf8(d.pending.target))
    && (d.pending.FileAt? ==> StampOk(rules, d.pending.contract))
  }

  ghost predicate WellListed(rules: TextRules, entries: seq<Item<Entry>>, i: nat)
    requires i < |entries|
  {
    && rules.utf8(entries[i].path) && ValidPath(rules, entries[i].path)
    && EntryOk(rules, entries[i].entry, Count(entries, IsFile, i))
  }

  /** Sorted and well listed is what the strict reader checks entry by entry. */
  lemma {:induction false} IntoEntriesOk(rules: TextRules, entries: seq<Item<Entry>>, k: nat)
    requires Sorted(entries) && k <= |entries| && forall i | 0 <= i < |entries| :: WellListed(rules, entries, i)
    ensures EntriesOk(rules, entries[k..], Count(entries, IsFile, k), if k == 0 then None else Some(entries[k - 1].path))
    decreases |entries| - k
  {
    hide ValidPath, EntryOk, Before;
    if k < |entries| {
      IntoEntriesOk(rules, entries, k + 1);
      assert WellListed(rules, entries, k);
      assert entries[k..][1..] == entries[k + 1..] && entries[k..][0] == entries[k];
    }
  }

  /** And what it checks is that: strict order, and ordinals that name earlier files. */
  lemma {:induction false} FromEntriesOk(rules: TextRules, entries: seq<Item<Entry>>, k: nat, i: nat)
    requires EntriesOk(rules, entries, 0, None) && k <= i < |entries|
    requires EntriesOk(rules, entries[k..], Count(entries, IsFile, k), if k == 0 then None else Some(entries[k - 1].path))
    ensures WellListed(rules, entries, i) && (i > 0 ==> Before(entries[i - 1].path, entries[i].path))
    decreases i - k
  {
    hide ValidPath, EntryOk, Before;
    assert entries[k..][1..] == entries[k + 1..] && entries[k..][0] == entries[k];
    if k < i {
      FromEntriesOk(rules, entries, k + 1, i);
    }
  }

  lemma CanonicalMeans(rules: TextRules, entries: seq<Item<Entry>>)
    requires EntriesOk(rules, entries, 0, None)
    ensures Sorted(entries) && forall i | 0 <= i < |entries| :: WellListed(rules, entries, i)
    ensures forall i, j | 0 <= i < j < |entries| :: Ascends(entries[i].path, entries[j].path)
  {
    hide EntriesOk, ValidPath, EntryOk, Before, Ascends;
    assert entries[0..] == entries;
    forall i | 0 <= i < |entries| ensures WellListed(rules, entries, i) { FromEntriesOk(rules, entries, 0, i); }
    forall i, j | 0 <= i < j < |entries| ensures Before(entries[i].path, entries[j].path) { Increasing(rules, entries, i, j); }
    forall i, j | 0 <= i < j < |entries| ensures Ascends(entries[i].path, entries[j].path) { BeforeIs(entries[i].path, entries[j].path); }
  }

  lemma {:induction false} Increasing(rules: TextRules, entries: seq<Item<Entry>>, i: nat, j: nat)
    requires EntriesOk(rules, entries, 0, None) && i < j < |entries|
    ensures Before(entries[i].path, entries[j].path)
    decreases j
  {
    hide EntriesOk, ValidPath, EntryOk, Before;
    assert entries[0..] == entries;
    FromEntriesOk(rules, entries, 0, j);
    if i + 1 < j {
      Increasing(rules, entries, i, j - 1);
      Transitive(entries[i].path, entries[j - 1].path, entries[j].path);
    }
  }

  lemma {:induction false} SortedSize<E>(items: seq<Item<E>>, n: nat)
    requires Sorted(items) && n <= |items|
    ensures |PathsOf(items[..n])| == n
  {
    if n > 0 {
      SortedSize(items, n - 1);
      var init, last := items[..n - 1], items[n - 1];
      forall i | 0 <= i < n - 1 ensures items[i].path != last.path { Asymmetric(items[i].path, last.path); }
      assert items[..n] == init + [last];
      PathsAppend(init, last);
    } else {
      assert PathsOf(items[..0]) == {};
    }
  }

  lemma {:induction false} DeclareSize(pending: seq<Declaration>)
    ensures |Declare(pending).Keys| <= |pending|
  {
    if pending != [] {
      var init, last := pending[..|pending| - 1], pending[|pending| - 1];
      DeclareSize(init);
      assert Declare(pending).Keys == Declare(init).Keys + {last.path};
    }
  }

  lemma ListingFits(pending: seq<Declaration>, items: seq<Item<TreeEntry>>)
    requires LinksOk(Declare(pending)) && Lists(Rerooted(Declare(pending)), items)
    ensures |items| <= |pending|
  {
    hide Declare, Listed, Carrier, Group, LinksOk;
    SortedSize(items, |items|);
    assert items[..|items|] == items;
    DeclareSize(pending);
    assert Rerooted(Declare(pending)).Keys == Declare(pending).Keys;
  }

  lemma ItemIsWellListed(rules: TextRules, pending: seq<Declaration>, s: Snapshot, items: seq<Item<TreeEntry>>, i: nat)
    requires Typed(rules, pending) && BuildsVia(rules, s.parent, pending, s, items) && i < |items|
    ensures WellListed(rules, s.entries, i)
  {
    hide Declare, ValidPath, ValidTarget, Topology, DistinctPaths, RunsOk, LinksOk, Rerooted, Count, StampOk, OrdinalOf, Sorted, PathsOf;
    var decl := Declare(pending);
    var tree := Rerooted(decl);
    var item, entry := items[i], s.entries[i];
    assert CanonicalAt(item, entry) && item.entry == Listed(tree, item.path);
    SharedKeys(decl);
    RerootedFrom(decl, item.path);
    PathIsTyped(rules, pending, item.path);
    if item.entry.TreeFile? {
      FileIsTyped(rules, pending, item.path);
    } else if item.entry.TreeHardlink? {
      HardlinkIsEarlier(pending, s, items, i);
    }
  }

  lemma RerootedFrom(decl: Declared, p: Text)
    requires LinksOk(decl) && p in decl
    ensures var tree := Rerooted(decl);
      && p in tree && (tree[p].SymlinkTo? || tree[p].DirectoryAt? ==> tree[p] == decl[p])
      && (tree[p].FileAt? ==> exists q :: q in decl && decl[q] == tree[p])
  {
    hide Carrier, Group;
  }

  lemma PathIsTyped(rules: TextRules, pending: seq<Declaration>, p: Text)
    requires Typed(rules, pending) && Buildable(rules, pending) && p in Declare(pending)
    ensures rules.utf8(p) && ValidPath(rules, p)
    ensures Declare(pending)[p].SymlinkTo? ==> rules.utf8(Declare(pending)[p].target) && ValidTarget(rules, Declare(pending)[p].target)
    ensures Declare(pending)[p].FileAt? ==> StampOk(rules, Declare(pending)[p].contract)
    ensures Declare(pending)[p].FileAt? ==> ValidRun(Declare(pending)[p].records, Records.Total(Declare(pending)[p].records))
  {
    hide Declare, ValidPath, ValidTarget, Topology, DistinctPaths, LinksOk, StampOk, ValidRun;
    DeclareFrom(pending, p);
    var i :| 0 <= i < |pending| && pending[i].path == p && pending[i].pending == Declare(pending)[p];
    assert TypedAt(rules, pending[i]) && DeclarationOk(rules, pending[i]);
  }

  lemma FileIsTyped(rules: TextRules, pending: seq<Declaration>, p: Text)
    requires Typed(rules, pending) && Buildable(rules, pending) && p in Rerooted(Declare(pending)) && Rerooted(Declare(pending))[p].FileAt?
    ensures var file := Rerooted(Declare(pending))[p];
      var body := CanonicalBody(file.planner, file.contract, file.records);
      body.Some? ==> BodyOk(rules, body.value)
  {
    hide Declare, Topology, DistinctPaths, RunsOk, LinksOk, Rerooted, StampOk, Typed, DeclarationOk, NoAdjacentHoles;
    var decl := Declare(pending);
    SharedKeys(decl);
    RerootedFrom(decl, p);
    var q :| q in decl && decl[q] == Rerooted(decl)[p];
    PathIsTyped(rules, pending, q);
    var records := decl[q].records;
    if |records| == 1 {
      OneTotal(records);
    }
  }

  lemma SharedKeys(decl: Declared)
    requires LinksOk(decl)
    ensures Rerooted(decl).Keys == decl.Keys
  {
    hide Carrier, Group;
  }

  lemma HardlinkIsEarlier(pending: seq<Declaration>, s: Snapshot, items: seq<Item<TreeEntry>>, i: nat)
    requires LinksOk(Declare(pending)) && Lists(Rerooted(Declare(pending)), items) && Canonicalizes(items, s.entries)
    requires i < |items| && items[i].entry.TreeHardlink? && |pending| < U64
    ensures items[i].entry.ordinal < Count(s.entries, IsFile, i) && items[i].entry.ordinal < U64
  {
    hide Declare, LinksOk, Rerooted, Count, OrdinalOf, CanonicalEntry, Before;
    var tree := Rerooted(Declare(pending));
    RerootedLinksEarlier(Declare(pending));
    assert items[i].entry == Listed(tree, items[i].path);
    var c := tree[items[i].path].target;
    assert c in PathsOf(items);
    var j :| 0 <= j < |items| && items[j].path == c;
    Asymmetric(c, items[i].path);
    assert j < i;
    OrdinalIsCount(tree, items, j);
    assert items[j].entry == Listed(tree, c);
    CountStep(items, IsTreeFile, j);
    CountGrows(items, IsTreeFile, j + 1, i);
    CountGrows(items, IsTreeFile, 0, i);
    CountStart(items, IsTreeFile);
    SameCounts(items, s.entries, i);
    ListingFits(pending, items);
  }

  lemma CountStep<E>(items: seq<Item<E>>, file: E -> bool, j: nat)
    requires j < |items|
    ensures Count(items, file, j + 1) == Count(items, file, j) + (if file(items[j].entry) then 1 else 0)
  {
  }

  lemma CountStart<E>(items: seq<Item<E>>, file: E -> bool)
    ensures Count(items, file, 0) == 0
  {
  }

  lemma SameTreeOk(rules: TextRules, items: seq<Item<TreeEntry>>, entries: seq<Item<Entry>>)
    requires Canonicalizes(items, entries)
    ensures TreeOk(rules, items, IsTreeDirectory) <==> TreeOk(rules, entries, IsDirectory)
  {
    hide SplitParent, CanonicalBody;
    forall i | 0 <= i < |items| ensures items[i].path == entries[i].path && (IsTreeDirectory(items[i].entry) <==> IsDirectory(entries[i].entry)) {
      assert CanonicalAt(items[i], entries[i]);
    }
    forall i | 0 <= i < |items|
      ensures ParentListed(items, IsTreeDirectory, items[i].path) <==> ParentListed(entries, IsDirectory, entries[i].path)
    {
    }
  }

  /** Every snapshot a build writes is canonical, so it is what reading its bytes gives back. */
  lemma BuiltIsCanonical(rules: TextRules, parent: Option<Digest>, pending: seq<Declaration>, s: Snapshot)
    requires Typed(rules, pending) && Builds(rules, parent, pending, s)
    ensures Canonical(rules, s) && Parse(rules, Emit(s)) == Some(s)
  {
    hide Typed, Declare, LinksOk, RunsOk, Topology, Rerooted, Listed, EntriesOk, TreeOk, Parse, Emit, Count, WellListed, Sorted, DeclarationOk,
      DistinctPaths;
    var items :| BuildsVia(rules, parent, pending, s, items);
    forall i | 0 <= i < |items| ensures WellListed(rules, s.entries, i) { ItemIsWellListed(rules, pending, s, items, i); }
    SortedEntries(items, s.entries);
    IntoEntriesOk(rules, s.entries, 0);
    CountStart(s.entries, IsFile);
    assert s.entries[0..] == s.entries;
    SameTopology(rules, Declare(pending), items);
    SameTreeOk(rules, items, s.entries);
    TypedSize(rules, pending);
    ListingFits(pending, items);
    ParseEmit(rules, s);
  }

  lemma TypedSize(rules: TextRules, pending: seq<Declaration>)
    requires Typed(rules, pending)
    ensures |pending| < U64
  {
  }

  lemma SortedEntries(items: seq<Item<TreeEntry>>, entries: seq<Item<Entry>>)
    requires Sorted(items) && Canonicalizes(items, entries)
    ensures Sorted(entries)
  {
    hide CanonicalEntry, Before;
    forall i, j | 0 <= i < j < |entries| ensures Before(entries[i].path, entries[j].path) {
      assert CanonicalAt(items[i], entries[i]) && CanonicalAt(items[j], entries[j]);
    }
  }

  // --- every canonical snapshot is some build ------------------------------------------------------------

  /** Where the file with this ordinal is listed. */
  ghost function FileIndex(entries: seq<Item<Entry>>, ordinal: nat, n: nat): (j: nat)
    requires n <= |entries| && ordinal < Count(entries, IsFile, n)
    ensures j < n && IsFile(entries[j].entry) && Count(entries, IsFile, j) == ordinal
  {
    if IsFile(entries[n - 1].entry) && Count(entries, IsFile, n - 1) == ordinal then n - 1 else FileIndex(entries, ordinal, n - 1)
  }

  /** A body as its staging record run. */
  function BodyRecords(body: FileBody): seq<FileRecord> {
    match body
    case Tensor(_, _, _, records) => records
    case Blob(size, digest) => if size == 0 then [] else [Data(digest, size)]
  }

  function BodyPlanner(body: FileBody): Planner { if body.Tensor? then body.format else BlobV1 }

  function BodyContract(body: FileBody): Stamp { if body.Tensor? then body.contract else Unstamped }

  ghost function Redeclared(entries: seq<Item<Entry>>, i: nat): Pending
    requires i < |entries| && (entries[i].entry.Hardlink? ==> entries[i].entry.ordinal < Count(entries, IsFile, i))
  {
    match entries[i].entry
    case Directory => DirectoryAt
    case File(executable, body) => FileAt(executable, BodyPlanner(body), BodyContract(body), BodyRecords(body))
    case Symlink(target) => SymlinkTo(target)
    case Hardlink(ordinal) => HardlinkTo(entries[FileIndex(entries, ordinal, i)].path)
  }

  ghost predicate OrdinalsOk(entries: seq<Item<Entry>>) {
    forall i | 0 <= i < |entries| :: entries[i].entry.Hardlink? ==> entries[i].entry.ordinal < Count(entries, IsFile, i)
  }

  /** Declaring each entry of a snapshot, hardlinks against the path of their file. */
  ghost function Redeclare(entries: seq<Item<Entry>>): (d: seq<Declaration>)
    requires OrdinalsOk(entries)
    ensures |d| == |entries|
    ensures forall i | 0 <= i < |d| :: d[i] == Declaration(entries[i].path, Redeclared(entries, i))
  {
    seq(|entries|, i requires 0 <= i < |entries| => Declaration(entries[i].path, Redeclared(entries, i)))
  }

  /** The redeclared map, path by path. */
  ghost predicate Mirrors(entries: seq<Item<Entry>>, decl: Declared) {
    && OrdinalsOk(entries) && Sorted(entries) && PathsOf(entries) == decl.Keys
    && forall i | 0 <= i < |entries| :: entries[i].path in decl && decl[entries[i].path] == Redeclared(entries, i)
  }

  lemma RedeclareMirrors(entries: seq<Item<Entry>>)
    requires OrdinalsOk(entries) && Sorted(entries)
    ensures DistinctPaths(Redeclare(entries)) && Mirrors(entries, Declare(Redeclare(entries)))
  {
    hide Redeclared, Declare, Count;
    var pending := Redeclare(entries);
    forall i, j | 0 <= i < j < |pending| ensures pending[i].path != pending[j].path { Asymmetric(entries[i].path, entries[j].path); }
    forall i | 0 <= i < |entries| ensures entries[i].path in Declare(pending) && Declare(pending)[entries[i].path] == Redeclared(entries, i) {
      DeclareAt(pending, i);
    }
    forall p | p in Declare(pending) ensures p in PathsOf(entries) { DeclareFrom(pending, p); }
  }

  /** Which listed entry a path is. */
  lemma IndexOf(entries: seq<Item<Entry>>, decl: Declared, p: Text) returns (i: nat)
    requires Mirrors(entries, decl) && p in decl
    ensures i < |entries| && entries[i].path == p && decl[p] == Redeclared(entries, i)
  {
    assert p in PathsOf(entries);
    i :| 0 <= i < |entries| && entries[i].path == p;
  }

  lemma SamePathSameIndex(entries: seq<Item<Entry>>, i: nat, j: nat)
    requires Sorted(entries) && i < |entries| && j < |entries| && entries[i].path == entries[j].path
    ensures i == j
  {
    if i < j { Asymmetric(entries[i].path, entries[j].path); }
    if j < i { Asymmetric(entries[j].path, entries[i].path); }
  }

  lemma MirrorLinksOk(entries: seq<Item<Entry>>, decl: Declared)
    requires Mirrors(entries, decl)
    ensures LinksOk(decl)
  {
    hide PathsOf, Sorted;
    forall p | p in decl ensures LinkOk(decl, p) {
      var i := IndexOf(entries, decl, p);
      if entries[i].entry.Hardlink? {
        var j := FileIndex(entries, entries[i].entry.ordinal, i);
        assert decl[entries[j].path] == Redeclared(entries, j);
      }
    }
  }

  /** Every group's declared file is already its first path. */
  lemma MirrorCarrier(entries: seq<Item<Entry>>, decl: Declared, p: Text)
    requires Mirrors(entries, decl) && LinksOk(decl) && Shares(decl, p)
    ensures Carrier(decl, p) == Origin(decl, p)
  {
    hide PathsOf, LinksOk, Count;
    var f := Origin(decl, p);
    forall q | q in Group(decl, p) ensures q == f || Before(f, q) {
      var i := IndexOf(entries, decl, q);
      if entries[i].entry.Hardlink? {
        var j := FileIndex(entries, entries[i].entry.ordinal, i);
      }
    }
    LeastUnique(Carrier(decl, p), f, Group(decl, p));
  }

  lemma MirrorIsRerooted(entries: seq<Item<Entry>>, decl: Declared)
    requires Mirrors(entries, decl) && LinksOk(decl)
    ensures Rerooted(decl) == decl
  {
    hide Mirrors, LinksOk, Carrier;
    forall p | p in decl ensures Rerooted(decl)[p] == decl[p] {
      if Shares(decl, p) {
        MirrorCarrier(entries, decl, p);
        if decl[p].HardlinkTo? { NotItsOwnTarget(decl, p); }
      }
    }
  }

  lemma NotItsOwnTarget(decl: Declared, p: Text)
    requires LinksOk(decl) && p in decl && decl[p].HardlinkTo?
    ensures decl[p].target != p
  {
    assert LinkOk(decl, p);
  }

  /** The listing of a redeclared snapshot. */
  ghost function Relisted(entries: seq<Item<Entry>>, decl: Declared): (items: seq<Item<TreeEntry>>)
    requires Mirrors(entries, decl)
    ensures |items| == |entries|
    ensures forall i | 0 <= i < |items| :: items[i] == Item(entries[i].path, Listed(decl, entries[i].path))
  {
    seq(|entries|, i requires 0 <= i < |entries| => Item(entries[i].path, Listed(decl, entries[i].path)))
  }

  lemma RelistedLists(entries: seq<Item<Entry>>, decl: Declared)
    requires Mirrors(entries, decl)
    ensures Lists(decl, Relisted(entries, decl))
  {
    hide Listed, Redeclared, Before;
    var items := Relisted(entries, decl);
    forall p | p in PathsOf(entries) ensures p in PathsOf(items) {
      var i :| 0 <= i < |entries| && entries[i].path == p;
      assert items[i].path == p;
    }
  }

  lemma {:induction false} RelistedCounts(entries: seq<Item<Entry>>, decl: Declared, n: nat)
    requires Mirrors(entries, decl) && n <= |entries|
    ensures Count(Relisted(entries, decl), IsTreeFile, n) == Count(entries, IsFile, n)
  {
    hide Sorted, PathsOf;
    if n > 0 {
      RelistedCounts(entries, decl, n - 1);
      assert decl[entries[n - 1].path] == Redeclared(entries, n - 1);
    }
  }

  lemma BodyReturns(rules: TextRules, body: FileBody)
    requires BodyOk(rules, body)
    ensures CanonicalBody(BodyPlanner(body), BodyContract(body), BodyRecords(body)) == Some(body)
    ensures ValidRun(BodyRecords(body), Records.Total(BodyRecords(body)))
  {
    hide StampOk;
    if body.Blob? && body.logicalSize > 0 {
      OneTotal(BodyRecords(body));
    }
  }

  lemma EntryReturns(rules: TextRules, entries: seq<Item<Entry>>, decl: Declared, i: nat)
    requires Mirrors(entries, decl) && i < |entries| && WellListed(rules, entries, i)
    ensures CanonicalAt(Relisted(entries, decl)[i], entries[i])
  {
    hide Sorted, PathsOf, CanonicalBody, OrdinalOf, Count, BodyOk, ValidPath;
    assert decl[entries[i].path] == Redeclared(entries, i);
    match entries[i].entry
    case Directory =>
    case Symlink(_) =>
    case File(_, body) => BodyReturns(rules, body);
    case Hardlink(ordinal) =>
      var j := FileIndex(entries, ordinal, i);
      RelistedLists(entries, decl);
      OrdinalIsCount(decl, Relisted(entries, decl), j);
      RelistedCounts(entries, decl, j);
  }

  lemma RedeclaredOk(rules: TextRules, entries: seq<Item<Entry>>, i: nat)
    requires OrdinalsOk(entries) && i < |entries| && WellListed(rules, entries, i)
    ensures DeclarationOk(rules, Redeclare(entries)[i]) && TypedAt(rules, Redeclare(entries)[i])
    ensures Redeclared(entries, i).FileAt? ==>
      ValidRun(Redeclared(entries, i).records, Records.Total(Redeclared(entries, i).records))
  {
    hide ValidPath, ValidRun, Count, CanonicalBody;
    if entries[i].entry.File? {
      BodyReturns(rules, entries[i].entry.body);
    }
  }

  /** Every canonical snapshot is what some build writes. */
  lemma EveryCanonicalIsBuilt(rules: TextRules, s: Snapshot)
    requires Canonical(rules, s)
    ensures OrdinalsOk(s.entries)
    ensures Typed(rules, Redeclare(s.entries)) && Builds(rules, s.parent, Redeclare(s.entries), s)
  {
    hide EntriesOk, ValidRun, Redeclared, Declare, Rerooted, Lists, TreeOk, Topology, LinksOk, DeclarationOk, TypedAt, Mirrors, CanonicalAt,
      DistinctPaths, Sorted, Count, WellListed;
    CanonicalMeans(rules, s.entries);
    WellListedOrdinals(rules, s.entries);
    var pending := Redeclare(s.entries);
    var decl := Declare(pending);
    RedeclareMirrors(s.entries);
    MirrorLinksOk(s.entries, decl);
    MirrorIsRerooted(s.entries, decl);
    var items := Relisted(s.entries, decl);
    RelistedLists(s.entries, decl);
    forall i | 0 <= i < |items| ensures CanonicalAt(items[i], s.entries[i]) { EntryReturns(rules, s.entries, decl, i); }
    forall i | 0 <= i < |pending| ensures DeclarationOk(rules, pending[i]) && TypedAt(rules, pending[i]) { RedeclaredOk(rules, s.entries, i); }
    MirrorRunsOk(rules, s.entries, decl);
    SameTreeOk(rules, items, s.entries);
    SameTopology(rules, decl, items);
    assert BuildsVia(rules, s.parent, pending, s, items);
  }

  lemma WellListedOrdinals(rules: TextRules, entries: seq<Item<Entry>>)
    requires forall i | 0 <= i < |entries| :: WellListed(rules, entries, i)
    ensures OrdinalsOk(entries)
  {
    hide ValidPath, Count;
    forall i | 0 <= i < |entries| ensures entries[i].entry.Hardlink? ==> entries[i].entry.ordinal < Count(entries, IsFile, i) {
      assert WellListed(rules, entries, i);
    }
  }

  lemma MirrorRunsOk(rules: TextRules, entries: seq<Item<Entry>>, decl: Declared)
    requires Mirrors(entries, decl) && forall i | 0 <= i < |entries| :: WellListed(rules, entries, i)
    ensures RunsOk(decl)
  {
    hide ValidRun, Redeclared, Mirrors, WellListed, Redeclare;
    MirrorOrdinals(entries, decl);
    forall p | p in decl && decl[p].FileAt? ensures ValidRun(decl[p].records, Records.Total(decl[p].records)) {
      var i := IndexOf(entries, decl, p);
      RedeclaredOk(rules, entries, i);
    }
  }

  lemma MirrorOrdinals(entries: seq<Item<Entry>>, decl: Declared)
    requires Mirrors(entries, decl)
    ensures OrdinalsOk(entries)
  {
  }

  /** The byte strings the strict reader accepts are exactly the bytes builds write. */
  lemma AcceptsExactlyBuilt(rules: TextRules, bytes: Bytes)
    ensures Parse(rules, bytes).Some? <==>
      exists parent, pending, s :: Typed(rules, pending) && Builds(rules, parent, pending, s) && Emit(s) == bytes
  {
    hide Parse, Emit, Canonical, Typed, Builds, OrdinalsOk, Redeclare;
    if Parse(rules, bytes).Some? {
      var s := Parse(rules, bytes).value;
      EmitParse(rules, bytes);
      EveryCanonicalIsBuilt(rules, s);
      assert Builds(rules, s.parent, Redeclare(s.entries), s);
    }
    if exists parent, pending, s :: Typed(rules, pending) && Builds(rules, parent, pending, s) && Emit(s) == bytes {
      var parent, pending, s :| Typed(rules, pending) && Builds(rules, parent, pending, s) && Emit(s) == bytes;
      BuiltIsCanonical(rules, parent, pending, s);
    }
  }
}
