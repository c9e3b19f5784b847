/** The sole TFM1 writer: declarations in any order, one tree, one listing. */
module Tfm1Builder {
  import opened Records
  import opened Paths
  import opened Tfm1
  import opened PathOrder

  datatype Pending =
    | DirectoryAt
    | FileAt(executable: bool, planner: Planner, contract: Stamp, records: seq<FileRecord>)
    | SymlinkTo(target: Text)
    | HardlinkTo(target: Text)

  datatype Declaration = Declaration(path: Text, pending: Pending)

  datatype TreeEntry =
    | TreeDirectory
    | TreeFile(executable: bool, planner: Planner, contract: Stamp, records: seq<FileRecord>)
    | TreeSymlink(target: Text)
    | TreeHardlink(ordinal: nat)

  predicate IsTreeDirectory(entry: TreeEntry) { entry.TreeDirectory? }

  // --- the declared tree ---------------------------------------------------------------------------

  type Declared = map<Text, Pending>

  /** What the declarations say; the last one wins, and a second one is refused. */
  function Declare(pending: seq<Declaration>): Declared {
    if pending == [] then map[]
    else Declare(pending[..|pending| - 1])[pending[|pending| - 1].path := pending[|pending| - 1].pending]
  }

  ghost predicate DeclarationOk(rules: TextRules, d: Declaration) {
    ValidPath(rules, d.path) && (d.pending.SymlinkTo? ==> ValidTarget(rules, d.pending.target))
  }

  ghost predicate DistinctPaths(pending: seq<Declaration>) {
    forall i, j | 0 <= i < j < |pending| :: pending[i].path != pending[j].path
  }

  predicate LinkOk(decl: Declared, p: Text)
    requires p in decl
  {
    decl[p].HardlinkTo? ==> decl[p].target in decl && decl[decl[p].target].FileAt?
  }

  /** Every hardlink was declared against a declared file. */
  predicate LinksOk(decl: Declared) { forall p | p in decl :: LinkOk(decl, p) }

  predicate Shares(decl: Declared, p: Text) { p in decl && (decl[p].FileAt? || decl[p].HardlinkTo?) }

  /** The declared file behind a file or hardlink path. */
  function Origin(decl: Declared, p: Text): (q: Text)
    requires LinksOk(decl) && Shares(decl, p)
    ensures q in decl && decl[q].FileAt?
  {
    if decl[p].FileAt? then p else
      assert LinkOk(decl, p);
      decl[p].target
  }

  /** All the paths of one file. */
  ghost function Group(decl: Declared, p: Text): (g: set<Text>)
    requires LinksOk(decl) && Shares(decl, p)
    ensures p in g && Origin(decl, p) in g
  {
    set q | q in decl && Shares(decl, q) && Origin(decl, q) == Origin(decl, p)
  }

  /** The first path of the group, where its body goes. */
  ghost function Carrier(decl: Declared, p: Text): (c: Text)
    requires LinksOk(decl) && Shares(decl, p)
    ensures IsLeast(c, Group(decl, p))
  {
    Least(Group(decl, p))
  }

  /** Every group re-rooted on its carrier. */
  ghost function Rerooted(decl: Declared): Declared
    requires LinksOk(decl)
  {
    map p | p in decl ::
      if !Shares(decl, p) then decl[p]
      else if Carrier(decl, p) == p then decl[Origin(decl, p)]
      else HardlinkTo(Carrier(decl, p))
  }

  /** A file's ordinal: how many files come before it. */
  ghost function OrdinalOf(tree: Declared, p: Text): nat { |set q | q in tree && tree[q].FileAt? && Before(q, p)| }

  ghost function Listed(tree: Declared, p: Text): TreeEntry
    requires p in tree
  {
    match tree[p]
    case DirectoryAt => TreeDirectory
    case FileAt(executable, planner, contract, records) => TreeFile(executable, planner, contract, records)
    case SymlinkTo(target) => TreeSymlink(target)
    case HardlinkTo(target) => TreeHardlink(OrdinalOf(tree, target))
  }

  /** The listing of a tree: sorted, complete, each entry as the tree says. */
  ghost predicate Lists(tree: Declared, items: seq<Item<TreeEntry>>) {
    && Sorted(items) && PathsOf(items) == tree.Keys
    && forall i | 0 <= i < |items| :: items[i].path in tree && items[i].entry == Listed(tree, items[i].path)
  }

  ghost predicate RunsOk(decl: Declared) {
    forall p | p in decl && decl[p].FileAt? :: ValidRun(decl[p].records, Total(decl[p].records))
  }

  ghost predicate Topology(rules: TextRules, decl: Declared) {
    && (forall p, q | p in decl && q in decl && rules.fold(p) == rules.fold(q) :: p == q)
    && (forall p | p in decl && SplitParent(p).0.Some? ::
          SplitParent(p).0.value in decl && decl[SplitParent(p).0.value].DirectoryAt?)
  }

  /** What a build asks of its declarations. */
  ghost predicate Buildable(rules: TextRules, pending: seq<Declaration>) {
    && (forall i | 0 <= i < |pending| :: DeclarationOk(rules, pending[i])) && DistinctPaths(pending)
    && LinksOk(Declare(pending)) && RunsOk(Declare(pending)) && Topology(rules, Declare(pending))
  }

  // --- only the tree matters ---------------------------------------------------------------------------

  /** The same paths and kinds, the same file bodies, the same link groups; which member of a
      group was declared as the file may differ. */
  ghost predicate SameTree(a: Declared, b: Declared)
    requires LinksOk(a) && LinksOk(b)
  {
    && a.Keys == b.Keys
    && forall p | p in a :: SameAt(a, b, p)
  }

  ghost predicate SameAt(a: Declared, b: Declared, p: Text)
    requires LinksOk(a) && LinksOk(b) && p in a && p in b
  {
    if Shares(a, p) then Shares(b, p) && a[Origin(a, p)] == b[Origin(b, p)] && Group(a, p) == Group(b, p) else a[p] == b[p]
  }

  lemma SameTreeRerooted(a: Declared, b: Declared)
    requires LinksOk(a) && LinksOk(b) && SameTree(a, b)
    ensures Rerooted(a) == Rerooted(b)
  {
    hide Origin, Group, LinksOk;
    forall p | p in a ensures Rerooted(a)[p] == Rerooted(b)[p] {
      assert SameAt(a, b, p);
      if Shares(a, p) {
        LeastUnique(Carrier(a, p), Carrier(b, p), Group(a, p));
      }
    }
  }

  /** Two successful builds of one tree list the same entries and ordinals. */
  lemma ListingDependsOnTree(a: Declared, b: Declared, x: seq<Item<TreeEntry>>, y: seq<Item<TreeEntry>>)
    requires LinksOk(a) && LinksOk(b) && SameTree(a, b) && Lists(Rerooted(a), x) && Lists(Rerooted(b), y)
    ensures x == y
  {
    hide Rerooted, SameTree, LinksOk, Listed;
    SameTreeRerooted(a, b);
    var tree := Rerooted(a);
    ListingUnique(x, y, map p | p in tree :: Listed(tree, p));
  }

  /** The same tree with `g`, another path of file `f`, declared as the file instead. */
  function Recast(decl: Declared, f: Text, g: Text): Declared
    requires LinksOk(decl) && f in decl
  {
    map p | p in decl ::
      if !Shares(decl, p) || Origin(decl, p) != f then decl[p] else if p == g then decl[f] else HardlinkTo(g)
  }

  /** Any member of a link group may be the one declared as its file. */
  lemma AnyMemberMayBeTheFile(decl: Declared, f: Text, g: Text)
    requires LinksOk(decl) && f in decl && decl[f].FileAt? && g in Group(decl, f)
    ensures LinksOk(Recast(decl, f, g)) && SameTree(decl, Recast(decl, f, g))
  {
    var cast := Recast(decl, f, g);
    forall p | p in cast ensures LinkOk(cast, p) { assert LinkOk(decl, p); }
    forall p | p in decl ensures SameAt(decl, cast, p) {
      RecastOrigin(decl, f, g, p);
      if Shares(decl, p) {
        forall q | q in decl ensures q in Group(decl, p) <==> q in Group(cast, p) { RecastOrigin(decl, f, g, q); }
      }
    }
  }

  lemma RecastOrigin(decl: Declared, f: Text, g: Text, p: Text)
    requires LinksOk(decl) && f in decl && decl[f].FileAt? && g in Group(decl, f) && LinksOk(Recast(decl, f, g)) && p in decl
    ensures Shares(Recast(decl, f, g), p) <==> Shares(decl, p)
    ensures Shares(decl, p) ==> Origin(Recast(decl, f, g), p) == (if Origin(decl, p) == f then g else Origin(decl, p))
  {
  }

  /** Any permutation of the declarations declares the same tree. */
  lemma {:induction false} DeclareAt(pending: seq<Declaration>, i: nat)
    requires DistinctPaths(pending) && i < |pending|
    ensures pending[i].path in Declare(pending) && Declare(pending)[pending[i].path] == pending[i].pending
  {
    var n := |pending| - 1;
    if i < n {
      DeclareAt(pending[..n], i);
    }
  }

  lemma {:induction false} DeclareFrom(pending: seq<Declaration>, p: Text)
    requires p in Declare(pending)
    ensures exists i :: 0 <= i < |pending| && pending[i].path == p && pending[i].pending == Declare(pending)[p]
  {
    var n := |pending| - 1;
    if pending[n].path != p {
      DeclareFrom(pending[..n], p);
      var i :| 0 <= i < |pending[..n]| && pending[..n][i].path == p && pending[..n][i].pending == Declare(pending[..n])[p];
      assert pending[i] == pending[..n][i];
    }
  }

  lemma OrderDoesNotMatter(a: seq<Declaration>, b: seq<Declaration>)
    requires DistinctPaths(a) && DistinctPaths(b) && multiset(a) == multiset(b)
    ensures Declare(a) == Declare(b)
  {
    SubDeclare(a, b);
    SubDeclare(b, a);
  }

  lemma SubDeclare(a: seq<Declaration>, b: seq<Declaration>)
    requires DistinctPaths(a) && DistinctPaths(b) && multiset(a) == multiset(b)
    ensures forall p | p in Declare(a) :: p in Declare(b) && Declare(b)[p] == Declare(a)[p]
  {
    forall p | p in Declare(a) ensures p in Declare(b) && Declare(b)[p] == Declare(a)[p] {
      DeclareFrom(a, p);
      var i :| 0 <= i < |a| && a[i].path == p && a[i].pending == Declare(a)[p];
      assert a[i] in multiset(a);
      assert a[i] in multiset(b);
      var j :| 0 <= j < |b| && b[j] == a[i];
      DeclareAt(b, j);
    }
  }
}
