/** The builder as it runs: collect, group, re-root, number, list. */
module Tfm1Resolve {
  import opened Wrappers
  import opened Records
  import opened Paths
  import opened Tfm1
  import opened Tfm1Decode
  import opened PathOrder
  import opened Tfm1Builder

  // --- declarations into a map -----------------------------------------------------------------------

  method Collect(rules: TextRules, pending: seq<Declaration>) returns (r: Option<Declared>)
    ensures r.Some? <==> (forall i | 0 <= i < |pending| :: DeclarationOk(rules, pending[i])) && DistinctPaths(pending)
    ensures r.Some? ==> r.value == Declare(pending)
  {
    hide ValidPath, ValidTarget;
    var decl: Declared := map[];
    for i := 0 to |pending|
      invariant decl == Declare(pending[..i])
      invariant forall k | 0 <= k < i :: DeclarationOk(rules, pending[k])
      invariant forall j, k | 0 <= j < k < i :: pending[j].path != pending[k].path
      invariant forall p :: p in decl <==> exists k :: 0 <= k < i && pending[k].path == p
    {
      var d := pending[i];
      if !ValidPath(rules, d.path) || (d.pending.SymlinkTo? && !ValidTarget(rules, d.pending.target)) {
        return None;
      }
      if d.path in decl {
        return None;
      }
      decl := decl[d.path := d.pending];
      assert pending[..i + 1][..i] == pending[..i];
    }
    assert pending[..|pending|] == pending;
    return Some(decl);
  }

  // --- link groups -------------------------------------------------------------------------------------

  type Groups = map<Text, set<Text>>

  /** Per linked file, the hardlinks declared against it. */
  ghost predicate GroupsOf(decl: Declared, groups: Groups) {
    && (forall f | f in groups :: f in decl && decl[f].FileAt? && groups[f] == LinksTo(decl, f) && groups[f] != {})
    && (forall p | p in decl && decl[p].HardlinkTo? :: decl[p].target in groups)
  }

  function LinksTo(decl: Declared, f: Text): set<Text> { set p | p in decl && decl[p] == HardlinkTo(f) }

  method GroupLinks(decl: Declared) returns (r: Option<Groups>)
    ensures r.Some? <==> LinksOk(decl)
    ensures r.Some? ==> GroupsOf(decl, r.value)
  {
    var groups: Groups := map[];
    var rest := decl.Keys;
    while rest != {}
      invariant rest <= decl.Keys
      invariant forall p | p in decl && p !in rest :: LinkOk(decl, p)
      invariant forall f | f in groups :: f in decl && decl[f].FileAt? && groups[f] == LinksTo(decl, f) - rest && groups[f] != {}
      invariant forall p | p in decl && p !in rest && decl[p].HardlinkTo? :: decl[p].target in groups
      decreases |rest|
    {
      var p :| p in rest;
      if decl[p].HardlinkTo? {
        var f := decl[p].target;
        if f !in decl || !decl[f].FileAt? {
          assert !LinkOk(decl, p);
          return None;
        }
        NewLink(decl, groups, rest, p);
        groups := groups[f := (if f in groups then groups[f] else {}) + {p}];
      }
      rest := rest - {p};
    }
    return Some(groups);
  }

  lemma NewLink(decl: Declared, groups: Groups, rest: set<Text>, p: Text)
    requires p in decl && p in rest && decl[p].HardlinkTo?
    requires forall f | f in groups :: groups[f] == LinksTo(decl, f) - rest
    requires forall q | q in decl && q !in rest && decl[q].HardlinkTo? :: decl[q].target in groups
    ensures var f := decl[p].target;
      (if f in groups then groups[f] else {}) + {p} == LinksTo(decl, f) - (rest - {p})
    ensures forall f | f in groups && f != decl[p].target :: LinksTo(decl, f) - (rest - {p}) == LinksTo(decl, f) - rest
  {
  }

  // --- re-rooting --------------------------------------------------------------------------------------

  function Overlay(tree: Declared, paths: set<Text>, value: Pending): Declared {
    map p | p in tree.Keys + paths :: if p in paths then value else tree[p]
  }

  /** The tree once the groups of the files in `done` have been re-rooted. */
  ghost function Partly(decl: Declared, done: set<Text>): Declared
    requires LinksOk(decl)
  {
    map p | p in decl :: if Shares(decl, p) && Origin(decl, p) in done then Rerooted(decl)[p] else decl[p]
  }

  method Reroot(decl: Declared, groups: Groups) returns (tree: Declared)
    requires LinksOk(decl) && GroupsOf(decl, groups)
    ensures tree == Rerooted(decl)
  {
    hide Rerooted, Carrier, Group, Origin, GroupsOf, LinksOk, LinksTo;
    tree := decl;
    var todo := groups.Keys;
    ghost var done: set<Text> := {};
    while todo != {}
      invariant done + todo == groups.Keys && done !! todo && tree == Partly(decl, done)
      decreases |todo|
    {
      var f :| f in todo;
      var links := groups[f];
      GroupIs(decl, groups, f);
      var carrier := LeastOf(links + {f});
      LeastUnique(carrier, Carrier(decl, f), Group(decl, f));
      if carrier != f {
        var body := tree[f];
        tree := tree[f := HardlinkTo(carrier)];
        tree := PointAll(tree, links, carrier);
        tree := tree[carrier := body];
      }
      RerootOne(decl, done, f, links, carrier);
      todo, done := todo - {f}, done + {f};
    }
    UnlinkedFilesStay(decl, groups);
  }

  /** Every link of a group now points at its carrier. */
  method PointAll(before: Declared, links: set<Text>, carrier: Text) returns (tree: Declared)
    ensures tree == Overlay(before, links, HardlinkTo(carrier))
  {
    hide Overlay;
    tree := before;
    var rest := links;
    ghost var seen: set<Text> := {};
    OverlayNothing(before, HardlinkTo(carrier));
    while rest != {}
      invariant seen + rest == links && tree == Overlay(before, seen, HardlinkTo(carrier))
      decreases |rest|
    {
      var p :| p in rest;
      OverlayOne(before, seen, p, HardlinkTo(carrier));
      tree := tree[p := HardlinkTo(carrier)];
      rest, seen := rest - {p}, seen + {p};
    }
  }

  lemma OverlayNothing(tree: Declared, value: Pending)
    ensures Overlay(tree, {}, value) == tree
  {
  }

  lemma OverlayOne(tree: Declared, seen: set<Text>, p: Text, value: Pending)
    ensures Overlay(tree, seen + {p}, value) == Overlay(tree, seen, value)[p := value]
  {
  }

  lemma GroupIs(decl: Declared, groups: Groups, f: Text)
    requires LinksOk(decl) && GroupsOf(decl, groups) && f in groups
    ensures Shares(decl, f) && Origin(decl, f) == f && Group(decl, f) == groups[f] + {f} && f in decl && f !in groups[f]
  {
  }

  /** Members of one group share its carrier and its body. */
  lemma SameGroup(decl: Declared, p: Text, q: Text)
    requires LinksOk(decl) && Shares(decl, p) && q in Group(decl, p)
    ensures Shares(decl, q) && Origin(decl, q) == Origin(decl, p) && Group(decl, q) == Group(decl, p)
    ensures Carrier(decl, q) == Carrier(decl, p)
  {
    hide LinksOk;
    assert Group(decl, q) == Group(decl, p);
    LeastUnique(Carrier(decl, q), Carrier(decl, p), Group(decl, p));
  }

  /** Before and after one group is re-rooted. */
  lemma RerootOne(decl: Declared, done: set<Text>, f: Text, links: set<Text>, carrier: Text)
    requires LinksOk(decl) && f !in done && f in decl && Shares(decl, f) && Origin(decl, f) == f
    requires Group(decl, f) == links + {f} && carrier == Carrier(decl, f) && f !in links
    ensures var now := Partly(decl, done);
      && f in now && now[f] == decl[f]
      && Partly(decl, done + {f})
         == (if carrier == f then now else Overlay(now[f := HardlinkTo(carrier)], links, HardlinkTo(carrier))[carrier := decl[f]])
  {
    hide LinksOk, Carrier, Origin, Group, Overlay, Rerooted;
    var now, next := Partly(decl, done), Partly(decl, done + {f});
    forall p | p in decl ensures next[p] == (
      if p !in links + {f} then now[p] else if p == carrier then decl[f] else HardlinkTo(carrier))
    {
      RerootAt(decl, done, f, links, carrier, p);
    }
    forall p | p in links + {f} ensures p in decl { GroupDeclared(decl, f, p); }
    assert carrier in links + {f};
    if carrier == f {
      forall p | p in decl ensures now[p] == next[p] {
        if p in links {
          SameGroup(decl, f, p);
          LinkPoints(decl, f, p);
        }
      }
    } else {
      AsOverlay(now, next, links, f, carrier, decl[f]);
    }
  }

  lemma AsOverlay(now: Declared, next: Declared, links: set<Text>, f: Text, carrier: Text, body: Pending)
    requires next.Keys == now.Keys && links + {f} <= now.Keys && carrier in links + {f}
    requires forall p | p in now :: next[p] == (if p !in links + {f} then now[p] else if p == carrier then body else HardlinkTo(carrier))
    ensures next == Overlay(now[f := HardlinkTo(carrier)], links, HardlinkTo(carrier))[carrier := body]
  {
  }

  lemma GroupDeclared(decl: Declared, f: Text, p: Text)
    requires LinksOk(decl) && Shares(decl, f) && p in Group(decl, f)
    ensures p in decl
  {
  }

  lemma RerootAt(decl: Declared, done: set<Text>, f: Text, links: set<Text>, carrier: Text, p: Text)
    requires LinksOk(decl) && f !in done && f in decl && Shares(decl, f) && Origin(decl, f) == f
    requires Group(decl, f) == links + {f} && carrier == Carrier(decl, f) && p in decl
    ensures Partly(decl, done + {f})[p] == (
      if p !in links + {f} then Partly(decl, done)[p] else if p == carrier then decl[f] else HardlinkTo(carrier))
  {
    hide LinksOk, Carrier, Origin;
    if p in links + {f} {
      SameGroup(decl, f, p);
    }
  }

  lemma LinkPoints(decl: Declared, f: Text, p: Text)
    requires LinksOk(decl) && Shares(decl, p) && Origin(decl, p) == f && p != f
    ensures decl[p] == HardlinkTo(f)
  {
  }

  /** A file no link names is its own carrier, and is already done. */
  lemma UnlinkedFilesStay(decl: Declared, groups: Groups)
    requires LinksOk(decl) && GroupsOf(decl, groups)
    ensures Partly(decl, groups.Keys) == Rerooted(decl)
  {
    hide Carrier;
    forall p | p in decl ensures Partly(decl, groups.Keys)[p] == Rerooted(decl)[p] {
      if Shares(decl, p) && Origin(decl, p) !in groups {
        assert LinkOk(decl, p);
        forall q | q in Group(decl, p) ensures q == p { assert LinkOk(decl, q); }
        assert Carrier(decl, p) in Group(decl, p);
      }
    }
  }

  /** After re-rooting, every hardlink points at an earlier path that holds the file. */
  ghost predicate LinksEarlier(tree: Declared) {
    forall p | p in tree && tree[p].HardlinkTo? ::
      tree[p].target in tree && tree[tree[p].target].FileAt? && Before(tree[p].target, p)
  }

  lemma CarrierHoldsFile(decl: Declared, p: Text)
    requires LinksOk(decl) && Shares(decl, p)
    ensures var c := Carrier(decl, p);
      && c in decl && Rerooted(decl)[c] == decl[Origin(decl, p)] && (c != p ==> Before(c, p))
  {
    hide LinksOk, Origin, Group;
    SameGroup(decl, p, Carrier(decl, p));
    InGroup(decl, p);
  }

  lemma InGroup(decl: Declared, p: Text)
    requires LinksOk(decl) && Shares(decl, p)
    ensures p in Group(decl, p)
  {
  }

  lemma RerootedLinksEarlier(decl: Declared)
    requires LinksOk(decl)
    ensures LinksEarlier(Rerooted(decl))
  {
    hide LinksOk, Carrier;
    var tree := Rerooted(decl);
    forall p | p in tree && tree[p].HardlinkTo?
      ensures tree[p].target in tree && tree[tree[p].target].FileAt? && Before(tree[p].target, p)
    {
      if Shares(decl, p) { CarrierHoldsFile(decl, p); }
    }
  }

  // --- numbering and listing --------------------------------------------------------------------------

  ghost function FilesAmong(tree: Declared, paths: set<Text>): set<Text> { set p | p in tree && p in paths && tree[p].FileAt? }

  /** Everything done comes before everything left. */
  ghost predicate Split(tree: Declared, done: set<Text>, rest: set<Text>) {
    done + rest == tree.Keys && done !! rest && forall p, q | p in done && q in rest :: Before(p, q)
  }

  ghost predicate ListsSoFar(tree: Declared, done: set<Text>, items: seq<Item<TreeEntry>>) {
    && Sorted(items) && PathsOf(items) == done
    && forall i | 0 <= i < |items| :: items[i].path in tree && items[i].entry == Listed(tree, items[i].path)
  }

  ghost predicate Numbered(tree: Declared, done: set<Text>, ordinals: map<Text, nat>) {
    ordinals.Keys == FilesAmong(tree, done) && forall p | p in ordinals :: ordinals[p] == OrdinalOf(tree, p)
  }

  ghost predicate RunOk(tree: Declared, p: Text)
    requires p in tree
  {
    tree[p].FileAt? ==> ValidRun(tree[p].records, Records.Total(tree[p].records))
  }

  /** Visits the paths in order, numbering files as it meets them. */
  method List(tree: Declared) returns (r: Option<seq<Item<TreeEntry>>>)
    requires LinksEarlier(tree)
    ensures r.Some? <==> RunsOk(tree)
    ensures r.Some? ==> Lists(tree, r.value)
  {
    hide LinksEarlier, FilesAmong, ValidRun, Listed, OrdinalOf, Split, ListsSoFar, Numbered, Sorted, PathsOf, Lists;
    var items: seq<Item<TreeEntry>>, ordinals: map<Text, nat> := [], map[];
    var rest := tree.Keys;
    ghost var done: set<Text> := {};
    ListStart(tree);
    while rest != {}
      invariant Split(tree, done, rest) && ListsSoFar(tree, done, items) && Numbered(tree, done, ordinals)
      invariant forall p | p in tree && p !in rest :: RunOk(tree, p)
      decreases |rest|
    {
      var p := LeastOf(rest);
      SplitStep(tree, done, rest, p);
      var entry;
      match tree[p] {
        case DirectoryAt =>
          entry := TreeDirectory;
        case FileAt(executable, planner, contract, records) =>
          var length := TotalLength(records);
          var ok := IsValidRun(records, length);
          if !ok {
            assert !RunOk(tree, p);
            return None;
          }
          entry := TreeFile(executable, planner, contract, records);
        case SymlinkTo(target) =>
          entry := TreeSymlink(target);
        case HardlinkTo(target) =>
          CarrierIsDone(tree, done, rest, p, ordinals);
          entry := TreeHardlink(ordinals[target]);
      }
      NumberStep(tree, done, rest, p, ordinals);
      if tree[p].FileAt? {
        ordinals := ordinals[p := |ordinals|];
      }
      ListedIs(tree, p);
      ListStep(tree, done, rest, items, p, entry);
      items := items + [Item(p, entry)];
      rest, done := rest - {p}, done + {p};
    }
    ListEnd(tree, done, items);
    return Some(items);
  }

  lemma ListStart(tree: Declared)
    ensures Split(tree, {}, tree.Keys) && ListsSoFar(tree, {}, []) && Numbered(tree, {}, map[])
  {
  }

  lemma SplitStep(tree: Declared, done: set<Text>, rest: set<Text>, p: Text)
    requires Split(tree, done, rest) && IsLeast(p, rest)
    ensures p in tree && Split(tree, done + {p}, rest - {p})
  {
  }

  lemma ListStep(tree: Declared, done: set<Text>, rest: set<Text>, items: seq<Item<TreeEntry>>, p: Text, entry: TreeEntry)
    requires Split(tree, done, rest) && ListsSoFar(tree, done, items) && p in rest && p in tree && entry == Listed(tree, p)
    ensures ListsSoFar(tree, done + {p}, items + [Item(p, entry)])
  {
    hide Listed;
    PathsAppend(items, Item(p, entry));
    forall i | 0 <= i < |items| ensures items[i].path in done { assert items[i].path in PathsOf(items); }
  }

  lemma NumberStep(tree: Declared, done: set<Text>, rest: set<Text>, p: Text, ordinals: map<Text, nat>)
    requires Split(tree, done, rest) && IsLeast(p, rest) && p in tree && Numbered(tree, done, ordinals)
    ensures Numbered(tree, done + {p}, if tree[p].FileAt? then ordinals[p := |ordinals|] else ordinals)
  {
    hide FilesAmong, OrdinalOf;
    NextOrdinal(tree, done, rest, p, ordinals);
    FilesStep(tree, done, p);
  }

  lemma ListEnd(tree: Declared, done: set<Text>, items: seq<Item<TreeEntry>>)
    requires Split(tree, done, {}) && ListsSoFar(tree, done, items)
    ensures Lists(tree, items)
  {
    assert done == tree.Keys;
  }

  lemma NextOrdinal(tree: Declared, done: set<Text>, rest: set<Text>, p: Text, ordinals: map<Text, nat>)
    requires done + rest == tree.Keys && done !! rest && IsLeast(p, rest) && (forall d | d in done :: Before(d, p))
    requires ordinals.Keys == FilesAmong(tree, done)
    ensures OrdinalOf(tree, p) == |ordinals|
  {
    forall q | q in tree && tree[q].FileAt? && Before(q, p) ensures q in FilesAmong(tree, done) {
      if q in rest {
        if q == p { Irreflexive(p); } else { Asymmetric(p, q); }
      }
    }
    assert (set q | q in tree && tree[q].FileAt? && Before(q, p)) == FilesAmong(tree, done);
  }

  lemma CarrierIsDone(tree: Declared, done: set<Text>, rest: set<Text>, p: Text, ordinals: map<Text, nat>)
    requires LinksEarlier(tree) && Split(tree, done, rest) && IsLeast(p, rest) && p in tree && tree[p].HardlinkTo?
    requires Numbered(tree, done, ordinals)
    ensures tree[p].target in ordinals && ordinals[tree[p].target] == OrdinalOf(tree, tree[p].target)
  {
    var c := tree[p].target;
    Asymmetric(c, p);
  }

  lemma ListedIs(tree: Declared, p: Text)
    requires p in tree
    ensures tree[p].DirectoryAt? ==> Listed(tree, p) == TreeDirectory
    ensures tree[p].FileAt? ==>
      Listed(tree, p) == TreeFile(tree[p].executable, tree[p].planner, tree[p].contract, tree[p].records)
    ensures tree[p].SymlinkTo? ==> Listed(tree, p) == TreeSymlink(tree[p].target)
    ensures tree[p].HardlinkTo? ==> Listed(tree, p) == TreeHardlink(OrdinalOf(tree, tree[p].target))
  {
    hide OrdinalOf;
  }

  lemma FilesStep(tree: Declared, done: set<Text>, p: Text)
    requires p in tree
    ensures FilesAmong(tree, done + {p}) == FilesAmong(tree, done) + (if tree[p].FileAt? then {p} else {})
  {
  }

  lemma PathsAppend<E>(items: seq<Item<E>>, item: Item<E>)
    ensures PathsOf(items + [item]) == PathsOf(items) + {item.path}
  {
    var all := items + [item];
    assert all[|items|] == item && forall i | 0 <= i < |items| :: all[i] == items[i];
    forall p | p in PathsOf(items) ensures p in PathsOf(all) {
      var i :| 0 <= i < |items| && items[i].path == p;
      assert all[i].path == p;
    }
  }

  // --- the whole resolution ----------------------------------------------------------------------------

  lemma SameRuns(decl: Declared)
    requires LinksOk(decl)
    ensures RunsOk(Rerooted(decl)) <==> RunsOk(decl)
  {
    hide LinksOk, Carrier, ValidRun, Group;
    var tree := Rerooted(decl);
    forall f | f in decl && decl[f].FileAt? ensures exists c :: c in tree && tree[c] == decl[f] {
      CarrierHoldsFile(decl, f);
      assert Carrier(decl, f) in tree;
    }
  }

  /** A sorted listing of the declared paths that agrees on which are directories. */
  ghost predicate SameDirectories(decl: Declared, items: seq<Item<TreeEntry>>) {
    && Sorted(items) && PathsOf(items) == decl.Keys
    && forall i | 0 <= i < |items| :: items[i].path in decl && (IsTreeDirectory(items[i].entry) <==> decl[items[i].path].DirectoryAt?)
  }

  /** The listing's topology is the tree's. */
  lemma SameTopology(rules: TextRules, decl: Declared, items: seq<Item<TreeEntry>>)
    requires LinksOk(decl) && Lists(Rerooted(decl), items)
    ensures TreeOk(rules, items, IsTreeDirectory) <==> Topology(rules, decl)
  {
    hide LinksOk, Carrier, OrdinalOf, Group, TreeOk, Topology, Sorted, PathsOf;
    var tree := Rerooted(decl);
    forall i | 0 <= i < |items| ensures items[i].path in decl && (IsTreeDirectory(items[i].entry) <==> decl[items[i].path].DirectoryAt?) {
      assert items[i].entry == Listed(tree, items[i].path);
    }
    if TreeOk(rules, items, IsTreeDirectory) {
      ListingGivesTopology(rules, decl, items);
    }
    if Topology(rules, decl) {
      TopologyGivesListing(rules, decl, items);
    }
  }

  lemma ListingGivesTopology(rules: TextRules, decl: Declared, items: seq<Item<TreeEntry>>)
    requires SameDirectories(decl, items) && TreeOk(rules, items, IsTreeDirectory)
    ensures Topology(rules, decl)
  {
    hide SplitParent, Sorted;
    forall p | p in decl ensures exists i :: 0 <= i < |items| && items[i].path == p { assert p in PathsOf(items); }
    forall p, q | p in decl && q in decl && rules.fold(p) == rules.fold(q) ensures p == q {
      var i :| 0 <= i < |items| && items[i].path == p;
      var j :| 0 <= j < |items| && items[j].path == q;
      assert !(i < j) && !(j < i);
    }
    forall p | p in decl && SplitParent(p).0.Some?
      ensures SplitParent(p).0.value in decl && decl[SplitParent(p).0.value].DirectoryAt?
    {
      var i :| 0 <= i < |items| && items[i].path == p;
      assert ParentListed(items, IsTreeDirectory, items[i].path);
    }
  }

  lemma TopologyGivesListing(rules: TextRules, decl: Declared, items: seq<Item<TreeEntry>>)
    requires SameDirectories(decl, items) && Topology(rules, decl)
    ensures TreeOk(rules, items, IsTreeDirectory)
  {
    hide SplitParent;
    forall i, j | 0 <= i < j < |items| ensures rules.fold(items[i].path) != rules.fold(items[j].path) {
      Asymmetric(items[i].path, items[j].path);
    }
    forall i | 0 <= i < |items| ensures ParentListed(items, IsTreeDirectory, items[i].path) {
      var parent := SplitParent(items[i].path).0;
      if parent.Some? {
        assert parent.value in PathsOf(items);
      }
    }
  }

  /** Resolves the declarations into the validated, numbered listing. */
  method Resolve(rules: TextRules, pending: seq<Declaration>) returns (r: Option<seq<Item<TreeEntry>>>)
    ensures r.Some? <==> Buildable(rules, pending)
    ensures r.Some? ==> LinksOk(Declare(pending)) && Lists(Rerooted(Declare(pending)), r.value)
  {
    hide DeclarationOk, DistinctPaths, LinksOk, RunsOk, Topology, Rerooted, Lists, GroupsOf, LinksEarlier, TreeOk;
    var decl := Collect(rules, pending);
    if decl.None? {
      return None;
    }
    var groups := GroupLinks(decl.value);
    if groups.None? {
      return None;
    }
    var tree := Reroot(decl.value, groups.value);
    RerootedLinksEarlier(decl.value);
    SameRuns(decl.value);
    var items := List(tree);
    if items.None? {
      return None;
    }
    SameTopology(rules, decl.value, items.value);
    var ok := ValidateTree(rules, items.value, IsTreeDirectory);
    return if ok then items else None;
  }
}
