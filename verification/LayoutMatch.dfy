/** Matching checkpoint headers against a computed layout, and the prefilters that skip it. */
module LayoutMatch {
  import opened Paths
  import opened Tfm1
  import opened PathOrder
  import MixedRadix

  datatype Tensor = Tensor(name: Text, shape: seq<nat>, dtype: Text)

  datatype ArtifactFile = ArtifactFile(path: Text, tensors: seq<Tensor>)

  datatype Declared = Declared(shape: seq<nat>, dtypes: seq<Text>, optional: bool)

  datatype Component = Component(name: Text, tensors: map<Text, Declared>)

  type Layout = seq<Component>

  // --- what a match means ---------------------------------------------------------------------------

  predicate Carries(component: Component, tensor: Tensor) {
    && tensor.name in component.tensors
    && component.tensors[tensor.name].shape == tensor.shape && tensor.dtype in component.tensors[tensor.name].dtypes
  }

  /** Every tensor of the member is declared by the component, at its shape and dtype. */
  ghost predicate Accepts(component: Component, file: ArtifactFile) {
    forall i | 0 <= i < |file.tensors| :: Carries(component, file.tensors[i])
  }

  function Names(file: ArtifactFile): set<Text> { set i | 0 <= i < |file.tensors| :: file.tensors[i].name }

  ghost predicate DistinctNames(file: ArtifactFile) {
    forall i, j | 0 <= i < j < |file.tensors| :: file.tensors[i].name != file.tensors[j].name
  }

  function Required(component: Component): set<Text> {
    set k | k in component.tensors && !component.tensors[k].optional
  }

  /** The keys of component `c` that the first `n` files cover. */
  ghost function Covered(files: seq<ArtifactFile>, a: seq<nat>, n: nat, c: nat): set<Text>
    requires n <= |files| == |a|
  {
    set i, k | 0 <= i < n && a[i] == c && k in Names(files[i]) :: k
  }

  /** Each member goes to one component that accepts it, no key of a component is covered
      twice, and every key that is not optional is covered. */
  ghost predicate Matches(files: seq<ArtifactFile>, layout: Layout, a: seq<nat>) {
    && |a| == |files|
    && (forall i | 0 <= i < |files| :: a[i] < |layout| && Accepts(layout[a[i]], files[i]) && DistinctNames(files[i]))
    && (forall i, j | 0 <= i < j < |files| && a[i] == a[j] :: Names(files[i]) !! Names(files[j]))
    && (forall c | 0 <= c < |layout| :: Required(layout[c]) <= Covered(files, a, |files|, c))
  }

  /** The component declares the tensor's name, at its shape, with its dtype among the permitted ones. */
  ghost predicate DeclaredBy(component: Component, name: Text, shape: seq<nat>, dtype: Text) {
    name in component.tensors && component.tensors[name].shape == shape
      && exists k :: 0 <= k < |component.tensors[name].dtypes| && component.tensors[name].dtypes[k] == dtype
  }

  /** A tensor no component declares leaves nothing to match; so does a required key no member carries. */
  lemma NothingMatches(files: seq<ArtifactFile>, layout: Layout, i: nat, j: nat, c: nat, k: Text)
    requires i < |files| && j < |files[i].tensors| && c < |layout|
    ensures var tensor := files[i].tensors[j];
      (forall b | 0 <= b < |layout| :: !DeclaredBy(layout[b], tensor.name, tensor.shape, tensor.dtype)) ==>
        forall a :: !Matches(files, layout, a)
    ensures k in layout[c].tensors && !layout[c].tensors[k].optional && (forall m | 0 <= m < |files| :: k !in Names(files[m])) ==>
        forall a :: !Matches(files, layout, a)
  {
    hide Names;
    var tensor := files[i].tensors[j];
    forall a | Matches(files, layout, a)
      ensures exists b :: 0 <= b < |layout| && DeclaredBy(layout[b], tensor.name, tensor.shape, tensor.dtype)
      ensures k in layout[c].tensors && !layout[c].tensors[k].optional ==> exists m :: 0 <= m < |files| && k in Names(files[m])
    {
      assert Carries(layout[a[i]], tensor);
      assert DeclaredBy(layout[a[i]], tensor.name, tensor.shape, tensor.dtype);
      if k in layout[c].tensors && !layout[c].tensors[k].optional {
        assert k in Required(layout[c]) && Required(layout[c]) <= Covered(files, a, |files|, c);
        var m :| 0 <= m < |files| && a[m] == c && k in Names(files[m]);
      }
    }
  }

  /** Member `i` carries keys of component `i` only, as declared and each once, and every key of it
      that is required. */
  ghost predicate FillsOwn(files: seq<ArtifactFile>, layout: Layout, i: nat)
    requires i < |files| == |layout|
  {
    && (forall j | 0 <= j < |files[i].tensors| ::
          DeclaredBy(layout[i], files[i].tensors[j].name, files[i].tensors[j].shape, files[i].tensors[j].dtype))
    && DistinctNames(files[i])
    && forall k | k in layout[i].tensors && !layout[i].tensors[k].optional :: k in Names(files[i])
  }

  /** Such members match, one to one. */
  lemma OwnMatches(files: seq<ArtifactFile>, layout: Layout, a: seq<nat>)
    requires |files| == |layout| == |a| && forall i | 0 <= i < |a| :: a[i] == i && FillsOwn(files, layout, i)
    ensures Matches(files, layout, a)
  {
    hide Names, DistinctNames;
    forall i | 0 <= i < |files| ensures Accepts(layout[a[i]], files[i]) && DistinctNames(files[i]) { assert FillsOwn(files, layout, i); }
    forall c | 0 <= c < |layout| ensures Required(layout[c]) <= Covered(files, a, |files|, c) {
      assert FillsOwn(files, layout, c);
      forall k | k in Required(layout[c]) ensures k in Covered(files, a, |files|, c) { assert a[c] == c && k in Names(files[c]); }
    }
  }

  // --- the prefilters ---------------------------------------------------------------------------------

  function TotalTensors(files: seq<ArtifactFile>, n: nat): nat
    requires n <= |files|
  {
    if n == 0 then 0 else TotalTensors(files, n - 1) + |files[n - 1].tensors|
  }

  function RequiredCount(layout: Layout, n: nat): nat
    requires n <= |layout|
  {
    if n == 0 then 0 else RequiredCount(layout, n - 1) + |Required(layout[n - 1])|
  }

  function DeclaredCount(layout: Layout, n: nat): nat
    requires n <= |layout|
  {
    if n == 0 then 0 else DeclaredCount(layout, n - 1) + |layout[n - 1].tensors.Keys|
  }

  predicate Declares(layout: Layout, key: Text) { exists c :: 0 <= c < |layout| && key in layout[c].tensors }

  /** A key name some file carries; an empty probe filters nothing. */
  ghost predicate IsProbe(files: seq<ArtifactFile>, probe: Text) {
    probe != [] ==> exists i :: 0 <= i < |files| && probe in Names(files[i])
  }

  /** The two filters: the entry count is reachable, and one candidate key is declared. */
  predicate Plausible(layout: Layout, total: nat, probe: Text) {
    && RequiredCount(layout, |layout|) <= total <= DeclaredCount(layout, |layout|)
    && (probe != [] ==> Declares(layout, probe))
  }

  // --- the filters never discard a match ------------------------------------------------------------------

  ghost function CoveredCount(files: seq<ArtifactFile>, a: seq<nat>, n: nat, m: nat): nat
    requires n <= |files| == |a|
  {
    if m == 0 then 0 else CoveredCount(files, a, n, m - 1) + |Covered(files, a, n, m - 1)|
  }

  lemma {:induction false} NamesSize(file: ArtifactFile, n: nat)
    requires n <= |file.tensors| && DistinctNames(file)
    ensures |set i | 0 <= i < n :: file.tensors[i].name| == n
  {
    var names := set i | 0 <= i < n :: file.tensors[i].name;
    if n > 0 {
      NamesSize(file, n - 1);
      var before := set i | 0 <= i < n - 1 :: file.tensors[i].name;
      assert names == before + {file.tensors[n - 1].name};
    } else {
      assert names == {};
    }
  }

  lemma CoveredStep(files: seq<ArtifactFile>, a: seq<nat>, n: nat, c: nat)
    requires n < |files| == |a|
    ensures Covered(files, a, n + 1, c) == Covered(files, a, n, c) + (if a[n] == c then Names(files[n]) else {})
  {
    hide Names;
  }

  lemma CoverApart(files: seq<ArtifactFile>, layout: Layout, a: seq<nat>, n: nat)
    requires Matches(files, layout, a) && n < |files|
    ensures Covered(files, a, n, a[n]) !! Names(files[n])
  {
    hide Names;
  }

  /** One more file adds its tensors to its own component only. */
  lemma {:induction false} CountStep(files: seq<ArtifactFile>, layout: Layout, a: seq<nat>, n: nat, m: nat)
    requires Matches(files, layout, a) && n < |files|
    ensures CoveredCount(files, a, n + 1, m) == CoveredCount(files, a, n, m) + (if a[n] < m then |files[n].tensors| else 0)
  {
    hide Matches, Covered;
    Members(files, layout, a, n);
    if m > 0 {
      CountStep(files, layout, a, n, m - 1);
      CoveredStep(files, a, n, m - 1);
      if a[n] == m - 1 {
        CoverApart(files, layout, a, n);
        NamesSize(files[n], |files[n].tensors|);
        assert Names(files[n]) == set i | 0 <= i < |files[n].tensors| :: files[n].tensors[i].name;
      } else {
        assert Covered(files, a, n, m - 1) + {} == Covered(files, a, n, m - 1);
      }
    }
  }

  lemma Members(files: seq<ArtifactFile>, layout: Layout, a: seq<nat>, n: nat)
    requires Matches(files, layout, a) && n < |files|
    ensures |a| == |files| && a[n] < |layout| && Accepts(layout[a[n]], files[n]) && DistinctNames(files[n])
  {
  }

  lemma SameLength(files: seq<ArtifactFile>, layout: Layout, a: seq<nat>)
    requires Matches(files, layout, a)
    ensures |a| == |files|
  {
  }

  /** Under a match, the covered keys are exactly as many as the tensors. */
  lemma {:induction false} EveryTensorCounts(files: seq<ArtifactFile>, layout: Layout, a: seq<nat>, n: nat)
    requires Matches(files, layout, a) && n <= |files|
    ensures CoveredCount(files, a, n, |layout|) == TotalTensors(files, n)
  {
    hide Matches;
    assert |files| == |a| by { SameLength(files, layout, a); }
    if n == 0 {
      NoneCovered(files, a, |layout|);
    } else {
      EveryTensorCounts(files, layout, a, n - 1);
      CountStep(files, layout, a, n - 1, |layout|);
      Members(files, layout, a, n - 1);
    }
  }

  lemma {:induction false} NoneCovered(files: seq<ArtifactFile>, a: seq<nat>, m: nat)
    requires |files| == |a|
    ensures CoveredCount(files, a, 0, m) == 0
  {
    if m > 0 {
      NoneCovered(files, a, m - 1);
      assert Covered(files, a, 0, m - 1) == {};
    }
  }

  lemma CoveredBounds(files: seq<ArtifactFile>, layout: Layout, a: seq<nat>, c: nat)
    requires Matches(files, layout, a) && c < |layout|
    ensures |Required(layout[c])| <= |Covered(files, a, |files|, c)| <= |layout[c].tensors.Keys|
  {
    var covered := Covered(files, a, |files|, c);
    forall k | k in covered ensures k in layout[c].tensors {
      var i :| 0 <= i < |files| && a[i] == c && k in Names(files[i]);
      var j :| 0 <= j < |files[i].tensors| && files[i].tensors[j].name == k;
      assert Carries(layout[c], files[i].tensors[j]);
    }
    MixedRadix.SubsetCardinality(Required(layout[c]), covered);
    MixedRadix.SubsetCardinality(covered, layout[c].tensors.Keys);
  }

  lemma {:induction false} CountBounds(files: seq<ArtifactFile>, layout: Layout, a: seq<nat>, m: nat)
    requires Matches(files, layout, a) && m <= |layout|
    ensures RequiredCount(layout, m) <= CoveredCount(files, a, |files|, m) <= DeclaredCount(layout, m)
  {
    hide Matches, Covered, Required;
    if m > 0 {
      CountBounds(files, layout, a, m - 1);
      CoveredBounds(files, layout, a, m - 1);
    }
  }

  /** Neither filter ever discards a layout the headers match. */
  lemma FiltersAreSound(files: seq<ArtifactFile>, layout: Layout, a: seq<nat>, probe: Text)
    requires Matches(files, layout, a) && IsProbe(files, probe)
    ensures Plausible(layout, TotalTensors(files, |files|), probe)
  {
    hide Matches;
    EveryTensorCounts(files, layout, a, |files|);
    CountBounds(files, layout, a, |layout|);
    if probe != [] {
      var i :| 0 <= i < |files| && probe in Names(files[i]);
      Members(files, layout, a, i);
      var j :| 0 <= j < |files[i].tensors| && files[i].tensors[j].name == probe;
      assert Carries(layout[a[i]], files[i].tensors[j]);
    }
  }

  /** So a layout the filters discard is one no assignment matches. */
  lemma DiscardedNeverMatches(files: seq<ArtifactFile>, layout: Layout, probe: Text)
    requires IsProbe(files, probe) && !Plausible(layout, TotalTensors(files, |files|), probe)
    ensures forall a :: !Matches(files, layout, a)
  {
    hide Matches, Plausible;
    forall a ensures !Matches(files, layout, a) {
      if Matches(files, layout, a) {
        FiltersAreSound(files, layout, a, probe);
      }
    }
  }

  /** The filters on any two components: the tensors are at least the required and at most the
      declared keys of both together, and the probe is a key of either. */
  lemma PlausiblePair(a: Component, b: Component, total: nat, probe: Text)
    ensures Plausible([a, b], total, probe) <==>
      && |Required(a)| + |Required(b)| <= total <= |a.tensors| + |b.tensors|
      && (probe == [] || probe in a.tensors || probe in b.tensors)
  {
    hide Required;
    var layout := [a, b];
    assert layout[0] == a && layout[1] == b;
    assert RequiredCount(layout, 1) == |Required(a)| && DeclaredCount(layout, 1) == |a.tensors.Keys|;
    assert |a.tensors.Keys| == |a.tensors| && |b.tensors.Keys| == |b.tensors|;
  }

  /** Every key name the members carry. */
  ghost function Carried(files: seq<ArtifactFile>): set<Text> { set i, k | 0 <= i < |files| && k in Names(files[i]) :: k }

  /** The names met before tensor `j` of member `i`. */
  ghost function Met(files: seq<ArtifactFile>, i: nat, j: nat): set<Text>
    requires i <= |files| && (if i < |files| then j <= |files[i].tensors| else j == 0)
  {
    (set a, b | 0 <= a < i && 0 <= b < |files[a].tensors| :: files[a].tensors[b].name)
    + (if i < |files| then set b | 0 <= b < j :: files[i].tensors[b].name else {})
  }

  /** The first name in byte order, or none; an empty name starts the search over. */
  ghost predicate LeastSoFar(probe: Text, met: set<Text>) {
    && (probe != [] ==> probe in met)
    && ([] !in met ==> if met == {} then probe == [] else IsLeast(probe, met))
  }

  lemma MeetOne(probe: Text, met: set<Text>, name: Text)
    requires LeastSoFar(probe, met)
    ensures LeastSoFar(if probe == [] || Before(name, probe) then name else probe, met + {name})
  {
    hide Before;
    if [] !in met + {name} && met != {} {
      Trichotomy(name, probe);
      if Before(name, probe) {
        forall p | p in met + {name} ensures p == name || Before(name, p) {
          if p != name && p != probe { Transitive(name, probe, p); }
        }
      }
    }
  }

  /** The entry count, and the least carried name when no name is empty. */
  method CandidateShape(files: seq<ArtifactFile>) returns (total: nat, probe: Text)
    ensures total == TotalTensors(files, |files|) && IsProbe(files, probe) && LeastSoFar(probe, Carried(files))
  {
    hide Before, LeastSoFar;
    total, probe := 0, [];
    assert LeastSoFar([], {}) by { NothingMet(); }
    assert Met(files, 0, 0) == {};
    for i := 0 to |files|
      invariant total == TotalTensors(files, i) && LeastSoFar(probe, Met(files, i, 0))
    {
      total := total + |files[i].tensors|;
      for j := 0 to |files[i].tensors|
        invariant LeastSoFar(probe, Met(files, i, j))
      {
        var name := files[i].tensors[j].name;
        MeetOne(probe, Met(files, i, j), name);
        assert Met(files, i, j + 1) == Met(files, i, j) + {name};
        if probe == [] || Before(name, probe) {
          probe := name;
        }
      }
      assert Met(files, i + 1, 0) == Met(files, i, |files[i].tensors|);
    }
    AllMet(files);
    ProbeOfLeast(files, probe);
  }

  lemma NothingMet()
    ensures LeastSoFar([], {})
  {
  }

  lemma AllMet(files: seq<ArtifactFile>)
    ensures Met(files, |files|, 0) == Carried(files)
  {
    forall k | k in Carried(files) ensures k in Met(files, |files|, 0) {
      var i :| 0 <= i < |files| && k in Names(files[i]);
      var j :| 0 <= j < |files[i].tensors| && files[i].tensors[j].name == k;
    }
    forall k | k in Met(files, |files|, 0) ensures k in Carried(files) {
      var i, j :| 0 <= i < |files| && 0 <= j < |files[i].tensors| && files[i].tensors[j].name == k;
      assert k in Names(files[i]);
    }
  }

  lemma ProbeOfLeast(files: seq<ArtifactFile>, probe: Text)
    requires LeastSoFar(probe, Carried(files))
    ensures IsProbe(files, probe)
  {
  }
}
