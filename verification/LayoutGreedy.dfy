/** The layout matcher as it runs: members taken in path order, those with one candidate
    component first, each given to its best candidate. It is proved equal to a function, and
    what it accepts, refuses and misses is proved of that function. */
module LayoutGreedy {
  import opened Wrappers
  import opened Paths
  import opened Tfm1
  import opened PathOrder
  import opened LayoutMatch
  import MixedRadix

  // --- candidates ---------------------------------------------------------------------------------

  /** The first `n` components that accept a member, in layout order. */
  ghost function CandidatesUpTo(layout: Layout, file: ArtifactFile, n: nat): (pending: seq<nat>)
    requires n <= |layout|
    ensures forall c :: c in pending <==> 0 <= c < n && Accepts(layout[c], file)
    ensures forall j, k | 0 <= j < k < |pending| :: pending[j] < pending[k]
    ensures forall k | 0 <= k < |pending| :: pending[k] < n && Accepts(layout[pending[k]], file)
  {
    if n == 0 then []
    else
      var before := CandidatesUpTo(layout, file, n - 1);
      if Accepts(layout[n - 1], file) then before + [n - 1] else before
  }

  ghost function Candidates(layout: Layout, file: ArtifactFile): (pending: seq<nat>) { CandidatesUpTo(layout, file, |layout|) }

  // --- the pick -----------------------------------------------------------------------------------------

  /** The last directory of a member's path. */
  function DirectoryHint(path: Text): Text {
    var parent := SplitParent(path).0;
    if parent.None? then [] else SplitParent(parent.value).1
  }

  predicate Hinted(component: Component, file: ArtifactFile) { DirectoryHint(file.path) == component.name }

  function Uncovered(file: ArtifactFile, covered: set<Text>, n: nat): nat
    requires n <= |file.tensors|
  {
    if n == 0 then 0 else Uncovered(file, covered, n - 1) + (if file.tensors[n - 1].name in covered then 0 else 1)
  }

  /** The member's keys the component still lacks, and one more for its directory's name. */
  function Score(component: Component, file: ArtifactFile, covered: set<Text>): nat {
    Uncovered(file, covered, |file.tensors|) + (if Hinted(component, file) then 1 else 0)
  }

  ghost predicate InRange(layout: Layout, pending: seq<nat>, covered: seq<set<Text>>) {
    |covered| == |layout| && forall k | 0 <= k < |pending| :: pending[k] < |layout|
  }

  ghost function ScoreAt(layout: Layout, file: ArtifactFile, pending: seq<nat>, covered: seq<set<Text>>, k: nat): nat
    requires InRange(layout, pending, covered) && k < |pending|
  {
    Score(layout[pending[k]], file, covered[pending[k]])
  }

  /** Where the first of the highest scores among the first `n` candidates is. */
  ghost function BestAt(layout: Layout, file: ArtifactFile, pending: seq<nat>, covered: seq<set<Text>>, n: nat): (at: nat)
    requires InRange(layout, pending, covered) && 0 < n <= |pending|
    ensures at < n
    ensures forall j | 0 <= j < at :: ScoreAt(layout, file, pending, covered, j) < ScoreAt(layout, file, pending, covered, at)
    ensures forall j | at <= j < n :: ScoreAt(layout, file, pending, covered, j) <= ScoreAt(layout, file, pending, covered, at)
  {
    hide Score;
    if n == 1 then 0
    else
      var before := BestAt(layout, file, pending, covered, n - 1);
      if ScoreAt(layout, file, pending, covered, n - 1) > ScoreAt(layout, file, pending, covered, before) then n - 1 else before
  }

  /** A member's keys fit a component: none repeats and none is covered. */
  ghost predicate Fits(file: ArtifactFile, covered: set<Text>) { DistinctNames(file) && Names(file) !! covered }

  /** All but one of a member's keys are still lacking. */
  ghost predicate OneTaken(file: ArtifactFile, covered: set<Text>) {
    Uncovered(file, covered, |file.tensors|) + 1 == |file.tensors|
  }

  ghost predicate FitsAt(layout: Layout, file: ArtifactFile, pending: seq<nat>, covered: seq<set<Text>>, k: nat)
    requires InRange(layout, pending, covered) && k < |pending|
  {
    Fits(file, covered[pending[k]])
  }

  /** A component the member is stored under, one of whose keys is taken, comes before every
      candidate that fits, and none that fits bears the directory's name. */
  ghost predicate Outvoted(layout: Layout, file: ArtifactFile, pending: seq<nat>, covered: seq<set<Text>>)
    requires InRange(layout, pending, covered)
  {
    exists j :: 0 <= j < |pending| && Hinted(layout[pending[j]], file) && OneTaken(file, covered[pending[j]])
      && forall k | 0 <= k < |pending| && FitsAt(layout, file, pending, covered, k) :: j < k && !Hinted(layout[pending[k]], file)
  }

  lemma {:induction false} UncoveredIsAll(file: ArtifactFile, covered: set<Text>, n: nat)
    requires n <= |file.tensors|
    ensures Uncovered(file, covered, n) <= n
    ensures Uncovered(file, covered, n) == n <==> forall i | 0 <= i < n :: file.tensors[i].name !in covered
  {
    if n > 0 {
      UncoveredIsAll(file, covered, n - 1);
    }
  }

  lemma FreeIsUncovered(file: ArtifactFile, covered: set<Text>)
    ensures Uncovered(file, covered, |file.tensors|) <= |file.tensors|
    ensures Names(file) !! covered <==> Uncovered(file, covered, |file.tensors|) == |file.tensors|
  {
    UncoveredIsAll(file, covered, |file.tensors|);
    if Names(file) !! covered {
      forall i | 0 <= i < |file.tensors| ensures file.tensors[i].name !in covered { assert file.tensors[i].name in Names(file); }
    }
  }

  /** A pick is refused as a duplicate if and only if the member repeats a key, no candidate fits,
      or the directory's name outvotes exactly one key that is taken. */
  lemma PickRefusedIff(layout: Layout, file: ArtifactFile, pending: seq<nat>, covered: seq<set<Text>>)
    requires InRange(layout, pending, covered) && pending != []
    ensures !FitsAt(layout, file, pending, covered, BestAt(layout, file, pending, covered, |pending|)) <==>
      || !DistinctNames(file)
      || (forall k | 0 <= k < |pending| :: !FitsAt(layout, file, pending, covered, k))
      || Outvoted(layout, file, pending, covered)
  {
    hide Uncovered, Hinted, Names, DistinctNames, BestAt;
    var at, n := BestAt(layout, file, pending, covered, |pending|), |file.tensors|;
    forall k | 0 <= k < |pending|
      ensures Uncovered(file, covered[pending[k]], n) <= n
      ensures Names(file) !! covered[pending[k]] <==> Uncovered(file, covered[pending[k]], n) == n
    {
      FreeIsUncovered(file, covered[pending[k]]);
    }
    if DistinctNames(file) && !FitsAt(layout, file, pending, covered, at) {
      forall k | 0 <= k < |pending| && FitsAt(layout, file, pending, covered, k)
        ensures Hinted(layout[pending[at]], file) && OneTaken(file, covered[pending[at]]) && at < k && !Hinted(layout[pending[k]], file)
      {
        assert ScoreAt(layout, file, pending, covered, k) <= ScoreAt(layout, file, pending, covered, at);
      }
    }
    if Outvoted(layout, file, pending, covered) {
      var j :| 0 <= j < |pending| && Hinted(layout[pending[j]], file) && OneTaken(file, covered[pending[j]])
        && forall k | 0 <= k < |pending| && FitsAt(layout, file, pending, covered, k) :: j < k && !Hinted(layout[pending[k]], file);
      assert ScoreAt(layout, file, pending, covered, j) == n;
    }
  }

  // --- the greedy passes -----------------------------------------------------------------------------------

  /** Who has been placed, and the keys that covers. */
  datatype Tally = Tally(placed: map<nat, nat>, covered: seq<set<Text>>)

  ghost predicate Indexes(files: seq<ArtifactFile>, order: seq<nat>) { forall k | 0 <= k < |order| :: order[k] < |files| }

  /** Every member some component accepts. */
  ghost predicate AllAccepted(files: seq<ArtifactFile>, layout: Layout) {
    forall i | 0 <= i < |files| :: Candidates(layout, files[i]) != []
  }

  ghost function Pick(files: seq<ArtifactFile>, layout: Layout, s: Tally, at: nat): (c: nat)
    requires |s.covered| == |layout| && at < |files| && Candidates(layout, files[at]) != []
    ensures c < |layout| && Accepts(layout[c], files[at])
  {
    var pending := Candidates(layout, files[at]);
    pending[BestAt(layout, files[at], pending, s.covered, |pending|)]
  }

  /** One member goes to its pick, or is refused as a duplicate. */
  ghost function Place(files: seq<ArtifactFile>, layout: Layout, s: Tally, at: nat): (r: Option<Tally>)
    requires |s.covered| == |layout| && at < |files| && Candidates(layout, files[at]) != []
    ensures r.Some? ==> |r.value.covered| == |layout|
  {
    var c := Pick(files, layout, s, at);
    if Fits(files[at], s.covered[c]) then Some(Tally(s.placed[at := c], s.covered[c := s.covered[c] + Names(files[at])])) else None
  }

  /** A member's turn: with one candidate, or with several. */
  ghost predicate Turn(layout: Layout, file: ArtifactFile, ambiguous: bool) { ambiguous == (|Candidates(layout, file)| != 1) }

  /** The first `k` members in order have had this turn. */
  ghost function AssignUpTo(files: seq<ArtifactFile>, layout: Layout, order: seq<nat>, ambiguous: bool, start: Tally, k: nat): (r: Option<Tally>)
    requires Indexes(files, order) && AllAccepted(files, layout) && |start.covered| == |layout| && k <= |order|
    ensures r.Some? ==> |r.value.covered| == |layout|
  {
    if k == 0 then Some(start)
    else
      var s :- AssignUpTo(files, layout, order, ambiguous, start, k - 1);
      if Turn(layout, files[order[k - 1]], ambiguous) then Place(files, layout, s, order[k - 1]) else Some(s)
  }

  ghost function NobodyPlaced(layout: Layout): Tally { Tally(map[], seq(|layout|, _ => {})) }

  ghost predicate Complete(layout: Layout, covered: seq<set<Text>>)
    requires |covered| == |layout|
  {
    forall c | 0 <= c < |layout| :: Required(layout[c]) <= covered[c]
  }

  ghost function Assignment(files: seq<ArtifactFile>, placed: map<nat, nat>): seq<nat> {
    seq(|files|, i requires 0 <= i < |files| => if i in placed then placed[i] else 0)
  }

  /** The matcher as a function of the members' order. */
  ghost function Greedy(files: seq<ArtifactFile>, layout: Layout, order: seq<nat>): Option<seq<nat>>
    requires Indexes(files, order)
  {
    if !AllAccepted(files, layout) then None
    else
      var one :- AssignUpTo(files, layout, order, false, NobodyPlaced(layout), |order|);
      var two :- AssignUpTo(files, layout, order, true, one, |order|);
      if Complete(layout, two.covered) then Some(Assignment(files, two.placed)) else None
  }

  // --- what it accepts is a match -------------------------------------------------------------------------------

  /** What has been placed so far, and what it covers. */
  ghost predicate Assigning(files: seq<ArtifactFile>, layout: Layout, s: Tally) {
    && |s.covered| == |layout|
    && (forall i | i in s.placed :: i < |files| && s.placed[i] < |layout| && Accepts(layout[s.placed[i]], files[i]) && DistinctNames(files[i]))
    && (forall i, j | i in s.placed && j in s.placed && i != j && s.placed[i] == s.placed[j] :: Names(files[i]) !! Names(files[j]))
    && (forall i | i in s.placed :: Names(files[i]) <= s.covered[s.placed[i]])
    && (forall c, k | 0 <= c < |s.covered| && k in s.covered[c] :: exists i :: i in s.placed && s.placed[i] == c && k in Names(files[i]))
  }

  lemma PlaceAssigns(files: seq<ArtifactFile>, layout: Layout, s: Tally, at: nat)
    requires Assigning(files, layout, s) && at < |files| && at !in s.placed && Candidates(layout, files[at]) != []
    requires Place(files, layout, s, at).Some?
    ensures Assigning(files, layout, Place(files, layout, s, at).value)
  {
    hide Accepts, Names, DistinctNames, Candidates, Pick;
    var c, t := Pick(files, layout, s, at), Place(files, layout, s, at).value;
    forall d, k | 0 <= d < |t.covered| && k in t.covered[d] ensures exists i :: i in t.placed && t.placed[i] == d && k in Names(files[i]) {
      if d == c && k in Names(files[at]) {
        assert t.placed[at] == d;
      } else {
        var i :| i in s.placed && s.placed[i] == d && k in Names(files[i]);
        assert t.placed[i] == d;
      }
    }
  }

  /** Members in path order, each once. */
  ghost predicate IsOrder(order: seq<nat>, n: nat) {
    && (forall k | 0 <= k < |order| :: order[k] < n) && (forall i | 0 <= i < n :: i in order)
    && (forall j, k | 0 <= j < k < |order| :: order[j] != order[k])
  }

  /** Who has been placed after `k` members had this turn. */
  ghost predicate PlacedSoFar(files: seq<ArtifactFile>, layout: Layout, order: seq<nat>, ambiguous: bool, before: set<nat>, placed: set<nat>, k: nat)
    requires Indexes(files, order) && k <= |order|
  {
    forall i :: i in placed <==> i in before || exists j :: 0 <= j < k && order[j] == i && Turn(layout, files[order[j]], ambiguous)
  }

  ghost predicate NotYet(files: seq<ArtifactFile>, layout: Layout, order: seq<nat>, ambiguous: bool, before: set<nat>)
    requires Indexes(files, order)
  {
    forall k | 0 <= k < |order| && Turn(layout, files[order[k]], ambiguous) :: order[k] !in before
  }

  lemma {:induction false} UpToAssigns(files: seq<ArtifactFile>, layout: Layout, order: seq<nat>, ambiguous: bool, start: Tally, k: nat)
    requires IsOrder(order, |files|) && AllAccepted(files, layout) && Assigning(files, layout, start) && k <= |order|
    requires NotYet(files, layout, order, ambiguous, start.placed.Keys)
    requires AssignUpTo(files, layout, order, ambiguous, start, k).Some?
    ensures var s := AssignUpTo(files, layout, order, ambiguous, start, k).value;
      Assigning(files, layout, s) && PlacedSoFar(files, layout, order, ambiguous, start.placed.Keys, s.placed.Keys, k)
  {
    hide Assigning, Accepts, Candidates, Turn, Place, AllAccepted;
    Covered(files, layout, start);
    if k > 0 {
      UpToAssigns(files, layout, order, ambiguous, start, k - 1);
      var s := AssignUpTo(files, layout, order, ambiguous, start, k - 1).value;
      if Turn(layout, files[order[k - 1]], ambiguous) {
        HasCandidates(files, layout, order[k - 1]);
        PlaceAssigns(files, layout, s, order[k - 1]);
        PlaceAdds(files, layout, s, order[k - 1]);
      }
    }
  }

  lemma Covered(files: seq<ArtifactFile>, layout: Layout, s: Tally)
    requires Assigning(files, layout, s)
    ensures |s.covered| == |layout|
  {
  }

  lemma HasCandidates(files: seq<ArtifactFile>, layout: Layout, i: nat)
    requires AllAccepted(files, layout) && i < |files|
    ensures Candidates(layout, files[i]) != []
  {
  }

  lemma PlaceAdds(files: seq<ArtifactFile>, layout: Layout, s: Tally, at: nat)
    requires |s.covered| == |layout| && at < |files| && Candidates(layout, files[at]) != [] && Place(files, layout, s, at).Some?
    ensures Place(files, layout, s, at).value.placed.Keys == s.placed.Keys + {at}
  {
    hide Candidates, Pick;
  }

  lemma NobodyAssigned(files: seq<ArtifactFile>, layout: Layout)
    ensures Assigning(files, layout, NobodyPlaced(layout)) && NobodyPlaced(layout).placed.Keys == {}
  {
  }

  lemma EveryonePlaced(files: seq<ArtifactFile>, layout: Layout, order: seq<nat>, one: set<nat>, two: set<nat>)
    requires IsOrder(order, |files|)
    requires PlacedSoFar(files, layout, order, false, {}, one, |order|) && PlacedSoFar(files, layout, order, true, one, two, |order|)
    ensures forall i | 0 <= i < |files| :: i in two
  {
    hide Candidates;
    forall i | 0 <= i < |files| ensures i in two {
      assert i in order;
      var j :| 0 <= j < |order| && order[j] == i;
      assert Turn(layout, files[order[j]], false) || Turn(layout, files[order[j]], true);
    }
  }

  lemma SecondTurn(files: seq<ArtifactFile>, layout: Layout, order: seq<nat>, one: set<nat>)
    requires IsOrder(order, |files|) && PlacedSoFar(files, layout, order, false, {}, one, |order|)
    ensures NotYet(files, layout, order, true, one)
  {
    hide Candidates;
  }

  /** After the first pass everyone with one candidate is placed and nobody else. */
  lemma FirstPass(files: seq<ArtifactFile>, layout: Layout, order: seq<nat>)
    requires IsOrder(order, |files|) && AllAccepted(files, layout)
    requires AssignUpTo(files, layout, order, false, NobodyPlaced(layout), |order|).Some?
    ensures var one := AssignUpTo(files, layout, order, false, NobodyPlaced(layout), |order|).value;
      && Assigning(files, layout, one) && PlacedSoFar(files, layout, order, false, {}, one.placed.Keys, |order|)
      && NotYet(files, layout, order, true, one.placed.Keys)
  {
    hide Assigning, AssignUpTo, AllAccepted, Candidates, Turn;
    NobodyAssigned(files, layout);
    UpToAssigns(files, layout, order, false, NobodyPlaced(layout), |order|);
    SecondTurn(files, layout, order, AssignUpTo(files, layout, order, false, NobodyPlaced(layout), |order|).value.placed.Keys);
  }

  lemma CompleteMatches(files: seq<ArtifactFile>, layout: Layout, s: Tally)
    requires Assigning(files, layout, s) && Complete(layout, s.covered) && (forall i | 0 <= i < |files| :: i in s.placed)
    ensures Matches(files, layout, Assignment(files, s.placed))
  {
    hide Accepts, Names, DistinctNames, Required;
    var a := Assignment(files, s.placed);
    forall c | 0 <= c < |layout| ensures Required(layout[c]) <= LayoutMatch.Covered(files, a, |files|, c) {
      forall k | k in Required(layout[c]) ensures k in LayoutMatch.Covered(files, a, |files|, c) {
        var i :| i in s.placed && s.placed[i] == c && k in Names(files[i]);
      }
    }
  }

  /** Whatever the matcher accepts matches. */
  lemma GreedySound(files: seq<ArtifactFile>, layout: Layout, order: seq<nat>)
    requires IsOrder(order, |files|) && Greedy(files, layout, order).Some?
    ensures Matches(files, layout, Greedy(files, layout, order).value)
  {
    hide Assigning, AssignUpTo, AllAccepted, Matches, Complete, Assignment, PlacedSoFar, NotYet;
    FirstPass(files, layout, order);
    var one := AssignUpTo(files, layout, order, false, NobodyPlaced(layout), |order|).value;
    UpToAssigns(files, layout, order, true, one, |order|);
    var two := AssignUpTo(files, layout, order, true, one, |order|).value;
    EveryonePlaced(files, layout, order, one.placed.Keys, two.placed.Keys);
    CompleteMatches(files, layout, two);
  }

  // --- why it refuses ---------------------------------------------------------------------------------------------

  /** The member at `at` is refused: it repeats a key, no candidate fits it, or it is outvoted. */
  ghost predicate Duplicate(files: seq<ArtifactFile>, layout: Layout, s: Tally, at: nat)
    requires |s.covered| == |layout| && at < |files| && Candidates(layout, files[at]) != []
  {
    var pending := Candidates(layout, files[at]);
    || !DistinctNames(files[at])
    || (forall k | 0 <= k < |pending| :: !FitsAt(layout, files[at], pending, s.covered, k))
    || Outvoted(layout, files[at], pending, s.covered)
  }

  lemma PlaceRefusedIff(files: seq<ArtifactFile>, layout: Layout, s: Tally, at: nat)
    requires |s.covered| == |layout| && at < |files| && Candidates(layout, files[at]) != []
    ensures Place(files, layout, s, at).None? <==> Duplicate(files, layout, s, at)
  {
    hide Outvoted, DistinctNames, BestAt, CandidatesUpTo, Accepts;
    PickRefusedIff(layout, files[at], Candidates(layout, files[at]), s.covered);
  }

  /** The `k`-th member is where the pass stops. */
  ghost predicate StopsAt(files: seq<ArtifactFile>, layout: Layout, order: seq<nat>, ambiguous: bool, start: Tally, k: nat)
    requires Indexes(files, order) && AllAccepted(files, layout) && |start.covered| == |layout| && k < |order|
  {
    var s := AssignUpTo(files, layout, order, ambiguous, start, k);
    s.Some? && Turn(layout, files[order[k]], ambiguous) && Duplicate(files, layout, s.value, order[k])
  }

  /** A pass refuses if and only if some member, at its turn, repeats a key, fits no candidate,
      or is outvoted by the name of the directory it is stored in. */
  lemma {:induction false} PassRefusedIff(files: seq<ArtifactFile>, layout: Layout, order: seq<nat>, ambiguous: bool, start: Tally, n: nat)
    requires Indexes(files, order) && AllAccepted(files, layout) && |start.covered| == |layout| && n <= |order|
    ensures AssignUpTo(files, layout, order, ambiguous, start, n).None? <==>
      exists k :: 0 <= k < n && StopsAt(files, layout, order, ambiguous, start, k)
  {
    hide Duplicate, Place, Turn, Candidates, AllAccepted;
    if n > 0 {
      PassRefusedIff(files, layout, order, ambiguous, start, n - 1);
      var s := AssignUpTo(files, layout, order, ambiguous, start, n - 1);
      HasCandidates(files, layout, order[n - 1]);
      if s.Some? {
        PlaceRefusedIff(files, layout, s.value, order[n - 1]);
        if Turn(layout, files[order[n - 1]], ambiguous) && Duplicate(files, layout, s.value, order[n - 1]) {
          assert StopsAt(files, layout, order, ambiguous, start, n - 1);
        }
      }
    }
  }

  // --- when it is exact ----------------------------------------------------------------------------------------------

  /** At most one component accepts each member that carries a tensor. */
  ghost predicate Decided(files: seq<ArtifactFile>, layout: Layout) {
    forall i, c, d | 0 <= i < |files| && files[i].tensors != [] && 0 <= c < |layout| && 0 <= d < |layout|
      && Accepts(layout[c], files[i]) && Accepts(layout[d], files[i]) :: c == d
  }

  lemma EmptyFits(file: ArtifactFile, covered: set<Text>)
    requires file.tensors == []
    ensures Fits(file, covered)
  {
  }

  lemma NamedHasTensors(file: ArtifactFile, k: Text)
    requires k in Names(file)
    ensures file.tensors != []
  {
  }

  /** A refusal at one member's turn leaves no assignment. */
  lemma RefusalIsFinal(files: seq<ArtifactFile>, layout: Layout, s: Tally, at: nat, a: seq<nat>)
    requires Decided(files, layout) && Assigning(files, layout, s) && at < |files| && at !in s.placed
    requires Candidates(layout, files[at]) != [] && Place(files, layout, s, at).None?
    ensures !Matches(files, layout, a)
  {
    hide Accepts, Names, Candidates, Pick, DistinctNames;
    var c := Pick(files, layout, s, at);
    if files[at].tensors == [] {
      EmptyFits(files[at], s.covered[c]);
    }
    if Matches(files, layout, a) {
      Members(files, layout, a, at);
      var k :| k in Names(files[at]) && k in s.covered[c];
      var i :| i in s.placed && s.placed[i] == c && k in Names(files[i]);
      NamedHasTensors(files[i], k);
      Members(files, layout, a, i);
      Apart(files, layout, a, i, at);
      assert false;
    }
  }

  lemma Apart(files: seq<ArtifactFile>, layout: Layout, a: seq<nat>, i: nat, j: nat)
    requires Matches(files, layout, a) && i < |files| && j < |files| && i != j
    ensures a[i] == a[j] ==> Names(files[i]) !! Names(files[j])
  {
    hide Accepts, Names, DistinctNames;
    if i > j { assert a[i] == a[j] ==> Names(files[j]) !! Names(files[i]); }
  }

  lemma {:induction false} PassRefusalIsFinal(files: seq<ArtifactFile>, layout: Layout, order: seq<nat>, ambiguous: bool, start: Tally, n: nat, a: seq<nat>)
    requires Decided(files, layout) && IsOrder(order, |files|) && AllAccepted(files, layout) && Assigning(files, layout, start) && n <= |order|
    requires NotYet(files, layout, order, ambiguous, start.placed.Keys)
    requires AssignUpTo(files, layout, order, ambiguous, start, n).None?
    ensures !Matches(files, layout, a)
  {
    hide Assigning, Decided, Matches, Turn, Candidates, Place, AllAccepted;
    Covered(files, layout, start);
    if n > 0 {
      var s := AssignUpTo(files, layout, order, ambiguous, start, n - 1);
      if s.None? {
        PassRefusalIsFinal(files, layout, order, ambiguous, start, n - 1, a);
      } else {
        UpToAssigns(files, layout, order, ambiguous, start, n - 1);
        HasCandidates(files, layout, order[n - 1]);
        RefusalIsFinal(files, layout, s.value, order[n - 1], a);
      }
    }
  }

  /** Under a match, a member with a tensor sits where it was placed. */
  lemma Forced(files: seq<ArtifactFile>, layout: Layout, s: Tally, a: seq<nat>, i: nat)
    requires Decided(files, layout) && Assigning(files, layout, s) && Matches(files, layout, a)
    requires i < |files| && i in s.placed && files[i].tensors != []
    ensures s.placed[i] == a[i] && Names(files[i]) <= s.covered[a[i]]
  {
    hide Accepts, Names, Required, DistinctNames;
  }

  lemma MatchIsComplete(files: seq<ArtifactFile>, layout: Layout, s: Tally, a: seq<nat>)
    requires Decided(files, layout) && Assigning(files, layout, s) && (forall i | 0 <= i < |files| :: i in s.placed)
    requires Matches(files, layout, a)
    ensures Complete(layout, s.covered)
  {
    hide Accepts, Names, Required, DistinctNames, Decided, Assigning;
    Covered(files, layout, s);
    forall c, k | 0 <= c < |layout| && k in Required(layout[c]) ensures k in s.covered[c] {
      assert k in LayoutMatch.Covered(files, a, |files|, c);
      var i :| 0 <= i < |files| && a[i] == c && k in Names(files[i]);
      NamedHasTensors(files[i], k);
      Forced(files, layout, s, a, i);
    }
  }

  lemma UnacceptedIsFinal(files: seq<ArtifactFile>, layout: Layout, a: seq<nat>)
    requires !AllAccepted(files, layout)
    ensures !Matches(files, layout, a)
  {
    hide Accepts;
    var i :| 0 <= i < |files| && Candidates(layout, files[i]) == [];
    assert forall c | 0 <= c < |layout| :: !Accepts(layout[c], files[i]);
  }

  /** When no member that carries a tensor has two candidates, the matcher accepts exactly the
      inputs that some assignment matches. */
  lemma GreedyExact(files: seq<ArtifactFile>, layout: Layout, order: seq<nat>)
    requires Decided(files, layout) && IsOrder(order, |files|)
    ensures Greedy(files, layout, order).Some? <==> exists a :: Matches(files, layout, a)
  {
    hide Assigning, AssignUpTo, AllAccepted, Matches, Complete, Assignment, PlacedSoFar, NotYet, Decided;
    if Greedy(files, layout, order).Some? {
      GreedySound(files, layout, order);
    } else {
      forall a ensures !Matches(files, layout, a) {
        if !AllAccepted(files, layout) {
          UnacceptedIsFinal(files, layout, a);
        } else {
          RefusedGreedy(files, layout, order, a);
        }
      }
    }
  }

  lemma RefusedGreedy(files: seq<ArtifactFile>, layout: Layout, order: seq<nat>, a: seq<nat>)
    requires Decided(files, layout) && IsOrder(order, |files|) && AllAccepted(files, layout) && Greedy(files, layout, order).None?
    ensures !Matches(files, layout, a)
  {
    hide Assigning, AssignUpTo, AllAccepted, Matches, Complete, Assignment, PlacedSoFar, NotYet, Decided;
    var first := AssignUpTo(files, layout, order, false, NobodyPlaced(layout), |order|);
    if first.None? {
      NobodyAssigned(files, layout);
      NobodyBefore(files, layout, order);
      PassRefusalIsFinal(files, layout, order, false, NobodyPlaced(layout), |order|, a);
    } else {
      FirstPass(files, layout, order);
      var second := AssignUpTo(files, layout, order, true, first.value, |order|);
      if second.None? {
        PassRefusalIsFinal(files, layout, order, true, first.value, |order|, a);
      } else {
        UpToAssigns(files, layout, order, true, first.value, |order|);
        EveryonePlaced(files, layout, order, first.value.placed.Keys, second.value.placed.Keys);
        if Matches(files, layout, a) { MatchIsComplete(files, layout, second.value, a); }
      }
    }
  }

  lemma NobodyBefore(files: seq<ArtifactFile>, layout: Layout, order: seq<nat>)
    requires IsOrder(order, |files|)
    ensures NotYet(files, layout, order, false, NobodyPlaced(layout).placed.Keys)
  {
  }

  // --- matches it misses -------------------------------------------------------------------------------------------------

  /** The members' order: by path, equal paths as they came. */
  ghost predicate StableOrder(files: seq<ArtifactFile>, order: seq<nat>) {
    IsOrder(order, |files|) && forall j, k | 0 <= j < k < |order| ::
      Before(files[order[j]].path, files[order[k]].path) || (files[order[j]].path == files[order[k]].path && order[j] < order[k])
  }

  /** Tensors of one shape and dtype, and declarations that take it. */
  datatype Kind = Kind(shape: seq<nat>, dtype: Text, others: seq<Text>)

  function Cell(kind: Kind, name: Text): Tensor { Tensor.Tensor(name, kind.shape, kind.dtype) }

  function Takes(kind: Kind, optional: bool): Declared { Declared(kind.shape, [kind.dtype] + kind.others, optional) }

  ghost predicate DeclaresOnly(component: Component, kind: Kind) {
    forall k | k in component.tensors :: exists optional :: component.tensors[k] == Takes(kind, optional)
  }

  lemma CellCarried(component: Component, kind: Kind, name: Text)
    requires DeclaresOnly(component, kind)
    ensures Carries(component, Cell(kind, name)) <==> name in component.tensors
  {
    assert ([kind.dtype] + kind.others)[0] == kind.dtype;
  }

  lemma OneAccepted(component: Component, kind: Kind, path: Text, x: Text)
    requires DeclaresOnly(component, kind)
    ensures var file := ArtifactFile(path, [Cell(kind, x)]);
      Names(file) == {x} && DistinctNames(file) && (Accepts(component, file) <==> x in component.tensors)
  {
    hide Carries, Cell;
    var file := ArtifactFile(path, [Cell(kind, x)]);
    CellCarried(component, kind, x);
    CellName(kind, x);
    assert file.tensors[0] == Cell(kind, x);
  }

  lemma TwoAccepted(component: Component, kind: Kind, path: Text, x: Text, y: Text)
    requires DeclaresOnly(component, kind) && x != y
    ensures var file := ArtifactFile(path, [Cell(kind, x), Cell(kind, y)]);
      Names(file) == {x, y} && DistinctNames(file) && (Accepts(component, file) <==> x in component.tensors && y in component.tensors)
  {
    hide Carries, Cell;
    var file := ArtifactFile(path, [Cell(kind, x), Cell(kind, y)]);
    CellCarried(component, kind, x);
    CellCarried(component, kind, y);
    CellName(kind, x);
    CellName(kind, y);
    assert file.tensors[0] == Cell(kind, x) && file.tensors[1] == Cell(kind, y);
  }

  lemma CellName(kind: Kind, name: Text)
    ensures Cell(kind, name).name == name
  {
  }

  /** Two components that both declare `x`, where only the first declares `y`; a member that carries
      both, and one that carries `x` and is stored under the first component's name. */
  datatype Overlap = Overlap(kind: Kind, x: Text, y: Text, home: Text, away: Text, path: Text, stored: Text)
  {
    ghost predicate Valid() { x != y && home != away && DirectoryHint(stored) == home }

    function Layout(): Layout {
      [Component(home, map[x := Takes(kind, true), y := Takes(kind, true)]), Component(away, map[x := Takes(kind, true)])]
    }

    function Files(): seq<ArtifactFile> { [ArtifactFile(path, [Cell(kind, x), Cell(kind, y)]), ArtifactFile(stored, [Cell(kind, x)])] }
  }

  lemma OverlapAccepts(o: Overlap)
    requires o.Valid()
    ensures var files, layout := o.Files(), o.Layout();
      && Names(files[0]) == {o.x, o.y} && Names(files[1]) == {o.x} && DistinctNames(files[0]) && DistinctNames(files[1])
      && Accepts(layout[0], files[0]) && !Accepts(layout[1], files[0]) && Accepts(layout[0], files[1]) && Accepts(layout[1], files[1])
  {
    hide Accepts, Names, DistinctNames, Cell, Takes;
    var layout := o.Layout();
    assert DeclaresOnly(layout[0], o.kind) && DeclaresOnly(layout[1], o.kind);
    TwoAccepted(layout[0], o.kind, o.path, o.x, o.y);
    TwoAccepted(layout[1], o.kind, o.path, o.x, o.y);
    OneAccepted(layout[0], o.kind, o.stored, o.x);
    OneAccepted(layout[1], o.kind, o.stored, o.x);
  }

  lemma OverlapMatches(o: Overlap)
    requires o.Valid()
    ensures Matches(o.Files(), o.Layout(), [0, 1])
  {
    hide Accepts, Cell, Names, DistinctNames;
    OverlapAccepts(o);
    var layout := o.Layout();
    assert Required(layout[0]) == {} && Required(layout[1]) == {};
  }

  lemma OverlapCandidates(o: Overlap)
    requires o.Valid()
    ensures var files, layout := o.Files(), o.Layout();
      Candidates(layout, files[0]) == [0] && Candidates(layout, files[1]) == [0, 1] && |files| == |layout| == 2
  {
    hide Accepts, Cell, Takes;
    OverlapAccepts(o);
    var files, layout := o.Files(), o.Layout();
    assert CandidatesUpTo(layout, files[0], 0) == [] && CandidatesUpTo(layout, files[1], 0) == [];
    assert CandidatesUpTo(layout, files[0], 1) == [0] && CandidatesUpTo(layout, files[1], 1) == [0];
  }

  lemma OrderLength(order: seq<nat>, n: nat)
    requires IsOrder(order, n)
    ensures |order| == n
  {
    MixedRadix.DistinctCardinality(order);
    var image := set x | x in order;
    MixedRadix.SubsetCardinality(image, MixedRadix.Below(n));
    MixedRadix.SubsetCardinality(MixedRadix.Below(n), image);
  }

  lemma OrdersOfTwo(order: seq<nat>)
    requires IsOrder(order, 2)
    ensures order == [0, 1] || order == [1, 0]
  {
    OrderLength(order, 2);
    assert 0 in order && 1 in order;
  }

  /** After the first pass the member with one candidate holds both keys of the first component. */
  lemma OverlapFirst(o: Overlap, order: seq<nat>)
    requires o.Valid() && (order == [0, 1] || order == [1, 0])
    ensures var files, layout := o.Files(), o.Layout();
      && AllAccepted(files, layout)
      && AssignUpTo(files, layout, order, false, NobodyPlaced(layout), 2) == Some(Tally(map[0 := 0], [{o.x, o.y}, {}]))
  {
    hide Accepts, Names, CandidatesUpTo, DistinctNames, Cell, Takes;
    var files, layout := o.Files(), o.Layout();
    OverlapCandidates(o);
    OverlapAccepts(o);
    var start, after := NobodyPlaced(layout), Tally(map[0 := 0], [{o.x, o.y}, {}]);
    assert start.covered == [{}, {}];
    assert Place(files, layout, start, 0) == Some(after) by {
      assert {} + {o.x, o.y} == {o.x, o.y} && start.covered[0 := {o.x, o.y}] == [{o.x, o.y}, {}];
    }
    assert AssignUpTo(files, layout, order, false, start, 0) == Some(start);
    assert AssignUpTo(files, layout, order, false, start, 1) == Some(if order == [0, 1] then after else start);
  }

  /** The second member's two candidates tie, one by its hint and one by its free key. */
  lemma OverlapScores(o: Overlap)
    requires o.Valid()
    ensures var files, layout, covered := o.Files(), o.Layout(), [{o.x, o.y}, {}];
      InRange(layout, [0, 1], covered) && BestAt(layout, files[1], [0, 1], covered, 2) == 0
  {
    hide DirectoryHint, Takes;
    var files, layout := o.Files(), o.Layout();
    var covered := [{o.x, o.y}, {}];
    assert Uncovered(files[1], {o.x, o.y}, 0) == 0 && Uncovered(files[1], {}, 0) == 0;
    assert Uncovered(files[1], {o.x, o.y}, 1) == 0 && Uncovered(files[1], {}, 1) == 1;
    assert ScoreAt(layout, files[1], [0, 1], covered, 0) == 1 && ScoreAt(layout, files[1], [0, 1], covered, 1) == 1;
  }

  /** The directory's name loses a match: the assignment [0, 1] matches, yet in every order the
      matcher sends the second member to the component it is stored under, whose key is taken,
      and refuses. */
  lemma HintMissesAMatch(o: Overlap, order: seq<nat>)
    requires o.Valid() && IsOrder(order, 2)
    ensures Matches(o.Files(), o.Layout(), [0, 1])
    ensures Greedy(o.Files(), o.Layout(), order) == None
  {
    hide Matches, Accepts, Names, CandidatesUpTo, Complete, Assignment, DistinctNames, Cell, Takes, BestAt, DirectoryHint;
    OverlapMatches(o);
    OrdersOfTwo(order);
    OverlapFirst(o, order);
    OverlapCandidates(o);
    OverlapAccepts(o);
    OverlapScores(o);
    var files, layout, s := o.Files(), o.Layout(), Tally(map[0 := 0], [{o.x, o.y}, {}]);
    assert o.x in Names(files[1]) && o.x in s.covered[0];
    assert Place(files, layout, s, 1) == None;
    assert AssignUpTo(files, layout, order, true, s, 0) == Some(s);
    assert AssignUpTo(files, layout, order, true, s, 1) == if order == [0, 1] then Some(s) else None;
    assert AssignUpTo(files, layout, order, true, s, 2) == None;
  }

  /** The hint is the last directory of the path; a path without one hints at nothing. */
  lemma HintIs(path: Text)
    ensures var s := Segments(path); DirectoryHint(path) == if |s| < 2 then [] else s[|s| - 2]
  {
    var parent := SplitParent(path).0;
    if parent.Some? {
      var up := SplitParent(parent.value);
      assert Segments(parent.value)[|Segments(parent.value)| - 1] == up.1;
    }
  }

  /** Which of the first `n` keys are still lacking. */
  function Lacking(file: ArtifactFile, covered: set<Text>, n: nat): set<nat>
    requires n <= |file.tensors|
  {
    set i: nat | i < n && file.tensors[i].name !in covered
  }

  lemma LackingStep(file: ArtifactFile, covered: set<Text>, n: nat)
    requires n < |file.tensors|
    ensures Lacking(file, covered, n + 1) == Lacking(file, covered, n) + (if file.tensors[n].name in covered then {} else {n})
    ensures n !in Lacking(file, covered, n)
  {
  }

  lemma {:induction false} UncoveredCounts(file: ArtifactFile, covered: set<Text>, n: nat)
    requires n <= |file.tensors|
    ensures Uncovered(file, covered, n) == |Lacking(file, covered, n)|
  {
    if n == 0 {
      assert Lacking(file, covered, 0) == {};
    } else {
      hide Lacking;
      UncoveredCounts(file, covered, n - 1);
      LackingStep(file, covered, n - 1);
      assert Lacking(file, covered, n - 1) + {} == Lacking(file, covered, n - 1);
    }
  }

  /** Two components that declare one key each, the same: optional in the first, required in the
      second; and one member that carries it, stored under neither's name. */
  datatype Tie = Tie(kind: Kind, x: Text, home: Text, away: Text, path: Text)
  {
    ghost predicate Valid() { DirectoryHint(path) != home && DirectoryHint(path) != away }

    function Layout(): Layout { [Component(home, map[x := Takes(kind, true)]), Component(away, map[x := Takes(kind, false)])] }

    function Files(): seq<ArtifactFile> { [ArtifactFile(path, [Cell(kind, x)])] }
  }

  lemma TieCandidates(e: Tie)
    ensures var files, layout := e.Files(), e.Layout();
      && Candidates(layout, files[0]) == [0, 1] && Names(files[0]) == {e.x} && DistinctNames(files[0])
      && Accepts(layout[1], files[0])
  {
    hide Accepts, Cell, Takes, Names, DistinctNames;
    var files, layout := e.Files(), e.Layout();
    assert DeclaresOnly(layout[0], e.kind) && DeclaresOnly(layout[1], e.kind);
    OneAccepted(layout[0], e.kind, e.path, e.x);
    OneAccepted(layout[1], e.kind, e.path, e.x);
    assert CandidatesUpTo(layout, files[0], 0) == [];
    assert CandidatesUpTo(layout, files[0], 1) == [0];
  }

  lemma TieMatches(e: Tie)
    ensures Matches(e.Files(), e.Layout(), [1])
  {
    hide Accepts, Cell, DistinctNames, CandidatesUpTo;
    TieCandidates(e);
    var files, layout := e.Files(), e.Layout();
    assert Required(layout[0]) == {} && Required(layout[1]) == {e.x};
    assert e.x in LayoutMatch.Covered(files, [1], 1, 1);
  }

  /** No hint and no clash, and still a match is lost: of two candidates with equal scores the
      first takes the member, and the second then lacks a key it requires. */
  lemma TieMissesAMatch(e: Tie, order: seq<nat>)
    requires e.Valid() && IsOrder(order, 1)
    ensures Matches(e.Files(), e.Layout(), [1])
    ensures Greedy(e.Files(), e.Layout(), order) == None
  {
    hide Matches, Accepts, Names, CandidatesUpTo, Cell, DirectoryHint;
    TieMatches(e);
    TieCandidates(e);
    var files, layout := e.Files(), e.Layout();
    assert 0 in order;
    OrderLength(order, 1);
    var start := NobodyPlaced(layout);
    assert order == [0] && start.covered == [{}, {}];
    assert AssignUpTo(files, layout, order, false, start, 0) == Some(start) && AssignUpTo(files, layout, order, true, start, 0) == Some(start);
    assert AssignUpTo(files, layout, order, false, start, 1) == Some(start);
    assert ScoreAt(layout, files[0], [0, 1], start.covered, 0) == ScoreAt(layout, files[0], [0, 1], start.covered, 1);
    assert BestAt(layout, files[0], [0, 1], start.covered, 2) == 0;
    var two := Tally(map[0 := 0], [{e.x}, {}]);
    assert {} + {e.x} == {e.x} && start.covered[0 := {e.x}] == [{e.x}, {}];
    assert AssignUpTo(files, layout, order, true, start, 1) == Some(two);
    assert e.x in Required(layout[1]) && e.x !in two.covered[1];
  }

  // --- the matcher in steps ------------------------------------------------------------------------------------------------

  method ComponentAccepts(component: Component, file: ArtifactFile) returns (ok: bool)
    ensures ok <==> Accepts(component, file)
  {
    for i := 0 to |file.tensors|
      invariant forall k | 0 <= k < i :: Carries(component, file.tensors[k])
    {
      if !Carries(component, file.tensors[i]) {
        return false;
      }
    }
    return true;
  }

  /** The components that accept a member, in layout order. */
  method FindCandidates(layout: Layout, file: ArtifactFile) returns (pending: seq<nat>)
    ensures pending == Candidates(layout, file)
  {
    hide Accepts;
    pending := [];
    for c := 0 to |layout|
      invariant pending == CandidatesUpTo(layout, file, c)
    {
      var ok := ComponentAccepts(layout[c], file);
      if ok {
        pending := pending + [c];
      }
    }
  }

  /** Claims a member's keys in one component, refusing a key already claimed. */
  method Claim(file: ArtifactFile, covered: set<Text>) returns (r: Option<set<Text>>)
    ensures r.Some? <==> DistinctNames(file) && Names(file) !! covered
    ensures r.Some? ==> r.value == covered + Names(file)
  {
    var all := covered;
    for i := 0 to |file.tensors|
      invariant all == covered + set k | 0 <= k < i :: file.tensors[k].name
      invariant forall j, k | 0 <= j < k < i :: file.tensors[j].name != file.tensors[k].name
      invariant forall k | 0 <= k < i :: file.tensors[k].name !in covered
    {
      if file.tensors[i].name in all {
        assert file.tensors[i].name in Names(file);
        return None;
      }
      all := all + {file.tensors[i].name};
    }
    return Some(all);
  }

  /** The first candidate of the highest score. */
  method BestComponent(layout: Layout, file: ArtifactFile, pending: seq<nat>, covered: seq<set<Text>>) returns (best: nat)
    requires pending != [] && InRange(layout, pending, covered)
    ensures best == pending[BestAt(layout, file, pending, covered, |pending|)]
  {
    hide Score;
    best := pending[0];
    var bestScore: int := -1;
    for k := 0 to |pending|
      invariant k == 0 ==> bestScore == -1
      invariant k > 0 ==> best == pending[BestAt(layout, file, pending, covered, k)]
      invariant k > 0 ==> bestScore == ScoreAt(layout, file, pending, covered, BestAt(layout, file, pending, covered, k))
    {
      var c := pending[k];
      var score := Score(layout[c], file, covered[c]);
      if score > bestScore {
        best, bestScore := c, score;
      }
    }
  }

  method OrderByPath(files: seq<ArtifactFile>) returns (order: seq<nat>)
    ensures StableOrder(files, order)
  {
    hide Before;
    order := [];
    for n := 0 to |files|
      invariant SortedUpTo(files, order, n)
    {
      var j: nat := |order|;
      while j > 0 && Before(files[n].path, files[order[j - 1]].path)
        invariant j <= |order| && forall k | j <= k < |order| :: Before(files[n].path, files[order[k]].path)
      {
        j := j - 1;
      }
      InsertSorted(files, order, n, j);
      order := order[..j] + [n] + order[j..];
    }
  }

  /** The first `n` members, in order. */
  ghost predicate SortedUpTo(files: seq<ArtifactFile>, order: seq<nat>, n: nat)
    requires n <= |files|
  {
    IsOrder(order, n) && forall j, k | 0 <= j < k < |order| :: Comes(files, order[j], order[k])
  }

  ghost predicate Comes(files: seq<ArtifactFile>, a: nat, b: nat)
    requires a < |files| && b < |files|
  {
    Before(files[a].path, files[b].path) || (files[a].path == files[b].path && a < b)
  }

  lemma InsertSorted(files: seq<ArtifactFile>, order: seq<nat>, n: nat, j: nat)
    requires n < |files| && SortedUpTo(files, order, n) && j <= |order|
    requires forall k | j <= k < |order| :: Before(files[n].path, files[order[k]].path)
    requires j > 0 ==> !Before(files[n].path, files[order[j - 1]].path)
    ensures SortedUpTo(files, order[..j] + [n] + order[j..], n + 1)
  {
    hide Before;
    InsertIsOrder(order, n, j);
    var r := order[..j] + [n] + order[j..];
    forall k | 0 <= k < j ensures Comes(files, order[k], n) {
      Trichotomy(files[n].path, files[order[j - 1]].path);
      if k < j - 1 {
        assert Comes(files, order[k], order[j - 1]);
        if Before(files[order[k]].path, files[order[j - 1]].path) && Before(files[order[j - 1]].path, files[n].path) {
          Transitive(files[order[k]].path, files[order[j - 1]].path, files[n].path);
        }
      }
    }
    forall a, b | 0 <= a < b < |r| ensures Comes(files, r[a], r[b]) {
      assert r[a] == (if a < j then order[a] else if a == j then n else order[a - 1]);
      assert r[b] == (if b < j then order[b] else if b == j then n else order[b - 1]);
    }
  }

  lemma InsertIsOrder(order: seq<nat>, n: nat, j: nat)
    requires IsOrder(order, n) && j <= |order|
    ensures IsOrder(order[..j] + [n] + order[j..], n + 1)
  {
    var r := order[..j] + [n] + order[j..];
    assert r[j] == n && (forall k | 0 <= k < j :: r[k] == order[k]) && (forall k | j < k < |r| :: r[k] == order[k - 1]);
    forall i | 0 <= i < n + 1 ensures i in r {
      if i < n {
        assert i in order;
        var k :| 0 <= k < |order| && order[k] == i;
        assert r[if k < j then k else k + 1] == i;
      }
    }
  }

  /** Every member's candidates, in order; None when some member has none. */
  method AllCandidates(files: seq<ArtifactFile>, layout: Layout, order: seq<nat>) returns (r: Option<seq<seq<nat>>>)
    requires IsOrder(order, |files|)
    ensures r.Some? <==> AllAccepted(files, layout)
    ensures r.Some? ==> |r.value| == |order| && forall k | 0 <= k < |order| :: r.value[k] == Candidates(layout, files[order[k]])
  {
    hide Candidates;
    var pending: seq<seq<nat>> := [];
    for k := 0 to |order|
      invariant |pending| == k && forall j | 0 <= j < k :: pending[j] == Candidates(layout, files[order[j]]) && pending[j] != []
    {
      var candidates := FindCandidates(layout, files[order[k]]);
      if candidates == [] {
        return None;
      }
      pending := pending + [candidates];
    }
    forall i | 0 <= i < |files| ensures Candidates(layout, files[i]) != [] {
      assert i in order;
      var k :| 0 <= k < |order| && order[k] == i;
      assert pending[k] != [];
    }
    return Some(pending);
  }

  /** Gives every member whose turn it is to its best candidate. */
  method AssignTurn(files: seq<ArtifactFile>, layout: Layout, order: seq<nat>, pending: seq<seq<nat>>, start: Tally, ambiguous: bool)
      returns (r: Option<Tally>)
    requires IsOrder(order, |files|) && AllAccepted(files, layout) && |start.covered| == |layout| && |pending| == |order|
    requires forall k | 0 <= k < |order| :: pending[k] == Candidates(layout, files[order[k]])
    ensures r == AssignUpTo(files, layout, order, ambiguous, start, |order|)
  {
    hide AllAccepted, Accepts, CandidatesUpTo, DistinctNames, Names;
    var placed: map<nat, nat>, covered := start.placed, start.covered;
    for k := 0 to |order|
      invariant AssignUpTo(files, layout, order, ambiguous, start, k) == Some(Tally(placed, covered)) && |covered| == |layout|
    {
      if ambiguous == (|pending[k]| != 1) {
        HasCandidates(files, layout, order[k]);
        var best := BestComponent(layout, files[order[k]], pending[k], covered);
        var claimed := Claim(files[order[k]], covered[best]);
        if claimed.None? {
          assert AssignUpTo(files, layout, order, ambiguous, start, k + 1).None?;
          StoppedStays(files, layout, order, ambiguous, start, k + 1, |order|);
          return None;
        }
        placed, covered := placed[order[k] := best], covered[best := claimed.value];
      }
    }
    return Some(Tally(placed, covered));
  }

  lemma {:induction false} StoppedStays(files: seq<ArtifactFile>, layout: Layout, order: seq<nat>, ambiguous: bool, start: Tally, k: nat, n: nat)
    requires Indexes(files, order) && AllAccepted(files, layout) && |start.covered| == |layout| && k <= n <= |order|
    requires AssignUpTo(files, layout, order, ambiguous, start, k).None?
    ensures AssignUpTo(files, layout, order, ambiguous, start, n).None?
    decreases n - k
  {
    hide AllAccepted, Place, Turn;
    if k < n {
      StoppedStays(files, layout, order, ambiguous, start, k, n - 1);
    }
  }

  /** Assigns every member to a component: those only one component accepts first. */
  method MatchLayout(files: seq<ArtifactFile>, layout: Layout) returns (r: Option<seq<nat>>)
    ensures exists order :: StableOrder(files, order) && r == Greedy(files, layout, order)
    ensures r.Some? ==> Matches(files, layout, r.value)
    ensures r.Some? ==> forall probe | IsProbe(files, probe) :: Plausible(layout, TotalTensors(files, |files|), probe)
    ensures Decided(files, layout) ==> (r.Some? <==> exists a :: Matches(files, layout, a))
  {
    hide Matches, Accepts, IsProbe, Plausible, AllAccepted, AssignUpTo, Decided, StableOrder;
    var order := OrderByPath(files);
    StableMeans(files, order);
    r := Run(files, layout, order);
    if r.Some? {
      GreedySound(files, layout, order);
      forall probe | IsProbe(files, probe) ensures Plausible(layout, TotalTensors(files, |files|), probe) {
        FiltersAreSound(files, layout, r.value, probe);
      }
    }
    if Decided(files, layout) {
      GreedyExact(files, layout, order);
    }
  }

  lemma StableMeans(files: seq<ArtifactFile>, order: seq<nat>)
    requires StableOrder(files, order)
    ensures IsOrder(order, |files|)
  {
  }

  method Run(files: seq<ArtifactFile>, layout: Layout, order: seq<nat>) returns (r: Option<seq<nat>>)
    requires IsOrder(order, |files|)
    ensures r == Greedy(files, layout, order)
  {
    hide AllAccepted, AssignUpTo, Assigning, PlacedSoFar, NotYet, Candidates;
    var pending := AllCandidates(files, layout, order);
    if pending.None? {
      return None;
    }
    var one := AssignTurn(files, layout, order, pending.value, Tally(map[], seq(|layout|, _ => {})), false);
    assert NobodyPlaced(layout) == Tally(map[], seq(|layout|, _ => {}));
    if one.None? {
      return None;
    }
    var two := AssignTurn(files, layout, order, pending.value, one.value, true);
    if two.None? {
      return None;
    }
    for c := 0 to |layout|
      invariant forall d | 0 <= d < c :: Required(layout[d]) <= two.value.covered[d]
    {
      if !(Required(layout[c]) <= two.value.covered[c]) {
        return None;
      }
    }
    return Some(seq(|files|, i requires 0 <= i < |files| => if i in two.value.placed then two.value.placed[i] else 0));
  }
}
