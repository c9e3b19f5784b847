/** What the push's specification functions say, spelled out: a sublist by its indices, the rounds
    a loop gets to by what each of them met, and the rows a round of the blob lane puts off. */
module PushMeaning {
  import opened Records
  import opened Push
  import opened PushSession
  import opened PushBlobs

  // --- sublists -------------------------------------------------------------------------------------

  /** Row `i` is row `at[i]` of the list, and the indices grow. */
  ghost predicate Picks(rows: seq<Owed>, all: seq<Owed>, at: seq<nat>) {
    && |at| == |rows| && (forall i | 0 <= i < |rows| :: at[i] < |all| && rows[i] == all[at[i]])
    && forall i, j | 0 <= i < j < |at| :: at[i] < at[j]
  }

  /** A list is accepted as canonical exactly when it picks rows at growing indices. */
  lemma SublistIff(rows: seq<Owed>, all: seq<Owed>)
    ensures Sublist(rows, all) <==> exists at :: Picks(rows, all, at)
  {
    hide Sublist, Picks;
    if Sublist(rows, all) { var at := PicksOf(rows, all); }
    if at :| Picks(rows, all, at) { PickedIsSublist(rows, all, at); }
  }

  lemma {:induction false} PicksOf(rows: seq<Owed>, all: seq<Owed>) returns (at: seq<nat>)
    requires Sublist(rows, all)
    ensures Picks(rows, all, at)
    decreases |all|
  {
    if rows == [] {
      at := [];
    } else if rows[0] == all[0] && Sublist(rows[1..], all[1..]) {
      var later := PicksOf(rows[1..], all[1..]);
      at := [0] + seq(|later|, i requires 0 <= i < |later| => later[i] + 1);
    } else {
      var later := PicksOf(rows, all[1..]);
      at := seq(|later|, i requires 0 <= i < |later| => later[i] + 1);
    }
  }

  lemma {:induction false} PickedIsSublist(rows: seq<Owed>, all: seq<Owed>, at: seq<nat>)
    requires Picks(rows, all, at)
    ensures Sublist(rows, all)
    decreases |all|
  {
    if rows != [] {
      var from := if at[0] == 0 then 1 else 0;
      var rest := seq(|at| - from, i requires 0 <= i < |at| - from => at[from + i] - 1);
      forall i | 0 <= i < |rows[from..]| ensures rest[i] < |all[1..]| && rows[from..][i] == all[1..][rest[i]] {
        assert at[from + i] > 0;
      }
      PickedIsSublist(rows[from..], all[1..], rest);
      assert rows[0..] == rows;
    }
  }

  /** A view is lane-correct exactly when both lists pick rows of the closure at growing indices, and
      the bound puts each row in the lane it is in. */
  lemma LanesIff(closure: seq<Owed>, missing: seq<Owed>, blobs: seq<Owed>, limit: nat)
    ensures LanesOk(closure, missing, blobs, limit) <==>
      && (exists at :: Picks(missing, closure, at)) && (exists at :: Picks(blobs, closure, at))
      && (forall o | o in missing :: o.length <= limit) && (forall o | o in blobs :: o.length > limit)
  {
    hide Sublist, Picks;
    SublistIff(missing, closure);
    SublistIff(blobs, closure);
  }

  // --- packs --------------------------------------------------------------------------------------------

  /** Packs filled greedily hold between one and a million rows within the bound, and each is
      followed by a row it has no room for. */
  lemma FullMeans(groups: seq<seq<Owed>>, rows: seq<Owed>, limit: nat, k: nat)
    requires Packing(groups, rows, limit) && Full(groups, limit) && k < |groups|
    ensures 0 < |groups[k]| <= 1_000_000 && Weight(groups[k]) <= limit
    ensures k + 1 < |groups| ==> groups[k + 1] != []
    ensures k + 1 < |groups| ==> |groups[k]| == 1_000_000 || Weight(groups[k]) + groups[k + 1][0].length > limit
  {
    hide Weight;
    assert Fits(groups[k], limit);
    if k + 1 < |groups| {
      assert Closed(groups, k, limit);
      WeightOne(groups[k], groups[k + 1][0]);
    }
  }

  /** The attempts under a grant settle on `answer`: the first that is no carrier failure, within the
      attempt budget. */
  ghost predicate SettlesOn(remote: Remote, round: nat, group: nat, options: Options, answer: Put) {
    exists a: nat :: a < Budget(options.maxUploadAttempts) && remote.put(round, group, a) == answer
      && forall b: nat | b < a :: remote.put(round, group, b) == Io
  }

  /** A group of local objects, answer by answer: staged already or landed goes on, a lapse makes the
      loop probe again, a refusal stops it, and so do carrier failures at every attempt. */
  lemma GroupSentIs(objects: Objects, members: seq<Owed>, remote: Remote, round: nat, group: nat, options: Options)
    requires Local(objects, members)
    ensures var r := GroupSent(objects, members, remote, round, group, options);
      match remote.grant(round, group)
      case AlreadyStaged => r == Next
      case GrantExpired => r == RefreshEarly
      case GrantRefused => r == Stop(PackRefused)
      case Granted =>
        && (r == Next <==> SettlesOn(remote, round, group, options, Landed))
        && (r == RefreshEarly <==> SettlesOn(remote, round, group, options, PutExpired))
        && (r == Stop(PackRefused) <==> SettlesOn(remote, round, group, options, PutRefused))
        && (r == Stop(TransportFailed) <==>
              forall a: nat | a < Budget(options.maxUploadAttempts) :: remote.put(round, group, a) == Io)
  {
    if remote.grant(round, group).Granted? {
      var put, budget := PackTries(remote, round, group), Budget(options.maxUploadAttempts);
      SettledIs(put, budget);
      forall answer ensures SettlesOn(remote, round, group, options, answer) <==> First(put, budget, answer) {
        SameAnswers(remote, round, group, options, answer);
      }
      assert forall a: nat :: put(a) == remote.put(round, group, a);
    }
  }

  ghost predicate First(put: nat -> Put, budget: nat, answer: Put) {
    exists a: nat :: a < budget && put(a) == answer && forall b: nat | b < a :: put(b) == Io
  }

  lemma SameAnswers(remote: Remote, round: nat, group: nat, options: Options, answer: Put)
    ensures SettlesOn(remote, round, group, options, answer)
      <==> First(PackTries(remote, round, group), Budget(options.maxUploadAttempts), answer)
  {
    var put, budget := PackTries(remote, round, group), Budget(options.maxUploadAttempts);
    if a: nat :| a < budget && remote.put(round, group, a) == answer && forall b: nat | b < a :: remote.put(round, group, b) == Io {
      assert put(a) == answer && forall b: nat | b < a :: put(b) == Io;
    }
    if a: nat :| a < budget && put(a) == answer && forall b: nat | b < a :: put(b) == Io {
      assert remote.put(round, group, a) == answer && forall b: nat | b < a :: put(b) == remote.put(round, group, b);
    }
  }

  /** The uploads settle on the first answer that is no carrier failure, and on one only if all are. */
  lemma SettledIs(put: nat -> Put, budget: nat)
    requires budget > 0
    ensures forall answer | answer != Io :: Settled(put, budget, 0) == answer <==> First(put, budget, answer)
    ensures Settled(put, budget, 0) == Io <==> forall a: nat | a < budget :: put(a) == Io
  {
    var settled := Settled(put, budget, 0);
    var a: nat :| a < budget && put(a) == settled && forall b: nat | b < a :: put(b) == Io;
    forall answer | answer != Io && First(put, budget, answer) ensures settled == answer {
      var c: nat :| c < budget && put(c) == answer && forall b: nat | b < c :: put(b) == Io;
    }
  }

  // --- the pack loop's rounds ---------------------------------------------------------------------------

  lemma {:induction false} StallsCount(remote: Remote, first: seq<Owed>, n: nat, k: nat)
    ensures StalledFor(remote, first, n, k) <==> k <= Stalls(remote, first, n)
  {
    hide NoProgress;
    if n > 0 && k > 0 { StallsCount(remote, first, n - 1, k - 1); }
  }

  /** What a round meets that lets the loop go on: something was missing, no group stopped it, the
      probe answered a lane-correct view, and the budget of rounds without progress is not full. */
  ghost predicate Passes(s: Session, m: nat) {
    var view := s.remote.view(m);
    && MissingAt(s.remote, s.first, m) != [] && !RoundSends(s, m).Stop?
    && view.Some? && LanesOk(s.closure, view.value.missing, view.value.blobs, s.limit)
    && !StalledFor(s.remote, s.first, m + 1, Budget(s.options.maxStalledReplans))
  }

  /** The loop gets to its `n`-th test exactly when every round before it passed. */
  lemma ReachedIff(s: Session, n: nat)
    ensures Reached(s, n) <==> forall m | 0 <= m < n :: Passes(s, m)
  {
    hide GoesOn, Passes;
    forall m: nat ensures GoesOn(s, m) <==> Passes(s, m) { PassesIff(s, m); }
  }

  lemma PassesIff(s: Session, m: nat)
    ensures GoesOn(s, m) <==> Passes(s, m)
  {
    hide StalledFor, RoundSends, LanesOk, MissingAt;
    StallsCount(s.remote, s.first, m + 1, Budget(s.options.maxStalledReplans));
  }

  /** So a drained pack lane is one whose last probe answered that nothing is missing. */
  lemma DrainedMeans(s: Session, n: nat)
    requires Reached(s, n) && MissingAt(s.remote, s.first, n) == []
    ensures if n == 0 then s.first == [] else s.remote.view(n - 1).Some? && s.remote.view(n - 1).value.missing == []
  {
    hide RoundSends, LanesOk, StalledFor, Reached;
    ReachedIff(s, n);
    if n > 0 { assert Passes(s, n - 1); }
  }

  // --- the blob lane's rounds -----------------------------------------------------------------------------

  lemma {:induction false} IdleCount(l: Lane, n: nat, k: nat)
    ensures IdleFor(l, n, k) <==> k <= IdleRounds(l, n)
  {
    hide Idle;
    if n > 0 && k > 0 { IdleCount(l, n - 1, k - 1); }
    if k > 0 && n > 0 && IdleFor(l, n, k) { assert Idle(l, n - 1); }
  }

  /** What lets the lane go on: something was pending, no row failed, and the budget of idle rounds
      is not full. */
  ghost predicate LanePasses(l: Lane, m: nat) {
    && PendingAt(l, m) != [] && Clean(l, m, PendingAt(l, m), |PendingAt(l, m)|)
    && !IdleFor(l, m + 1, Budget(l.options.maxStalledReplans))
  }

  lemma LaneReachedIff(l: Lane, n: nat)
    ensures LaneReached(l, n) <==> forall m | 0 <= m < n :: LanePasses(l, m)
  {
    hide LaneGoesOn, LanePasses;
    forall m: nat ensures LaneGoesOn(l, m) <==> LanePasses(l, m) { LanePassesIff(l, m); }
  }

  lemma LanePassesIff(l: Lane, m: nat)
    ensures LaneGoesOn(l, m) <==> LanePasses(l, m)
  {
    hide IdleFor, Idle, Clean, PendingAt;
    IdleCount(l, m + 1, Budget(l.options.maxStalledReplans));
  }

  /** The rows put off: those that lapsed, in order. */
  lemma {:induction false} DeferredAre(l: Lane, n: nat, pending: seq<Owed>, k: nat)
    requires k <= |pending|
    ensures Sublist(Deferred(l, n, pending, k), pending[..k])
    ensures forall o :: o in Deferred(l, n, pending, k) <==>
      exists i :: 0 <= i < k && pending[i] == o && RowEnd(l, n, pending, i).BlobLapsed?
  {
    hide RowEnd, Sublist;
    if k == 0 {
      Nothing(pending[..0]);
    } else {
      DeferredAre(l, n, pending, k - 1);
      assert pending[..k] == pending[..k - 1] + [pending[k - 1]];
      var before := Deferred(l, n, pending, k - 1);
      assert before + [] == before;
      SublistSnoc(before, pending[..k - 1], pending[k - 1]);
    }
  }

  lemma SublistSnoc(rows: seq<Owed>, all: seq<Owed>, o: Owed)
    requires Sublist(rows, all)
    ensures Sublist(rows, all + [o]) && Sublist(rows + [o], all + [o])
  {
    hide Sublist, Picks;
    var at := PicksOf(rows, all);
    SnocPicks(rows, all, at, o);
    PickedIsSublist(rows, all + [o], at);
    PickedIsSublist(rows + [o], all + [o], at + [|all|]);
  }

  lemma SnocPicks(rows: seq<Owed>, all: seq<Owed>, at: seq<nat>, o: Owed)
    requires Picks(rows, all, at)
    ensures Picks(rows, all + [o], at) && Picks(rows + [o], all + [o], at + [|all|])
  {
  }
}
