/** When the blob lane ends: exactly when only finitely many of its rounds land a part. A remote
    that keeps what lands meets this, so does one that lands every part, and one that forgets does not. */
module PushBlobEnds {
  import opened Wrappers
  import opened Records
  import opened Push
  import opened PushSession
  import opened PushBlobs
  import MixedRadix

  /** The lane comes to an end if and only if the rounds that land a part are bounded. */
  lemma LaneEndsIff(l: Lane)
    ensures (exists n :: LaneReached(l, n) && !LaneGoesOn(l, n)) <==> exists landings :: LandsAtMost(l, landings)
  {
    hide LaneGoesOn, LaneReached, LandsAtMost;
    if n: nat :| LaneReached(l, n) && !LaneGoesOn(l, n) { EndBoundsLandings(l, n); }
    if landings: nat :| LandsAtMost(l, landings) { BoundEndsLane(l, landings); }
  }

  lemma EndBoundsLandings(l: Lane, n: nat)
    requires LaneReached(l, n) && !LaneGoesOn(l, n)
    ensures LandsAtMost(l, Landings(l, n))
  {
    hide LaneGoesOn, Landings;
    forall m: nat | LaneReached(l, m) ensures Landings(l, m) <= Landings(l, n) { LandingsGrow(l, m, n); }
  }

  lemma BoundEndsLane(l: Lane, landings: nat)
    requires LandsAtMost(l, landings)
    ensures exists n :: LaneReached(l, n) && !LaneGoesOn(l, n)
  {
    hide LaneGoesOn, LaneReached, LandsAtMost;
    if forall n: nat | LaneReached(l, n) :: LaneGoesOn(l, n) {
      var total: nat, budget: nat := landings + |l.blobs|, Budget(l.options.maxStalledReplans);
      MixedRadix.Scale(0, total, budget);
      var bound: nat := total * budget;
      LaneReachesAll(l, bound);
      LastRoundFits(l, landings, bound);
    }
  }

  lemma {:induction false} LandingsGrow(l: Lane, m: nat, n: nat)
    requires m <= n
    ensures Landings(l, m) <= Landings(l, n)
  {
    hide SentIn;
    if m < n { LandingsGrow(l, m, n - 1); }
  }

  lemma {:induction false} LaneReachesAll(l: Lane, n: nat)
    requires forall m: nat | LaneReached(l, m) :: LaneGoesOn(l, m)
    ensures LaneReached(l, n)
  {
    hide LaneGoesOn;
    if n > 0 { LaneReachesAll(l, n - 1); }
  }

  lemma LastRoundFits(l: Lane, landings: nat, n: nat)
    requires LandsAtMost(l, landings) && LaneReached(l, n) && LaneGoesOn(l, n)
    ensures n + 1 <= (landings + |l.blobs|) * Budget(l.options.maxStalledReplans)
  {
    hide Paced, LandsAtMost, PendingAt;
    LaneIsPaced(l, landings, n);
    RoundFits(landings + |l.blobs|, LaneOwes(l, landings, n), Budget(l.options.maxStalledReplans), IdleRounds(l, n), n);
  }

  // --- a remote that keeps what lands -----------------------------------------------------------------

  /** The parts, by blob and number, landed before round `n`. */
  ghost function LandedBefore(l: Lane, n: nat): set<(Digest, nat)> { set s | s in SentBefore(l, n) :: (s.digest, s.number) }

  /** Every part the lane lands is listed by each later grant for its blob, and is one of `all`. */
  ghost predicate Durable(l: Lane, all: set<(Digest, nat)>) {
    forall n: nat | LaneReached(l, n) :: LandedBefore(l, n) <= all && Listed(l, n)
  }

  ghost predicate Listed(l: Lane, n: nat) {
    forall k | 0 <= k < |PendingAt(l, n)| :: ListedFor(l, n, k)
  }

  ghost predicate ListedFor(l: Lane, n: nat, k: nat)
    requires k < |PendingAt(l, n)|
  {
    var grant := RowGrant(l, n, PendingAt(l, n), k);
    grant.Some? ==> forall number | (grant.value.digest, number) in LandedBefore(l, n) :: number in grant.value.uploaded
  }

  /** Against such a remote no more rounds land a part than there are parts. */
  lemma DurableLands(l: Lane, all: set<(Digest, nat)>)
    requires Durable(l, all)
    ensures LandsAtMost(l, |all|)
  {
    hide Landings, LandedBefore, Listed;
    forall n: nat | LaneReached(l, n) ensures Landings(l, n) <= |all| {
      DurableCounts(l, all, n);
      MixedRadix.SubsetCardinality(LandedBefore(l, n), all);
    }
  }

  lemma {:induction false} DurableCounts(l: Lane, all: set<(Digest, nat)>, n: nat)
    requires Durable(l, all) && LaneReached(l, n)
    ensures Landings(l, n) <= |LandedBefore(l, n)|
  {
    hide LaneGoesOn, SentIn, LandedBefore, Listed;
    if n > 0 {
      assert LaneReached(l, n - 1);
      DurableCounts(l, all, n - 1);
      LandedGrows(l, n - 1);
      MixedRadix.SubsetCardinality(LandedBefore(l, n - 1), LandedBefore(l, n));
    }
  }

  lemma LandedGrows(l: Lane, n: nat)
    requires Listed(l, n)
    ensures LandedBefore(l, n) <= LandedBefore(l, n + 1)
    ensures SentIn(l, n) != [] ==> LandedBefore(l, n) != LandedBefore(l, n + 1)
  {
    hide PendingAt, RoundSent, RowGrant, PartPuts;
    if SentIn(l, n) != [] {
      var s := SentIn(l, n)[0];
      RoundGenuine(l, n, |PendingAt(l, n)|, s);
      assert ListedFor(l, n, s.row);
      assert s in SentBefore(l, n + 1);
    }
  }

  // --- a remote that lands every part -----------------------------------------------------------------

  /** If every part offered lands, each round that lands one also finishes a blob, whatever grants lapse. */
  lemma EveryPartLands(l: Lane)
    requires forall n: nat, row: nat, i: nat, k: nat :: l.remote.part(n, row, i, k) == Landed
    ensures LandsAtMost(l, |l.blobs|)
  {
    hide Landings, LaneReached;
    forall n: nat | LaneReached(l, n) ensures Landings(l, n) <= |l.blobs| { FinishesBlobs(l, n); }
  }

  lemma {:induction false} FinishesBlobs(l: Lane, n: nat)
    requires forall n: nat, row: nat, i: nat, k: nat :: l.remote.part(n, row, i, k) == Landed
    ensures Landings(l, n) + |PendingAt(l, n)| <= |l.blobs|
  {
    hide PendingAt, SentIn, RowEnd;
    if n == 0 {
      LaneStarts(l, 0, 1);
    } else {
      FinishesBlobs(l, n - 1);
      PendingNext(l, n - 1);
      if SentIn(l, n - 1) != [] { LandingFinishes(l, n - 1); }
    }
  }

  lemma LandingFinishes(l: Lane, n: nat)
    requires forall n: nat, row: nat, i: nat, k: nat :: l.remote.part(n, row, i, k) == Landed
    requires SentIn(l, n) != []
    ensures |PendingAt(l, n + 1)| < |PendingAt(l, n)|
  {
    hide PendingAt, RoundSent, RowEnd;
    var s := SentIn(l, n)[0];
    RoundGenuine(l, n, |PendingAt(l, n)|, s);
    NoLapse(l, n, s.row);
    FewerDeferred(l, n, PendingAt(l, n), s.row, |PendingAt(l, n)|);
    PendingNext(l, n);
  }

  lemma NoLapse(l: Lane, n: nat, k: nat)
    requires forall n: nat, row: nat, i: nat, a: nat :: l.remote.part(n, row, i, a) == Landed
    requires k < |PendingAt(l, n)| && RowGrant(l, n, PendingAt(l, n), k).Some?
    ensures !RowEnd(l, n, PendingAt(l, n), k).BlobLapsed?
  {
    hide PendingAt;
    forall i: nat ensures PartPuts(l.remote, l.options, n, k)(i) == Landed {
      assert PartTries(l.remote, n, k, i)(0) == Landed;
    }
  }

  lemma {:induction false} FewerDeferred(l: Lane, n: nat, pending: seq<Owed>, k: nat, upto: nat)
    requires k < upto <= |pending| && !RowEnd(l, n, pending, k).BlobLapsed?
    ensures |Deferred(l, n, pending, upto)| < upto
  {
    hide RowEnd;
    if k < upto - 1 { FewerDeferred(l, n, pending, k, upto - 1); }
  }

  // --- a remote that forgets ----------------------------------------------------------------------------

  /** Cuts the blob in two, takes the first part, lets the second lapse, and never lists either. */
  function Forgetful(owed: Owed): BlobRemote
    requires owed.length >= 2
  {
    BlobRemote(
      (_, _) => BlobGrants([BlobGrant(owed.digest, owed.length, [Part(1, 1), Part(2, owed.length - 1)], {})]),
      (_, _, i, _) => if i == 0 then Landed else PutExpired,
      (_, _) => true)
  }

  /** Such a remote lapses every grant, yet the lane never gives up, whatever its budget: every round
      lands a part again, and the blob stays pending. */
  lemma {:induction false} ForgetfulGoesOn(objects: Objects, owed: Owed, options: Options, n: nat)
    requires owed.length >= 2 && owed.digest in objects && |objects[owed.digest]| == owed.length
    ensures var l := Lane(objects, [owed], Forgetful(owed), options); LaneReached(l, n) && PendingAt(l, n) == [owed]
  {
    hide RowEnd, RowSent, Forgetful;
    if n > 0 {
      ForgetfulGoesOn(objects, owed, options, n - 1);
      var l := Lane(objects, [owed], Forgetful(owed), options);
      ForgetfulRow(objects, owed, options, n - 1);
      OneRow(l, n - 1, owed);
    }
  }

  lemma OneRow(l: Lane, n: nat, owed: Owed)
    ensures Deferred(l, n, [owed], 1) == if RowEnd(l, n, [owed], 0).BlobLapsed? then [owed] else []
    ensures RoundSent(l, n, [owed], 1) == RowSent(l, n, [owed], 0)
    ensures Clean(l, n, [owed], 1) <==> !RowEnd(l, n, [owed], 0).BlobFailed?
  {
    hide RowEnd, RowSent;
    assert Deferred(l, n, [owed], 0) == [] && RoundSent(l, n, [owed], 0) == [];
  }

  lemma ForgetfulRow(objects: Objects, owed: Owed, options: Options, n: nat)
    requires owed.length >= 2 && owed.digest in objects && |objects[owed.digest]| == owed.length
    ensures var l := Lane(objects, [owed], Forgetful(owed), options);
      RowEnd(l, n, [owed], 0) == BlobLapsed && RowSent(l, n, [owed], 0) != []
  {
    hide PartBytes;
    var l := Lane(objects, [owed], Forgetful(owed), options);
    var parts := [Part(1, 1), Part(2, owed.length - 1)];
    var grant := BlobGrant(owed.digest, owed.length, parts, {});
    assert FirstGrant([grant], owed.digest) == Some(grant);
    assert Offset(parts, 1) == 1 && Offset(parts, 2) == owed.length;
    var put := PartPuts(l.remote, options, n, 0);
    assert PartTries(l.remote, n, 0, 0)(0) == Landed && PartTries(l.remote, n, 0, 1)(0) == PutExpired;
    assert put(0) == Landed && put(1) == PutExpired;
    assert Halt(grant, put, 0) == 1;
    assert Unheld(grant, 1) == [0];
  }
}
