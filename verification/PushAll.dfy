/** A whole push: declare, the blob lane, the pack lane, completion. */
module PushAll {
  import opened Wrappers
  import opened Records
  import opened Rechunk
  import opened Paths
  import opened Tfm1
  import opened Tfm1Finish
  import opened Tfp1
  import opened Push
  import opened PushSession
  import opened PushBlobs

  /** The remote's answer to the declaration. */
  datatype Plan = Plan(id: Digest, first: View, maxPackPayload: nat)

  /** The pack bound: the remote's where it names one, never above this side's own. */
  function Limit(plan: Plan): (n: nat)
    ensures n <= MAX_PACK_PAYLOAD && (plan.maxPackPayload != 0 ==> n <= plan.maxPackPayload)
    ensures n == MAX_PACK_PAYLOAD || n == plan.maxPackPayload
    ensures n == MAX_PACK_PAYLOAD <==> plan.maxPackPayload == 0 || plan.maxPackPayload >= MAX_PACK_PAYLOAD
  {
    if plan.maxPackPayload == 0 || plan.maxPackPayload > MAX_PACK_PAYLOAD then MAX_PACK_PAYLOAD else plan.maxPackPayload
  }

  lemma {:induction false} RunOwesBytes(records: seq<FileRecord>)
    requires PositiveLengths(records)
    ensures Positive(RunOwed(records))
  {
    if records != [] {
      RunOwesBytes(records[1..]);
    }
  }

  lemma {:induction false} ManifestOwesBytes(entries: seq<Item<Entry>>)
    requires forall i | 0 <= i < |entries| && entries[i].entry.File? :: PositiveLengths(BodyRecords(entries[i].entry.body))
    ensures Positive(AllOwed(entries))
  {
    hide PositiveLengths;
    if entries != [] {
      ManifestOwesBytes(entries[1..]);
      if entries[0].entry.File? {
        RunOwesBytes(BodyRecords(entries[0].entry.body));
      }
    }
  }

  /** A canonical manifest owes no empty object. */
  lemma ClosureOwesBytes(rules: TextRules, s: Snapshot, closure: seq<Owed>)
    requires Canonical(rules, s) && closure == Firsts(AllOwed(s.entries), {})
    ensures Positive(closure)
  {
    CanonicalMeans(rules, s.entries);
    forall i | 0 <= i < |s.entries| && s.entries[i].entry.File? ensures PositiveLengths(BodyRecords(s.entries[i].entry.body)) {
      assert WellListed(rules, s.entries, i);
    }
    ManifestOwesBytes(s.entries);
    FirstsUnique(AllOwed(s.entries), {});
    forall i | 0 <= i < |closure| ensures 0 < closure[i].length {
      assert closure[i] in AllOwed(s.entries);
    }
  }

  /** The remote as one push meets it: its answer to the declaration, how it treats the blob lane,
      the view probed after it, and how it treats the packs and the completion. */
  datatype Far = Far(plan: Plan, blobs: BlobRemote, afterBlobs: Option<View>, remote: Remote)

  ghost function Closure(s: Snapshot): seq<Owed> { Firsts(AllOwed(s.entries), {}) }

  function BlobLane(objects: Objects, far: Far, options: Options): Lane { Lane(objects, far.plan.first.blobs, far.blobs, options) }

  /** The view the pack lane starts from. */
  function Opening(far: Far): Option<View> {
    if far.plan.first.blobs == [] then Some(far.plan.first) else far.afterBlobs
  }

  ghost function PackLane(objects: Objects, s: Snapshot, far: Far, options: Options): Session
    requires Opening(far).Some?
  {
    Session(objects, Closure(s), Opening(far).value.missing, Limit(far.plan), far.remote, options)
  }

  /** Why a push fails, stage by stage. */
  ghost predicate PushCause(objects: Objects, id: Digest, s: Snapshot, far: Far, options: Options, e: PushError,
                            blobRounds: nat, rounds: nat, calls: nat) {
    var first, limit := far.plan.first, Limit(far.plan);
    || (e.IdentityMismatch? && far.plan.id != id)
    || (e.LaneMismatch? && !LanesOk(Closure(s), first.missing, first.blobs, limit))
    || (first.blobs != [] && LaneCause(BlobLane(objects, far, options), blobRounds, e))
    || (first.blobs != [] && e.TransportFailed? && far.afterBlobs.None?)
    || (first.blobs != [] && e.LaneMismatch? && far.afterBlobs.Some?
        && !LanesOk(Closure(s), far.afterBlobs.value.missing, far.afterBlobs.value.blobs, limit))
    || (first.blobs != [] && e.BlobNotAccepted? && far.afterBlobs.Some? && far.afterBlobs.value.blobs != [])
    || (Opening(far).Some? && GivesUp(PackLane(objects, s, far, options), e, rounds))
    || CompletionCause(far.remote, options, calls, e)
  }

  /** The remote takes a pack of these objects: their bytes are within its bound, if it names one,
      and within this side's. */
  ghost predicate Welcome(plan: Plan, members: seq<Owed>) {
    Weight(members) <= MAX_PACK_PAYLOAD && (plan.maxPackPayload != 0 ==> Weight(members) <= plan.maxPackPayload)
  }

  /** Every pack of every round is one the remote takes. */
  lemma PacksAreWelcome(objects: Objects, s: Snapshot, far: Far, options: Options, n: nat, g: nat)
    requires Opening(far).Some? && Unique(Closure(s)) && Positive(Closure(s))
    requires LanesOk(Closure(s), Opening(far).value.missing, [], Limit(far.plan)) && Reached(PackLane(objects, s, far, options), n)
    requires g < |Groups(MissingAt(far.remote, Opening(far).value.missing, n), Limit(far.plan))|
    ensures Welcome(far.plan, Groups(MissingAt(far.remote, Opening(far).value.missing, n), Limit(far.plan))[g])
  {
    hide LanesOk, Groups, Weight, RoundSends, Stalls;
    var session := PackLane(objects, s, far, options);
    var missing := MissingAt(far.remote, Opening(far).value.missing, n);
    if n > 0 {
      assert GoesOn(session, n - 1);
      OnePackLane(Closure(s), missing, far.remote.view(n - 1).value.blobs, Limit(far.plan));
    }
    Sendable(Closure(s), missing, Limit(far.plan));
    GroupsPack(missing, Limit(far.plan));
    assert Fits(Groups(missing, Limit(far.plan))[g], Limit(far.plan));
  }

  /** A view of the closure split at the bound, small rows to the packs and large ones to the blob
      lane, is never refused; one split elsewhere is. */
  lemma SplitAtTheBound(plan: Plan, closure: seq<Owed>, missing: seq<Owed>, blobs: seq<Owed>)
    requires Sublist(missing, closure) && Sublist(blobs, closure)
    ensures LanesOk(closure, missing, blobs, Limit(plan)) <==>
      && (forall i | 0 <= i < |missing| :: missing[i].length <= MAX_PACK_PAYLOAD
            && (plan.maxPackPayload != 0 ==> missing[i].length <= plan.maxPackPayload))
      && (forall i | 0 <= i < |blobs| :: blobs[i].length > MAX_PACK_PAYLOAD
            || (plan.maxPackPayload != 0 && blobs[i].length > plan.maxPackPayload))
  {
    hide Sublist;
  }

  /** Every pack any round of this push sends is one the remote takes. */
  ghost predicate OnlyWelcomePacks(objects: Objects, s: Snapshot, far: Far, options: Options)
    requires Opening(far).Some?
  {
    forall n: nat, g: nat | Reached(PackLane(objects, s, far, options), n)
      && g < |Groups(MissingAt(far.remote, Opening(far).value.missing, n), Limit(far.plan))| ::
        Welcome(far.plan, Groups(MissingAt(far.remote, Opening(far).value.missing, n), Limit(far.plan))[g])
  }

  /** Declares, sends the blob lane and probes again, drains the pack lane, and completes. Success
      means every blob was in place, then nothing was missing, then the remote answered Promoted. */
  method PushSnapshot(ghost rules: TextRules, hash: Hash, objects: Objects, id: Digest, s: Snapshot, far: Far, options: Options,
                      ghost landings: nat, ghost grown: nat, ghost total: nat)
      returns (r: Outcome<PushError>, blobRounds: nat, rounds: nat, calls: nat, sent: seq<SentPart>)
    requires Addressed(hash, objects) && Canonical(rules, s)
    requires far.plan.first.blobs != [] ==> LandsAtMost(BlobLane(objects, far, options), landings)
    requires Opening(far).Some? ==> GrowsAtMost(PackLane(objects, s, far, options), grown)
    requires forall n: nat :: far.remote.complete(n).Incomplete? ==> far.remote.complete(n).promoted <= total
    ensures blobRounds <= (landings + |far.plan.first.blobs|) * Budget(options.maxStalledReplans)
    ensures rounds <= ((if Opening(far).Some? then |Opening(far).value.missing| else 0) + grown) * Budget(options.maxStalledReplans)
    ensures calls <= (total + 1) * Budget(options.maxCompletionStalls)
    ensures r.Fail? ==> PushCause(objects, id, s, far, options, r.error, blobRounds, rounds, calls)
    ensures r.Pass? ==> far.plan.id == id && calls > 0 && far.remote.complete(calls - 1) == Promoted
    ensures r.Pass? ==>
      && Opening(far).Some? && Opening(far).value.blobs == [] && Reached(PackLane(objects, s, far, options), rounds)
      && MissingAt(far.remote, Opening(far).value.missing, rounds) == []
    ensures r.Pass? ==> forall i | 0 <= i < |far.plan.first.blobs| ::
      Placed(BlobLane(objects, far, options), blobRounds, far.plan.first.blobs[i], sent)
    ensures forall part | part in sent :: Genuine(BlobLane(objects, far, options), part)
    ensures Opening(far).Some? && LanesOk(Closure(s), Opening(far).value.missing, [], Limit(far.plan)) ==>
      OnlyWelcomePacks(objects, s, far, options)
  {
    hide LanesOk, GrowsAtMost, LandsAtMost, Reached, GivesUp, LaneCause, CompletionCause, Placed, Genuine, Canonical, Unique, Positive,
      Firsts, AllOwed, LaneReached, PendingAt, OnlyWelcomePacks;
    var closure := DataClosure(s);
    ClosureOwesBytes(rules, s, closure);
    if Opening(far).Some? && LanesOk(Closure(s), Opening(far).value.missing, [], Limit(far.plan)) {
      AllWelcome(objects, s, far, options);
    }
    blobRounds, rounds, calls, sent := 0, 0, 0, [];
    NoRounds(landings + |far.plan.first.blobs|, (if Opening(far).Some? then |Opening(far).value.missing| else 0) + grown, options);
    if far.plan.id != id {
      return Fail(IdentityMismatch), blobRounds, rounds, calls, sent;
    }
    var limit, view := Limit(far.plan), far.plan.first;
    var ok := VerifyLanes(closure, view.missing, view.blobs, limit);
    if !ok {
      return Fail(LaneMismatch), blobRounds, rounds, calls, sent;
    }
    if view.blobs != [] {
      var failed;
      failed, blobRounds, sent := PushBlobLane(BlobLane(objects, far, options), landings);
      if failed.Some? {
        return Fail(failed.value), blobRounds, rounds, calls, sent;
      }
      if far.afterBlobs.None? {
        return Fail(TransportFailed), blobRounds, rounds, calls, sent;
      }
      view := far.afterBlobs.value;
      ok := VerifyLanes(closure, view.missing, view.blobs, limit);
      if !ok {
        return Fail(LaneMismatch), blobRounds, rounds, calls, sent;
      }
      if view.blobs != [] {
        return Fail(BlobNotAccepted), blobRounds, rounds, calls, sent;
      }
    }
    var packed;
    packed, rounds := PackLoop(hash, Session(objects, closure, view.missing, limit, far.remote, options), grown);
    if packed.Err? {
      return Fail(packed.error), blobRounds, rounds, calls, sent;
    }
    r, calls := CompleteLoop(far.remote, options, total);
  }

  lemma AllWelcome(objects: Objects, s: Snapshot, far: Far, options: Options)
    requires Opening(far).Some? && Unique(Closure(s)) && Positive(Closure(s))
    requires LanesOk(Closure(s), Opening(far).value.missing, [], Limit(far.plan))
    ensures OnlyWelcomePacks(objects, s, far, options)
  {
    hide LanesOk, Reached, Groups, Unique, Positive, Welcome;
    forall n: nat, g: nat | Reached(PackLane(objects, s, far, options), n)
      && g < |Groups(MissingAt(far.remote, Opening(far).value.missing, n), Limit(far.plan))|
      ensures Welcome(far.plan, Groups(MissingAt(far.remote, Opening(far).value.missing, n), Limit(far.plan))[g])
    {
      PacksAreWelcome(objects, s, far, options, n, g);
    }
  }

  lemma NoRounds(a: nat, b: nat, options: Options)
    ensures 0 <= a * Budget(options.maxStalledReplans) && 0 <= b * Budget(options.maxStalledReplans)
  {
  }
}
