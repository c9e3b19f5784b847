/** One push session against a remote that answers as it likes: packs until nothing is
    missing, then completion until a terminal answer, both on stall budgets. */
module PushSession {
  import opened Wrappers
  import opened Buffers
  import opened Records
  import opened Rechunk
  import opened Tfp1
  import opened Tfp1Codec
  import opened Push
  import MixedRadix

  datatype Grant = Granted | AlreadyStaged | GrantExpired | GrantRefused

  datatype Put = Landed | Io | PutExpired | PutRefused

  /** The remote's live view of a session. */
  datatype View = View(missing: seq<Owed>, blobs: seq<Owed>)

  datatype Answer = Promoted | Incomplete(promoted: nat) | Failed | Unreachable | Refused

  /** What the remote answers: per round and group a grant, per attempt a put, after every
      round a fresh view (None when the call fails), per call a completion status. */
  datatype Remote = Remote(
    grant: (nat, nat) -> Grant,
    put: (nat, nat, nat) -> Put,
    view: nat -> Option<View>,
    complete: nat -> Answer)

  datatype Options = Options(maxStalledReplans: nat, maxUploadAttempts: nat, maxCompletionStalls: nat)

  datatype PushError = LocalObject | PackRefused | TransportFailed | LaneMismatch | ReplansStalled | CompletionStalled | HeadRefused
    | IdentityMismatch | BlobNotAccepted | BlobLength | BlobCoverage | BlobAttempts | BlobGrantOmitted

  function Budget(n: nat): nat { if n == 0 then 1 else n }

  // --- one pack ---------------------------------------------------------------------------------------

  /** Every member's local object has the recorded length. */
  ghost predicate Local(objects: Objects, members: seq<Owed>) {
    forall i | 0 <= i < |members| :: members[i].digest in objects && |objects[members[i].digest]| == members[i].length
  }

  function Loaded(objects: Objects, members: seq<Owed>): (l: seq<PackObject>)
    requires forall i | 0 <= i < |members| :: members[i].digest in objects
    ensures |l| == |members| && forall i | 0 <= i < |l| :: l[i] == PackObject(members[i].digest, objects[members[i].digest])
  {
    seq(|members|, i requires 0 <= i < |members| => PackObject(members[i].digest, objects[members[i].digest]))
  }

  method LoadPackMembers(objects: Objects, members: seq<Owed>) returns (r: Option<seq<PackObject>>)
    ensures r.Some? <==> Local(objects, members)
    ensures r.Some? ==> r.value == Loaded(objects, members)
  {
    var loaded: seq<PackObject> := [];
    for i := 0 to |members|
      invariant |loaded| == i
      invariant forall k | 0 <= k < i :: members[k].digest in objects && |objects[members[k].digest]| == members[k].length
      invariant forall k | 0 <= k < i :: loaded[k] == PackObject(members[k].digest, objects[members[k].digest])
    {
      if members[i].digest !in objects || |objects[members[i].digest]| != members[i].length {
        return None;
      }
      loaded := loaded + [PackObject(members[i].digest, objects[members[i].digest])];
    }
    return Some(loaded);
  }

  lemma {:induction false} LoadedWeight(objects: Objects, members: seq<Owed>)
    requires Local(objects, members)
    ensures PayloadSize(Loaded(objects, members)) == Weight(members)
  {
    hide PayloadSize;
    NoPayload();
    if members == [] {
      assert Loaded(objects, members) == [];
    } else {
      var init, last := members[..|members| - 1], members[|members| - 1];
      assert forall i | 0 <= i < |init| :: init[i] == members[i];
      LoadedWeight(objects, init);
      var o := PackObject(last.digest, objects[last.digest]);
      assert Loaded(objects, members) == Loaded(objects, init) + [o];
      SizeAppend(Loaded(objects, init), [o]);
      OneSize(o);
    }
  }

  /** Every group of a verified missing set, loaded from a content-addressed store, meets the
      pack writer's rules: its pack decodes to exactly its members, sorted by digest. */
  lemma GroupEncodes(hash: Hash, objects: Objects, members: seq<Owed>, limit: nat)
    requires Addressed(hash, objects) && Local(objects, members) && Fits(members, limit) && limit <= MAX_PACK_PAYLOAD
    requires Unique(members) && forall i | 0 <= i < |members| :: 0 < members[i].length <= limit
    ensures Encodable(hash, Loaded(objects, members))
  {
    hide Weight, PayloadSize;
    LoadedWeight(objects, members);
    var loaded := Loaded(objects, members);
    forall i | 0 <= i < |loaded| ensures Sized(loaded[i]) && hash(loaded[i].bytes) == loaded[i].digest {
      assert members[i].digest in objects;
    }
  }

  /** What uploading comes to: the first answer that is no carrier failure, or a carrier failure
      once the attempts are spent. */
  function Settled(put: nat -> Put, budget: nat, k: nat): (r: Put)
    requires k < budget
    ensures exists a :: k <= a < budget && put(a) == r && forall b | k <= b < a :: put(b) == Io
    ensures r == Io ==> forall a | k <= a < budget :: put(a) == Io
    decreases budget - k
  {
    if put(k) != Io || k + 1 == budget then put(k) else Settled(put, budget, k + 1)
  }

  /** PUTs one granted pack or part, `put` being its answer at each attempt; carrier failures are
      retried within the attempt budget. */
  method Upload(put: nat -> Put, maxAttempts: nat) returns (r: Put, puts: nat)
    ensures r == Settled(put, Budget(maxAttempts), 0)
    ensures 1 <= puts <= Budget(maxAttempts) && put(puts - 1) == r
    ensures forall k | 0 <= k < puts - 1 :: put(k) == Io
    ensures r == Io ==> puts == Budget(maxAttempts)
  {
    puts := 0;
    while true
      invariant 0 <= puts < Budget(maxAttempts) && forall k | 0 <= k < puts :: put(k) == Io
      invariant Settled(put, Budget(maxAttempts), 0) == Settled(put, Budget(maxAttempts), puts)
      decreases Budget(maxAttempts) - puts
    {
      r := put(puts);
      puts := puts + 1;
      if r != Io || puts >= maxAttempts {
        return;
      }
    }
  }

  function PackTries(remote: Remote, round: nat, group: nat): nat -> Put { (k: nat) => remote.put(round, group, k) }

  /** What uploading a granted pack comes to. */
  function PackPut(remote: Remote, round: nat, group: nat, options: Options): Put {
    Settled(PackTries(remote, round, group), Budget(options.maxUploadAttempts), 0)
  }

  datatype Sent = Next | RefreshEarly | Stop(error: PushError)

  /** The group's pack is staged: the remote already had it, or a PUT the loop made landed. */
  ghost predicate Delivered(remote: Remote, round: nat, group: nat, options: Options) {
    var grant := remote.grant(round, group);
    grant.AlreadyStaged? || (grant.Granted? && PackPut(remote, round, group, options) == Landed)
  }

  ghost predicate Lapsed(remote: Remote, round: nat, group: nat, options: Options) {
    var grant := remote.grant(round, group);
    grant.GrantExpired? || (grant.Granted? && PackPut(remote, round, group, options) == PutExpired)
  }

  ghost predicate Rejected(remote: Remote, round: nat, group: nat, options: Options) {
    var grant := remote.grant(round, group);
    grant.GrantRefused? || (grant.Granted? && PackPut(remote, round, group, options) == PutRefused)
  }

  /** Every attempt the budget allows was made and met a carrier failure. */
  ghost predicate Unsendable(remote: Remote, round: nat, group: nat, options: Options) {
    remote.grant(round, group).Granted? && PackPut(remote, round, group, options) == Io
  }

  /** What sending one group comes to. */
  ghost function GroupSent(objects: Objects, members: seq<Owed>, remote: Remote, round: nat, group: nat, options: Options): (r: Sent)
    ensures r == Stop(LocalObject) <==> !Local(objects, members)
    ensures Local(objects, members) ==>
      && (r == Next <==> Delivered(remote, round, group, options))
      && (r == RefreshEarly <==> Lapsed(remote, round, group, options))
      && (r == Stop(PackRefused) <==> Rejected(remote, round, group, options))
      && (r == Stop(TransportFailed) <==> Unsendable(remote, round, group, options))
  {
    if !Local(objects, members) then Stop(LocalObject)
    else if Delivered(remote, round, group, options) then Next
    else if Lapsed(remote, round, group, options) then RefreshEarly
    else if Rejected(remote, round, group, options) then Stop(PackRefused)
    else Stop(TransportFailed)
  }

  /** Claims one encoded pack and uploads it under its grant. */
  method SendPack(remote: Remote, round: nat, group: nat, options: Options) returns (r: Sent)
    ensures r == Next <==> Delivered(remote, round, group, options)
    ensures r == RefreshEarly <==> Lapsed(remote, round, group, options)
    ensures r == Stop(PackRefused) <==> Rejected(remote, round, group, options)
    ensures r == Stop(TransportFailed) <==> Unsendable(remote, round, group, options)
    ensures r.Stop? ==> r.error.PackRefused? || r.error.TransportFailed?
  {
    match remote.grant(round, group)
    case AlreadyStaged => return Next;
    case GrantExpired => return RefreshEarly;
    case GrantRefused => return Stop(PackRefused);
    case Granted =>
      var put, puts := Upload(PackTries(remote, round, group), options.maxUploadAttempts);
      match put
      case Landed => return Next;
      case PutExpired => return RefreshEarly;
      case Io => return Stop(TransportFailed);
      case PutRefused => return Stop(PackRefused);
  }

  /** Loads a group, encodes it as a pack that parses to its verified objects, and sends it. */
  method SendGroup(hash: Hash, objects: Objects, members: seq<Owed>, remote: Remote, round: nat, group: nat, options: Options)
      returns (r: Sent, pack: Option<Bytes>)
    requires Addressed(hash, objects) && Fits(members, MAX_PACK_PAYLOAD)
    requires Unique(members) && forall i | 0 <= i < |members| :: 0 < members[i].length <= MAX_PACK_PAYLOAD
    ensures r == GroupSent(objects, members, remote, round, group, options)
    ensures pack.Some? <==> Local(objects, members)
    ensures pack.Some? ==> exists sorted ::
      multiset(sorted) == multiset(Loaded(objects, members)) && Verified(hash, sorted) && ParsePack(pack.value) == Some(sorted)
  {
    hide Fits, Encodable, Delivered, Lapsed, Rejected, Unsendable;
    var loaded := LoadPackMembers(objects, members);
    if loaded.None? {
      return Stop(LocalObject), None;
    }
    GroupEncodes(hash, objects, members, MAX_PACK_PAYLOAD);
    pack := Encode(hash, loaded.value);
    r := SendPack(remote, round, group, options);
  }

  /** What sending the groups from `k` on comes to: all of them, or the first that does not go through. */
  ghost function Sends(objects: Objects, groups: seq<seq<Owed>>, remote: Remote, round: nat, options: Options, k: nat): (r: Sent)
    requires k <= |groups|
    ensures r == Next <==> forall g | k <= g < |groups| :: GroupSent(objects, groups[g], remote, round, g, options) == Next
    ensures r != Next ==> exists g ::
      && k <= g < |groups| && GroupSent(objects, groups[g], remote, round, g, options) == r
      && forall h | k <= h < g :: GroupSent(objects, groups[h], remote, round, h, options) == Next
    decreases |groups| - k
  {
    if k == |groups| then Next
    else
      var first := GroupSent(objects, groups[k], remote, round, k, options);
      if first != Next then first else Sends(objects, groups, remote, round, options, k + 1)
  }

  // --- the pack loop -------------------------------------------------------------------------------------

  /** What is missing when round `n` starts. */
  function MissingAt(remote: Remote, first: seq<Owed>, n: nat): seq<Owed> {
    if n == 0 then first else if remote.view(n - 1).Some? then remote.view(n - 1).value.missing else []
  }

  /** The missing set never grows within the session. */
  ghost predicate NeverGrows(remote: Remote, first: seq<Owed>) {
    forall n: nat :: |MissingAt(remote, first, n + 1)| <= |MissingAt(remote, first, n)|
  }

  ghost predicate Positive(rows: seq<Owed>) { forall i | 0 <= i < |rows| :: 0 < rows[i].length }

  lemma {:induction false} SublistUnique(rows: seq<Owed>, all: seq<Owed>)
    requires Sublist(rows, all) && Unique(all) && Positive(all)
    ensures Unique(rows) && Positive(rows)
    decreases |all|
  {
    if rows != [] {
      assert all == [all[0]] + all[1..] && rows == [rows[0]] + rows[1..];
      if rows[0] == all[0] && Sublist(rows[1..], all[1..]) {
        SublistUnique(rows[1..], all[1..]);
        SublistMembers(rows[1..], all[1..]);
        forall j | 0 < j < |rows| ensures rows[0].digest != rows[j].digest {
          assert rows[j] in rows[1..];
          var k :| 0 <= k < |all[1..]| && all[1..][k] == rows[j];
          assert all[k + 1] == rows[j];
        }
        forall i | 0 <= i < |rows| ensures 0 < rows[i].length {
          assert i > 0 ==> rows[1..][i - 1] == rows[i];
        }
      } else {
        SublistUnique(rows, all[1..]);
      }
    }
  }

  /** Packs what is missing and sends the packs in order. */
  method SendGroups(hash: Hash, objects: Objects, missing: seq<Owed>, limit: nat, remote: Remote, round: nat, options: Options)
      returns (r: Sent)
    requires Addressed(hash, objects) && Unique(missing) && Positive(missing) && limit <= MAX_PACK_PAYLOAD
    requires forall i | 0 <= i < |missing| :: missing[i].length <= limit
    ensures Packing(Groups(missing, limit), missing, limit)
    ensures r == Sends(objects, Groups(missing, limit), remote, round, options, 0)
  {
    hide Fits, Packing, Concat, ParsePack, Verified, Loaded, Local, Groups, GroupSent;
    var groups := Assemble(missing, limit);
    for k := 0 to |groups|
      invariant Sends(objects, groups, remote, round, options, 0) == Sends(objects, groups, remote, round, options, k)
    {
      GroupIsSound(groups, missing, limit, k);
      var pack;
      r, pack := SendGroup(hash, objects, groups[k], remote, round, k, options);
      if r != Next {
        return;
      }
    }
    r := Next;
  }

  lemma GroupIsSound(groups: seq<seq<Owed>>, rows: seq<Owed>, limit: nat, k: nat)
    requires Packing(groups, rows, limit) && k < |groups| && Unique(rows) && Positive(rows) && limit <= MAX_PACK_PAYLOAD
    requires forall i | 0 <= i < |rows| :: rows[i].length <= limit
    ensures Fits(groups[k], MAX_PACK_PAYLOAD) && Unique(groups[k])
    ensures forall i | 0 <= i < |groups[k]| :: 0 < groups[k][i].length <= MAX_PACK_PAYLOAD
  {
    hide Concat, Weight;
    assert Fits(groups[k], limit);
    GroupSlice(groups, rows, k);
    var start := Start(groups, k);
    forall i | 0 <= i < |groups[k]| ensures groups[k][i] == rows[start + i] {
      assert groups[k][i] == rows[start..Start(groups, k + 1)][i];
    }
  }

  /** Round `n` left the missing set no smaller. */
  ghost predicate NoProgress(remote: Remote, first: seq<Owed>, n: nat) {
    |MissingAt(remote, first, n + 1)| >= |MissingAt(remote, first, n)|
  }

  /** The last `stalled` rounds left the missing set no smaller. */
  ghost predicate StalledFor(remote: Remote, first: seq<Owed>, rounds: nat, stalled: nat) {
    stalled <= rounds && forall n | rounds - stalled <= n < rounds :: NoProgress(remote, first, n)
  }

  /** How many rounds in a row left the set no smaller when round `n` starts. */
  ghost function Stalls(remote: Remote, first: seq<Owed>, n: nat): (stalled: nat)
    ensures StalledFor(remote, first, n, stalled)
  {
    if n > 0 && NoProgress(remote, first, n - 1) then Stalls(remote, first, n - 1) + 1 else 0
  }

  /** Every row that left the set paid for at most a budget of rounds. */
  ghost predicate Paced(first: nat, owed: nat, budget: nat, stalled: nat, rounds: nat) {
    owed <= first && stalled < budget && rounds <= (first - owed) * budget + stalled
  }

  /** What a pack loop works on and against. */
  datatype Session = Session(objects: Objects, closure: seq<Owed>, first: seq<Owed>, limit: nat, remote: Remote, options: Options)

  ghost predicate Ready(hash: Hash, s: Session) {
    && Addressed(hash, s.objects) && Unique(s.closure) && Positive(s.closure) && s.limit <= MAX_PACK_PAYLOAD
    && LanesOk(s.closure, s.first, [], s.limit)
  }

  /** How one round leaves the loop: going on with a stall count, stopped while sending, or over
      after its probe. */
  datatype Progress = Going(stalled: nat) | Stopped(error: PushError) | Over(error: PushError)

  ghost function RoundSends(s: Session, n: nat): Sent {
    Sends(s.objects, Groups(MissingAt(s.remote, s.first, n), s.limit), s.remote, n, s.options, 0)
  }

  /** What round `n` comes to from stall count `stalled`. */
  ghost function RoundEnd(s: Session, n: nat, stalled: nat): Progress {
    if RoundSends(s, n).Stop? then Stopped(RoundSends(s, n).error)
    else if s.remote.view(n).None? then Over(TransportFailed)
    else if !LanesOk(s.closure, s.remote.view(n).value.missing, s.remote.view(n).value.blobs, s.limit) then Over(LaneMismatch)
    else if !NoProgress(s.remote, s.first, n) then Going(0)
    else if stalled + 1 >= s.options.maxStalledReplans then Over(ReplansStalled)
    else Going(stalled + 1)
  }

  /** Round `n` is made, and another test of the missing set follows it. */
  ghost predicate GoesOn(s: Session, n: nat) {
    MissingAt(s.remote, s.first, n) != [] && RoundEnd(s, n, Stalls(s.remote, s.first, n)).Going?
  }

  /** The loop gets to test the missing set for the `n`-th time. */
  ghost predicate Reached(s: Session, n: nat) {
    forall m | 0 <= m < n :: GoesOn(s, m)
  }

  /** By how much the missing set has grown, over all the rounds in which it grew. */
  ghost function Growth(remote: Remote, first: seq<Owed>, n: nat): nat {
    if n == 0 then 0
    else
      var was, now := |MissingAt(remote, first, n - 1)|, |MissingAt(remote, first, n)|;
      Growth(remote, first, n - 1) + (if now > was then now - was else 0)
  }

  ghost predicate GrowsAtMost(s: Session, grown: nat) {
    forall n: nat | Reached(s, n) :: Growth(s.remote, s.first, n) <= grown
  }

  ghost function StillOwed(s: Session, grown: nat, n: nat): int {
    |MissingAt(s.remote, s.first, n)| + grown - Growth(s.remote, s.first, n)
  }

  /** Every round the loop gets to is paid for by a row that left the set. */
  lemma {:induction false} ReachedIsPaced(s: Session, grown: nat, n: nat)
    requires GrowsAtMost(s, grown) && Reached(s, n)
    ensures StillOwed(s, grown, n) >= |MissingAt(s.remote, s.first, n)|
    ensures Paced(|s.first| + grown, StillOwed(s, grown, n), Budget(s.options.maxStalledReplans), Stalls(s.remote, s.first, n), n)
  {
    hide RoundSends, LanesOk, Paced, MissingAt;
    var budget := Budget(s.options.maxStalledReplans);
    if n == 0 {
      NothingPaid(s.remote, s.first, |s.first| + grown, budget);
    } else {
      assert Reached(s, n - 1) && GoesOn(s, n - 1);
      ReachedIsPaced(s, grown, n - 1);
      var stalled := Stalls(s.remote, s.first, n - 1);
      if NoProgress(s.remote, s.first, n - 1) {
        StallPays(|s.first| + grown, StillOwed(s, grown, n), budget, stalled + 1, n);
      } else {
        ShrinkPays(|s.first| + grown, StillOwed(s, grown, n - 1), StillOwed(s, grown, n), budget, stalled, n);
      }
    }
  }

  lemma NothingPaid(remote: Remote, first: seq<Owed>, total: nat, budget: nat)
    requires budget > 0
    ensures MissingAt(remote, first, 0) == first && Paced(total, total, budget, 0, 0)
  {
  }

  /** One round: pack, upload, re-probe, and count what stands still. */
  method Round(hash: Hash, s: Session, missing: seq<Owed>, n: nat, stalled: nat) returns (out: Progress, next: seq<Owed>)
    requires Ready(hash, s) && missing == MissingAt(s.remote, s.first, n) && LanesOk(s.closure, missing, [], s.limit)
    ensures out == RoundEnd(s, n, stalled)
    ensures out.Going? ==> next == MissingAt(s.remote, s.first, n + 1) && LanesOk(s.closure, next, [], s.limit)
  {
    hide Sublist, Local, LanesOk, Packing, Groups, Sends;
    Sendable(s.closure, missing, s.limit);
    next := missing;
    var sent := SendGroups(hash, s.objects, missing, s.limit, s.remote, n, s.options);
    if sent.Stop? {
      return Stopped(sent.error), next;
    }
    var view := s.remote.view(n);
    if view.None? {
      return Over(TransportFailed), next;
    }
    next := view.value.missing;
    var ok := VerifyLanes(s.closure, next, view.value.blobs, s.limit);
    if !ok {
      return Over(LaneMismatch), next;
    }
    OnePackLane(s.closure, next, view.value.blobs, s.limit);
    if |next| < |missing| {
      return Going(0), next;
    }
    if stalled + 1 >= s.options.maxStalledReplans {
      return Over(ReplansStalled), next;
    }
    return Going(stalled + 1), next;
  }

  /** Why the pack loop gives up: a group of round `rounds` that stops it, what the probe after the
      round before answers, or a full budget of rounds that left the set no smaller. */
  ghost predicate GivesUp(s: Session, e: PushError, rounds: nat) {
    || (Reached(s, rounds) && MissingAt(s.remote, s.first, rounds) != [] && RoundSends(s, rounds) == Stop(e))
    || (rounds > 0 && Reached(s, rounds - 1) && ProbeCause(s, rounds - 1, e))
    || (e.ReplansStalled? && StalledFor(s.remote, s.first, rounds, Budget(s.options.maxStalledReplans)))
  }

  /** What the probe after round `n` answers that ends the push. */
  ghost predicate ProbeCause(s: Session, n: nat, e: PushError) {
    var view := s.remote.view(n);
    || (e.TransportFailed? && view.None?)
    || (e.LaneMismatch? && view.Some? && !LanesOk(s.closure, view.value.missing, view.value.blobs, s.limit))
  }

  /** Rounds of pack, upload and re-probe until nothing is missing, bounded by what was missing and
      what the remote adds. */
  method PackLoop(hash: Hash, s: Session, ghost grown: nat) returns (r: Result<nat, PushError>, rounds: nat)
    requires Ready(hash, s) && GrowsAtMost(s, grown)
    ensures rounds <= (|s.first| + grown) * Budget(s.options.maxStalledReplans)
    ensures r.Ok? ==> r.value == rounds && Reached(s, rounds) && MissingAt(s.remote, s.first, rounds) == []
    ensures r.Err? ==> GivesUp(s, r.error, rounds)
  {
    hide LanesOk, StalledFor, Paced, GrowsAtMost, RoundSends, Reached, Stalls, StillOwed, RoundEnd, MissingAt, ProbeCause;
    var missing, stalled := s.first, 0;
    rounds := 0;
    ghost var budget, total := Budget(s.options.maxStalledReplans), |s.first| + grown;
    SetsOut(s, total);
    while missing != []
      invariant Reached(s, rounds) && missing == MissingAt(s.remote, s.first, rounds) && LanesOk(s.closure, missing, [], s.limit)
      invariant stalled == Stalls(s.remote, s.first, rounds) < budget
      invariant rounds <= total * budget
      decreases StillOwed(s, grown, rounds), budget - stalled
    {
      ReachedIsPaced(s, grown, rounds);
      RoundFits(total, StillOwed(s, grown, rounds), budget, stalled, rounds);
      var out;
      out, missing := Round(hash, s, missing, rounds, stalled);
      if out.Stopped? {
        StopsSending(s, rounds, stalled);
        return Err(out.error), rounds;
      }
      rounds := rounds + 1;
      if out.Over? {
        FullStall(s, rounds);
        return Err(out.error), rounds;
      }
      LoopGoesOn(s, grown, rounds);
      ReachedIsPaced(s, grown, rounds);
      PacedStalls(total, StillOwed(s, grown, rounds), budget, Stalls(s.remote, s.first, rounds), rounds);
      stalled := out.stalled;
    }
    return Ok(rounds), rounds;
  }

  lemma SetsOut(s: Session, total: nat)
    ensures Reached(s, 0) && MissingAt(s.remote, s.first, 0) == s.first && Stalls(s.remote, s.first, 0) == 0
    ensures 0 <= total * Budget(s.options.maxStalledReplans)
  {
  }

  lemma StopsSending(s: Session, n: nat, stalled: nat)
    requires RoundEnd(s, n, stalled).Stopped?
    ensures RoundSends(s, n) == Stop(RoundEnd(s, n, stalled).error)
  {
    hide LanesOk, RoundSends;
  }

  /** A round that goes on: the next count of stalls, and less owed unless it stalled. */
  lemma LoopGoesOn(s: Session, grown: nat, n: nat)
    requires n > 0 && Reached(s, n - 1) && MissingAt(s.remote, s.first, n - 1) != []
    requires RoundEnd(s, n - 1, Stalls(s.remote, s.first, n - 1)).Going?
    ensures Reached(s, n) && Stalls(s.remote, s.first, n) == RoundEnd(s, n - 1, Stalls(s.remote, s.first, n - 1)).stalled
    ensures if Stalls(s.remote, s.first, n) == 0 then StillOwed(s, grown, n) < StillOwed(s, grown, n - 1)
      else StillOwed(s, grown, n) == StillOwed(s, grown, n - 1) && Stalls(s.remote, s.first, n) == Stalls(s.remote, s.first, n - 1) + 1
  {
    hide LanesOk, RoundSends, MissingAt, StalledFor;
  }

  /** A stalled end has a full budget of rounds behind it. */
  lemma FullStall(s: Session, rounds: nat)
    requires rounds > 0 && Reached(s, rounds - 1) && RoundEnd(s, rounds - 1, Stalls(s.remote, s.first, rounds - 1)).Over?
    ensures var e := RoundEnd(s, rounds - 1, Stalls(s.remote, s.first, rounds - 1)).error;
      || ProbeCause(s, rounds - 1, e)
      || (e.ReplansStalled? && StalledFor(s.remote, s.first, rounds, Budget(s.options.maxStalledReplans)))
  {
    hide LanesOk, RoundSends;
    assert StalledFor(s.remote, s.first, rounds, Stalls(s.remote, s.first, rounds));
  }

  lemma PacedStalls(first: nat, owed: nat, budget: nat, stalled: nat, rounds: nat)
    requires Paced(first, owed, budget, stalled, rounds)
    ensures stalled < budget
  {
  }

  lemma Sendable(closure: seq<Owed>, missing: seq<Owed>, limit: nat)
    requires Unique(closure) && Positive(closure) && LanesOk(closure, missing, [], limit)
    ensures Unique(missing) && Positive(missing) && forall i | 0 <= i < |missing| :: missing[i].length <= limit
  {
    hide Sublist;
    SublistUnique(missing, closure);
  }

  lemma OnePackLane(closure: seq<Owed>, missing: seq<Owed>, blobs: seq<Owed>, limit: nat)
    requires LanesOk(closure, missing, blobs, limit)
    ensures LanesOk(closure, missing, [], limit)
  {
  }

  // --- when the loop ends --------------------------------------------------------------------------------

  /** The loop comes to an end if and only if the missing set grows by a bounded amount in all. */
  lemma PackLoopEndsIff(s: Session)
    ensures (exists n :: Reached(s, n) && !GoesOn(s, n)) <==> exists grown :: GrowsAtMost(s, grown)
  {
    hide GoesOn, Reached, GrowsAtMost;
    if n: nat :| Reached(s, n) && !GoesOn(s, n) { EndBoundsGrowth(s, n); }
    if grown: nat :| GrowsAtMost(s, grown) { BoundEndsLoop(s, grown); }
  }

  lemma EndBoundsGrowth(s: Session, n: nat)
    requires Reached(s, n) && !GoesOn(s, n)
    ensures GrowsAtMost(s, Growth(s.remote, s.first, n))
  {
    hide GoesOn, Growth;
    forall m: nat | Reached(s, m) ensures Growth(s.remote, s.first, m) <= Growth(s.remote, s.first, n) {
      GrowthGrows(s.remote, s.first, m, n);
    }
  }

  lemma BoundEndsLoop(s: Session, grown: nat)
    requires GrowsAtMost(s, grown)
    ensures exists n :: Reached(s, n) && !GoesOn(s, n)
  {
    hide GoesOn, Reached, GrowsAtMost;
    if forall n: nat | Reached(s, n) :: GoesOn(s, n) {
      var total: nat, budget: nat := |s.first| + grown, Budget(s.options.maxStalledReplans);
      MixedRadix.Scale(0, total, budget);
      var bound: nat := total * budget;
      ReachesAll(s, bound);
      LastFits(s, grown, bound);
    }
  }

  lemma {:induction false} GrowthGrows(remote: Remote, first: seq<Owed>, m: nat, n: nat)
    requires m <= n
    ensures Growth(remote, first, m) <= Growth(remote, first, n)
  {
    if m < n { GrowthGrows(remote, first, m, n - 1); }
  }

  lemma {:induction false} ReachesAll(s: Session, n: nat)
    requires forall m: nat | Reached(s, m) :: GoesOn(s, m)
    ensures Reached(s, n)
  {
    hide GoesOn;
    if n > 0 { ReachesAll(s, n - 1); }
  }

  lemma LastFits(s: Session, grown: nat, n: nat)
    requires GrowsAtMost(s, grown) && Reached(s, n) && GoesOn(s, n)
    ensures n + 1 <= (|s.first| + grown) * Budget(s.options.maxStalledReplans)
  {
    hide Paced, GrowsAtMost;
    ReachedIsPaced(s, grown, n);
    RoundFits(|s.first| + grown, StillOwed(s, grown, n), Budget(s.options.maxStalledReplans), Stalls(s.remote, s.first, n), n);
  }

  /** A set that never grows does not, and neither does any set while no stall is tolerated. */
  lemma SteadyGrowsNothing(s: Session)
    requires NeverGrows(s.remote, s.first) || s.options.maxStalledReplans <= 1
    ensures GrowsAtMost(s, 0)
  {
    forall n: nat | Reached(s, n) ensures Growth(s.remote, s.first, n) <= 0 { NoGrowth(s, n); }
  }

  lemma {:induction false} NoGrowth(s: Session, n: nat)
    requires (NeverGrows(s.remote, s.first) || s.options.maxStalledReplans <= 1) && Reached(s, n)
    ensures Growth(s.remote, s.first, n) == 0
  {
    hide RoundSends, LanesOk, MissingAt;
    if n > 0 {
      assert GoesOn(s, n - 1);
      NoGrowth(s, n - 1);
      assert NeverGrows(s.remote, s.first) ==> |MissingAt(s.remote, s.first, n - 1 + 1)| <= |MissingAt(s.remote, s.first, n - 1)|;
    }
  }

  // --- a missing set that keeps growing ------------------------------------------------------------------

  /** Grants and stores everything, yet reports one row of two missing after every even round and
      both after every odd one. */
  function Seesaw(a: Owed, b: Owed): Remote {
    Remote((_, _) => Granted, (_, _, _) => Landed, n => Some(View(if n % 2 == 0 then [a] else [a, b], [])), _ => Promoted)
  }

  function SeesawSession(objects: Objects, a: Owed, b: Owed, limit: nat, options: Options): Session {
    Session(objects, [a, b], [a, b], limit, Seesaw(a, b), options)
  }

  /** At a stall budget of two or more, a remote whose every view is lane-correct keeps the loop
      going: it gets past any number of rounds, and something is still missing. */
  lemma {:induction false} SeesawGoesOn(objects: Objects, a: Owed, b: Owed, limit: nat, options: Options, n: nat)
    requires a.digest != b.digest && 0 < a.length <= limit && 0 < b.length <= limit && Local(objects, [a, b])
    requires options.maxStalledReplans >= 2
    ensures Reached(SeesawSession(objects, a, b, limit, options), n)
    ensures MissingAt(Seesaw(a, b), [a, b], n) != [] && LanesOk([a, b], MissingAt(Seesaw(a, b), [a, b], n), [], limit)
  {
    hide LanesOk, Local, Sublist, Groups, Seesaw;
    SeesawViews(objects, a, b, limit, n);
    if n > 0 {
      SeesawGoesOn(objects, a, b, limit, options, n - 1);
      SeesawSends(objects, a, b, limit, options, n - 1);
      SeesawViews(objects, a, b, limit, n - 1);
      SeesawStalls(objects, a, b, limit, n - 1);
    }
  }

  lemma SeesawViews(objects: Objects, a: Owed, b: Owed, limit: nat, n: nat)
    requires a.digest != b.digest && 0 < a.length <= limit && 0 < b.length <= limit && Local(objects, [a, b])
    ensures var missing := MissingAt(Seesaw(a, b), [a, b], n);
      && |missing| == (if n % 2 == 0 then 2 else 1) && Local(objects, missing) && LanesOk([a, b], missing, [], limit)
      && (n > 0 ==> Seesaw(a, b).view(n - 1) == Some(View(missing, [])))
  {
    assert [a, b][0] == a && [a, b][1] == b && [a, b][1..] == [b] && [b][1..] == [] && [a][1..] == [];
    assert Sublist([], [b]) && Sublist([], []) && Sublist([b], [b]) && Sublist([a], [a, b]) && Sublist([a, b], [a, b]) && Sublist([], [a, b]);
  }

  /** A round that shrinks the set comes before every round that grows it. */
  lemma SeesawStalls(objects: Objects, a: Owed, b: Owed, limit: nat, n: nat)
    requires a.digest != b.digest && 0 < a.length <= limit && 0 < b.length <= limit && Local(objects, [a, b])
    ensures NoProgress(Seesaw(a, b), [a, b], n) <==> n % 2 == 1
    ensures n % 2 == 1 ==> Stalls(Seesaw(a, b), [a, b], n) == 0
  {
    hide MissingAt, Seesaw, LanesOk, Local;
    SeesawViews(objects, a, b, limit, n);
    SeesawViews(objects, a, b, limit, n + 1);
    if n > 0 { SeesawViews(objects, a, b, limit, n - 1); }
  }

  lemma SeesawSends(objects: Objects, a: Owed, b: Owed, limit: nat, options: Options, n: nat)
    requires a.digest != b.digest && 0 < a.length <= limit && 0 < b.length <= limit && Local(objects, [a, b])
    ensures RoundSends(SeesawSession(objects, a, b, limit, options), n) == Next
  {
    hide LanesOk, Fits, Weight, Concat, Groups;
    var missing := MissingAt(Seesaw(a, b), [a, b], n);
    SeesawViews(objects, a, b, limit, n);
    GroupsPack(missing, limit);
    var groups := Groups(missing, limit);
    forall g | 0 <= g < |groups| ensures GroupSent(objects, groups[g], Seesaw(a, b), n, g, options) == Next {
      GroupLocal(objects, groups, missing, limit, g);
      assert PackTries(Seesaw(a, b), n, g)(0) == Landed;
    }
  }

  lemma GroupLocal(objects: Objects, groups: seq<seq<Owed>>, rows: seq<Owed>, limit: nat, k: nat)
    requires Packing(groups, rows, limit) && k < |groups| && Local(objects, rows)
    ensures Local(objects, groups[k])
  {
    hide Concat, Fits;
    GroupSlice(groups, rows, k);
    forall i | 0 <= i < |groups[k]| ensures groups[k][i] == rows[Start(groups, k) + i] {
      assert groups[k][i] == rows[Start(groups, k)..Start(groups, k + 1)][i];
    }
  }

  /** One more round still fits under the bound. */
  lemma RoundFits(first: nat, owed: nat, budget: nat, stalled: nat, rounds: nat)
    requires 0 < owed && Paced(first, owed, budget, stalled, rounds)
    ensures rounds + 1 <= first * budget
  {
    MixedRadix.Distribute(first - owed, owed, budget);
    MixedRadix.Scale(1, owed, budget);
  }

  lemma ShrinkPays(first: nat, before: nat, after: nat, budget: nat, stalled: nat, rounds: nat)
    requires after < before && rounds > 0 && Paced(first, before, budget, stalled, rounds - 1)
    ensures Paced(first, after, budget, 0, rounds)
  {
    MixedRadix.Distribute(first - before, before - after, budget);
    MixedRadix.Scale(1, before - after, budget);
  }

  lemma StallPays(first: nat, owed: nat, budget: nat, stalled: nat, rounds: nat)
    requires 0 < stalled < budget && rounds > 0 && Paced(first, owed, budget, stalled - 1, rounds - 1)
    ensures Paced(first, owed, budget, stalled, rounds)
  {
  }

  // --- completion ------------------------------------------------------------------------------------------

  /** The most objects any of the first `n` answers reported promoted. */
  ghost function Admitted(remote: Remote, n: nat): nat {
    if n == 0 then 0
    else if remote.complete(n - 1).Incomplete? && remote.complete(n - 1).promoted > Admitted(remote, n - 1) then remote.complete(n - 1).promoted
    else Admitted(remote, n - 1)
  }

  /** Call `n` brought no verdict and admitted nothing. */
  ghost predicate StoodStill(remote: Remote, n: nat) {
    remote.complete(n).Unreachable? || (remote.complete(n).Incomplete? && remote.complete(n).promoted <= Admitted(remote, n))
  }

  /** Why polling ends without promotion: a verdict, or a full budget of calls that stood still. */
  ghost predicate CompletionCause(remote: Remote, options: Options, calls: nat, e: PushError) {
    && calls > 0
    && var last := remote.complete(calls - 1);
      || (e.HeadRefused? && last.Failed?)
      || (e.TransportFailed? && last.Refused?)
      || (((e.CompletionStalled? && last.Incomplete?) || (e.TransportFailed? && last.Unreachable?))
          && calls >= Budget(options.maxCompletionStalls)
          && forall n | calls - Budget(options.maxCompletionStalls) <= n < calls :: StoodStill(remote, n))
  }

  /** Polls until a terminal answer; only calls that admitted nothing spend the budget. */
  method CompleteLoop(remote: Remote, options: Options, ghost total: nat) returns (r: Outcome<PushError>, calls: nat)
    requires forall n: nat :: remote.complete(n).Incomplete? ==> remote.complete(n).promoted <= total
    ensures 1 <= calls <= (total + 1) * Budget(options.maxCompletionStalls)
    ensures r == Outcome.Pass <==> remote.complete(calls - 1) == Promoted
    ensures forall n | 0 <= n < calls - 1 :: remote.complete(n).Incomplete? || remote.complete(n).Unreachable?
    ensures r.Fail? ==> CompletionCause(remote, options, calls, r.error)
  {
    var admitted, stalls := 0, 0;
    calls := 0;
    ghost var budget := Budget(options.maxCompletionStalls);
    while true
      invariant 0 <= admitted <= total && 0 <= stalls < budget && calls <= admitted * budget + stalls
      invariant forall n | 0 <= n < calls :: remote.complete(n).Incomplete? || remote.complete(n).Unreachable?
      invariant admitted == Admitted(remote, calls) && stalls <= calls && forall n | calls - stalls <= n < calls :: StoodStill(remote, n)
      decreases total - admitted, budget - stalls
    {
      CallFits(total, admitted, budget, stalls, calls);
      var answer := remote.complete(calls);
      calls := calls + 1;
      match answer
      case Promoted => return Outcome.Pass, calls;
      case Failed => return Fail(HeadRefused), calls;
      case Refused => return Fail(TransportFailed), calls;
      case Incomplete(promoted) =>
        if promoted > admitted {
          MixedRadix.Distribute(admitted, promoted - admitted, budget);
          MixedRadix.Scale(1, promoted - admitted, budget);
          admitted, stalls := promoted, 0;
        } else {
          stalls := stalls + 1;
          if stalls >= options.maxCompletionStalls {
            return Fail(CompletionStalled), calls;
          }
        }
      case Unreachable =>
        stalls := stalls + 1;
        if stalls >= options.maxCompletionStalls {
          return Fail(TransportFailed), calls;
        }
    }
  }

  lemma CallFits(total: nat, admitted: nat, budget: nat, stalls: nat, calls: nat)
    requires admitted <= total && stalls < budget && calls <= admitted * budget + stalls
    ensures calls + 1 <= (total + 1) * budget
  {
    MixedRadix.Distribute(admitted, 1, budget);
    MixedRadix.Scale(admitted + 1, total + 1, budget);
  }
}
