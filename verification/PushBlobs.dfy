/** The multipart blob lane: each oversized object goes up in parts, by range, under a grant that
    may lapse; rounds repeat until every blob is done, on the same stall budget as the packs. */
module PushBlobs {
  import opened Wrappers
  import opened Records
  import opened Push
  import opened PushSession

  const BLOB_GRANT_BATCH := 16

  datatype Part = Part(number: nat, size: nat)

  /** A grant: how the object is cut, and the parts the remote already holds. */
  datatype BlobGrant = BlobGrant(digest: Digest, length: nat, parts: seq<Part>, uploaded: set<nat>)

  datatype BlobAnswer = BlobGrants(grants: seq<BlobGrant>) | BlobExpired | BlobRefused

  /** What the remote answers to each call: per round and batch a grant call; per round, pending
      row, part and attempt a PUT; per round and row whether the report is taken. */
  datatype BlobRemote = BlobRemote(
    grants: (nat, nat) -> BlobAnswer,
    part: (nat, nat, nat, nat) -> Put,
    report: (nat, nat) -> bool)

  // --- parts --------------------------------------------------------------------------------------

  /** Where part `i` starts. */
  function Offset(parts: seq<Part>, i: nat): nat
    requires i <= |parts|
  {
    if i == 0 then 0 else Offset(parts, i - 1) + parts[i - 1].size
  }

  function Sum(parts: seq<Part>): nat { Offset(parts, |parts|) }

  lemma {:induction false} OffsetGrows(parts: seq<Part>, i: nat, j: nat)
    requires i <= j <= |parts|
    ensures Offset(parts, i) <= Offset(parts, j)
    decreases j - i
  {
    if i < j {
      OffsetGrows(parts, i, j - 1);
    }
  }

  /** The bytes of part `i` of an object the parts cover exactly. */
  function PartBytes(bytes: Bytes, parts: seq<Part>, i: nat): Bytes
    requires i < |parts| && Sum(parts) == |bytes|
  {
    OffsetGrows(parts, i + 1, |parts|);
    bytes[Offset(parts, i)..Offset(parts, i + 1)]
  }

  /** The first `n` parts, joined. */
  ghost function Joined(bytes: Bytes, parts: seq<Part>, n: nat): Bytes
    requires n <= |parts| && Sum(parts) == |bytes|
  {
    if n == 0 then [] else Joined(bytes, parts, n - 1) + PartBytes(bytes, parts, n - 1)
  }

  /** Parts that cover an object join back to it. */
  lemma {:induction false} PartsJoin(bytes: Bytes, parts: seq<Part>, n: nat)
    requires n <= |parts| && Sum(parts) == |bytes|
    ensures Offset(parts, n) <= |bytes| && Joined(bytes, parts, n) == bytes[..Offset(parts, n)]
  {
    OffsetGrows(parts, n, |parts|);
    if n > 0 {
      PartsJoin(bytes, parts, n - 1);
      OffsetGrows(parts, n - 1, n);
    }
  }

  // --- one blob -----------------------------------------------------------------------------------

  datatype BlobOutcome = BlobDone | BlobLapsed | BlobFailed(error: PushError)

  predicate Held(grant: BlobGrant, i: nat)
    requires i < |grant.parts|
  {
    grant.parts[i].number in grant.uploaded
  }

  /** The first part, from `i` on, that is neither held nor landed; `put` is what uploading each
      part comes to. */
  function Halt(grant: BlobGrant, put: nat -> Put, i: nat): (h: nat)
    requires i <= |grant.parts|
    ensures i <= h <= |grant.parts|
    ensures forall j | i <= j < h :: Held(grant, j) || put(j) == Landed
    ensures h < |grant.parts| ==> !Held(grant, h) && put(h) != Landed
    decreases |grant.parts| - i
  {
    if i == |grant.parts| then i
    else if Held(grant, i) || put(i) == Landed then Halt(grant, put, i + 1)
    else i
  }

  /** The parts before `n` that the remote does not hold, in order. */
  function Unheld(grant: BlobGrant, n: nat): (s: seq<nat>)
    requires n <= |grant.parts|
    ensures forall k | 0 <= k < |s| :: s[k] < n && !Held(grant, s[k])
    ensures forall j, k | 0 <= j < k < |s| :: s[j] < s[k]
    ensures forall j | 0 <= j < n && !Held(grant, j) :: j in s
  {
    if n == 0 then [] else Unheld(grant, n - 1) + (if Held(grant, n - 1) then [] else [n - 1])
  }

  /** The grant is for this length, its parts add up to it, and the local object has it. */
  predicate Coherent(objects: Objects, grant: BlobGrant, length: nat) {
    grant.length == length == Sum(grant.parts) && grant.digest in objects && |objects[grant.digest]| == length
  }

  /** The parts one blob's upload lands. */
  function Landing(objects: Objects, grant: BlobGrant, length: nat, put: nat -> Put): (s: seq<nat>)
    ensures forall k | 0 <= k < |s| :: s[k] < |grant.parts| && !Held(grant, s[k]) && put(s[k]) == Landed
  {
    if Coherent(objects, grant, length) then Unheld(grant, Halt(grant, put, 0)) else []
  }

  /** What one blob's upload comes to; `reported` is whether the remote takes the report. */
  function BlobEnd(objects: Objects, grant: BlobGrant, length: nat, put: nat -> Put, reported: bool): BlobOutcome {
    if grant.length != length then BlobFailed(BlobLength)
    else if Sum(grant.parts) != length then BlobFailed(BlobCoverage)
    else if !Coherent(objects, grant, length) then BlobFailed(LocalObject)
    else
      var h := Halt(grant, put, 0);
      if h < |grant.parts| && put(h) == Io then BlobFailed(BlobAttempts)
      else if h < |grant.parts| && put(h) == PutRefused then BlobFailed(TransportFailed)
      else if Unheld(grant, h) != [] && !reported then BlobFailed(TransportFailed)
      else if h < |grant.parts| then BlobLapsed
      else BlobDone
  }

  /** Why one blob's upload fails. */
  ghost predicate BlobCause(objects: Objects, grant: BlobGrant, length: nat, put: nat -> Put, reported: bool, e: PushError) {
    match e
    case BlobLength => grant.length != length
    case BlobCoverage => grant.length == length && Sum(grant.parts) != length
    case LocalObject => grant.length == length == Sum(grant.parts) && !(grant.digest in objects && |objects[grant.digest]| == length)
    case BlobAttempts => Coherent(objects, grant, length) && StopsOn(grant, put, Io)
    case TransportFailed => Coherent(objects, grant, length)
      && (StopsOn(grant, put, PutRefused)
          || (LandsSome(grant, put) && !reported && !StopsOn(grant, put, Io)))
    case _ => false
  }

  /** Some part gets this answer, and every part before it is held or lands. */
  ghost predicate StopsOn(grant: BlobGrant, put: nat -> Put, answer: Put) {
    exists h :: 0 <= h < |grant.parts| && !Held(grant, h) && put(h) == answer
      && (forall j | 0 <= j < h :: Held(grant, j) || put(j) == Landed)
  }

  /** Some part lands, and every part before it is held or lands. */
  ghost predicate LandsSome(grant: BlobGrant, put: nat -> Put) { StopsOn(grant, put, Landed) }

  /** Every part is held or lands. */
  ghost predicate AllPlaced(grant: BlobGrant, put: nat -> Put) {
    forall j | 0 <= j < |grant.parts| :: Held(grant, j) || put(j) == Landed
  }

  lemma HaltIs(grant: BlobGrant, put: nat -> Put)
    ensures var h := Halt(grant, put, 0);
      && (forall answer | answer != Landed :: StopsOn(grant, put, answer) <==> h < |grant.parts| && put(h) == answer)
      && (LandsSome(grant, put) <==> Unheld(grant, h) != []) && (AllPlaced(grant, put) <==> h == |grant.parts|)
  {
    var h := Halt(grant, put, 0);
    forall answer | answer != Landed && StopsOn(grant, put, answer) ensures h < |grant.parts| && put(h) == answer {
      var k :| 0 <= k < |grant.parts| && !Held(grant, k) && put(k) == answer
        && (forall j | 0 <= j < k :: Held(grant, j) || put(j) == Landed);
      assert h == k;
    }
    if LandsSome(grant, put) {
      var k :| 0 <= k < |grant.parts| && !Held(grant, k) && put(k) == Landed
        && (forall j | 0 <= j < k :: Held(grant, j) || put(j) == Landed);
      assert k in Unheld(grant, h);
    }
    if Unheld(grant, h) != [] {
      var k := Unheld(grant, h)[0];
      assert 0 <= k < |grant.parts| && !Held(grant, k) && put(k) == Landed;
    }
  }

  /** A blob's upload fails with an error if and only if that error has its cause; it lapses when
      a part's grant does, and is done when every part is in place, unless a report it makes is
      not taken. */
  lemma BlobFailure(objects: Objects, grant: BlobGrant, length: nat, put: nat -> Put, reported: bool)
    ensures var end, told := BlobEnd(objects, grant, length, put, reported), LandsSome(grant, put) ==> reported;
      && (forall e :: end == BlobFailed(e) <==> BlobCause(objects, grant, length, put, reported, e))
      && (end == BlobLapsed <==> Coherent(objects, grant, length) && StopsOn(grant, put, PutExpired) && told)
      && (end == BlobDone <==> Coherent(objects, grant, length) && AllPlaced(grant, put) && told)
  {
    hide Halt, Unheld, StopsOn, LandsSome, AllPlaced, Sum;
    HaltIs(grant, put);
  }

  function PartTries(remote: BlobRemote, n: nat, row: nat, i: nat): nat -> Put { (k: nat) => remote.part(n, row, i, k) }

  /** What uploading each part of a row comes to. */
  function PartPuts(remote: BlobRemote, options: Options, n: nat, row: nat): nat -> Put {
    (i: nat) => Settled(PartTries(remote, n, row, i), Budget(options.maxUploadAttempts), 0)
  }

  method Granted(parts: seq<Part>) returns (n: nat)
    ensures n == Sum(parts)
  {
    n := 0;
    for i := 0 to |parts|
      invariant n == Offset(parts, i)
    {
      n := n + parts[i].size;
    }
  }

  /** A part that landed: where, and with which bytes. */
  datatype SentPart = SentPart(round: nat, row: nat, digest: Digest, number: nat, index: nat, bytes: Bytes)

  /** The landed parts `s` of a row, each with its range of the local object. */
  function Ranges(objects: Objects, grant: BlobGrant, n: nat, row: nat, s: seq<nat>): (r: seq<SentPart>)
    requires s != [] ==> grant.digest in objects && |objects[grant.digest]| == Sum(grant.parts)
    requires forall k | 0 <= k < |s| :: s[k] < |grant.parts|
    ensures |r| == |s|
    ensures forall k | 0 <= k < |s| :: r[k] == Ranged(objects, grant, n, row, s[k])
  {
    seq(|s|, k requires 0 <= k < |s| => Ranged(objects, grant, n, row, s[k]))
  }

  function Ranged(objects: Objects, grant: BlobGrant, n: nat, row: nat, i: nat): SentPart
    requires grant.digest in objects && |objects[grant.digest]| == Sum(grant.parts) && i < |grant.parts|
  {
    SentPart(n, row, grant.digest, grant.parts[i].number, i, PartBytes(objects[grant.digest], grant.parts, i))
  }

  /** PUTs every part the remote does not hold, in order, up to the first that does not land. */
  method SendParts(objects: Objects, grant: BlobGrant, remote: BlobRemote, options: Options, n: nat, row: nat)
      returns (stop: Option<Put>, sent: seq<SentPart>)
    requires grant.digest in objects && |objects[grant.digest]| == Sum(grant.parts)
    ensures var put := PartPuts(remote, options, n, row);
      var h := Halt(grant, put, 0);
      && stop == (if h < |grant.parts| then Some(put(h)) else None)
      && sent == Ranges(objects, grant, n, row, Unheld(grant, h))
  {
    hide Settled, Unheld, Ranges, PartBytes, Sum;
    ghost var put := PartPuts(remote, options, n, row);
    var bytes, offset := objects[grant.digest], 0;
    sent := [];
    NoRanges(objects, grant, n, row);
    for i := 0 to |grant.parts|
      invariant offset == Offset(grant.parts, i)
      invariant Halt(grant, put, 0) == Halt(grant, put, i)
      invariant sent == Ranges(objects, grant, n, row, Unheld(grant, i))
    {
      var part, start := grant.parts[i], offset;
      offset := offset + part.size;
      RangesStep(objects, grant, n, row, i);
      if part.number in grant.uploaded {
        continue;
      }
      var buffer := bytes[start..offset];
      var answer, puts := Upload(PartTries(remote, n, row, i), options.maxUploadAttempts);
      assert answer == put(i);
      if answer != Landed {
        return Some(answer), sent;
      }
      sent := sent + [SentPart(n, row, grant.digest, part.number, i, buffer)];
    }
    stop := None;
  }

  /** Sends the parts the remote does not hold, each by its range of the local object, and reports
      what landed. */
  method PushOneBlob(objects: Objects, grant: BlobGrant, length: nat, remote: BlobRemote, options: Options, n: nat, row: nat)
      returns (r: BlobOutcome, sent: seq<SentPart>)
    ensures var put := PartPuts(remote, options, n, row);
      && r == BlobEnd(objects, grant, length, put, remote.report(n, row))
      && sent == Ranges(objects, grant, n, row, Landing(objects, grant, length, put))
      && (r.BlobFailed? ==> BlobCause(objects, grant, length, put, remote.report(n, row), r.error))
    ensures r == BlobDone ==>
      && Coherent(objects, grant, length)
      && forall i | 0 <= i < |grant.parts| :: Held(grant, i) || Ranged(objects, grant, n, row, i) in sent
  {
    hide BlobCause, Settled, Unheld, Halt, PartBytes, Ranged, PartPuts;
    ghost var put := PartPuts(remote, options, n, row);
    BlobFailure(objects, grant, length, put, remote.report(n, row));
    if grant.length != length {
      return BlobFailed(BlobLength), [];
    }
    var granted := Granted(grant.parts);
    if granted != length {
      return BlobFailed(BlobCoverage), [];
    }
    if grant.digest !in objects || |objects[grant.digest]| != length {
      return BlobFailed(LocalObject), [];
    }
    var stop;
    stop, sent := SendParts(objects, grant, remote, options, n, row);
    if stop == Some(Io) {
      return BlobFailed(BlobAttempts), sent;
    }
    if stop == Some(PutRefused) || (sent != [] && !remote.report(n, row)) {
      return BlobFailed(TransportFailed), sent;
    }
    if stop.Some? {
      return BlobLapsed, sent;
    }
    AllInPlace(objects, grant, length, put, n, row, sent);
    return BlobDone, sent;
  }

  lemma NoRanges(objects: Objects, grant: BlobGrant, n: nat, row: nat)
    requires grant.digest in objects && |objects[grant.digest]| == Sum(grant.parts)
    ensures Ranges(objects, grant, n, row, Unheld(grant, 0)) == []
  {
  }

  lemma RangesStep(objects: Objects, grant: BlobGrant, n: nat, row: nat, i: nat)
    requires grant.digest in objects && |objects[grant.digest]| == Sum(grant.parts) && i < |grant.parts|
    ensures Unheld(grant, i + 1) == Unheld(grant, i) + (if Held(grant, i) then [] else [i])
    ensures Ranges(objects, grant, n, row, Unheld(grant, i + 1))
      == Ranges(objects, grant, n, row, Unheld(grant, i)) + (if Held(grant, i) then [] else [Ranged(objects, grant, n, row, i)])
    ensures Offset(grant.parts, i) <= Offset(grant.parts, i + 1) <= |objects[grant.digest]|
    ensures PartBytes(objects[grant.digest], grant.parts, i) == objects[grant.digest][Offset(grant.parts, i)..Offset(grant.parts, i + 1)]
  {
    hide Ranged;
    OffsetGrows(grant.parts, i + 1, |grant.parts|);
  }

  lemma AllInPlace(objects: Objects, grant: BlobGrant, length: nat, put: nat -> Put, n: nat, row: nat, sent: seq<SentPart>)
    requires Coherent(objects, grant, length) && Halt(grant, put, 0) == |grant.parts|
    requires sent == Ranges(objects, grant, n, row, Landing(objects, grant, length, put))
    ensures forall i | 0 <= i < |grant.parts| :: Held(grant, i) || Ranged(objects, grant, n, row, i) in sent
  {
    hide Ranged;
    var s := Landing(objects, grant, length, put);
    forall i | 0 <= i < |grant.parts| && !Held(grant, i) ensures Ranged(objects, grant, n, row, i) in sent {
      assert i in s;
      var k :| 0 <= k < |s| && s[k] == i;
      assert sent[k] == Ranged(objects, grant, n, row, s[k]);
    }
  }

  // --- one row --------------------------------------------------------------------------------------

  /** What the lane works on and against. */
  datatype Lane = Lane(objects: Objects, blobs: seq<Owed>, remote: BlobRemote, options: Options)

  /** Grant `i` is the first for this digest. */
  ghost predicate FirstAt(grants: seq<BlobGrant>, digest: Digest, i: nat)
    requires i < |grants|
  {
    grants[i].digest == digest && forall j | 0 <= j < i :: grants[j].digest != digest
  }

  function FirstGrant(grants: seq<BlobGrant>, digest: Digest): (r: Option<BlobGrant>)
    ensures r.Some? ==> exists i :: 0 <= i < |grants| && FirstAt(grants, digest, i) && r.value == grants[i]
    ensures r.None? ==> forall g | g in grants :: g.digest != digest
  {
    if grants == [] then None
    else if grants[0].digest == digest then
      assert FirstAt(grants, digest, 0);
      Some(grants[0])
    else
      assert grants == [grants[0]] + grants[1..];
      var r := FirstGrant(grants[1..], digest);
      assert forall i | 0 <= i < |grants[1..]| && FirstAt(grants[1..], digest, i) :: FirstAt(grants, digest, i + 1);
      r
  }

  method FindGrant(grants: seq<BlobGrant>, digest: Digest) returns (r: Option<BlobGrant>)
    ensures r == FirstGrant(grants, digest)
  {
    for i := 0 to |grants|
      invariant FirstGrant(grants, digest) == FirstGrant(grants[i..], digest)
    {
      assert grants[i..][1..] == grants[i + 1..];
      if grants[i].digest == digest {
        return Some(grants[i]);
      }
    }
    return None;
  }

  /** The grant row `k` of round `n` is sent under. */
  function RowGrant(l: Lane, n: nat, pending: seq<Owed>, k: nat): (r: Option<BlobGrant>)
    requires k < |pending|
    ensures r.Some? ==> r.value.digest == pending[k].digest
  {
    match l.remote.grants(n, k / BLOB_GRANT_BATCH)
    case BlobGrants(grants) => FirstGrant(grants, pending[k].digest)
    case _ => None
  }

  function RowEnd(l: Lane, n: nat, pending: seq<Owed>, k: nat): BlobOutcome
    requires k < |pending|
  {
    match l.remote.grants(n, k / BLOB_GRANT_BATCH)
    case BlobRefused => BlobFailed(TransportFailed)
    case BlobExpired => BlobLapsed
    case BlobGrants(grants) =>
      match FirstGrant(grants, pending[k].digest)
      case None => BlobFailed(BlobGrantOmitted)
      case Some(grant) => BlobEnd(l.objects, grant, pending[k].length, PartPuts(l.remote, l.options, n, k), l.remote.report(n, k))
  }

  function RowSent(l: Lane, n: nat, pending: seq<Owed>, k: nat): seq<SentPart>
    requires k < |pending|
  {
    match RowGrant(l, n, pending, k)
    case None => []
    case Some(grant) =>
      Ranges(l.objects, grant, n, k, Landing(l.objects, grant, pending[k].length, PartPuts(l.remote, l.options, n, k)))
  }

  /** Why row `k` of round `n` fails the push. */
  ghost predicate RowCause(l: Lane, n: nat, pending: seq<Owed>, k: nat, e: PushError)
    requires k < |pending|
  {
    var answer, grant := l.remote.grants(n, k / BLOB_GRANT_BATCH), RowGrant(l, n, pending, k);
    || (e.TransportFailed? && answer.BlobRefused?)
    || (e.BlobGrantOmitted? && answer.BlobGrants? && forall g | g in answer.grants :: g.digest != pending[k].digest)
    || (grant.Some?
        && BlobCause(l.objects, grant.value, pending[k].length, PartPuts(l.remote, l.options, n, k), l.remote.report(n, k), e))
  }

  /** A row fails with an error if and only if that error has its cause; one call grants sixteen rows. */
  lemma RowFailure(l: Lane, n: nat, pending: seq<Owed>, k: nat)
    requires k < |pending|
    ensures var end, grant, put := RowEnd(l, n, pending, k), RowGrant(l, n, pending, k), PartPuts(l.remote, l.options, n, k);
      && (forall e :: end == BlobFailed(e) <==> RowCause(l, n, pending, k, e))
      && (l.remote.grants(n, k / 16).BlobExpired? ==> end == BlobLapsed)
      && (grant.None? && !l.remote.grants(n, k / 16).BlobExpired? ==> end.BlobFailed?)
      && (grant.Some? ==> end == BlobEnd(l.objects, grant.value, pending[k].length, put, l.remote.report(n, k)))
  {
    hide BlobEnd, BlobCause, PartPuts;
    if RowGrant(l, n, pending, k).Some? {
      BlobFailure(l.objects, RowGrant(l, n, pending, k).value, pending[k].length, PartPuts(l.remote, l.options, n, k), l.remote.report(n, k));
    }
  }

  // --- one round ------------------------------------------------------------------------------------

  /** None of the first `k` rows fails. */
  ghost predicate Clean(l: Lane, n: nat, pending: seq<Owed>, k: nat)
    requires k <= |pending|
  {
    forall j | 0 <= j < k :: !RowEnd(l, n, pending, j).BlobFailed?
  }

  /** The rows put off, of the first `k`. */
  ghost function Deferred(l: Lane, n: nat, pending: seq<Owed>, k: nat): (d: seq<Owed>)
    requires k <= |pending|
    ensures |d| <= k
  {
    if k == 0 then []
    else Deferred(l, n, pending, k - 1) + (if RowEnd(l, n, pending, k - 1).BlobLapsed? then [pending[k - 1]] else [])
  }

  /** The parts the first `k` rows land. */
  ghost function RoundSent(l: Lane, n: nat, pending: seq<Owed>, k: nat): seq<SentPart>
    requires k <= |pending|
  {
    if k == 0 then [] else RoundSent(l, n, pending, k - 1) + RowSent(l, n, pending, k - 1)
  }

  /** Row `k` is the first to fail, with this error. */
  ghost predicate FailsAt(l: Lane, n: nat, pending: seq<Owed>, k: nat, e: PushError)
    requires k < |pending|
  {
    Clean(l, n, pending, k) && RowEnd(l, n, pending, k) == BlobFailed(e)
  }

  lemma {:induction false} PutOff(l: Lane, n: nat, pending: seq<Owed>, at: nat, end: nat)
    requires at <= end <= |pending| && Clean(l, n, pending, at)
    requires forall k | at <= k < end :: RowEnd(l, n, pending, k).BlobLapsed? && RowSent(l, n, pending, k) == []
    ensures Clean(l, n, pending, end) && RoundSent(l, n, pending, end) == RoundSent(l, n, pending, at)
    ensures Deferred(l, n, pending, end) == Deferred(l, n, pending, at) + pending[at..end]
  {
    hide RowEnd, RowSent;
    if at < end {
      PutOff(l, n, pending, at, end - 1);
      assert pending[at..end] == pending[at..end - 1] + [pending[end - 1]];
    }
  }

  /** Asks for one batch of grants and drives every blob in it. */
  method PushBatch(l: Lane, n: nat, pending: seq<Owed>, batch: nat, at: nat, end: nat, before: seq<Owed>, already: seq<SentPart>)
      returns (r: Option<PushError>, deferred: seq<Owed>, sent: seq<SentPart>)
    requires at == batch * BLOB_GRANT_BATCH < end <= |pending| && end <= at + BLOB_GRANT_BATCH
    requires Clean(l, n, pending, at) && before == Deferred(l, n, pending, at) && already == RoundSent(l, n, pending, at)
    ensures r.None? ==> Clean(l, n, pending, end) && deferred == Deferred(l, n, pending, end) && sent == RoundSent(l, n, pending, end)
    ensures r.Some? ==> exists k :: at <= k < end && FailsAt(l, n, pending, k, r.value) && sent == RoundSent(l, n, pending, k + 1)
  {
    hide BlobEnd, BlobCause, Landing, PartPuts, Coherent, Ranged, Ranges, RowEnd, RowSent, FirstGrant;
    InBatch(batch, at, end);
    forall k | at <= k < end { RowIs(l, n, pending, k, batch); }
    deferred, sent := before, already;
    match l.remote.grants(n, batch)
    case BlobRefused =>
      assert FailsAt(l, n, pending, at, TransportFailed);
      return Some(TransportFailed), deferred, sent;
    case BlobExpired =>
      PutOff(l, n, pending, at, end);
      return None, deferred + pending[at..end], sent;
    case BlobGrants(grants) =>
      for i := at to end
        invariant Clean(l, n, pending, i) && deferred == Deferred(l, n, pending, i) && sent == RoundSent(l, n, pending, i)
      {
        var grant := FindGrant(grants, pending[i].digest);
        if grant.None? {
          assert FailsAt(l, n, pending, i, BlobGrantOmitted);
          return Some(BlobGrantOmitted), deferred, sent;
        }
        var outcome, landed := PushOneBlob(l.objects, grant.value, pending[i].length, l.remote, l.options, n, i);
        sent := sent + landed;
        if outcome.BlobFailed? {
          assert FailsAt(l, n, pending, i, outcome.error);
          return Some(outcome.error), deferred, sent;
        }
        if outcome.BlobLapsed? {
          deferred := deferred + [pending[i]];
        }
      }
      return None, deferred, sent;
  }

  /** What becomes of a row, by the answer to its batch. */
  lemma RowIs(l: Lane, n: nat, pending: seq<Owed>, k: nat, batch: nat)
    requires k < |pending| && k / BLOB_GRANT_BATCH == batch
    ensures match l.remote.grants(n, batch)
      case BlobRefused => RowEnd(l, n, pending, k) == BlobFailed(TransportFailed) && RowSent(l, n, pending, k) == []
      case BlobExpired => RowEnd(l, n, pending, k) == BlobLapsed && RowSent(l, n, pending, k) == []
      case BlobGrants(grants) =>
        match FirstGrant(grants, pending[k].digest)
        case None => RowEnd(l, n, pending, k) == BlobFailed(BlobGrantOmitted) && RowSent(l, n, pending, k) == []
        case Some(grant) =>
          var put := PartPuts(l.remote, l.options, n, k);
          && RowEnd(l, n, pending, k) == BlobEnd(l.objects, grant, pending[k].length, put, l.remote.report(n, k))
          && RowSent(l, n, pending, k) == Ranges(l.objects, grant, n, k, Landing(l.objects, grant, pending[k].length, put))
  {
  }

  lemma InBatch(batch: nat, at: nat, end: nat)
    requires at == batch * BLOB_GRANT_BATCH && end <= at + BLOB_GRANT_BATCH
    ensures forall k | at <= k < end :: k / BLOB_GRANT_BATCH == batch
  {
  }

  /** All pending blobs, a batch at a time. */
  method BlobRound(l: Lane, n: nat, pending: seq<Owed>) returns (r: Option<PushError>, deferred: seq<Owed>, sent: seq<SentPart>)
    ensures r.None? ==>
      && Clean(l, n, pending, |pending|)
      && deferred == Deferred(l, n, pending, |pending|) && sent == RoundSent(l, n, pending, |pending|)
    ensures r.Some? ==> exists k :: 0 <= k < |pending| && FailsAt(l, n, pending, k, r.value) && sent == RoundSent(l, n, pending, k + 1)
  {
    hide RowEnd, RowSent;
    deferred, sent := [], [];
    var at, batch := 0, 0;
    while at < |pending|
      invariant 0 <= at <= |pending| && (at < |pending| ==> at == batch * BLOB_GRANT_BATCH)
      invariant Clean(l, n, pending, at) && deferred == Deferred(l, n, pending, at) && sent == RoundSent(l, n, pending, at)
    {
      var end := if at + BLOB_GRANT_BATCH < |pending| then at + BLOB_GRANT_BATCH else |pending|;
      var error;
      error, deferred, sent := PushBatch(l, n, pending, batch, at, end, deferred, sent);
      if error.Some? {
        return error, deferred, sent;
      }
      at, batch := end, batch + 1;
    }
    r := None;
  }

  // --- the lane ---------------------------------------------------------------------------------------

  /** What is pending when round `n` starts. */
  ghost function PendingAt(l: Lane, n: nat): seq<Owed> {
    if n == 0 then l.blobs else Deferred(l, n - 1, PendingAt(l, n - 1), |PendingAt(l, n - 1)|)
  }

  /** The parts landed in round `n`. */
  ghost function SentIn(l: Lane, n: nat): seq<SentPart> { RoundSent(l, n, PendingAt(l, n), |PendingAt(l, n)|) }

  /** The parts landed before round `n`. */
  ghost function SentBefore(l: Lane, n: nat): seq<SentPart> { if n == 0 then [] else SentBefore(l, n - 1) + SentIn(l, n - 1) }

  /** Round `n` landed nothing and put everything off. */
  ghost predicate Idle(l: Lane, n: nat) { SentIn(l, n) == [] && |PendingAt(l, n + 1)| == |PendingAt(l, n)| }

  ghost predicate IdleFor(l: Lane, rounds: nat, stalled: nat) {
    stalled <= rounds && forall n | rounds - stalled <= n < rounds :: Idle(l, n)
  }

  /** How many rounds in a row were idle when round `n` starts. */
  ghost function IdleRounds(l: Lane, n: nat): nat {
    if n > 0 && Idle(l, n - 1) then IdleRounds(l, n - 1) + 1 else 0
  }

  lemma {:induction false} IdleRoundsAre(l: Lane, n: nat)
    ensures IdleFor(l, n, IdleRounds(l, n))
  {
    hide Idle;
    if n > 0 { IdleRoundsAre(l, n - 1); }
  }

  /** Round `n` is made, and another test of the pending list follows it. */
  ghost predicate LaneGoesOn(l: Lane, n: nat) {
    && PendingAt(l, n) != [] && Clean(l, n, PendingAt(l, n), |PendingAt(l, n)|)
    && (Idle(l, n) ==> IdleRounds(l, n) + 1 < l.options.maxStalledReplans)
  }

  ghost predicate LaneReached(l: Lane, n: nat) {
    forall m | 0 <= m < n :: LaneGoesOn(l, m)
  }

  /** How many of the first `n` rounds landed a part. */
  ghost function Landings(l: Lane, n: nat): nat {
    if n == 0 then 0 else Landings(l, n - 1) + (if SentIn(l, n - 1) == [] then 0 else 1)
  }

  ghost predicate LandsAtMost(l: Lane, landings: nat) {
    forall n: nat | LaneReached(l, n) :: Landings(l, n) <= landings
  }

  ghost function LaneOwes(l: Lane, landings: nat, n: nat): int { landings - Landings(l, n) + |PendingAt(l, n)| }

  lemma PendingShrinks(l: Lane, n: nat)
    ensures |PendingAt(l, n + 1)| <= |PendingAt(l, n)|
  {
  }

  /** Every round the lane gets to is paid for by a landing round or by a blob that left the list. */
  lemma {:induction false} LaneIsPaced(l: Lane, landings: nat, n: nat)
    requires LandsAtMost(l, landings) && LaneReached(l, n)
    ensures LaneOwes(l, landings, n) >= |PendingAt(l, n)|
    ensures Paced(landings + |l.blobs|, LaneOwes(l, landings, n), Budget(l.options.maxStalledReplans), IdleRounds(l, n), n)
  {
    hide Paced, PendingAt, SentIn, Clean;
    var budget, total := Budget(l.options.maxStalledReplans), landings + |l.blobs|;
    if n == 0 {
      LaneStarts(l, total, budget);
    } else {
      assert LaneReached(l, n - 1) && LaneGoesOn(l, n - 1);
      LaneIsPaced(l, landings, n - 1);
      PendingShrinks(l, n - 1);
      if Idle(l, n - 1) {
        StallPays(total, LaneOwes(l, landings, n), budget, IdleRounds(l, n), n);
      } else {
        ShrinkPays(total, LaneOwes(l, landings, n - 1), LaneOwes(l, landings, n), budget, IdleRounds(l, n - 1), n);
      }
    }
  }

  lemma LaneStarts(l: Lane, total: nat, budget: nat)
    requires budget > 0
    ensures PendingAt(l, 0) == l.blobs && Paced(total, total, budget, 0, 0)
    ensures LaneReached(l, 0) && SentBefore(l, 0) == [] && IdleRounds(l, 0) == 0
  {
  }

  /** The whole blob is at the remote: under the grant it was sent under in some round, every part
      was held already, or is among `sent` with exactly its bytes. */
  ghost predicate InPlace(l: Lane, m: nat, k: nat, sent: seq<SentPart>)
    requires k < |PendingAt(l, m)|
  {
    var owed, grant := PendingAt(l, m)[k], RowGrant(l, m, PendingAt(l, m), k);
    && grant.Some? && Coherent(l.objects, grant.value, owed.length)
    && forall i | 0 <= i < |grant.value.parts| :: Held(grant.value, i) || Ranged(l.objects, grant.value, m, k, i) in sent
  }

  ghost predicate Placed(l: Lane, n: nat, owed: Owed, sent: seq<SentPart>) {
    exists m, k :: 0 <= m < n && 0 <= k < |PendingAt(l, m)| && PendingAt(l, m)[k] == owed && InPlace(l, m, k, sent)
  }

  /** A part in `sent` did land: its grant did not list it, its upload settled on Landed within the
      attempt budget, and its bytes are its range of the local object. */
  ghost predicate Genuine(l: Lane, s: SentPart) {
    && s.row < |PendingAt(l, s.round)|
    && var grant := RowGrant(l, s.round, PendingAt(l, s.round), s.row);
      && grant.Some? && s.index < |grant.value.parts| && !Held(grant.value, s.index)
      && PartPuts(l.remote, l.options, s.round, s.row)(s.index) == Landed
      && Coherent(l.objects, grant.value, PendingAt(l, s.round)[s.row].length)
      && s == Ranged(l.objects, grant.value, s.round, s.row, s.index)
  }

  /** Row `k` of round `n` is the first to fail, and this is why. */
  ghost predicate StopsLane(l: Lane, n: nat, k: nat, e: PushError)
    requires k < |PendingAt(l, n)|
  {
    FailsAt(l, n, PendingAt(l, n), k, e) && RowCause(l, n, PendingAt(l, n), k, e)
  }

  /** Why the lane gives up: a row of round `rounds` that fails, or a full budget of idle rounds. */
  ghost predicate LaneCause(l: Lane, rounds: nat, e: PushError) {
    || (LaneReached(l, rounds)
        && exists k :: 0 <= k < |PendingAt(l, rounds)| && StopsLane(l, rounds, k, e))
    || (e.ReplansStalled? && IdleFor(l, rounds, Budget(l.options.maxStalledReplans)))
  }

  /** Rounds until every blob is done, at most a stall budget of them for each round that lands
      something and for each blob. */
  method PushBlobLane(l: Lane, ghost landings: nat) returns (r: Option<PushError>, rounds: nat, sent: seq<SentPart>)
    requires LandsAtMost(l, landings)
    ensures rounds <= (landings + |l.blobs|) * Budget(l.options.maxStalledReplans)
    ensures r.None? ==> LaneReached(l, rounds) && PendingAt(l, rounds) == [] && sent == SentBefore(l, rounds)
    ensures r.None? ==> forall i | 0 <= i < |l.blobs| :: Placed(l, rounds, l.blobs[i], sent)
    ensures r.Some? ==> LaneCause(l, rounds, r.value) && SentBefore(l, rounds) <= sent
    ensures forall s | s in sent :: Genuine(l, s)
  {
    hide Paced, LandsAtMost, Clean, Deferred, RoundSent, PendingAt, Genuine, Placed, StopsLane, FailsAt, LaneReached,
      IdleRounds, SentBefore, LaneOwes, IdleFor;
    var pending, stalled := l.blobs, 0;
    rounds, sent := 0, [];
    ghost var budget := Budget(l.options.maxStalledReplans);
    LaneStarts(l, 0, budget);
    while pending != []
      invariant LaneReached(l, rounds) && pending == PendingAt(l, rounds) && sent == SentBefore(l, rounds)
      invariant stalled == IdleRounds(l, rounds) < budget
      invariant rounds <= (landings + |l.blobs|) * budget
      decreases LaneOwes(l, landings, rounds), budget - stalled
    {
      LaneIsPaced(l, landings, rounds);
      RoundFits(landings + |l.blobs|, LaneOwes(l, landings, rounds), budget, stalled, rounds);
      var error, deferred, landed := BlobRound(l, rounds, pending);
      sent := sent + landed;
      if error.Some? {
        FailedRound(l, rounds, error.value, landed);
        return error, rounds, sent;
      }
      NextRound(l, rounds, deferred, landed);
      var progress := landed != [] || |deferred| < |pending|;
      pending, rounds := deferred, rounds + 1;
      stalled := if progress then 0 else stalled + 1;
      if !progress && stalled >= l.options.maxStalledReplans {
        FullIdle(l, rounds);
        return Some(ReplansStalled), rounds, sent;
      }
      LaneIsPaced(l, landings, rounds);
      LanePays(l, landings, rounds);
      PacedStalls(landings + |l.blobs|, LaneOwes(l, landings, rounds), budget, stalled, rounds);
    }
    SentAreGenuine(l, rounds);
    forall i | 0 <= i < |l.blobs| ensures Placed(l, rounds, l.blobs[i], sent) { LaneDelivers(l, rounds, i); }
    r := None;
  }

  /** What a round without a failure leaves. */
  lemma NextRound(l: Lane, n: nat, deferred: seq<Owed>, landed: seq<SentPart>)
    requires LaneReached(l, n) && PendingAt(l, n) != [] && Clean(l, n, PendingAt(l, n), |PendingAt(l, n)|)
    requires deferred == Deferred(l, n, PendingAt(l, n), |PendingAt(l, n)|) && landed == RoundSent(l, n, PendingAt(l, n), |PendingAt(l, n)|)
    ensures PendingAt(l, n + 1) == deferred && SentBefore(l, n + 1) == SentBefore(l, n) + landed
    ensures var progress := landed != [] || |deferred| < |PendingAt(l, n)|;
      && IdleRounds(l, n + 1) == (if progress then 0 else IdleRounds(l, n) + 1)
      && (progress || IdleRounds(l, n) + 1 < l.options.maxStalledReplans ==> LaneReached(l, n + 1))
  {
    hide PendingAt, Clean, Deferred, RoundSent;
    PendingNext(l, n);
    PendingShrinks(l, n);
  }

  lemma FullIdle(l: Lane, n: nat)
    requires IdleRounds(l, n) >= Budget(l.options.maxStalledReplans)
    ensures LaneCause(l, n, ReplansStalled) && forall s | s in SentBefore(l, n) :: Genuine(l, s)
  {
    hide Idle, LaneReached, StopsLane, Genuine;
    IdleRoundsAre(l, n);
    SentAreGenuine(l, n);
  }

  /** A round that made progress leaves less owed; an idle one leaves as much. */
  lemma LanePays(l: Lane, landings: nat, n: nat)
    requires n > 0
    ensures IdleRounds(l, n) == 0 ==> LaneOwes(l, landings, n) < LaneOwes(l, landings, n - 1)
    ensures IdleRounds(l, n) > 0 ==>
      LaneOwes(l, landings, n) == LaneOwes(l, landings, n - 1) && IdleRounds(l, n) == IdleRounds(l, n - 1) + 1
  {
    hide PendingAt, SentIn;
    PendingShrinks(l, n - 1);
  }

  lemma PendingNext(l: Lane, n: nat)
    ensures PendingAt(l, n + 1) == Deferred(l, n, PendingAt(l, n), |PendingAt(l, n)|)
  {
  }

  /** Everything sent in a round landed. */
  lemma {:induction false} RoundGenuine(l: Lane, n: nat, k: nat, s: SentPart)
    requires k <= |PendingAt(l, n)| && s in RoundSent(l, n, PendingAt(l, n), k)
    ensures Genuine(l, s) && s.round == n && s.row < k
  {
    hide PendingAt, RowSent, Genuine;
    var pending := PendingAt(l, n);
    if s in RoundSent(l, n, pending, k - 1) {
      RoundGenuine(l, n, k - 1, s);
    } else {
      var sent := RowSent(l, n, pending, k - 1);
      var j :| 0 <= j < |sent| && sent[j] == s;
      RowGenuine(l, n, k - 1, j);
    }
  }

  lemma RowGenuine(l: Lane, n: nat, k: nat, j: nat)
    requires k < |PendingAt(l, n)| && j < |RowSent(l, n, PendingAt(l, n), k)|
    ensures var s := RowSent(l, n, PendingAt(l, n), k)[j]; Genuine(l, s) && s.round == n && s.row == k
  {
    hide PendingAt, PartPuts, PartBytes, Sum;
    var grant := RowGrant(l, n, PendingAt(l, n), k).value;
    var landing := Landing(l.objects, grant, PendingAt(l, n)[k].length, PartPuts(l.remote, l.options, n, k));
  }

  lemma {:induction false} SentAreGenuine(l: Lane, n: nat)
    ensures forall s | s in SentBefore(l, n) :: Genuine(l, s) && s.round < n
  {
    hide PendingAt, Genuine, RoundSent;
    if n > 0 {
      SentAreGenuine(l, n - 1);
      forall s | s in SentIn(l, n - 1) ensures Genuine(l, s) && s.round < n { RoundGenuine(l, n - 1, |PendingAt(l, n - 1)|, s); }
    }
  }

  lemma FailedRound(l: Lane, n: nat, e: PushError, landed: seq<SentPart>)
    requires LaneReached(l, n)
    requires exists k :: 0 <= k < |PendingAt(l, n)| && FailsAt(l, n, PendingAt(l, n), k, e) && landed == RoundSent(l, n, PendingAt(l, n), k + 1)
    ensures LaneCause(l, n, e) && forall s | s in SentBefore(l, n) + landed :: Genuine(l, s)
  {
    hide PendingAt, Genuine, RoundSent, RowCause, RowEnd, Clean;
    var k :| 0 <= k < |PendingAt(l, n)| && FailsAt(l, n, PendingAt(l, n), k, e) && landed == RoundSent(l, n, PendingAt(l, n), k + 1);
    RowFailure(l, n, PendingAt(l, n), k);
    assert StopsLane(l, n, k, e);
    SentAreGenuine(l, n);
    forall s | s in landed ensures Genuine(l, s) { RoundGenuine(l, n, k + 1, s); }
  }

  // --- what an emptied list means ---------------------------------------------------------------------

  /** A row that is not put off in a clean round is in place. */
  lemma RowInPlace(l: Lane, n: nat, k: nat)
    requires k < |PendingAt(l, n)| && RowEnd(l, n, PendingAt(l, n), k) == BlobDone
    ensures InPlace(l, n, k, RowSent(l, n, PendingAt(l, n), k))
  {
    hide PendingAt, PartPuts, PartBytes, Sum, Ranged;
    var owed, grant, put := PendingAt(l, n)[k], RowGrant(l, n, PendingAt(l, n), k).value, PartPuts(l.remote, l.options, n, k);
    AllInPlace(l.objects, grant, owed.length, put, n, k, RowSent(l, n, PendingAt(l, n), k));
  }

  lemma {:induction false} RowWithin(l: Lane, n: nat, pending: seq<Owed>, k: nat, upto: nat)
    requires k < upto <= |pending|
    ensures forall s | s in RowSent(l, n, pending, k) :: s in RoundSent(l, n, pending, upto)
    ensures RowEnd(l, n, pending, k).BlobLapsed? ==> pending[k] in Deferred(l, n, pending, upto)
  {
    hide RowSent, RowEnd;
    if k < upto - 1 { RowWithin(l, n, pending, k, upto - 1); }
  }

  lemma {:induction false} SentStays(l: Lane, m: nat, n: nat)
    requires m < n
    ensures forall s | s in SentIn(l, m) :: s in SentBefore(l, n)
  {
    hide SentIn;
    if m < n - 1 { SentStays(l, m, n - 1); }
  }

  /** A blob is still pending, or it is in place. */
  lemma {:induction false} PendingOrPlaced(l: Lane, n: nat, i: nat)
    requires LaneReached(l, n) && i < |l.blobs|
    ensures l.blobs[i] in PendingAt(l, n) || Placed(l, n, l.blobs[i], SentBefore(l, n))
  {
    hide PendingAt, InPlace, RowEnd, RowSent, SentBefore, Deferred, RoundSent;
    if n == 0 {
      LaneStarts(l, 0, 1);
    } else {
      assert LaneGoesOn(l, n - 1);
      PendingOrPlaced(l, n - 1, i);
      PendingNext(l, n - 1);
      var pending := PendingAt(l, n - 1);
      if l.blobs[i] in pending {
        var k :| 0 <= k < |pending| && pending[k] == l.blobs[i];
        RowWithin(l, n - 1, pending, k, |pending|);
        if !RowEnd(l, n - 1, pending, k).BlobLapsed? {
          RowInPlace(l, n - 1, k);
          SentStays(l, n - 1, n);
          PlaceGrows(l, n - 1, k, RowSent(l, n - 1, pending, k), SentBefore(l, n));
        }
      } else {
        var m, k :| 0 <= m < n - 1 && 0 <= k < |PendingAt(l, m)| && PendingAt(l, m)[k] == l.blobs[i] && InPlace(l, m, k, SentBefore(l, n - 1));
        SentGrows(l, n - 1);
        PlaceGrows(l, m, k, SentBefore(l, n - 1), SentBefore(l, n));
      }
    }
  }

  lemma SentGrows(l: Lane, n: nat)
    ensures forall s | s in SentBefore(l, n) :: s in SentBefore(l, n + 1)
  {
  }

  lemma PlaceGrows(l: Lane, m: nat, k: nat, sent: seq<SentPart>, more: seq<SentPart>)
    requires k < |PendingAt(l, m)| && InPlace(l, m, k, sent) && forall s | s in sent :: s in more
    ensures InPlace(l, m, k, more)
  {
    hide PendingAt, Ranged;
  }

  /** Once nothing is pending, every blob is in place. */
  lemma LaneDelivers(l: Lane, n: nat, i: nat)
    requires LaneReached(l, n) && PendingAt(l, n) == [] && i < |l.blobs|
    ensures Placed(l, n, l.blobs[i], SentBefore(l, n))
  {
    hide LaneReached, PendingAt, Placed;
    PendingOrPlaced(l, n, i);
  }
}
