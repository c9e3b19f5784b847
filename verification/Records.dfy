/** File records: what an ordered run of data and hole records means as bytes, and
    the operations that must keep that meaning. */
module Records {
  import opened Wrappers

  /** A SHA-256 value. */
  type Digest = d: Bytes | |d| == 32 witness Zeros(32)

  datatype FileRecord = Data(digest: Digest, length: nat) | Hole(length: nat)

  datatype Planner = SafetensorsV1 | GgufV1 | BlobV1

  /** The layout contract that directed a file's chunking. */
  datatype Stamp = Unstamped | Named(name: Bytes, version: nat) | Custom(digest: Digest)

  /** The object store's resident objects. */
  type Objects = map<Digest, Bytes>

  const MAX_FILE_RECORDS := 1_000_000

  // --- meaning ------------------------------------------------------------------

  function Total(records: seq<FileRecord>): nat {
    if records == [] then 0 else records[0].length + Total(records[1..])
  }

  /** Every data record names a resident object at least as long as it claims. */
  ghost predicate Readable(objects: Objects, records: seq<FileRecord>) {
    forall i | 0 <= i < |records| :: ReadableRecord(objects, records[i])
  }

  predicate ReadableRecord(objects: Objects, record: FileRecord) {
    record.Data? ==> record.digest in objects && record.length <= |objects[record.digest]|
  }

  /** The bytes of one record: an object prefix, or zeros. */
  function RecordBytes(objects: Objects, record: FileRecord): (b: Bytes)
    requires ReadableRecord(objects, record)
    ensures |b| == record.length
  {
    match record
    case Data(digest, length) => objects[digest][..length]
    case Hole(length) => Zeros(length)
  }

  function Content(objects: Objects, records: seq<FileRecord>): (b: Bytes)
    requires Readable(objects, records)
    ensures |b| == Total(records)
  {
    if records == [] then [] else RecordBytes(objects, records[0]) + Content(objects, records[1..])
  }

  /** The objects a run names. */
  function Digests(records: seq<FileRecord>): set<Digest> {
    set i | 0 <= i < |records| && records[i].Data? :: records[i].digest
  }

  lemma OneTotal(records: seq<FileRecord>)
    requires |records| == 1
    ensures Total(records) == records[0].length
  {
    assert records[1..] == [];
  }

  lemma {:induction false} TotalAppend(a: seq<FileRecord>, b: seq<FileRecord>)
    ensures Total(a + b) == Total(a) + Total(b)
  {
    if a == [] {
      assert a + b == b;
    } else {
      TotalAppend(a[1..], b);
      assert (a + b)[1..] == a[1..] + b;
    }
  }

  lemma {:induction false} ContentAppend(objects: Objects, a: seq<FileRecord>, b: seq<FileRecord>)
    requires Readable(objects, a) && Readable(objects, b)
    ensures Readable(objects, a + b)
    ensures Content(objects, a + b) == Content(objects, a) + Content(objects, b)
  {
    if a == [] {
      assert a + b == b;
    } else {
      ContentAppend(objects, a[1..], b);
      assert (a + b)[1..] == a[1..] + b;
    }
  }

  lemma TotalStep(records: seq<FileRecord>, i: nat)
    requires i < |records|
    ensures Total(records[..i + 1]) == Total(records[..i]) + records[i].length <= Total(records)
  {
    assert records[..i + 1] == records[..i] + [records[i]];
    assert records == records[..i + 1] + records[i + 1..];
    TotalAppend(records[..i], [records[i]]);
    TotalAppend(records[..i + 1], records[i + 1..]);
  }

  lemma {:induction false} TotalMonotone(records: seq<FileRecord>, i: nat, j: nat)
    requires i <= j <= |records|
    ensures Total(records[..i]) <= Total(records[..j]) <= Total(records)
  {
    assert records[..j] == records[..i] + records[i..j] && records == records[..j] + records[j..];
    TotalAppend(records[..i], records[i..j]);
    TotalAppend(records[..j], records[j..]);
  }

  /** Record `i` occupies its own range of the content. */
  lemma ContentAt(objects: Objects, records: seq<FileRecord>, i: nat)
    requires Readable(objects, records) && i < |records|
    ensures Total(records[..i]) + records[i].length <= Total(records)
    ensures Content(objects, records)[Total(records[..i])..Total(records[..i]) + records[i].length]
         == RecordBytes(objects, records[i])
  {
    hide Content, Total;
    TotalStep(records, i);
    ContentRange(objects, records, i, i + 1);
    assert records[i..i + 1] == [records[i]];
    OneRecord(objects, records[i]);
  }

  lemma OneRecord(objects: Objects, record: FileRecord)
    requires ReadableRecord(objects, record)
    ensures Readable(objects, [record]) && Content(objects, [record]) == RecordBytes(objects, record)
    ensures Total([record]) == record.length
  {
    assert [record][1..] == [];
    assert RecordBytes(objects, record) + [] == RecordBytes(objects, record);
  }

  lemma ContentRange(objects: Objects, records: seq<FileRecord>, i: nat, j: nat)
    requires Readable(objects, records) && i <= j <= |records|
    ensures Total(records[..i]) <= Total(records[..j]) <= Total(records)
    ensures Readable(objects, records[i..j])
    ensures Content(objects, records)[Total(records[..i])..Total(records[..j])] == Content(objects, records[i..j])
  {
    TotalMonotone(records, i, j);
    assert records == records[..j] + records[j..] && records[..j] == records[..i] + records[i..j];
    ContentAppend(objects, records[..j], records[j..]);
    ContentAppend(objects, records[..i], records[i..j]);
  }

  // --- the structural rules of a run ------------------------------------------------

  ghost predicate NoAdjacentHoles(records: seq<FileRecord>) {
    forall i | 0 <= i < |records| - 1 :: HolesApart(records, i)
  }

  ghost predicate HolesApart(records: seq<FileRecord>, i: nat)
    requires i + 1 < |records|
  {
    !(records[i].Hole? && records[i + 1].Hole?)
  }

  ghost predicate PositiveLengths(records: seq<FileRecord>) {
    forall i | 0 <= i < |records| :: records[i].length > 0
  }

  ghost predicate ValidRun(records: seq<FileRecord>, size: nat) {
    && |records| <= MAX_FILE_RECORDS
    && PositiveLengths(records)
    && NoAdjacentHoles(records)
    && Total(records) == size < U64
  }

  datatype RunError = RecordLimit | ZeroLengthRecord | AdjacentHoles | LengthSumMismatch

  method ValidateRecordRun(records: seq<FileRecord>, size: nat) returns (r: Outcome<RunError>)
    requires size < U64
    ensures r.Pass? <==> ValidRun(records, size)
  {
    if |records| > MAX_FILE_RECORDS {
      return Fail(RecordLimit);
    }
    var sum, previousWasHole := 0, false;
    for i := 0 to |records|
      invariant sum == Total(records[..i])
      invariant previousWasHole <==> i > 0 && records[i - 1].Hole?
      invariant forall k | 0 <= k < i :: records[k].length > 0
      invariant forall k | 0 <= k < i - 1 :: HolesApart(records, k)
    {
      TotalStep(records, i);
      if records[i].length == 0 {
        return Fail(ZeroLengthRecord);
      }
      if records[i].Hole? && previousWasHole {
        assert !HolesApart(records, i - 1);
        return Fail(AdjacentHoles);
      }
      previousWasHole := records[i].Hole?;
      sum := sum + records[i].length;
      if sum >= U64 {
        return Fail(LengthSumMismatch);
      }
    }
    assert records[..|records|] == records;
    return if sum == size then Pass else Fail(LengthSumMismatch);
  }

  // --- truncation ---------------------------------------------------------------------

  /** `length` falls strictly inside a data record. */
  ghost predicate CutsData(records: seq<FileRecord>, length: nat) {
    exists k :: 0 <= k < |records| && CutsAt(records, length, k)
  }

  ghost predicate CutsAt(records: seq<FileRecord>, length: nat, k: nat)
    requires k < |records|
  {
    records[k].Data? && Total(records[..k]) < length < Total(records[..k]) + records[k].length
  }

  /** The bytes a truncation to `length` should leave: a prefix, or zero-extended. */
  function Resized(b: Bytes, length: nat): Bytes {
    if length <= |b| then b[..length] else b + Zeros(length - |b|)
  }

  /** The whole records below `length`, with a hole cut short; None inside data. */
  function KeepUpTo(records: seq<FileRecord>, length: nat): Option<seq<FileRecord>> {
    if records == [] || length == 0 then Some([])
    else if records[0].length <= length then
      var rest :- KeepUpTo(records[1..], length - records[0].length);
      Some([records[0]] + rest)
    else if records[0].Hole? then Some([Hole(length)])
    else None
  }

  function EndsInHole(records: seq<FileRecord>): bool { records != [] && records[|records| - 1].Hole? }

  /** Grows a run by `missing` zero bytes: the trailing hole, or a new one. */
  function Grown(kept: seq<FileRecord>, missing: nat): seq<FileRecord> {
    if missing == 0 then kept
    else if EndsInHole(kept) then kept[..|kept| - 1] + [Hole(kept[|kept| - 1].length + missing)]
    else kept + [Hole(missing)]
  }

  function Truncated(records: seq<FileRecord>, length: nat): Option<seq<FileRecord>> {
    var kept :- KeepUpTo(records, length);
    Some(Grown(kept, if Total(kept) < length then length - Total(kept) else 0))
  }

  lemma {:induction false} KeptShape(records: seq<FileRecord>, length: nat)
    requires PositiveLengths(records) && NoAdjacentHoles(records)
    requires KeepUpTo(records, length).Some?
    ensures var kept := KeepUpTo(records, length).value;
      && PositiveLengths(kept) && NoAdjacentHoles(kept)
      && (kept != [] ==> records != [] && kept[0].Hole? == records[0].Hole?)
  {
    if records != [] && length != 0 && records[0].length <= length {
      var rest := KeepUpTo(records[1..], length - records[0].length).value;
      forall i | 0 <= i < |records[1..]| - 1 ensures HolesApart(records[1..], i) {
        assert HolesApart(records, i + 1);
      }
      KeptShape(records[1..], length - records[0].length);
      var kept := [records[0]] + rest;
      forall i | 0 <= i < |kept| - 1 ensures HolesApart(kept, i) {
        if i == 0 {
          assert HolesApart(records, 0);
        } else {
          assert HolesApart(rest, i - 1);
        }
      }
    }
  }

  lemma ContentCons(objects: Objects, record: FileRecord, rest: seq<FileRecord>)
    ensures Total([record] + rest) == record.length + Total(rest)
    ensures Readable(objects, [record] + rest) <==> ReadableRecord(objects, record) && Readable(objects, rest)
    ensures Readable(objects, [record] + rest) ==> Content(objects, [record] + rest) == RecordBytes(objects, record) + Content(objects, rest)
  {
    var all := [record] + rest;
    assert all[0] == record && all[1..] == rest;
    forall i | 0 <= i < |rest| ensures all[i + 1] == rest[i] {}
    assert forall i | 0 <= i < |all| :: all[i] == if i == 0 then record else rest[i - 1];
  }

  lemma PrefixOfJoin(a: Bytes, b: Bytes, n: nat)
    requires n <= |a| + |b|
    ensures (a + b)[..n] == if n <= |a| then a[..n] else a + b[..n - |a|]
  {
  }

  lemma {:induction false} KeptContent(objects: Objects, records: seq<FileRecord>, length: nat)
    requires Readable(objects, records) && KeepUpTo(records, length).Some?
    ensures var kept := KeepUpTo(records, length).value;
      && Total(kept) == (if length <= Total(records) then length else Total(records))
      && Readable(objects, kept) && Content(objects, kept) == Content(objects, records)[..Total(kept)]
    decreases records, 1
  {
    if records != [] && length != 0 {
      if records[0].length <= length {
        KeptMore(objects, records, length);
      } else {
        KeptHole(objects, records, length);
      }
    }
  }

  lemma KeptMore(objects: Objects, records: seq<FileRecord>, length: nat)
    requires Readable(objects, records) && records != [] && records[0].length <= length && KeepUpTo(records[1..], length - records[0].length).Some?
    ensures var kept := [records[0]] + KeepUpTo(records[1..], length - records[0].length).value;
      && Total(kept) == (if length <= Total(records) then length else Total(records))
      && Readable(objects, kept) && Content(objects, kept) == Content(objects, records)[..Total(kept)]
    decreases records, 0
  {
    hide Content, Total, Readable, RecordBytes, KeepUpTo;
    var first, rest := records[0], records[1..];
    assert records == [first] + rest;
    ContentCons(objects, first, rest);
    KeptContent(objects, rest, length - first.length);
    var kept := KeepUpTo(rest, length - first.length).value;
    ContentCons(objects, first, kept);
    PrefixOfJoin(RecordBytes(objects, first), Content(objects, rest), first.length + Total(kept));
    assert Content(objects, rest)[..0] == [];
  }

  lemma KeptHole(objects: Objects, records: seq<FileRecord>, length: nat)
    requires Readable(objects, records) && records != [] && records[0].Hole? && 0 < length < records[0].length
    ensures var kept := [Hole(length)];
      && Total(kept) == length <= Total(records)
      && Readable(objects, kept) && Content(objects, kept) == Content(objects, records)[..length]
  {
    hide Content, Total, Readable, RecordBytes;
    var first, rest := records[0], records[1..];
    assert records == [first] + rest;
    ContentCons(objects, first, rest);
    OneHole(objects, length);
    HoleBytes(objects, first.length);
    PrefixOfJoin(RecordBytes(objects, first), Content(objects, rest), length);
  }

  lemma HoleBytes(objects: Objects, length: nat)
    ensures RecordBytes(objects, Hole(length)) == Zeros(length) && forall n | 0 <= n <= length :: Zeros(length)[..n] == Zeros(n)
  {
  }

  lemma {:induction false} KeptDigests(records: seq<FileRecord>, length: nat)
    requires KeepUpTo(records, length).Some?
    ensures Digests(KeepUpTo(records, length).value) <= Digests(records)
  {
    if records != [] && length != 0 && records[0].length <= length {
      KeptDigests(records[1..], length - records[0].length);
      var rest := KeepUpTo(records[1..], length - records[0].length).value;
      DigestsCons(records[0], rest);
      DigestsCons(records[0], records[1..]);
      assert records == [records[0]] + records[1..];
    }
  }

  lemma DigestsCons(record: FileRecord, rest: seq<FileRecord>)
    ensures Digests([record] + rest) == Digests(rest) + (if record.Data? then {record.digest} else {})
  {
    var all := [record] + rest;
    forall d | d in Digests(rest) ensures d in Digests(all) {
      var i :| 0 <= i < |rest| && rest[i].Data? && rest[i].digest == d;
      assert all[i + 1] == rest[i];
    }
    assert all[0] == record;
  }

  /** Past a record that is kept whole, the cut falls where it falls in the rest. */
  lemma CutsLater(records: seq<FileRecord>, length: nat, k: nat)
    requires 0 < k < |records| && records[0].length <= length
    ensures CutsAt(records, length, k) <==> CutsAt(records[1..], length - records[0].length, k - 1)
  {
    assert records[..k][0] == records[0] && records[..k][1..] == records[1..][..k - 1];
  }

  /** A cut inside the first record is a cut inside no other. */
  lemma CutsFirst(records: seq<FileRecord>, length: nat, k: nat)
    requires k < |records| && 0 < length < records[0].length
    ensures CutsAt(records, length, k) <==> k == 0 && records[0].Data?
  {
    if k == 0 {
      assert records[..0] == [];
    } else {
      assert records[..k][0] == records[0];
    }
  }

  lemma {:induction false} KeepRefusesExactlyInsideData(records: seq<FileRecord>, length: nat)
    requires PositiveLengths(records)
    ensures KeepUpTo(records, length).None? <==> CutsData(records, length)
  {
    if records == [] || length == 0 {
    } else if records[0].length <= length {
      hide CutsAt;
      var rest, left := records[1..], length - records[0].length;
      KeepRefusesExactlyInsideData(rest, left);
      forall k | 0 < k < |records| ensures CutsAt(records, length, k) <==> CutsAt(rest, left, k - 1) { CutsLater(records, length, k); }
      if k :| 0 <= k < |rest| && CutsAt(rest, left, k) { assert CutsAt(records, length, k + 1); }
      if CutsAt(records, length, 0) { NotPast(records, length); }
    } else {
      hide CutsAt;
      forall k | 0 <= k < |records| ensures CutsAt(records, length, k) <==> k == 0 && records[0].Data? { CutsFirst(records, length, k); }
      assert CutsData(records, length) <==> CutsAt(records, length, 0);
    }
  }

  lemma NotPast(records: seq<FileRecord>, length: nat)
    requires records != [] && records[0].length <= length
    ensures !CutsAt(records, length, 0)
  {
    assert records[..0] == [];
  }

  /** Truncation keeps the first bytes and reads the extension as zeros; the result
      is a valid run again; it refuses exactly a cut inside a data record. */
  lemma TruncationResizes(objects: Objects, records: seq<FileRecord>, length: nat)
    requires PositiveLengths(records) && NoAdjacentHoles(records) && Readable(objects, records)
    ensures Truncated(records, length).None? <==> CutsData(records, length)
    ensures Truncated(records, length).Some? ==>
      var r := Truncated(records, length).value;
      && Total(r) == length && PositiveLengths(r) && NoAdjacentHoles(r) && Digests(r) <= Digests(records)
      && Readable(objects, r) && Content(objects, r) == Resized(Content(objects, records), length)
  {
    hide Content, Total, KeepUpTo, Digests, Readable, PositiveLengths, NoAdjacentHoles, CutsData, Grown;
    KeepRefusesExactlyInsideData(records, length);
    if KeepUpTo(records, length).Some? {
      KeptShape(records, length);
      KeptContent(objects, records, length);
      KeptDigests(records, length);
      var kept := KeepUpTo(records, length).value;
      var missing := length - Total(kept);
      GrownIsValid(kept, missing);
      GrownReadsZeros(objects, kept, missing);
      assert Truncated(records, length) == Some(Grown(kept, missing));
      ResizedPrefix(Content(objects, records), length, missing);
    }
  }

  lemma ResizedPrefix(b: Bytes, length: nat, missing: nat)
    requires missing == if length <= |b| then 0 else length - |b|
    ensures b[..length - missing] + Zeros(missing) == Resized(b, length)
  {
  }

  lemma GrownIsValid(kept: seq<FileRecord>, missing: nat)
    requires PositiveLengths(kept) && NoAdjacentHoles(kept)
    ensures PositiveLengths(Grown(kept, missing)) && NoAdjacentHoles(Grown(kept, missing))
    ensures Digests(Grown(kept, missing)) <= Digests(kept)
  {
    var r := Grown(kept, missing);
    forall i | 0 <= i < |r| - 1 ensures HolesApart(r, i) {
      if i < |kept| - 1 {
        assert HolesApart(kept, i);
      }
    }
  }

  lemma GrownReadsZeros(objects: Objects, kept: seq<FileRecord>, missing: nat)
    requires Readable(objects, kept)
    ensures Readable(objects, Grown(kept, missing)) && Total(Grown(kept, missing)) == Total(kept) + missing
    ensures Content(objects, Grown(kept, missing)) == Content(objects, kept) + Zeros(missing)
  {
    hide Content, Total;
    if missing > 0 {
      if EndsInHole(kept) {
        var base, last := kept[..|kept| - 1], kept[|kept| - 1].length;
        assert kept == base + [Hole(last)];
        AppendHole(objects, base, last);
        AppendHole(objects, base, last + missing);
        assert Zeros(last + missing) == Zeros(last) + Zeros(missing);
      } else {
        AppendHole(objects, kept, missing);
      }
    }
  }

  lemma AppendHole(objects: Objects, base: seq<FileRecord>, length: nat)
    requires Readable(objects, base)
    ensures Readable(objects, base + [Hole(length)]) && Total(base + [Hole(length)]) == Total(base) + length
    ensures Content(objects, base + [Hole(length)]) == Content(objects, base) + Zeros(length)
  {
    OneHole(objects, length);
    ContentAppend(objects, base, [Hole(length)]);
    TotalAppend(base, [Hole(length)]);
  }

  lemma OneHole(objects: Objects, length: nat)
    ensures Readable(objects, [Hole(length)])
    ensures Content(objects, [Hole(length)]) == Zeros(length) && Total([Hole(length)]) == length
  {
    assert [Hole(length)][1..] == [];
    assert Zeros(length) + [] == Zeros(length);
  }

  /** A record that starts below `length` ends past 64 bits. */
  ghost predicate Overruns(records: seq<FileRecord>, length: nat) {
    exists i :: 0 <= i < |records| && OverrunsAt(records, length, i)
  }

  ghost predicate OverrunsAt(records: seq<FileRecord>, length: nat, i: nat)
    requires i < |records|
  {
    Total(records[..i]) < length && Total(records[..i]) + records[i].length >= U64
  }

  /** The source's loop; its checked addition refuses a run that leaves 64 bits below the cut. */
  method TruncateRecords(records: seq<FileRecord>, length: nat) returns (r: Option<seq<FileRecord>>)
    ensures r == if Overruns(records, length) then None else Truncated(records, length)
  {
    hide Total, OverrunsAt, KeepUpTo, Prefixed;
    var kept: seq<FileRecord>, position := [], 0;
    NoRecords();
    assert records[0..] == records;
    PrefixedNothing(KeepUpTo(records, length));
    var i := 0;
    while i < |records| && position < length
      invariant 0 <= i <= |records| && position == Total(kept) <= length && kept == records[..i]
      invariant KeepUpTo(records, length) == Prefixed(kept, KeepUpTo(records[i..], length - position))
      invariant forall j | 0 <= j < i :: !OverrunsAt(records, length, j)
    {
      var record := records[i];
      TotalStep(records, i);
      var end := position + record.length;
      OverrunIs(records, length, i);
      if end >= U64 {
        return None;
      }
      KeepOne(records, i, length - position);
      if end > length {
        if record.Data? {
          PrefixedIs(kept, None);
          return None;
        }
        NoneBeyond(records, length, i + 1);
        PrefixedIs(kept, Some([Hole(length - position)]));
        TotalSnoc(kept, Hole(length - position));
        return Some(kept + [Hole(length - position)]);
      }
      PrefixedTwice(kept, record, KeepUpTo(records[i + 1..], length - end));
      assert records[..i + 1] == kept + [record];
      kept := kept + [record];
      position := end;
      i := i + 1;
    }
    if i < |records| { NoneBeyond(records, length, i); }
    KeptAll(records, i, length - position);
    PrefixedIs(kept, Some([]));
    if position < length {
      if EndsInHole(kept) {
        kept := kept[..|kept| - 1] + [Hole(kept[|kept| - 1].length + (length - position))];
      } else {
        kept := kept + [Hole(length - position)];
      }
    }
    return Some(kept);
  }

  lemma KeepOne(records: seq<FileRecord>, i: nat, left: nat)
    requires i < |records| && 0 < left
    ensures KeepUpTo(records[i..], left) ==
      if records[i].length <= left then Prefixed([records[i]], KeepUpTo(records[i + 1..], left - records[i].length))
      else if records[i].Hole? then Some([Hole(left)]) else None
  {
    assert records[i..][1..] == records[i + 1..];
  }

  lemma KeptAll(records: seq<FileRecord>, i: nat, left: nat)
    requires i <= |records| && (i == |records| || left == 0)
    ensures KeepUpTo(records[i..], left) == Some([])
  {
  }

  lemma PrefixedIs(kept: seq<FileRecord>, rest: Option<seq<FileRecord>>)
    ensures Prefixed(kept, rest) == if rest.None? then None else Some(kept + rest.value)
    ensures rest == Some([]) ==> Prefixed(kept, rest) == Some(kept)
  {
    assert kept + [] == kept;
  }

  lemma OverrunIs(records: seq<FileRecord>, length: nat, i: nat)
    requires i < |records|
    ensures OverrunsAt(records, length, i) <==> Total(records[..i]) < length && Total(records[..i]) + records[i].length >= U64
  {
  }

  lemma NoneBeyond(records: seq<FileRecord>, length: nat, i: nat)
    requires i <= |records| && Total(records[..i]) >= length
    ensures forall j | i <= j < |records| :: !OverrunsAt(records, length, j)
  {
    hide Total;
    forall j | i <= j < |records| ensures !OverrunsAt(records, length, j) { TotalMonotone(records, i, j); }
  }

  /** A stored run, whose lengths sum within 64 bits, never overruns. */
  lemma StoredNeverOverruns(records: seq<FileRecord>, length: nat)
    requires Total(records) < U64
    ensures !Overruns(records, length)
  {
    hide Total;
    forall i | 0 <= i < |records| ensures !OverrunsAt(records, length, i) {
      TotalStep(records, i);
      TotalMonotone(records, i + 1, |records|);
      assert records[..|records|] == records;
    }
  }

  function Prefixed(kept: seq<FileRecord>, rest: Option<seq<FileRecord>>): Option<seq<FileRecord>> {
    match rest case None => None case Some(r) => Some(kept + r)
  }

  lemma TotalSnoc(base: seq<FileRecord>, record: FileRecord)
    ensures Total(base + [record]) == Total(base) + record.length
  {
    TotalAppend(base, [record]);
  }

  lemma NoRecords()
    ensures Total([]) == 0
  {
  }

  lemma PrefixedNothing(rest: Option<seq<FileRecord>>)
    ensures Prefixed([], rest) == rest
  {
    if rest.Some? {
      assert [] + rest.value == rest.value;
    }
  }

  lemma PrefixedTwice(kept: seq<FileRecord>, record: FileRecord, rest: Option<seq<FileRecord>>)
    ensures Prefixed(kept, Prefixed([record], rest)) == Prefixed(kept + [record], rest)
  {
    if rest.Some? {
      assert kept + ([record] + rest.value) == kept + [record] + rest.value;
    }
  }

  method TotalLength(records: seq<FileRecord>) returns (n: nat)
    ensures n == Total(records)
  {
    n := 0;
    for i := 0 to |records|
      invariant n == Total(records[..i])
    {
      TotalStep(records, i);
      n := n + records[i].length;
    }
    assert records[..|records|] == records;
  }

  method IsValidRun(records: seq<FileRecord>, length: nat) returns (ok: bool)
    ensures ok <==> ValidRun(records, length)
  {
    if length >= U64 {
      return false;
    }
    var r := ValidateRecordRun(records, length);
    return r.Pass?;
  }
}
