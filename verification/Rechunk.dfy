/** Re-cutting a committed file: reading its record run, admitting new regions,
    and the seal, adopt and inherit operations that must not change its bytes. */
module Rechunk {
  import opened Wrappers
  import opened Records
  import opened Buffers

  /** A content address: SHA-256 (section 6.2 of FIPS 180-4). It has 32 bytes, so it cannot be
      injective; every result says which byte strings it must tell apart. */
  type Hash = Bytes -> Digest

  /** No resident object collides with `bytes`. */
  ghost predicate Agrees(hash: Hash, objects: Objects, bytes: Bytes) {
    hash(bytes) in objects ==> objects[hash(bytes)] == bytes
  }

  ghost predicate PartOf(x: Bytes, bytes: Bytes) { exists i, j :: 0 <= i <= j <= |bytes| && x == bytes[i..j] }

  /** The hash tells the parts of one file apart, from each other and from what is resident. */
  ghost predicate TellsApart(hash: Hash, objects: Objects, bytes: Bytes) {
    && (forall x | PartOf(x, bytes) :: Agrees(hash, objects, x))
    && (forall x, y | PartOf(x, bytes) && PartOf(y, bytes) && hash(x) == hash(y) :: x == y)
  }

  /** Every resident object sits at its own digest. */
  ghost predicate Addressed(hash: Hash, objects: Objects) {
    forall d | d in objects :: hash(objects[d]) == d
  }

  ghost predicate Extends(before: Objects, after: Objects) {
    forall d | d in before :: d in after && after[d] == before[d]
  }

  lemma {:induction false} ContentStable(before: Objects, after: Objects, records: seq<FileRecord>)
    requires Extends(before, after) && Readable(before, records)
    ensures Readable(after, records) && Content(after, records) == Content(before, records)
  {
    if records != [] {
      assert ReadableRecord(before, records[0]);
      ContentStable(before, after, records[1..]);
      forall i | 0 <= i < |records| ensures ReadableRecord(after, records[i]) {
        assert ReadableRecord(before, records[i]);
      }
    }
  }

  /** Admission: hashed, installed at its digest, never over another object. */
  method PutBytes(hash: Hash, objects: Objects, bytes: Bytes) returns (digest: Digest, after: Objects)
    requires Addressed(hash, objects)
    ensures digest == hash(bytes) && digest in after && (after[digest] == bytes <==> Agrees(hash, objects, bytes))
    ensures Extends(objects, after) && Addressed(hash, after) && after.Keys == objects.Keys + {digest}
  {
    digest := hash(bytes);
    after := if digest in objects then objects else objects[digest := bytes];
  }

  /** Admitting one part of the file leaves the others told apart. */
  lemma StillTold(hash: Hash, objects: Objects, after: Objects, bytes: Bytes, x: Bytes)
    requires TellsApart(hash, objects, bytes) && PartOf(x, bytes) && Extends(objects, after)
    requires after.Keys == objects.Keys + {hash(x)} && after[hash(x)] == x
    ensures TellsApart(hash, after, bytes)
  {
    hide PartOf;
    forall y | PartOf(y, bytes) ensures Agrees(hash, after, y) {
      assert Agrees(hash, objects, y);
    }
  }

  lemma WholeIsPart(bytes: Bytes)
    ensures PartOf(bytes, bytes)
  {
    assert bytes == bytes[0..|bytes|];
  }

  // --- reading a record run -----------------------------------------------------------

  datatype ReadError = UnexpectedEof | ObjectRead

  function Min(a: int, b: int): int { if a < b then a else b }
  function Max(a: int, b: int): int { if a < b then b else a }

  /** How much of [offset, end) the first `position` bytes of the file fill. */
  function Filled(position: nat, offset: nat, end: nat): (n: nat)
    requires offset <= end
    ensures n <= end - offset
  {
    if position <= offset then 0 else Min(position, end) - offset
  }

  method ReadExactAt(objects: Objects, records: seq<FileRecord>, offset: nat, destination: array<byte>)
      returns (r: Outcome<ReadError>)
    modifies destination
    ensures Readable(objects, records) ==> (r.Pass? <==> offset + destination.Length <= Total(records))
    ensures r.Pass? && Readable(objects, records) ==>
      offset + destination.Length <= Total(records)
      && destination[..] == Content(objects, records)[offset..offset + destination.Length]
  {
    hide Content, Patched, Readable, Total, RecordBytes, ReadableRecord;
    TotalEnds(records);
    var end := offset + destination.Length;
    var length := TotalLength(records);
    if end > length {
      return Fail(UnexpectedEof);
    }
    ghost var readable := Readable(objects, records);
    ghost var want := if readable then Content(objects, records)[offset..end] else Zeros(end - offset);
    var start := 0;
    for i := 0 to |records|
      invariant start == Total(records[..i])
      invariant readable ==> destination[..Filled(start, offset, end)] == want[..Filled(start, offset, end)]
    {
      TotalStep(records, i);
      var segmentEnd := start + records[i].length;
      if segmentEnd <= offset {
        start := segmentEnd;
        continue;
      }
      if start >= end {
        break;
      }
      var read := CopySegment(objects, records, i, start, offset, destination, want);
      if !read {
        return Fail(ObjectRead);
      }
      start := segmentEnd;
    }
    if readable {
      assert destination[..Filled(start, offset, end)] == destination[..];
    }
    return Pass;
  }

  /** Copies the part of record `i` that [offset, offset + |destination|) asks for. */
  method CopySegment(objects: Objects, records: seq<FileRecord>, i: nat, start: nat, offset: nat, destination: array<byte>, ghost want: Bytes)
      returns (ok: bool)
    requires i < |records| && start == Total(records[..i]) && |want| == destination.Length && offset + destination.Length <= Total(records)
    requires offset < start + records[i].length && start < offset + destination.Length
    requires Readable(objects, records) ==> want == Content(objects, records)[offset..offset + destination.Length]
    requires Readable(objects, records) ==>
      destination[..Filled(start, offset, offset + destination.Length)] == want[..Filled(start, offset, offset + destination.Length)]
    modifies destination
    ensures Readable(objects, records) ==> ok
    ensures ok && Readable(objects, records) ==>
      var now := Filled(start + records[i].length, offset, offset + destination.Length); destination[..now] == want[..now]
  {
    hide Content, Patched, Readable, Total, RecordBytes, ReadableRecord;
    ghost var readable := Readable(objects, records);
    var end := offset + destination.Length;
    var from, to := Max(offset, start), Min(end, start + records[i].length);
    if readable {
      SegmentIsContent(objects, records, i, from, to);
    }
    var bytes := ReadSegment(objects, records[i], from - start, to - from);
    if bytes.None? {
      return false;
    }
    ghost var before := destination[..];
    CopyInto(destination, from - offset, bytes.value);
    if readable {
      SliceOfSlice(Content(objects, records), offset, end, from - offset, to - offset);
      PrefixGrows(before, destination[..], want, from - offset, bytes.value);
    }
    return true;
  }

  lemma TotalEnds(records: seq<FileRecord>)
    ensures Total(records[..0]) == 0 && Total(records[..|records|]) == Total(records)
  {
    assert records[..|records|] == records;
  }

  /** `length` bytes of one record from `within` on. */
  method ReadSegment(objects: Objects, record: FileRecord, within: nat, length: nat) returns (r: Option<Bytes>)
    ensures ReadableRecord(objects, record) && within + length <= record.length ==>
      r == Some(RecordBytes(objects, record)[within..within + length])
    ensures r.Some? ==> |r.value| == length
  {
    match record {
      case Hole(all) =>
        r := Some(Zeros(length));
        assert within + length <= all ==> Zeros(all)[within..within + length] == Zeros(length);
      case Data(digest, _) =>
        if digest !in objects || within + length > |objects[digest]| {
          return None;
        }
        r := Some(objects[digest][within..within + length]);
        if ReadableRecord(objects, record) && within + length <= record.length {
          SliceOfSlice(objects[digest], 0, record.length, within, within + length);
          assert objects[digest][..record.length] == objects[digest][0..record.length];
        }
    }
  }

  lemma SegmentIsContent(objects: Objects, records: seq<FileRecord>, i: nat, from: nat, to: nat)
    requires Readable(objects, records) && i < |records|
    requires Total(records[..i]) <= from <= to <= Total(records[..i]) + records[i].length
    ensures to <= Total(records) && ReadableRecord(objects, records[i])
    ensures var start := Total(records[..i]);
      Content(objects, records)[from..to] == RecordBytes(objects, records[i])[from - start..to - start]
  {
    hide Content, Total;
    ContentAt(objects, records, i);
    var start := Total(records[..i]);
    SliceOfSlice(Content(objects, records), start, start + records[i].length, from - start, to - start);
  }

  // --- regions -------------------------------------------------------------------------

  datatype Region = Region(offset: nat, length: nat)

  /** A plan's regions cover the file in order, each nonempty. */
  ghost predicate Tile(regions: seq<Region>, lo: nat, hi: nat) {
    if regions == [] then lo == hi
    else regions[0].offset == lo && regions[0].length > 0 && Tile(regions[1..], lo + regions[0].length, hi)
  }

  lemma {:induction false} TileInside(regions: seq<Region>, lo: nat, hi: nat, k: nat)
    requires Tile(regions, lo, hi) && k < |regions|
    ensures lo <= regions[k].offset && regions[k].offset + regions[k].length <= hi && regions[k].length > 0
  {
    TileOrdered(regions, lo, hi);
    if k > 0 {
      TileInside(regions[1..], lo + regions[0].length, hi, k - 1);
    } else {
      TileOrdered(regions[1..], lo + regions[0].length, hi);
    }
  }

  lemma {:induction false} TileOrdered(regions: seq<Region>, lo: nat, hi: nat)
    requires Tile(regions, lo, hi)
    ensures lo <= hi
  {
    if regions != [] {
      TileOrdered(regions[1..], lo + regions[0].length, hi);
    }
  }

  /** `bytes` from the region's offset on. */
  ghost function Slice(bytes: Bytes, region: Region): Bytes
    requires region.offset + region.length <= |bytes|
  {
    bytes[region.offset..region.offset + region.length]
  }

  /** One record carries exactly one region's bytes. */
  ghost predicate Carries(objects: Objects, bytes: Bytes, region: Region, record: FileRecord) {
    && region.offset + region.length <= |bytes|
    && record.Data? && record.length == region.length && ReadableRecord(objects, record)
    && RecordBytes(objects, record) == Slice(bytes, region)
  }

  /** Records that carry tiling regions one by one carry the whole file. */
  lemma {:induction false} CarriedContent(objects: Objects, bytes: Bytes, regions: seq<Region>, records: seq<FileRecord>, lo: nat)
    requires |records| == |regions| && lo <= |bytes| && Tile(regions, lo, |bytes|)
    requires forall k | 0 <= k < |regions| :: Carries(objects, bytes, regions[k], records[k])
    ensures Readable(objects, records) && Content(objects, records) == bytes[lo..]
  {
    hide Carries;
    if regions == [] {
      assert bytes[lo..] == [];
    } else {
      TileInside(regions, lo, |bytes|, 0);
      var next := lo + regions[0].length;
      forall k | 0 <= k < |regions| - 1 ensures Carries(objects, bytes, regions[1..][k], records[1..][k]) {
        assert Carries(objects, bytes, regions[k + 1], records[k + 1]);
      }
      CarriedContent(objects, bytes, regions[1..], records[1..], next);
      hide Content, Tile;
      CarriedFirst(objects, bytes, regions[0], records);
    }
  }

  /** The first record's bytes, and then the rest's. */
  lemma CarriedFirst(objects: Objects, bytes: Bytes, region: Region, records: seq<FileRecord>)
    requires records != [] && Carries(objects, bytes, region, records[0])
    requires Readable(objects, records[1..]) && Content(objects, records[1..]) == bytes[region.offset + region.length..]
    ensures Readable(objects, records) && Content(objects, records) == bytes[region.offset..]
  {
    forall k | 0 <= k < |records| ensures ReadableRecord(objects, records[k]) { assert k > 0 ==> records[k] == records[1..][k - 1]; }
    hide RecordBytes;
    assert bytes[region.offset..] == Slice(bytes, region) + bytes[region.offset + region.length..];
  }

  /** Reads each region once and admits it as one object, in region order. */
  method AdmitRegions(hash: Hash, objects: Objects, records: seq<FileRecord>, regions: seq<Region>)
      returns (digests: seq<Digest>, after: Objects)
    requires Addressed(hash, objects) && Readable(objects, records) && TellsApart(hash, objects, Content(objects, records))
    requires forall k | 0 <= k < |regions| :: regions[k].offset + regions[k].length <= Total(records)
    ensures Extends(objects, after) && Addressed(hash, after)
    ensures |digests| == |regions|
    ensures forall k | 0 <= k < |regions| ::
      Carries(after, Content(objects, records), regions[k], Data(digests[k], regions[k].length))
    ensures forall k | 0 <= k < |regions| :: digests[k] == hash(Slice(Content(objects, records), regions[k]))
    ensures after.Keys == objects.Keys + set d | d in digests
  {
    hide Content, TellsApart, Agrees, PartOf, Addressed, Extends, Carries, Readable, Total;
    digests, after := [], objects;
    ghost var bytes := Content(objects, records);
    ExtendsSelf(objects);
    for i := 0 to |regions|
      invariant Extends(objects, after) && Addressed(hash, after) && TellsApart(hash, after, bytes) && |digests| == i
      invariant forall k | 0 <= k < i :: Carries(after, bytes, regions[k], Data(digests[k], regions[k].length))
      invariant forall k | 0 <= k < i :: digests[k] == hash(Slice(bytes, regions[k]))
      invariant after.Keys == objects.Keys + set d | d in digests
    {
      ghost var before := after;
      ContentStable(objects, after, records);
      var buffer := new byte[regions[i].length](_ => 0);
      var outcome := ReadExactAt(after, records, regions[i].offset, buffer);
      var digest;
      digest, after := PutBytes(hash, after, buffer[..]);
      Admitted(hash, before, after, bytes, regions[i], buffer[..]);
      ExtendsTransitive(objects, before, after);
      forall k | 0 <= k < i ensures Carries(after, bytes, regions[k], Data(digests[k], regions[k].length)) {
        CarriesStable(before, after, bytes, regions[k], Data(digests[k], regions[k].length));
      }
      Installed(after, bytes, regions[i], digest);
      digests := digests + [digest];
    }
  }

  lemma Admitted(hash: Hash, objects: Objects, after: Objects, bytes: Bytes, region: Region, x: Bytes)
    requires region.offset + region.length <= |bytes| && x == Slice(bytes, region)
    requires TellsApart(hash, objects, bytes) && Extends(objects, after) && after.Keys == objects.Keys + {hash(x)}
    requires after[hash(x)] == x <==> Agrees(hash, objects, x)
    ensures after[hash(x)] == x && TellsApart(hash, after, bytes)
  {
    assert PartOf(x, bytes);
    assert Agrees(hash, objects, x);
    StillTold(hash, objects, after, bytes, x);
  }

  lemma ExtendsSelf(objects: Objects)
    ensures Extends(objects, objects)
  {
  }

  lemma ExtendsTransitive(a: Objects, b: Objects, c: Objects)
    requires Extends(a, b) && Extends(b, c)
    ensures Extends(a, c)
  {
  }

  lemma CarriesStable(before: Objects, after: Objects, bytes: Bytes, region: Region, record: FileRecord)
    requires Extends(before, after) && Carries(before, bytes, region, record)
    ensures Carries(after, bytes, region, record)
  {
  }

  lemma Installed(objects: Objects, bytes: Bytes, region: Region, digest: Digest)
    requires region.offset + region.length <= |bytes| && digest in objects && objects[digest] == Slice(bytes, region)
    ensures Carries(objects, bytes, region, Data(digest, region.length))
  {
    assert objects[digest][..region.length] == objects[digest];
  }

  // --- re-cutting ------------------------------------------------------------------------

  /** The committed ranges: each data record at its own offset. */
  ghost predicate CommittedRanges(records: seq<FileRecord>, n: nat, ranges: map<Region, Digest>)
    requires n <= |records|
  {
    && (forall i | 0 <= i < n && records[i].Data? ::
          Region(Total(records[..i]), records[i].length) in ranges
          && ranges[Region(Total(records[..i]), records[i].length)] == records[i].digest)
    && (forall g | g in ranges :: exists i :: 0 <= i < n && records[i] == Data(ranges[g], g.length) && Total(records[..i]) == g.offset)
  }

  method Committed(records: seq<FileRecord>) returns (ranges: map<Region, Digest>)
    requires PositiveLengths(records)
    ensures CommittedRanges(records, |records|, ranges)
  {
    hide Total;
    ranges := map[];
    var position := 0;
    TotalEnds(records);
    for i := 0 to |records|
      invariant position == Total(records[..i])
      invariant CommittedRanges(records, i, ranges)
    {
      TotalStep(records, i);
      forall j | 0 <= j < i ensures Total(records[..j]) < position {
        TotalMonotone(records[..i], j, i);
        TotalStep(records, j);
        TotalMonotone(records, j + 1, i);
      }
      if records[i].Data? {
        ranges := ranges[Region(position, records[i].length) := records[i].digest];
      }
      position := position + records[i].length;
    }
  }

  /** A planned region equal to a committed range keeps that range's digest. */
  ghost predicate KeepsCommitted(records: seq<FileRecord>, regions: seq<Region>, cut: seq<FileRecord>)
    requires |cut| == |regions|
  {
    forall k, i | 0 <= k < |regions| && 0 <= i < |records| && records[i].Data?
                  && regions[k] == Region(Total(records[..i]), records[i].length) :: cut[k] == records[i]
  }

  /** A data record covers exactly this range. */
  ghost predicate CommittedAt(records: seq<FileRecord>, g: Region) {
    exists i :: 0 <= i < |records| && records[i].Data? && g == Region(Total(records[..i]), records[i].length)
  }

  /** Exactly the regions no record covers are admitted, each under the hash of its own bytes. */
  ghost predicate FreshCut(hash: Hash, bytes: Bytes, records: seq<FileRecord>, regions: seq<Region>, cut: seq<FileRecord>, added: seq<Digest>) {
    && |cut| == |regions|
    && (forall k | 0 <= k < |cut| && !CommittedAt(records, regions[k]) ::
          cut[k].Data? && cut[k].digest in added
          && regions[k].offset + regions[k].length <= |bytes| && cut[k].digest == hash(Slice(bytes, regions[k])))
    && (forall j | 0 <= j < |added| :: exists k :: 0 <= k < |cut| && FreshAt(records, regions[k], cut[k], added[j]))
  }

  ghost predicate FreshAt(records: seq<FileRecord>, g: Region, record: FileRecord, d: Digest) {
    !CommittedAt(records, g) && record.Data? && record.digest == d
  }

  /** Cuts a file along new regions: committed ranges are reused by digest, every
      other region is read once and admitted. */
  method Recut(hash: Hash, objects: Objects, records: seq<FileRecord>, regions: seq<Region>)
      returns (cut: seq<FileRecord>, added: seq<Digest>, after: Objects)
    requires Addressed(hash, objects) && Readable(objects, records) && PositiveLengths(records)
    requires TellsApart(hash, objects, Content(objects, records)) && Tile(regions, 0, Total(records))
    ensures Extends(objects, after) && Addressed(hash, after)
    ensures Readable(after, cut) && Content(after, cut) == Content(objects, records)
    ensures |cut| == |regions| && KeepsCommitted(records, regions, cut)
    ensures forall k | 0 <= k < |cut| :: cut[k].Data? && cut[k].length == regions[k].length
                    && (cut[k].digest in Digests(records) || cut[k].digest in added)
    ensures forall d | d in added :: d in after
    ensures FreshCut(hash, Content(objects, records), records, regions, cut, added) && after.Keys == objects.Keys + set d | d in added
  {
    hide Content, TellsApart, Addressed, Extends, Carries, Readable, Total, Tile, CommittedRanges, Digests;
    ghost var bytes := Content(objects, records);
    forall k | 0 <= k < |regions| ensures regions[k].offset + regions[k].length <= Total(records) && regions[k].length > 0 {
      TileInside(regions, 0, Total(records), k);
    }
    var ranges := Committed(records);
    var pending := PendingRegions(regions, ranges);
    added, after := AdmitRegions(hash, objects, records, pending);
    cut := LayOut(regions, ranges, added);
    forall k | 0 <= k < |regions|
      ensures Carries(after, bytes, regions[k], cut[k]) && (cut[k].digest in Digests(records) || cut[k].digest in added)
    {
      LaidCarries(objects, after, records, regions, ranges, added, cut[k], k);
    }
    CarriedContent(after, bytes, regions, cut, 0);
    assert bytes[0..] == bytes;
    Kept(records, regions, ranges, cut);
    FreshResident(after, bytes, pending, added);
    LaidFresh(hash, bytes, records, regions, ranges, added, cut);
  }

  /** Where region `k`'s record comes from: its committed range, or its turn among the admitted. */
  ghost predicate LaidAt(regions: seq<Region>, ranges: map<Region, Digest>, added: seq<Digest>, record: FileRecord, k: nat)
    requires k < |regions|
  {
    if regions[k] in ranges then record == Data(ranges[regions[k]], regions[k].length)
    else |Unmatched(regions[..k], ranges)| < |added| && record == Data(added[|Unmatched(regions[..k], ranges)|], regions[k].length)
  }

  method LayOut(regions: seq<Region>, ranges: map<Region, Digest>, added: seq<Digest>) returns (cut: seq<FileRecord>)
    requires |added| == |Unmatched(regions, ranges)|
    ensures |cut| == |regions| && forall k | 0 <= k < |cut| :: LaidAt(regions, ranges, added, cut[k], k)
  {
    hide Unmatched;
    cut := [];
    var next := 0;
    NoneUnmatched(regions, ranges);
    for i := 0 to |regions|
      invariant |cut| == i && next == |Unmatched(regions[..i], ranges)| <= |added|
      invariant forall k | 0 <= k < i :: LaidAt(regions, ranges, added, cut[k], k)
    {
      UnmatchedStep(regions, ranges, i);
      UnmatchedPrefix(regions, ranges, i + 1);
      if regions[i] in ranges {
        cut := cut + [Data(ranges[regions[i]], regions[i].length)];
      } else {
        cut := cut + [Data(added[next], regions[i].length)];
        next := next + 1;
      }
    }
  }

  lemma NoneUnmatched(regions: seq<Region>, ranges: map<Region, Digest>)
    ensures Unmatched(regions[..0], ranges) == []
  {
  }

  lemma UnmatchedAt(regions: seq<Region>, ranges: map<Region, Digest>, k: nat)
    requires k < |regions| && regions[k] !in ranges
    ensures |Unmatched(regions[..k], ranges)| < |Unmatched(regions, ranges)|
    ensures Unmatched(regions, ranges)[|Unmatched(regions[..k], ranges)|] == regions[k]
  {
    hide Unmatched;
    UnmatchedStep(regions, ranges, k);
    UnmatchedPrefix(regions, ranges, k + 1);
  }

  lemma {:induction false} UnmatchedFrom(regions: seq<Region>, ranges: map<Region, Digest>, n: nat, j: nat) returns (k: nat)
    requires n <= |regions| && j < |Unmatched(regions[..n], ranges)|
    ensures k < n && regions[k] !in ranges && |Unmatched(regions[..k], ranges)| == j
  {
    assert n > 0;
    UnmatchedStep(regions, ranges, n - 1);
    if j < |Unmatched(regions[..n - 1], ranges)| {
      k := UnmatchedFrom(regions, ranges, n - 1, j);
    } else {
      k := n - 1;
    }
  }

  lemma LaidCarries(objects: Objects, after: Objects, records: seq<FileRecord>, regions: seq<Region>, ranges: map<Region, Digest>,
                    added: seq<Digest>, record: FileRecord, k: nat)
    requires Readable(objects, records) && Extends(objects, after) && CommittedRanges(records, |records|, ranges)
    requires k < |regions| && LaidAt(regions, ranges, added, record, k) && |added| == |Unmatched(regions, ranges)|
    requires forall j | 0 <= j < |added| ::
      Carries(after, Content(objects, records), Unmatched(regions, ranges)[j], Data(added[j], Unmatched(regions, ranges)[j].length))
    ensures Carries(after, Content(objects, records), regions[k], record)
    ensures record.digest in Digests(records) || record.digest in added
  {
    hide Content, Readable, Total, CommittedRanges, Digests, Unmatched, Extends, Carries;
    if regions[k] in ranges {
      RangeCarries(objects, after, records, ranges, regions[k]);
    } else {
      UnmatchedAt(regions, ranges, k);
    }
  }

  lemma LaidFresh(hash: Hash, bytes: Bytes, records: seq<FileRecord>, regions: seq<Region>, ranges: map<Region, Digest>,
                  added: seq<Digest>, cut: seq<FileRecord>)
    requires CommittedRanges(records, |records|, ranges) && |cut| == |regions| && |added| == |Unmatched(regions, ranges)|
    requires forall k | 0 <= k < |regions| :: regions[k].offset + regions[k].length <= |bytes|
    requires forall k | 0 <= k < |cut| :: LaidAt(regions, ranges, added, cut[k], k)
    requires forall j | 0 <= j < |added| :: var g := Unmatched(regions, ranges)[j];
      g.offset + g.length <= |bytes| && added[j] == hash(Slice(bytes, g))
    ensures FreshCut(hash, bytes, records, regions, cut, added)
  {
    hide Total, Unmatched, Slice;
    forall k | 0 <= k < |regions| ensures regions[k] in ranges <==> CommittedAt(records, regions[k]) {
      RangeIsCommitted(records, ranges, regions[k]);
    }
    hide CommittedAt, CommittedRanges;
    forall k | 0 <= k < |cut| && regions[k] !in ranges
      ensures cut[k].Data? && cut[k].digest in added && cut[k].digest == hash(Slice(bytes, regions[k]))
    {
      UnmatchedAt(regions, ranges, k);
    }
    assert regions[..|regions|] == regions;
    forall j | 0 <= j < |added|
      ensures exists k :: 0 <= k < |cut| && FreshAt(records, regions[k], cut[k], added[j])
    {
      var k := UnmatchedFrom(regions, ranges, |regions|, j);
      assert LaidAt(regions, ranges, added, cut[k], k);
      assert FreshAt(records, regions[k], cut[k], added[j]);
    }
  }

  lemma RangeIsCommitted(records: seq<FileRecord>, ranges: map<Region, Digest>, g: Region)
    requires CommittedRanges(records, |records|, ranges)
    ensures g in ranges <==> CommittedAt(records, g)
  {
    hide Total;
  }

  /** The regions no committed range covers, in order. */
  method PendingRegions(regions: seq<Region>, ranges: map<Region, Digest>) returns (pending: seq<Region>)
    ensures pending == Unmatched(regions, ranges)
    ensures forall k | 0 <= k < |pending| :: pending[k] in regions
  {
    pending := [];
    for i := 0 to |regions|
      invariant pending == Unmatched(regions[..i], ranges)
      invariant forall k | 0 <= k < |pending| :: pending[k] in regions
    {
      UnmatchedStep(regions, ranges, i);
      if regions[i] !in ranges {
        pending := pending + [regions[i]];
      }
    }
    assert regions[..|regions|] == regions;
  }

  ghost function Unmatched(regions: seq<Region>, ranges: map<Region, Digest>): seq<Region> {
    if regions == [] then [] else
      var last := regions[|regions| - 1];
      Unmatched(regions[..|regions| - 1], ranges) + (if last in ranges then [] else [last])
  }

  lemma UnmatchedStep(regions: seq<Region>, ranges: map<Region, Digest>, i: nat)
    requires i < |regions|
    ensures Unmatched(regions[..i + 1], ranges) == Unmatched(regions[..i], ranges) + (if regions[i] in ranges then [] else [regions[i]])
  {
    assert regions[..i + 1][..i] == regions[..i];
  }

  lemma {:induction false} UnmatchedPrefix(regions: seq<Region>, ranges: map<Region, Digest>, i: nat)
    requires i <= |regions|
    ensures Unmatched(regions[..i], ranges) <= Unmatched(regions, ranges)
    decreases |regions| - i
  {
    if i < |regions| {
      UnmatchedPrefix(regions, ranges, i + 1);
      UnmatchedStep(regions, ranges, i);
    } else {
      assert regions[..i] == regions;
    }
  }

  lemma RangeCarries(objects: Objects, after: Objects, records: seq<FileRecord>, ranges: map<Region, Digest>, region: Region)
    requires Readable(objects, records) && Extends(objects, after)
    requires CommittedRanges(records, |records|, ranges) && region in ranges
    ensures Carries(after, Content(objects, records), region, Data(ranges[region], region.length))
    ensures ranges[region] in Digests(records)
  {
    var i :| 0 <= i < |records| && records[i] == Data(ranges[region], region.length) && Total(records[..i]) == region.offset;
    hide *;
    RecordCarries(objects, after, records, i, region);
  }

  /** A data record, read where it lies, carries its own range. */
  lemma RecordCarries(objects: Objects, after: Objects, records: seq<FileRecord>, i: nat, region: Region)
    requires Readable(objects, records) && Extends(objects, after) && i < |records|
    requires records[i].Data? && region == Region(Total(records[..i]), records[i].length)
    ensures Carries(after, Content(objects, records), region, records[i]) && records[i].digest in Digests(records)
  {
    hide Content, Total;
    ContentAt(objects, records, i);
    assert ReadableRecord(objects, records[i]);
  }

  lemma Kept(records: seq<FileRecord>, regions: seq<Region>, ranges: map<Region, Digest>, cut: seq<FileRecord>)
    requires |cut| == |regions| && CommittedRanges(records, |records|, ranges)
    requires forall k | 0 <= k < |cut| :: cut[k].Data? && cut[k].length == regions[k].length
    requires forall k | 0 <= k < |cut| && regions[k] in ranges :: cut[k].digest == ranges[regions[k]]
    ensures KeepsCommitted(records, regions, cut)
  {
  }

  lemma FreshResident(objects: Objects, bytes: Bytes, pending: seq<Region>, added: seq<Digest>)
    requires |added| == |pending|
    requires forall k | 0 <= k < |pending| :: Carries(objects, bytes, pending[k], Data(added[k], pending[k].length))
    ensures forall d | d in added :: d in objects
  {
    forall d | d in added ensures d in objects {
      var k :| 0 <= k < |added| && added[k] == d;
      assert Carries(objects, bytes, pending[k], Data(added[k], pending[k].length));
    }
  }

  // --- sealing -----------------------------------------------------------------------------

  /** What the closed planner registry answers for one file. */
  datatype Planned = Planned(planner: Planner, contract: Stamp, regions: seq<Region>)

  datatype SealJob = SealJob(
    planner: Planner, contract: Stamp, records: seq<FileRecord>, updateRecords: bool, newDigests: seq<Digest>)

  /** The manifest can express the file: a blob is empty or one whole object. */
  ghost predicate Sealable(planner: Planner, records: seq<FileRecord>) {
    planner.BlobV1? ==> records == [] || (|records| == 1 && records[0].Data?)
  }

  ghost predicate JobKeepsBytes(objects: Objects, after: Objects, records: seq<FileRecord>, job: SealJob)
    requires Readable(objects, records)
  {
    && Readable(after, job.records) && Content(after, job.records) == Content(objects, records)
    && (!job.updateRecords ==> job.records == records)
    && (forall d | d in Digests(job.records) :: d in Digests(records) || d in job.newDigests)
    && (forall d | d in job.newDigests :: d in after)
    && Sealable(job.planner, job.records)
  }

  const VERIFY_BUFFER_SIZE := 1024 * 1024

  /** Streams the whole run, holes as zeros, through the writer as one object. */
  method BlobSealJob(hash: Hash, objects: Objects, records: seq<FileRecord>) returns (job: SealJob, after: Objects)
    requires Addressed(hash, objects) && Readable(objects, records) && TellsApart(hash, objects, Content(objects, records))
    ensures Extends(objects, after) && Addressed(hash, after)
    ensures JobKeepsBytes(objects, after, records, job) && job.planner.BlobV1? && job.contract.Unstamped?
    ensures |job.records| == 1 && job.records[0].Data? && job.records[0].length == Total(records)
    ensures job.updateRecords && job.newDigests == [job.records[0].digest] && job.records[0].digest == hash(Content(objects, records))
  {
    hide TellsApart, Addressed, Extends, Readable, Content, Total;
    ghost var bytes := Content(objects, records);
    var end := TotalLength(records);
    var streamed: Bytes, position := [], 0;
    while position < end
      invariant position <= end && streamed == bytes[..position]
    {
      var take := Min(end - position, VERIFY_BUFFER_SIZE);
      var block := new byte[take](_ => 0);
      var outcome := ReadExactAt(objects, records, position, block);
      streamed := streamed + block[..];
      position := position + take;
      assert bytes[..position] == bytes[..position - take] + bytes[position - take..position];
    }
    WholeAgrees(hash, objects, bytes);
    assert streamed == bytes;
    var digest;
    digest, after := PutBytes(hash, objects, streamed);
    job := SealJob(BlobV1, Unstamped, [Data(digest, |streamed|)], true, [digest]);
    OneRecord(after, job.records[0]);
    assert bytes[..end] == bytes && after[digest][..|streamed|] == bytes;
  }

  lemma WholeAgrees(hash: Hash, objects: Objects, bytes: Bytes)
    requires TellsApart(hash, objects, bytes)
    ensures Agrees(hash, objects, bytes)
  {
    WholeIsPart(bytes);
  }

  ghost predicate Sparse(records: seq<FileRecord>) { exists i :: 0 <= i < |records| && records[i].Hole? }

  /** The committed form is the sealed one: nothing to cut, a sparse tensor file, a whole object
      planned and stored as an unstamped blob, or a tensor file already along its plan. */
  ghost predicate SealedAlready(planner: Planner, contract: Stamp, records: seq<FileRecord>, planned: Planned) {
    || records == []
    || (Sparse(records) && !planner.BlobV1?)
    || (!Sparse(records) && planned.planner.BlobV1? && |records| == 1 && planner.BlobV1? && contract.Unstamped?)
    || (!Sparse(records) && !planned.planner.BlobV1? && MatchesBoundaries(records, planned.regions)
        && planner == planned.planner && contract == planned.contract)
  }

  /** The job is the plan's: one unstamped whole object for a sparse file or a blob, and otherwise
      the plan's planner and stamp over records cut exactly along its regions. */
  ghost predicate JobFollows(records: seq<FileRecord>, planned: Planned, job: SealJob) {
    && (if Sparse(records) || planned.planner.BlobV1?
        then job.planner.BlobV1? && job.contract.Unstamped? && |job.records| == 1 && job.records[0].length == Total(records)
        else job.planner == planned.planner && job.contract == planned.contract && MatchesBoundaries(job.records, planned.regions))
    && !Sparse(job.records)
    && (job.updateRecords <==> job.records != records)
  }

  /** Sealing again finds the sealed form, with one exception: a sparse file first becomes a blob,
      and if its bytes plan as a tensor file the next seal cuts it. */
  lemma SecondSeal(records: seq<FileRecord>, planned: Planned, job: SealJob)
    requires records != [] && PositiveLengths(records) && JobFollows(records, planned, job) && Tile(planned.regions, 0, Total(records))
    ensures SealedAlready(job.planner, job.contract, job.records, planned) <==> !(Sparse(records) && !planned.planner.BlobV1?)
  {
    hide Total;
    if !Sparse(records) && !planned.planner.BlobV1? {
      TotalEnds(records);
    }
  }

  lemma WholeFollows(records: seq<FileRecord>, planned: Planned, job: SealJob)
    requires records != [] && (Sparse(records) || (planned.planner.BlobV1? && |records| != 1))
    requires job.planner.BlobV1? && job.contract.Unstamped? && job.updateRecords
    requires |job.records| == 1 && job.records[0].Data? && job.records[0].length == Total(records)
    ensures JobFollows(records, planned, job)
  {
    hide Total;
  }

  lemma {:induction false} CutMatches(cut: seq<FileRecord>, regions: seq<Region>, lo: nat, hi: nat, i: nat)
    requires |cut| == |regions| && Tile(regions, lo, hi) && i < |regions|
    requires forall k | 0 <= k < |cut| :: cut[k].length == regions[k].length
    ensures regions[i] == Region(lo + Total(cut[..i]), cut[i].length)
  {
    if i == 0 {
      assert cut[..0] == [];
    } else {
      CutMatches(cut[1..], regions[1..], lo + regions[0].length, hi, i - 1);
      assert cut[..i][0] == cut[0] && cut[..i][1..] == cut[1..][..i - 1];
    }
  }

  lemma CutFollows(records: seq<FileRecord>, planned: Planned, job: SealJob)
    requires !Sparse(records) && !planned.planner.BlobV1? && Tile(planned.regions, 0, Total(records))
    requires job.planner == planned.planner && job.contract == planned.contract && job.updateRecords
    requires |job.records| == |planned.regions| && !MatchesBoundaries(records, planned.regions)
    requires forall k | 0 <= k < |job.records| :: job.records[k].Data? && job.records[k].length == planned.regions[k].length
    ensures JobFollows(records, planned, job)
  {
    hide Total, Tile;
    forall i | 0 <= i < |job.records| ensures planned.regions[i] == Region(Total(job.records[..i]), job.records[i].length) {
      CutMatches(job.records, planned.regions, 0, Total(records), i);
    }
  }

  /** One file's seal-time work, or None when its committed form is canonical. */
  method PlanSealJob(hash: Hash, objects: Objects, storedPlanner: Planner, storedContract: Stamp,
                     records: seq<FileRecord>, planned: Planned)
      returns (job: Option<SealJob>, after: Objects)
    requires Addressed(hash, objects) && Readable(objects, records) && PositiveLengths(records)
    requires TellsApart(hash, objects, Content(objects, records)) && Tile(planned.regions, 0, Total(records))
    ensures Extends(objects, after) && Addressed(hash, after)
    ensures job.None? <==> SealedAlready(storedPlanner, storedContract, records, planned)
    ensures job.Some? ==> JobFollows(records, planned, job.value)
    ensures job.None? ==> after == objects && Sealable(storedPlanner, records)
    ensures job.Some? ==> JobKeepsBytes(objects, after, records, job.value)
    ensures job.Some? && !job.value.planner.BlobV1? && job.value.updateRecords ==>
      && |job.value.records| == |planned.regions| && KeepsCommitted(records, planned.regions, job.value.records)
      && FreshCut(hash, Content(objects, records), records, planned.regions, job.value.records, job.value.newDigests)
  {
    hide TellsApart, Addressed, Extends, Readable, Content, Total, Tile, FreshCut;
    after := objects;
    ExtendsSelf(objects);
    if records == [] {
      return None, after;
    }
    var hasHoles := exists i :: 0 <= i < |records| && records[i].Hole?;
    if hasHoles && !storedPlanner.BlobV1? {
      return None, after;
    }
    if hasHoles {
      var blob;
      blob, after := BlobSealJob(hash, objects, records);
      WholeFollows(records, planned, blob);
      return Some(blob), after;
    }
    if planned.planner.BlobV1? {
      if |records| == 1 && records[0].Data? {
        if storedPlanner.BlobV1? && storedContract.Unstamped? {
          return None, after;
        }
        OneTotal(records);
        return Some(SealJob(BlobV1, Unstamped, records, false, [])), after;
      }
      var blob;
      blob, after := BlobSealJob(hash, objects, records);
      WholeFollows(records, planned, blob);
      return Some(blob), after;
    }
    var same := BoundariesMatch(records, planned.regions);
    if same {
      if planned.planner == storedPlanner && planned.contract == storedContract {
        return None, after;
      }
      return Some(SealJob(planned.planner, planned.contract, records, false, [])), after;
    }
    var cut, added;
    cut, added, after := Recut(hash, objects, records, planned.regions);
    job := Some(SealJob(planned.planner, planned.contract, cut, true, added));
    CutFollows(records, planned, job.value);
  }

  ghost predicate MatchesBoundaries(records: seq<FileRecord>, regions: seq<Region>) {
    && |records| == |regions|
    && forall i | 0 <= i < |records| :: regions[i] == Region(Total(records[..i]), records[i].length)
  }

  method BoundariesMatch(records: seq<FileRecord>, regions: seq<Region>) returns (same: bool)
    ensures same <==> MatchesBoundaries(records, regions)
  {
    hide Total;
    if |records| != |regions| {
      return false;
    }
    TotalEnds(records);
    var position := 0;
    for i := 0 to |records|
      invariant position == Total(records[..i])
      invariant forall k | 0 <= k < i :: regions[k] == Region(Total(records[..k]), records[k].length)
    {
      TotalStep(records, i);
      if regions[i] != Region(position, records[i].length) {
        return false;
      }
      position := position + records[i].length;
    }
    return true;
  }

  // --- adopting and inheriting --------------------------------------------------------------

  /** A tensor container's body: format, stamp and records. */
  datatype TensorBody = TensorBody(format: Planner, contract: Stamp, logicalSize: nat, records: seq<FileRecord>)

  /** Re-chunks one committed container under a contract; its bytes stay. */
  method Adopt(hash: Hash, objects: Objects, body: TensorBody, planned: Planned)
      returns (r: Option<TensorBody>, after: Objects)
    requires Addressed(hash, objects) && Readable(objects, body.records) && PositiveLengths(body.records)
    requires TellsApart(hash, objects, Content(objects, body.records)) && Tile(planned.regions, 0, Total(body.records))
    ensures Extends(objects, after) && Addressed(hash, after)
    ensures r.Some? <==> planned.planner == body.format
    ensures r.Some? ==>
      && r.value.format == body.format && r.value.contract == planned.contract
      && Readable(after, r.value.records) && Content(after, r.value.records) == Content(objects, body.records)
      && r.value.logicalSize == Total(body.records)
      && MatchesBoundaries(r.value.records, planned.regions) && KeepsCommitted(body.records, planned.regions, r.value.records)
  {
    hide TellsApart, Addressed, Extends, Tile, FreshCut;
    after := objects;
    ExtendsSelf(objects);
    if planned.planner != body.format {
      return None, after;
    }
    var cut, added;
    cut, added, after := Recut(hash, objects, body.records, planned.regions);
    var size := TotalLength(cut);
    forall i | 0 <= i < |cut| ensures planned.regions[i] == Region(Total(cut[..i]), cut[i].length) {
      CutMatches(cut, planned.regions, 0, Total(body.records), i);
    }
    return Some(TensorBody(body.format, planned.contract, size, cut)), after;
  }

  /** [start, start + length) begins and ends on record boundaries. */
  ghost predicate Aligned(records: seq<FileRecord>, start: nat, length: nat) {
    exists i, j :: 0 <= i <= j <= |records| && Total(records[..i]) == start && Total(records[..j]) == start + length
  }

  /** The record run covering exactly a range, carried by reference.  It is found
      exactly when the range is aligned, except that an empty range at or past the
      end of the file is answered with the empty run. */
  method Inherit(objects: Objects, records: seq<FileRecord>, start: nat, length: nat) returns (r: Option<seq<FileRecord>>)
    requires PositiveLengths(records)
    ensures r.Some? <==> Aligned(records, start, length) || (length == 0 && start >= Total(records))
    ensures r.Some? ==> Total(r.value) == length && Digests(r.value) <= Digests(records)
    ensures r.Some? && Readable(objects, records) && length > 0 ==>
      && start + length <= Total(records) && Readable(objects, r.value)
      && Content(objects, r.value) == Content(objects, records)[start..start + length]
  {
    hide Total, Content, Readable, Digests;
    var taken: seq<FileRecord>, position, end := [], 0, start + length;
    ghost var first := 0;
    TotalEnds(records);
    var i := 0;
    while i < |records|
      invariant 0 <= first <= i <= |records| && taken == records[first..i]
      invariant position == Total(records[..i])
      invariant first < i ==> Total(records[..first]) == start && start < position <= end
      invariant first == i ==> position <= start
    {
      TotalStep(records, i);
      var recordEnd := position + records[i].length;
      if recordEnd <= start {
        Skipped(records, i);
        position := recordEnd;
        i := i + 1;
        first := i;
        continue;
      }
      if position >= end {
        break;
      }
      if position < start || recordEnd > end {
        Misaligned(records, start, length, i);
        return None;
      }
      assert records[first..i + 1] == records[first..i] + [records[i]];
      taken := taken + [records[i]];
      position := recordEnd;
      i := i + 1;
    }
    RunLength(records, first, i);
    var sum := TotalLength(taken);
    Settled(records, start, length, first, i);
    if sum != length {
      return None;
    }
    SubRun(records, first, i);
    if Readable(objects, records) && length > 0 {
      ContentRange(objects, records, first, i);
    }
    return Some(taken);
  }

  lemma Skipped(records: seq<FileRecord>, i: nat)
    requires i < |records|
    ensures records[i + 1..i + 1] == []
  {
  }

  lemma RunLength(records: seq<FileRecord>, i: nat, j: nat)
    requires i <= j <= |records|
    ensures Total(records[i..j]) == Total(records[..j]) - Total(records[..i])
  {
    assert records[..j] == records[..i] + records[i..j];
    TotalAppend(records[..i], records[i..j]);
  }

  lemma SubRun(records: seq<FileRecord>, i: nat, j: nat)
    requires i <= j <= |records|
    ensures Digests(records[i..j]) <= Digests(records)
  {
    forall d | d in Digests(records[i..j]) ensures d in Digests(records) {
      var k :| 0 <= k < |records[i..j]| && records[i..j][k].Data? && records[i..j][k].digest == d;
      assert records[i + k].digest == d;
    }
  }

  /** A record that straddles either end has no boundary there. */
  lemma Misaligned(records: seq<FileRecord>, start: nat, length: nat, k: nat)
    requires k < |records|
    requires Total(records[..k]) < start < Total(records[..k]) + records[k].length
          || Total(records[..k]) < start + length < Total(records[..k]) + records[k].length
    ensures !Aligned(records, start, length) && start < Total(records)
  {
    TotalStep(records, k);
    TotalMonotone(records, k + 1, |records|);
    forall i | 0 <= i <= |records| ensures Total(records[..i]) <= Total(records[..k]) || Total(records[..i]) >= Total(records[..k + 1]) {
      if i <= k {
        TotalMonotone(records, i, k);
      } else {
        TotalMonotone(records, k + 1, i);
      }
    }
  }

  /** Where the scan stops, the range is covered exactly or cannot be. */
  lemma Settled(records: seq<FileRecord>, start: nat, length: nat, first: nat, i: nat)
    requires PositiveLengths(records) && first <= i <= |records|
    requires first < i ==> Total(records[..first]) == start && start < Total(records[..i]) <= start + length
    requires first == i ==> Total(records[..i]) <= start
    requires i < |records| ==> Total(records[..i]) >= start + length
    ensures Total(records[..i]) - Total(records[..first]) == length <==>
      Aligned(records, start, length) || (length == 0 && start >= Total(records))
  {
    TotalEnds(records);
    forall j | 0 <= j <= |records| ensures Total(records[..j]) <= Total(records) {
      TotalMonotone(records, j, |records|);
    }
    if Total(records[..i]) - Total(records[..first]) == length {
      if first < i || i < |records| {
        assert Total(records[..first]) == start && Total(records[..i]) == start + length;
      }
    }
  }
}
