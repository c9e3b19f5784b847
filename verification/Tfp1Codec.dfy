/** The pack writer and reader as they run. */
module Tfp1Codec {
  import opened Wrappers
  import opened Wire
  import opened Records
  import opened Rechunk
  import opened Tfm1
  import opened Tfm1Proof
  import opened Tfm1Decode
  import opened PathOrder
  import opened Tfp1

  ghost predicate Sized(o: PackObject) { 0 < |o.bytes| <= MAX_OBJECT_SIZE }

  ghost predicate DistinctDigests(objects: seq<PackObject>) {
    forall i, j | 0 <= i < j < |objects| :: objects[i].digest != objects[j].digest
  }

  /** What the writer asks of the objects it is given. */
  ghost predicate Encodable(hash: Hash, objects: seq<PackObject>) {
    && 0 < |objects| <= MAX_PACK_OBJECTS && PayloadSize(objects) <= MAX_PACK_PAYLOAD
    && (forall i | 0 <= i < |objects| :: Sized(objects[i])) && Verified(hash, objects) && DistinctDigests(objects)
  }

  predicate AtMost(a: Digest, b: Digest) { a == b || Before(a, b) }

  ghost predicate Ordered(objects: seq<PackObject>) {
    forall i, j | 0 <= i < j < |objects| :: AtMost(objects[i].digest, objects[j].digest)
  }

  // --- sizes -----------------------------------------------------------------------------------------

  lemma {:induction false} SizeAppend(a: seq<PackObject>, b: seq<PackObject>)
    ensures PayloadSize(a + b) == PayloadSize(a) + PayloadSize(b)
  {
    if a == [] {
      assert a + b == b;
    } else {
      SizeAppend(a[1..], b);
      assert (a + b)[1..] == a[1..] + b;
    }
  }

  lemma SizeStep(objects: seq<PackObject>, i: nat)
    requires i < |objects|
    ensures PayloadSize(objects[..i + 1]) == PayloadSize(objects[..i]) + |objects[i].bytes| <= PayloadSize(objects)
  {
    assert objects[..i + 1] == objects[..i] + [objects[i]] && objects == objects[..i + 1] + objects[i + 1..];
    SizeAppend(objects[..i], [objects[i]]);
    SizeAppend(objects[..i + 1], objects[i + 1..]);
    OneSize(objects[i]);
  }

  lemma OneSize(o: PackObject)
    ensures PayloadSize([o]) == |o.bytes|
  {
    assert [o][1..] == [];
  }

  // --- the writer ----------------------------------------------------------------------------------------

  /** Sorts by digest; equal digests keep both objects. */
  method SortByDigest(objects: seq<PackObject>) returns (sorted: seq<PackObject>)
    ensures multiset(sorted) == multiset(objects) && PayloadSize(sorted) == PayloadSize(objects) && Ordered(sorted)
  {
    hide PayloadSize, Ordered;
    sorted := [];
    assert objects[..0] == [];
    Unsorted();
    for i := 0 to |objects|
      invariant multiset(sorted) == multiset(objects[..i]) && PayloadSize(sorted) == PayloadSize(objects[..i]) && Ordered(sorted)
    {
      SizeStep(objects, i);
      assert objects[..i + 1] == objects[..i] + [objects[i]];
      sorted := InsertByDigest(sorted, objects[i]);
    }
    assert objects[..|objects|] == objects;
  }

  lemma Unsorted()
    ensures Ordered([])
  {
  }

  method InsertByDigest(sorted: seq<PackObject>, o: PackObject) returns (r: seq<PackObject>)
    requires Ordered(sorted)
    ensures multiset(r) == multiset(sorted) + multiset{o} && PayloadSize(r) == PayloadSize(sorted) + |o.bytes| && Ordered(r)
  {
    hide PayloadSize, Before;
    var j: nat := |sorted|;
    while j > 0 && Before(o.digest, sorted[j - 1].digest)
      invariant j <= |sorted| && forall k | j <= k < |sorted| :: AtMost(o.digest, sorted[k].digest)
    {
      j := j - 1;
    }
    r := sorted[..j] + [o] + sorted[j..];
    assert sorted == sorted[..j] + sorted[j..];
    SizeAppend(sorted[..j], sorted[j..]);
    SizeAppend(sorted[..j], [o]);
    SizeAppend(sorted[..j] + [o], sorted[j..]);
    OneSize(o);
    InsertOrdered(sorted, o, j);
  }

  lemma InsertOrdered(sorted: seq<PackObject>, o: PackObject, j: nat)
    requires Ordered(sorted) && j <= |sorted| && (forall k | j <= k < |sorted| :: AtMost(o.digest, sorted[k].digest))
    requires j > 0 ==> !Before(o.digest, sorted[j - 1].digest)
    ensures Ordered(sorted[..j] + [o] + sorted[j..])
  {
    hide Before;
    var r := sorted[..j] + [o] + sorted[j..];
    if j > 0 {
      Trichotomy(o.digest, sorted[j - 1].digest);
      forall k | 0 <= k < j ensures AtMost(sorted[k].digest, o.digest) {
        if k < j - 1 {
          AtMostTransitive(sorted[k].digest, sorted[j - 1].digest, o.digest);
        }
      }
    }
    forall a, b | 0 <= a < b < |r| ensures AtMost(r[a].digest, r[b].digest) {
      if a < j && b > j { assert AtMost(sorted[a].digest, sorted[b - 1].digest); }
      if a > j { assert AtMost(sorted[a - 1].digest, sorted[b - 1].digest); }
    }
  }

  lemma AtMostTransitive(a: Digest, b: Digest, c: Digest)
    requires AtMost(a, b) && AtMost(b, c)
    ensures AtMost(a, c)
  {
    if Before(a, b) && Before(b, c) {
      Transitive(a, b, c);
    }
  }

  /** Each digest is above the one before it in byte order. */
  ghost predicate Ascending(objects: seq<PackObject>) {
    forall i, j | 0 <= i < j < |objects| :: Ascends(objects[i].digest, objects[j].digest)
  }

  method Encode(hash: Hash, objects: seq<PackObject>) returns (r: Option<Bytes>)
    ensures r.Some? <==> Encodable(hash, objects)
    ensures r.Some? ==> exists sorted ::
      && multiset(sorted) == multiset(objects) && PackOk(sorted) && Verified(hash, sorted) && ParsePack(r.value) == Some(sorted)
      && Ascending(sorted)
  {
    hide PayloadSize, Ordered, PackOk, ParsePack, EmitPack, Ascends;
    if objects == [] || |objects| > MAX_PACK_OBJECTS {
      return None;
    }
    var total := 0;
    assert objects[..0] == [];
    NoPayload();
    for i := 0 to |objects|
      invariant total == PayloadSize(objects[..i]) <= MAX_PACK_PAYLOAD
      invariant forall k | 0 <= k < i :: Sized(objects[k]) && hash(objects[k].bytes) == objects[k].digest
    {
      SizeStep(objects, i);
      if objects[i].bytes == [] || |objects[i].bytes| > MAX_OBJECT_SIZE {
        assert !Sized(objects[i]);
        return None;
      }
      total := total + |objects[i].bytes|;
      if total > MAX_PACK_PAYLOAD {
        return None;
      }
      if hash(objects[i].bytes) != objects[i].digest {
        return None;
      }
    }
    assert objects[..|objects|] == objects;
    var sorted := SortByDigest(objects);
    SameElements(objects, sorted);
    for i := 1 to |sorted|
      invariant forall k | 0 < k < i :: sorted[k - 1].digest != sorted[k].digest
    {
      if sorted[i - 1].digest == sorted[i].digest {
        RepeatedDigest(objects, sorted, i);
        return None;
      }
    }
    StrictlyOrdered(objects, sorted);
    SortedIsPack(hash, objects, sorted);
    forall i, j | 0 <= i < j < |sorted| ensures Ascends(sorted[i].digest, sorted[j].digest) { BeforeIs(sorted[i].digest, sorted[j].digest); }
    var bytes := WritePack(sorted);
    PackRoundTrip(bytes, sorted);
    return Some(bytes);
  }

  lemma NoPayload()
    ensures PayloadSize([]) == 0
  {
  }

  lemma SameElements(objects: seq<PackObject>, sorted: seq<PackObject>)
    requires multiset(sorted) == multiset(objects)
    ensures |sorted| == |objects| && (forall i | 0 <= i < |sorted| :: sorted[i] in objects) && (forall o | o in objects :: o in sorted)
  {
    assert |multiset(sorted)| == |sorted| && |multiset(objects)| == |objects|;
    forall i | 0 <= i < |sorted| ensures sorted[i] in objects { assert sorted[i] in multiset(objects); }
    forall o | o in objects ensures o in sorted { assert o in multiset(sorted); }
  }

  lemma {:induction false} MultisetTwice(s: seq<PackObject>, i: nat, j: nat)
    requires i < j < |s| && s[i] == s[j]
    ensures multiset(s)[s[i]] >= 2
  {
    assert s == s[..j] + s[j..] && s[j] in multiset(s[j..]) && s[..j][i] in multiset(s[..j]);
  }

  lemma {:induction false} CountAtMostOne(s: seq<PackObject>, o: PackObject)
    requires DistinctDigests(s)
    ensures multiset(s)[o] <= 1
  {
    if s != [] {
      var init, last := s[..|s| - 1], s[|s| - 1];
      assert s == init + [last];
      CountAtMostOne(init, o);
      assert forall k | 0 <= k < |init| :: init[k].digest != last.digest;
      assert last !in init;
    }
  }

  /** Equal neighbours in the sorted order are a duplicate among the objects given. */
  lemma RepeatedDigest(objects: seq<PackObject>, sorted: seq<PackObject>, i: nat)
    requires multiset(sorted) == multiset(objects) && 0 < i < |sorted| && sorted[i - 1].digest == sorted[i].digest
    ensures !DistinctDigests(objects)
  {
    SameElements(objects, sorted);
    if DistinctDigests(objects) {
      var j :| 0 <= j < |objects| && objects[j] == sorted[i - 1];
      var k :| 0 <= k < |objects| && objects[k] == sorted[i];
      assert !(j < k) && !(k < j);
      CountAtMostOne(objects, sorted[i]);
      MultisetTwice(sorted, i - 1, i);
    }
  }

  lemma StrictlyOrdered(objects: seq<PackObject>, sorted: seq<PackObject>)
    requires multiset(sorted) == multiset(objects) && Ordered(sorted)
    requires forall k | 0 < k < |sorted| :: sorted[k - 1].digest != sorted[k].digest
    ensures forall i, j | 0 <= i < j < |sorted| :: Before(sorted[i].digest, sorted[j].digest)
    ensures DistinctDigests(objects)
  {
    hide Before;
    forall i, j | 0 <= i < j < |sorted| ensures Before(sorted[i].digest, sorted[j].digest) { StrictPair(sorted, i, j); }
    forall i, j | 0 <= i < j < |sorted| ensures sorted[i].digest != sorted[j].digest { Asymmetric(sorted[i].digest, sorted[j].digest); }
    SameElements(objects, sorted);
    forall i, j | 0 <= i < j < |objects| ensures objects[i].digest != objects[j].digest {
      if objects[i].digest == objects[j].digest {
        assert objects[i] in objects && objects[j] in objects;
        var a :| 0 <= a < |sorted| && sorted[a] == objects[i];
        var b :| 0 <= b < |sorted| && sorted[b] == objects[j];
        assert !(a < b) && !(b < a);
        MultisetTwice(objects, i, j);
        CountAtMostOne(sorted, objects[i]);
      }
    }
  }

  lemma StrictPair(sorted: seq<PackObject>, i: nat, j: nat)
    requires Ordered(sorted) && i < j < |sorted| && forall k | 0 < k < |sorted| :: sorted[k - 1].digest != sorted[k].digest
    ensures Before(sorted[i].digest, sorted[j].digest)
  {
    hide Before;
    assert AtMost(sorted[i].digest, sorted[j].digest);
    assert AtMost(sorted[j - 1].digest, sorted[j].digest) && sorted[j - 1].digest != sorted[j].digest;
    Asymmetric(sorted[j - 1].digest, sorted[j].digest);
    assert i < j - 1 ==> AtMost(sorted[i].digest, sorted[j - 1].digest);
  }

  lemma {:induction false} IntoObjectsOk(objects: seq<PackObject>, k: nat)
    requires k <= |objects| && PayloadSize(objects) <= MAX_PACK_PAYLOAD && (forall i | 0 <= i < |objects| :: Sized(objects[i]))
    requires forall i, j | 0 <= i < j < |objects| :: Before(objects[i].digest, objects[j].digest)
    ensures ObjectsOk(objects[k..], PayloadSize(objects[..k]), if k == 0 then None else Some(objects[k - 1].digest))
    decreases |objects| - k
  {
    hide Before, PayloadSize;
    if k < |objects| {
      IntoObjectsOk(objects, k + 1);
      SizeStep(objects, k);
      assert objects[k..][1..] == objects[k + 1..] && Sized(objects[k]);
    }
  }

  lemma SortedIsPack(hash: Hash, objects: seq<PackObject>, sorted: seq<PackObject>)
    requires multiset(sorted) == multiset(objects) && PayloadSize(sorted) == PayloadSize(objects) <= MAX_PACK_PAYLOAD
    requires 0 < |objects| <= MAX_PACK_OBJECTS && (forall i | 0 <= i < |objects| :: Sized(objects[i])) && Verified(hash, objects)
    requires forall i, j | 0 <= i < j < |sorted| :: Before(sorted[i].digest, sorted[j].digest)
    ensures PackOk(sorted) && Verified(hash, sorted)
  {
    hide ObjectsOk, Before, PayloadSize;
    SameElements(objects, sorted);
    forall i | 0 <= i < |sorted| ensures Sized(sorted[i]) && hash(sorted[i].bytes) == sorted[i].digest {
      var j :| 0 <= j < |objects| && objects[j] == sorted[i];
    }
    IntoObjectsOk(sorted, 0);
    NoPayload();
    assert sorted[0..] == sorted && sorted[..0] == [];
  }

  /** The index with a running offset, then the payloads. */
  method WritePack(sorted: seq<PackObject>) returns (bytes: Bytes)
    ensures bytes == EmitPack(sorted)
  {
    hide EmitRow, Le, PayloadSize;
    bytes := PACK_MAGIC + Le(|sorted|, 8);
    ghost var head := bytes;
    var offset: nat := 0;
    for i := 0 to |sorted|
      invariant head + EmitRows(sorted, 0) == bytes + EmitRows(sorted[i..], offset)
    {
      assert sorted[i..][1..] == sorted[i + 1..];
      Assoc(bytes, EmitRow(sorted[i].digest, offset, |sorted[i].bytes|), EmitRows(sorted[i + 1..], offset + |sorted[i].bytes|));
      bytes := bytes + EmitRow(sorted[i].digest, offset, |sorted[i].bytes|);
      offset := offset + |sorted[i].bytes|;
    }
    assert bytes == head + EmitRows(sorted, 0);
    ghost var indexed := bytes;
    for i := 0 to |sorted|
      invariant indexed + Payload(sorted) == bytes + Payload(sorted[i..])
    {
      assert sorted[i..][1..] == sorted[i + 1..];
      Assoc(bytes, sorted[i].bytes, Payload(sorted[i + 1..]));
      bytes := bytes + sorted[i].bytes;
    }
  }

  // --- the reader ------------------------------------------------------------------------------------------

  method ReadRow(reader: Reader, start: nat, last: Option<Digest>) returns (r: Option<Row>)
    requires reader.Valid()
    modifies reader
    ensures reader.Valid() && Read(ParseRow(old(reader.Rest()), start, last), r, reader.Rest())
  {
    hide Take, TakeLe, Before;
    var digest := reader.TakeBytes(32);
    if digest.None? {
      return None;
    }
    var offset := reader.TakeInt(8);
    if offset.None? {
      return None;
    }
    var length := reader.TakeInt(8);
    if length.None? {
      return None;
    }
    if length.value == 0 || length.value > MAX_OBJECT_SIZE || offset.value != start || start + length.value > MAX_PACK_PAYLOAD {
      return None;
    }
    var d: Digest := digest.value;
    if last.Some? && !Before(last.value, d) {
      return None;
    }
    return Some(Row(d, offset.value, length.value));
  }

  method ReadRows(reader: Reader, count: nat) returns (r: Option<seq<Row>>, total: nat)
    requires reader.Valid()
    modifies reader
    ensures reader.Valid() && Read(ParseRows(old(reader.Rest()), count, 0, None), r, reader.Rest())
    ensures r.Some? ==> total == RowsSize(r.value)
  {
    hide ParseRow;
    var rows: seq<Row>, last: Option<Digest> := [], None;
    total := 0;
    ghost var start := reader.Rest();
    PrependNothing(ParseRows(start, count, 0, None));
    for k := 0 to count
      invariant reader.Valid() && total == RowsSize(rows)
      invariant ParseRows(start, count, 0, None) == Prepend(rows, ParseRows(reader.Rest(), count - k, total, last))
    {
      var row := ReadRow(reader, total, last);
      if row.None? {
        return None, total;
      }
      PrependOne(rows, row.value, ParseRows(reader.Rest(), count - k - 1, total + row.value.length, Some(row.value.digest)));
      RowsSizeAppend(rows, row.value);
      rows, total, last := rows + [row.value], total + row.value.length, Some(row.value.digest);
    }
    assert rows + [] == rows;
    return Some(rows), total;
  }

  lemma {:induction false} RowsSizeAppend(rows: seq<Row>, row: Row)
    ensures RowsSize(rows + [row]) == RowsSize(rows) + row.length
  {
    if rows == [] {
      assert (rows + [row])[1..] == [];
    } else {
      RowsSizeAppend(rows[1..], row);
      assert (rows + [row])[1..] == rows[1..] + [row];
    }
  }

  /** Validates the structure without hashing a payload byte. */
  method ReadPack(bytes: Bytes) returns (r: Option<seq<PackObject>>)
    ensures r == ParsePack(bytes)
  {
    hide Take, TakeLe, ParseRows, Slices;
    var reader := new Reader(bytes);
    var magic := reader.TakeBytes(4);
    if magic.None? || magic.value != PACK_MAGIC {
      return None;
    }
    var count := reader.TakeInt(8);
    if count.None? || count.value == 0 || count.value > MAX_PACK_OBJECTS || count.value > reader.Remaining() / ROW_BYTES {
      return None;
    }
    var rows, total := ReadRows(reader, count.value);
    if rows.None? || reader.Remaining() != total {
      return None;
    }
    return Some(Slices(rows.value, reader.Rest()));
  }

  /** Strictly decodes and verifies one pack: Some exactly on a verified pack's bytes. */
  method DecodePack(hash: Hash, bytes: Bytes) returns (r: Option<seq<PackObject>>)
    ensures forall objects :: r == Some(objects) <==> PackOk(objects) && Verified(hash, objects) && EmitPack(objects) == bytes
  {
    hide ParsePack, PackOk, EmitPack;
    forall objects ensures ParsePack(bytes) == Some(objects) <==> PackOk(objects) && EmitPack(objects) == bytes {
      PackRoundTrip(bytes, objects);
    }
    var pack := ReadPack(bytes);
    if pack.None? {
      return None;
    }
    for i := 0 to |pack.value|
      invariant forall k | 0 <= k < i :: hash(pack.value[k].bytes) == pack.value[k].digest
    {
      if hash(pack.value[i].bytes) != pack.value[i].digest {
        return None;
      }
    }
    return pack;
  }
}
