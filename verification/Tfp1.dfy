/** TFP1, the transfer pack: whole objects behind a digest-sorted index. */
module Tfp1 {
  import opened Wrappers
  import opened Wire
  import opened Records
  import opened Rechunk
  import opened Tfm1
  import opened Tfm1Proof

  datatype PackObject = PackObject(digest: Digest, bytes: Bytes)

  datatype Row = Row(digest: Digest, offset: nat, length: nat)

  const PACK_MAGIC: Bytes := [0x54, 0x46, 0x50, 0x31]
  const MAX_PACK_OBJECTS := 1_000_000
  const MAX_PACK_PAYLOAD := MAX_OBJECT_SIZE
  const ROW_BYTES := 48

  // --- packs and their bytes ---------------------------------------------------------------------

  function PayloadSize(objects: seq<PackObject>): nat {
    if objects == [] then 0 else |objects[0].bytes| + PayloadSize(objects[1..])
  }

  function Payload(objects: seq<PackObject>): (b: Bytes)
    ensures |b| == PayloadSize(objects)
  {
    if objects == [] then [] else objects[0].bytes + Payload(objects[1..])
  }

  /** From offset `start` on: each object sized within bounds, digests increasing past `last`,
      the payload within its bound. */
  predicate ObjectsOk(objects: seq<PackObject>, start: nat, last: Option<Digest>)
    decreases |objects|
  {
    objects == [] ||
    var o := objects[0];
    && 0 < |o.bytes| <= MAX_OBJECT_SIZE && start + |o.bytes| <= MAX_PACK_PAYLOAD
    && (last.Some? ==> Before(last.value, o.digest))
    && ObjectsOk(objects[1..], start + |o.bytes|, Some(o.digest))
  }

  predicate PackOk(objects: seq<PackObject>) { 0 < |objects| <= MAX_PACK_OBJECTS && ObjectsOk(objects, 0, None) }

  ghost predicate Verified(hash: Hash, objects: seq<PackObject>) {
    forall i | 0 <= i < |objects| :: hash(objects[i].bytes) == objects[i].digest
  }

  function EmitRow(digest: Digest, offset: nat, length: nat): Bytes { digest + Le(offset, 8) + Le(length, 8) }

  function EmitRows(objects: seq<PackObject>, start: nat): (b: Bytes)
    ensures |b| == ROW_BYTES * |objects|
    decreases |objects|
  {
    if objects == [] then [] else
      EmitRow(objects[0].digest, start, |objects[0].bytes|) + EmitRows(objects[1..], start + |objects[0].bytes|)
  }

  function EmitPack(objects: seq<PackObject>): Bytes {
    PACK_MAGIC + Le(|objects|, 8) + EmitRows(objects, 0) + Payload(objects)
  }

  // --- the strict reader -------------------------------------------------------------------------------

  function ParseRow(rest: Bytes, start: nat, last: Option<Digest>): Option<(Row, Bytes)> {
    var (digest, r) :- Take(rest, 32);
    var (offset, r) :- TakeLe(r, 8);
    var (length, r) :- TakeLe(r, 8);
    if length == 0 || length > MAX_OBJECT_SIZE || offset != start || start + length > MAX_PACK_PAYLOAD then None
    else if last.Some? && !Before(last.value, digest) then None
    else Some((Row(digest, offset, length), r))
  }

  function ParseRows(rest: Bytes, count: nat, start: nat, last: Option<Digest>): Option<(seq<Row>, Bytes)>
    decreases count
  {
    if count == 0 then Some(([], rest))
    else
      var (row, r) :- ParseRow(rest, start, last);
      var (rows, r) :- ParseRows(r, count - 1, start + row.length, Some(row.digest));
      Some(([row] + rows, r))
  }

  function RowsSize(rows: seq<Row>): nat { if rows == [] then 0 else rows[0].length + RowsSize(rows[1..]) }

  /** Each row's slice of the payload. */
  function Slices(rows: seq<Row>, payload: Bytes): (objects: seq<PackObject>)
    requires RowsSize(rows) == |payload|
    ensures |objects| == |rows|
  {
    if rows == [] then []
    else [PackObject(rows[0].digest, payload[..rows[0].length])] + Slices(rows[1..], payload[rows[0].length..])
  }

  function ParsePack(bytes: Bytes): Option<seq<PackObject>> {
    var (magic, r) :- Take(bytes, 4);
    if magic != PACK_MAGIC then None
    else
      var (count, r) :- TakeLe(r, 8);
      if count == 0 || count > MAX_PACK_OBJECTS || count > |r| / ROW_BYTES then None
      else
        var (rows, r) :- ParseRows(r, count, 0, None);
        if |r| != RowsSize(rows) then None else Some(Slices(rows, r))
  }

  // --- packs round-trip -----------------------------------------------------------------------------------

  function RowsOf(objects: seq<PackObject>, start: nat): (rows: seq<Row>)
    ensures |rows| == |objects|
    decreases |objects|
  {
    if objects == [] then []
    else [Row(objects[0].digest, start, |objects[0].bytes|)] + RowsOf(objects[1..], start + |objects[0].bytes|)
  }

  lemma RowIs(o: PackObject, start: nat, last: Option<Digest>, tail: Bytes)
    requires 0 < |o.bytes| <= MAX_OBJECT_SIZE && start + |o.bytes| <= MAX_PACK_PAYLOAD
    requires last.Some? ==> Before(last.value, o.digest)
    ensures ParseRow(EmitRow(o.digest, start, |o.bytes|) + tail, start, last) == Some((Row(o.digest, start, |o.bytes|), tail))
  {
    hide Take, TakeLe, Le, Before;
    Widths();
    var offset, length := Le(start, 8), Le(|o.bytes|, 8);
    assert EmitRow(o.digest, start, |o.bytes|) + tail == o.digest + (offset + (length + tail));
    TakeIs(o.digest + (offset + (length + tail)), o.digest, offset + (length + tail));
    TakeLeIs(offset + (length + tail), start, 8, length + tail);
    TakeLeIs(length + tail, |o.bytes|, 8, tail);
  }

  lemma RowSound(rest: Bytes, start: nat, last: Option<Digest>)
    requires ParseRow(rest, start, last).Some?
    ensures var (row, tail) := ParseRow(rest, start, last).value;
      && 0 < row.length <= MAX_OBJECT_SIZE && start + row.length <= MAX_PACK_PAYLOAD && row.offset == start
      && (last.Some? ==> Before(last.value, row.digest))
      && rest == EmitRow(row.digest, start, row.length) + tail
  {
    hide Take, TakeLe, Le, Before;
    TakeSound(rest, 32);
    var (digest, r) := Take(rest, 32).value;
    TakeLeSound(r, 8);
    var (offset, r1) := TakeLe(r, 8).value;
    TakeLeSound(r1, 8);
  }

  lemma {:induction false} RowsIs(objects: seq<PackObject>, start: nat, last: Option<Digest>, tail: Bytes)
    requires ObjectsOk(objects, start, last)
    ensures ParseRows(EmitRows(objects, start) + tail, |objects|, start, last) == Some((RowsOf(objects, start), tail))
    decreases |objects|
  {
    hide ParseRow, EmitRow, Before;
    if objects == [] {
      assert EmitRows(objects, start) + tail == tail;
    } else {
      var o, more := objects[0], objects[1..];
      var next := start + |o.bytes|;
      RowsIs(more, next, Some(o.digest), tail);
      Assoc(EmitRow(o.digest, start, |o.bytes|), EmitRows(more, next), tail);
      RowIs(o, start, last, EmitRows(more, next) + tail);
    }
  }

  /** Rows that parse, with any payload of their total size, are a pack's rows. */
  lemma {:induction false} RowsSound(rest: Bytes, count: nat, start: nat, last: Option<Digest>, payload: Bytes)
    requires ParseRows(rest, count, start, last).Some? && RowsSize(ParseRows(rest, count, start, last).value.0) == |payload|
    ensures var (rows, tail) := ParseRows(rest, count, start, last).value;
      var objects := Slices(rows, payload);
      && |rows| == count && ObjectsOk(objects, start, last) && Payload(objects) == payload && rest == EmitRows(objects, start) + tail
    decreases count
  {
    hide ParseRow, EmitRow, Before;
    if count == 0 {
      assert rest == [] + rest;
    } else {
      RowSound(rest, start, last);
      var (row, r) := ParseRow(rest, start, last).value;
      var (rows, tail) := ParseRows(r, count - 1, start + row.length, Some(row.digest)).value;
      assert ([row] + rows)[1..] == rows;
      RowsSound(r, count - 1, start + row.length, Some(row.digest), payload[row.length..]);
      var objects := Slices([row] + rows, payload);
      assert objects[1..] == Slices(rows, payload[row.length..]);
      assert payload == payload[..row.length] + payload[row.length..];
      Assoc(EmitRow(row.digest, start, row.length), EmitRows(objects[1..], start + row.length), tail);
    }
  }

  lemma {:induction false} SlicesIs(objects: seq<PackObject>, start: nat)
    ensures RowsSize(RowsOf(objects, start)) == |Payload(objects)|
    ensures Slices(RowsOf(objects, start), Payload(objects)) == objects
    decreases |objects|
  {
    if objects != [] {
      var o, more := objects[0], objects[1..];
      SlicesIs(more, start + |o.bytes|);
      var rows := RowsOf(objects, start);
      assert rows[1..] == RowsOf(more, start + |o.bytes|);
      assert Payload(objects)[..|o.bytes|] == o.bytes && Payload(objects)[|o.bytes|..] == Payload(more);
      assert objects == [o] + more;
    }
  }

  /** The reader accepts a byte string exactly when it is a well-formed pack's bytes. */
  lemma PackRoundTrip(bytes: Bytes, objects: seq<PackObject>)
    ensures ParsePack(bytes) == Some(objects) <==> PackOk(objects) && EmitPack(objects) == bytes
  {
    hide ParsePack, PackOk, EmitPack;
    if PackOk(objects) && EmitPack(objects) == bytes {
      ParseOfEmit(objects);
    }
    if ParsePack(bytes).Some? {
      EmitOfParse(bytes);
    }
  }

  lemma ParseOfEmit(objects: seq<PackObject>)
    requires PackOk(objects)
    ensures ParsePack(EmitPack(objects)) == Some(objects)
  {
    hide Take, TakeLe, Le, ParseRows, ObjectsOk, Slices;
    Widths();
    var count, rows, payload := Le(|objects|, 8), EmitRows(objects, 0), Payload(objects);
    assert EmitPack(objects) == PACK_MAGIC + (count + (rows + payload));
    TakeIs(EmitPack(objects), PACK_MAGIC, count + (rows + payload));
    TakeLeIs(count + (rows + payload), |objects|, 8, rows + payload);
    RowsIs(objects, 0, None, payload);
    SlicesIs(objects, 0);
  }

  lemma EmitOfParse(bytes: Bytes)
    requires ParsePack(bytes).Some?
    ensures PackOk(ParsePack(bytes).value) && EmitPack(ParsePack(bytes).value) == bytes
  {
    hide Take, TakeLe, Le, ParseRows, ObjectsOk, Slices, EmitRows, Payload;
    TakeSound(bytes, 4);
    var r := Take(bytes, 4).value.1;
    TakeLeSound(r, 8);
    var (count, r1) := TakeLe(r, 8).value;
    var (rows, payload) := ParseRows(r1, count, 0, None).value;
    RowsSound(r1, count, 0, None, payload);
    var objects := Slices(rows, payload);
    assert bytes == PACK_MAGIC + (Le(count, 8) + (EmitRows(objects, 0) + payload));
  }
}
