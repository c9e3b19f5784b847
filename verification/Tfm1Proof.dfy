/** TFM1 is canonical: the reader returns exactly what was written, and accepts nothing else. */
module Tfm1Proof {
  import opened Wrappers
  import opened Wire
  import opened Records
  import opened Paths
  import opened Tfm1

  lemma Assoc(a: Bytes, b: Bytes, c: Bytes)
    ensures a + b + c == a + (b + c)
  {
  }

  lemma TagIs(tag: byte, tail: Bytes)
    ensures TakeLe([tag] + tail, 1) == Some((tag as nat, tail))
  {
    TakeIs([tag] + tail, [tag], tail);
    assert FromLe([tag]) == tag as nat + 256 * FromLe([]);
  }

  lemma TagSound(rest: Bytes)
    requires TakeLe(rest, 1).Some?
    ensures TakeLe(rest, 1).value.0 < 256
    ensures rest == [TakeLe(rest, 1).value.0 as byte] + TakeLe(rest, 1).value.1
  {
    TakeLeSound(rest, 1);
    assert Pow256(1) == 256 * Pow256(0);
    var n := TakeLe(rest, 1).value.0;
    assert Le(n, 1) == [n % 256] + Le(n / 256, 0);
  }

  // --- records -----------------------------------------------------------------------------------

  predicate Fits(record: FileRecord) { record.length < U64 }

  lemma RecordIs(record: FileRecord, tail: Bytes)
    requires Fits(record)
    ensures ParseRecord(EmitRecord(record) + tail) == Some((record, tail))
  {
    hide Take, TakeLe, Le;
    Widths();
    var length := Le(record.length, 8);
    TakeLeIs(length + tail, record.length, 8, tail);
    match record
    case Data(digest, _) =>
      assert EmitRecord(record) + tail == [RECORD_DATA] + (digest + (length + tail));
      TagIs(RECORD_DATA, digest + (length + tail));
      TakeIs(digest + (length + tail), digest, length + tail);
    case Hole(_) =>
      assert EmitRecord(record) + tail == [RECORD_HOLE] + (length + tail);
      TagIs(RECORD_HOLE, length + tail);
  }

  lemma RecordSound(rest: Bytes)
    requires ParseRecord(rest).Some?
    ensures Fits(ParseRecord(rest).value.0)
    ensures rest == EmitRecord(ParseRecord(rest).value.0) + ParseRecord(rest).value.1
  {
    hide Take, TakeLe, Le;
    Widths();
    TagSound(rest);
    var (tag, r) := TakeLe(rest, 1).value;
    if tag == RECORD_DATA as nat {
      TakeSound(r, 32);
      var (digest, r1) := Take(r, 32).value;
      TakeLeSound(r1, 8);
    } else {
      TakeLeSound(r, 8);
    }
  }

  lemma {:induction false} RecordsIs(records: seq<FileRecord>, tail: Bytes)
    requires forall i | 0 <= i < |records| :: Fits(records[i])
    ensures ParseRecords(EmitRecords(records) + tail, |records|) == Some((records, tail))
    ensures |EmitRecords(records)| >= MIN_RECORD_BYTES * |records|
  {
    hide ParseRecord;
    if records == [] {
      assert EmitRecords(records) + tail == tail;
    } else {
      RecordsIs(records[1..], tail);
      var after := EmitRecords(records[1..]) + tail;
      Assoc(EmitRecord(records[0]), EmitRecords(records[1..]), tail);
      RecordIs(records[0], after);
      assert records == [records[0]] + records[1..];
    }
  }

  lemma {:induction false} RecordsSound(rest: Bytes, count: nat)
    requires ParseRecords(rest, count).Some?
    ensures var (records, tail) := ParseRecords(rest, count).value;
      |records| == count && rest == EmitRecords(records) + tail
    decreases count
  {
    hide ParseRecord, EmitRecord;
    if count > 0 {
      RecordSound(rest);
      var (record, r) := ParseRecord(rest).value;
      RecordsSound(r, count - 1);
      var (records, tail) := ParseRecords(r, count - 1).value;
      assert ([record] + records)[1..] == records;
      Assoc(EmitRecord(record), EmitRecords(records), tail);
    }
  }

  lemma RecordsFit(records: seq<FileRecord>, size: nat)
    requires RecordsOk(records, size)
    ensures forall i | 0 <= i < |records| :: Fits(records[i])
  {
    forall i | 0 <= i < |records| ensures Fits(records[i]) {
      TotalStep(records, i);
    }
  }

  // --- stamps and bodies ------------------------------------------------------------------------------

  lemma StampIs(rules: TextRules, stamp: Stamp, tail: Bytes)
    requires StampOk(rules, stamp)
    ensures ParseStamp(rules, EmitStamp(stamp) + tail) == Some((stamp, tail))
  {
    hide Take, TakeLe, Le, ContractName;
    Widths();
    assert Pow256(1) == 256 * Pow256(0);
    match stamp
    case Custom(digest) =>
      Assoc([STAMP_DIGEST_MARKER], digest, tail);
      TagIs(STAMP_DIGEST_MARKER, digest + tail);
      TakeIs(digest + tail, digest, tail);
    case Unstamped =>
      NamedWire(0, [], 0, tail);
    case Named(name, version) =>
      NameLength(name);
      NamedWire(|name|, name, version, tail);
  }

  lemma NameLength(name: Text)
    requires ContractName(name)
    ensures 0 < |name| <= MAX_CONTRACT_NAME_BYTES
  {
  }

  lemma NamedWire(length: nat, name: Text, version: nat, tail: Bytes)
    requires length == |name| < 256 && version < U32
    ensures var wire := Le(length, 1) + name + Le(version, 4) + tail;
      && TakeLe(wire, 1) == Some((length, name + (Le(version, 4) + tail)))
      && Take(name + (Le(version, 4) + tail), length) == Some((name, Le(version, 4) + tail))
      && TakeLe(Le(version, 4) + tail, 4) == Some((version, tail))
      && (name == [] ==> wire == Le(0, 1) + Le(version, 4) + tail)
  {
    Widths();
    assert Pow256(1) == 256 * Pow256(0);
    var after := Le(version, 4) + tail;
    assert Le(length, 1) + name + Le(version, 4) + tail == Le(length, 1) + (name + after);
    TakeLeIs(Le(length, 1) + (name + after), length, 1, name + after);
    TakeIs(name + after, name, after);
    TakeLeIs(after, version, 4, tail);
  }

  lemma StampSound(rules: TextRules, rest: Bytes)
    requires ParseStamp(rules, rest).Some?
    ensures StampOk(rules, ParseStamp(rules, rest).value.0)
    ensures rest == EmitStamp(ParseStamp(rules, rest).value.0) + ParseStamp(rules, rest).value.1
  {
    hide Take, TakeLe, Le, ContractName;
    Widths();
    TagSound(rest);
    TakeLeSound(rest, 1);
    var (length, r) := TakeLe(rest, 1).value;
    if length == STAMP_DIGEST_MARKER as nat {
      TakeSound(r, 32);
    } else {
      TakeSound(r, length);
      var (name, r1) := Take(r, length).value;
      TakeLeSound(r1, 4);
    }
  }

  lemma TensorIs(rules: TextRules, body: FileBody, tail: Bytes)
    requires body.Tensor? && BodyOk(rules, body)
    ensures var wire := Le(body.logicalSize, 8) + EmitStamp(body.contract) + Le(|body.records|, 8) + EmitRecords(body.records);
      ParseTensor(rules, wire + tail, body.format) == Some((body, tail))
  {
    hide Take, TakeLe, Le, ParseStamp, EmitStamp, ParseRecords, EmitRecords, ValidRun, StampOk;
    Widths();
    RunBounds(body.records, body.logicalSize);
    var size, stamp, count, records := Le(body.logicalSize, 8), EmitStamp(body.contract), Le(|body.records|, 8), EmitRecords(body.records);
    assert size + stamp + count + records + tail == size + (stamp + (count + (records + tail)));
    TakeLeIs(size + (stamp + (count + (records + tail))), body.logicalSize, 8, stamp + (count + (records + tail)));
    StampIs(rules, body.contract, count + (records + tail));
    TakeLeIs(count + (records + tail), |body.records|, 8, records + tail);
    RecordsFit(body.records, body.logicalSize);
    RecordsIs(body.records, tail);
  }

  lemma RunBounds(records: seq<FileRecord>, size: nat)
    requires RecordsOk(records, size)
    ensures size < U64 && |records| <= MAX_FILE_RECORDS < U64
  {
  }

  lemma TensorSound(rules: TextRules, rest: Bytes, format: Planner)
    requires ParseTensor(rules, rest, format).Some? && !format.BlobV1?
    ensures var (body, tail) := ParseTensor(rules, rest, format).value;
      && body.Tensor? && body.format == format && BodyOk(rules, body)
      && rest == Le(body.logicalSize, 8) + EmitStamp(body.contract) + Le(|body.records|, 8) + EmitRecords(body.records) + tail
  {
    hide Take, TakeLe, Le, ParseStamp, EmitStamp, ParseRecords, EmitRecords, ValidRun, StampOk;
    TakeLeSound(rest, 8);
    var (size, r) := TakeLe(rest, 8).value;
    StampSound(rules, r);
    var (contract, r1) := ParseStamp(rules, r).value;
    TakeLeSound(r1, 8);
    var (count, r2) := TakeLe(r1, 8).value;
    RecordsSound(r2, count);
  }

  lemma BodyIs(rules: TextRules, body: FileBody, tail: Bytes)
    requires BodyOk(rules, body)
    ensures ParseBody(rules, EmitBody(body) + tail) == Some((body, tail))
  {
    hide Take, TakeLe, Le, ParseTensor, EmitStamp, EmitRecords, StampOk, RecordsOk;
    Widths();
    match body
    case Tensor(format, contract, logicalSize, records) =>
      var wire := Le(logicalSize, 8) + EmitStamp(contract) + Le(|records|, 8) + EmitRecords(records);
      assert EmitBody(body) + tail == [PlannerTag(format)] + (wire + tail);
      TagIs(PlannerTag(format), wire + tail);
      TensorIs(rules, body, tail);
    case Blob(logicalSize, digest) =>
      var size := Le(logicalSize, 8);
      assert EmitBody(body) + tail == [PLANNER_BLOB] + (size + (digest + tail));
      TagIs(PLANNER_BLOB, size + (digest + tail));
      TakeLeIs(size + (digest + tail), logicalSize, 8, digest + tail);
      TakeIs(digest + tail, digest, tail);
  }

  lemma BodySound(rules: TextRules, rest: Bytes)
    requires ParseBody(rules, rest).Some?
    ensures BodyOk(rules, ParseBody(rules, rest).value.0)
    ensures rest == EmitBody(ParseBody(rules, rest).value.0) + ParseBody(rules, rest).value.1
  {
    hide Take, TakeLe, Le, ParseTensor, EmitStamp, EmitRecords, StampOk, RecordsOk;
    Widths();
    TagSound(rest);
    var (tag, r) := TakeLe(rest, 1).value;
    if tag == PLANNER_SAFETENSORS as nat {
      TensorTagged(rules, r, SafetensorsV1);
    } else if tag == PLANNER_GGUF as nat {
      TensorTagged(rules, r, GgufV1);
    } else {
      BlobSound(r);
    }
  }

  lemma TensorTagged(rules: TextRules, r: Bytes, format: Planner)
    requires ParseTensor(rules, r, format).Some? && !format.BlobV1?
    ensures var (body, tail) := ParseTensor(rules, r, format).value;
      BodyOk(rules, body) && [PlannerTag(format)] + r == EmitBody(body) + tail
  {
    hide ParseTensor, EmitStamp, EmitRecords, Le, BodyOk;
    TensorSound(rules, r, format);
    var (body, tail) := ParseTensor(rules, r, format).value;
    var tag, a, b, c, d := [PlannerTag(format)], Le(body.logicalSize, 8), EmitStamp(body.contract), Le(|body.records|, 8), EmitRecords(body.records);
    assert tag + (a + b + c + d + tail) == tag + a + b + c + d + tail;
  }

  /** A blob's size and digest, as read. */
  lemma BlobSound(r: Bytes)
    requires TakeLe(r, 8).Some? && Take(TakeLe(r, 8).value.1, 32).Some?
    ensures var (size, r1) := TakeLe(r, 8).value; var (digest, r2) := Take(r1, 32).value;
      |digest| == 32 && size < U64 && r == Le(size, 8) + digest + r2
  {
    hide Take, TakeLe, Le;
    Widths();
    TakeLeSound(r, 8);
    var (size, r1) := TakeLe(r, 8).value;
    TakeSound(r1, 32);
  }

  // --- entries -----------------------------------------------------------------------------------------

  lemma EntryIs(rules: TextRules, entry: Entry, ordinals: nat, tail: Bytes)
    requires EntryOk(rules, entry, ordinals)
    ensures ParseEntry(rules, EmitEntry(entry) + tail, ordinals) == Some((entry, tail))
  {
    hide Take, TakeLe, Le, ParseBody, EmitBody, BodyOk;
    Widths();
    match entry
    case Directory => TagIs(KIND_DIRECTORY, tail);
    case File(executable, body) =>
      var flag: byte := if executable then 1 else 0;
      assert EmitEntry(entry) + tail == [KIND_FILE] + ([flag] + (EmitBody(body) + tail));
      TagIs(KIND_FILE, [flag] + (EmitBody(body) + tail));
      TagIs(flag, EmitBody(body) + tail);
      BodyIs(rules, body, tail);
    case Symlink(target) =>
      var length := Le(|target|, 4);
      assert EmitEntry(entry) + tail == [KIND_SYMLINK] + (length + (target + tail));
      TagIs(KIND_SYMLINK, length + (target + tail));
      TakeLeIs(length + (target + tail), |target|, 4, target + tail);
      TakeIs(target + tail, target, tail);
    case Hardlink(ordinal) =>
      assert EmitEntry(entry) + tail == [KIND_HARDLINK] + (Le(ordinal, 8) + tail);
      TagIs(KIND_HARDLINK, Le(ordinal, 8) + tail);
      TakeLeIs(Le(ordinal, 8) + tail, ordinal, 8, tail);
  }

  lemma EntrySound(rules: TextRules, rest: Bytes, ordinals: nat)
    requires ParseEntry(rules, rest, ordinals).Some?
    ensures EntryOk(rules, ParseEntry(rules, rest, ordinals).value.0, ordinals)
    ensures rest == EmitEntry(ParseEntry(rules, rest, ordinals).value.0) + ParseEntry(rules, rest, ordinals).value.1
  {
    hide Take, TakeLe, Le, ParseBody, EmitBody, BodyOk;
    Widths();
    TagSound(rest);
    var (kind, r) := TakeLe(rest, 1).value;
    if kind == KIND_FILE as nat {
      TagSound(r);
      var (flag, r1) := TakeLe(r, 1).value;
      BodySound(rules, r1);
    } else if kind == KIND_SYMLINK as nat {
      TakeLeSound(r, 4);
      var (length, r1) := TakeLe(r, 4).value;
      TakeSound(r1, length);
    } else if kind == KIND_HARDLINK as nat {
      TakeLeSound(r, 8);
    }
  }

  lemma PathIs(rules: TextRules, path: Text, last: Option<Text>, tail: Bytes)
    requires rules.utf8(path) && ValidPath(rules, path) && (last.Some? ==> Before(last.value, path))
    ensures ParsePath(rules, Le(|path|, 4) + path + tail, last) == Some((path, tail))
  {
    hide Take, TakeLe, Le, Before;
    Widths();
    Assoc(Le(|path|, 4), path, tail);
    TakeLeIs(Le(|path|, 4) + (path + tail), |path|, 4, path + tail);
    TakeIs(path + tail, path, tail);
  }

  lemma PathSound(rules: TextRules, rest: Bytes, last: Option<Text>)
    requires ParsePath(rules, rest, last).Some?
    ensures var (path, tail) := ParsePath(rules, rest, last).value;
      && rules.utf8(path) && ValidPath(rules, path) && (last.Some? ==> Before(last.value, path))
      && rest == Le(|path|, 4) + path + tail
  {
    hide Take, TakeLe, Le, Before, ValidPath;
    TakeLeSound(rest, 4);
    var (length, r) := TakeLe(rest, 4).value;
    TakeSound(r, length);
    Assoc(Le(length, 4), r[..length], Take(r, length).value.1);
  }

  lemma {:induction false} ItemsIs(rules: TextRules, items: seq<Item<Entry>>, ordinals: nat, last: Option<Text>, tail: Bytes)
    requires EntriesOk(rules, items, ordinals, last)
    ensures ParseItems(rules, EmitItems(items) + tail, |items|, ordinals, last) == Some((items, tail))
    ensures |EmitItems(items)| >= MIN_ENTRY_BYTES * |items|
    decreases |items|
  {
    hide ParsePath, ParseEntry, EmitEntry, EntryOk, Before, Segments;
    if items == [] {
      assert EmitItems(items) + tail == tail;
    } else {
      var item, more := items[0], items[1..];
      var after := EmitItems(more) + tail;
      ItemsIs(rules, more, ordinals + Ordinals(item.entry), Some(item.path), tail);
      assert EmitItems(items) + tail == Le(|item.path|, 4) + item.path + (EmitEntry(item.entry) + after);
      PathIs(rules, item.path, last, EmitEntry(item.entry) + after);
      EntryIs(rules, item.entry, ordinals, after);
      EntryBytes(item.entry);
      assert items == [item] + more;
    }
  }

  lemma EntryBytes(entry: Entry)
    ensures |EmitEntry(entry)| >= 1
  {
  }

  lemma {:induction false} ItemsSound(rules: TextRules, rest: Bytes, count: nat, ordinals: nat, last: Option<Text>)
    requires ParseItems(rules, rest, count, ordinals, last).Some?
    ensures var (items, tail) := ParseItems(rules, rest, count, ordinals, last).value;
      |items| == count && EntriesOk(rules, items, ordinals, last) && rest == EmitItems(items) + tail
    decreases count
  {
    hide ParsePath, ParseEntry, EmitEntry, EntryOk, Before, ValidPath;
    if count > 0 {
      PathSound(rules, rest, last);
      var (path, r) := ParsePath(rules, rest, last).value;
      EntrySound(rules, r, ordinals);
      var (entry, r1) := ParseEntry(rules, r, ordinals).value;
      ItemsSound(rules, r1, count - 1, ordinals + Ordinals(entry), Some(path));
      var (more, tail) := ParseItems(rules, r1, count - 1, ordinals + Ordinals(entry), Some(path)).value;
      var items := [Item(path, entry)] + more;
      assert items[1..] == more;
      assert rest == EmitItem(items[0]) + EmitItems(more) + tail;
    }
  }

  // --- manifests ------------------------------------------------------------------------------------------

  lemma ParentIs(parent: Option<Digest>, tail: Bytes)
    ensures ParseParent(EmitParent(parent) + tail) == Some((parent, tail))
  {
    hide Take, TakeLe;
    if parent.None? {
      TagIs(0, tail);
    } else {
      Assoc([1], parent.value, tail);
      TagIs(1, parent.value + tail);
      TakeIs(parent.value + tail, parent.value, tail);
    }
  }

  lemma ParentSound(rest: Bytes)
    requires ParseParent(rest).Some?
    ensures rest == EmitParent(ParseParent(rest).value.0) + ParseParent(rest).value.1
  {
    hide Take, TakeLe;
    TagSound(rest);
    var (flag, r) := TakeLe(rest, 1).value;
    if flag == 1 {
      TakeSound(r, 32);
    }
  }

  /** Reading back a canonical snapshot's bytes gives that snapshot. */
  lemma ParseEmit(rules: TextRules, s: Snapshot)
    requires Canonical(rules, s)
    ensures Parse(rules, Emit(s)) == Some(s)
  {
    hide Take, TakeLe, Le, ParseParent, EmitParent, ParseItems, EmitItems, EntriesOk, TreeOk;
    Widths();
    var parent, count, items := EmitParent(s.parent), Le(|s.entries|, 8), EmitItems(s.entries);
    assert Emit(s) == MAGIC + (parent + (count + items));
    TakeIs(Emit(s), MAGIC, parent + (count + items));
    ParentIs(s.parent, count + items);
    TakeLeIs(count + items, |s.entries|, 8, items);
    ItemsIs(rules, s.entries, 0, None, []);
    assert items + [] == items;
  }

  /** Bytes the reader accepts are the bytes of the canonical snapshot it returns. */
  lemma EmitParse(rules: TextRules, bytes: Bytes)
    requires Parse(rules, bytes).Some?
    ensures Canonical(rules, Parse(rules, bytes).value) && Emit(Parse(rules, bytes).value) == bytes
  {
    hide Take, TakeLe, Le, ParseParent, EmitParent, ParseItems, EmitItems, EntriesOk, TreeOk;
    Widths();
    TakeSound(bytes, 4);
    var (magic, r) := Take(bytes, 4).value;
    ParentSound(r);
    var (parent, r1) := ParseParent(r).value;
    TakeLeSound(r1, 8);
    var (count, r2) := TakeLe(r1, 8).value;
    ItemsSound(rules, r2, count, 0, None);
    var items := ParseItems(rules, r2, count, 0, None).value.0;
    assert r2 == EmitItems(items) + [] == EmitItems(items);
    assert bytes == MAGIC + (EmitParent(parent) + (Le(count, 8) + EmitItems(items)));
  }

  /** One encoding per snapshot, one snapshot per encoding. */
  lemma AcceptsExactlyCanonical(rules: TextRules, bytes: Bytes, s: Snapshot)
    ensures Parse(rules, bytes) == Some(s) <==> Canonical(rules, s) && Emit(s) == bytes
  {
    hide Parse, Emit, Canonical;
    if Canonical(rules, s) && Emit(s) == bytes {
      ParseEmit(rules, s);
    }
    if Parse(rules, bytes).Some? {
      EmitParse(rules, bytes);
    }
  }
}
