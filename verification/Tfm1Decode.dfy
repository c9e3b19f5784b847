/** The reader as it runs: a cursor, loops over declared counts, and refusals on the way. */
module Tfm1Decode {
  import opened Wrappers
  import opened Wire
  import opened Records
  import opened Paths
  import opened Tfm1
  import opened Tfm1Proof

  /** What a sub-reader did: it consumed exactly its value's bytes, or refused. */
  ghost predicate Read<T(!new)>(spec: Option<(T, Bytes)>, r: Option<T>, rest: Bytes) {
    if r.Some? then spec == Some((r.value, rest)) else spec.None?
  }

  ghost function Prepend<T>(done: seq<T>, more: Option<(seq<T>, Bytes)>): Option<(seq<T>, Bytes)> {
    if more.Some? then Some((done + more.value.0, more.value.1)) else None
  }

  method DecodeRecord(reader: Reader) returns (r: Option<FileRecord>)
    requires reader.Valid()
    modifies reader
    ensures reader.Valid() && Read(ParseRecord(old(reader.Rest())), r, reader.Rest())
  {
    hide Take, TakeLe;
    var tag := reader.TakeInt(1);
    if tag.None? {
      return None;
    }
    if tag.value == RECORD_DATA as nat {
      var digest := reader.TakeBytes(32);
      if digest.None? {
        return None;
      }
      var length := reader.TakeInt(8);
      return if length.Some? then Some(Data(digest.value, length.value)) else None;
    } else if tag.value == RECORD_HOLE as nat {
      var length := reader.TakeInt(8);
      return if length.Some? then Some(Hole(length.value)) else None;
    }
    return None;
  }

  method DecodeRecords(reader: Reader, count: nat) returns (r: Option<seq<FileRecord>>)
    requires reader.Valid()
    modifies reader
    ensures reader.Valid() && Read(ParseRecords(old(reader.Rest()), count), r, reader.Rest())
  {
    hide ParseRecord;
    var records: seq<FileRecord> := [];
    ghost var start := reader.Rest();
    PrependNothing(ParseRecords(start, count));
    for k := 0 to count
      invariant reader.Valid()
      invariant ParseRecords(start, count) == Prepend(records, ParseRecords(reader.Rest(), count - k))
    {
      ghost var here := reader.Rest();
      var record := DecodeRecord(reader);
      if record.None? {
        return None;
      }
      PrependOne(records, record.value, ParseRecords(reader.Rest(), count - k - 1));
      records := records + [record.value];
    }
    assert records + [] == records;
    return Some(records);
  }

  lemma PrependNothing<T>(more: Option<(seq<T>, Bytes)>)
    ensures Prepend([], more) == more
  {
    if more.Some? {
      assert [] + more.value.0 == more.value.0;
    }
  }

  lemma PrependOne<T>(done: seq<T>, x: T, more: Option<(seq<T>, Bytes)>)
    ensures Prepend(done, Prepend([x], more)) == Prepend(done + [x], more)
  {
    if more.Some? {
      assert done + ([x] + more.value.0) == done + [x] + more.value.0;
    }
  }

  method ValidateRecords(records: seq<FileRecord>, size: nat) returns (ok: bool)
    requires size < U64
    ensures ok <==> RecordsOk(records, size)
  {
    hide ValidRun;
    var run := ValidateRecordRun(records, size);
    if run.Fail? {
      return false;
    }
    for i := 0 to |records|
      invariant forall k | 0 <= k < i && records[k].Data? :: records[k].length <= MAX_OBJECT_SIZE
    {
      if records[i].Data? && records[i].length > MAX_OBJECT_SIZE {
        return false;
      }
    }
    return true;
  }

  method DecodeStamp(rules: TextRules, reader: Reader) returns (r: Option<Stamp>)
    requires reader.Valid()
    modifies reader
    ensures reader.Valid() && Read(ParseStamp(rules, old(reader.Rest())), r, reader.Rest())
  {
    hide Take, TakeLe, ContractName;
    var length := reader.TakeInt(1);
    if length.None? {
      return None;
    }
    if length.value == STAMP_DIGEST_MARKER as nat {
      var digest := reader.TakeBytes(32);
      return if digest.Some? then Some(Custom(digest.value)) else None;
    }
    if length.value > MAX_CONTRACT_NAME_BYTES {
      return None;
    }
    var name := reader.TakeBytes(length.value);
    if name.None? {
      return None;
    }
    var version := reader.TakeInt(4);
    if version.None? {
      return None;
    }
    if name.value == [] {
      return if version.value == 0 then Some(Unstamped) else None;
    }
    if !rules.utf8(name.value) || version.value == 0 || !ContractName(name.value) {
      return None;
    }
    return Some(Named(name.value, version.value));
  }

  method DecodeTensorBody(rules: TextRules, reader: Reader, format: Planner) returns (r: Option<FileBody>)
    requires reader.Valid()
    modifies reader
    ensures reader.Valid() && Read(ParseTensor(rules, old(reader.Rest()), format), r, reader.Rest())
  {
    hide Take, TakeLe, ParseStamp, ParseRecords, RecordsOk;
    Widths();
    var size := reader.TakeInt(8);
    if size.None? {
      return None;
    }
    var contract := DecodeStamp(rules, reader);
    if contract.None? {
      return None;
    }
    var count := reader.TakeInt(8);
    if count.None? {
      return None;
    }
    if count.value > MAX_FILE_RECORDS || count.value > reader.Remaining() / MIN_RECORD_BYTES {
      return None;
    }
    var records := DecodeRecords(reader, count.value);
    if records.None? {
      return None;
    }
    var ok := ValidateRecords(records.value, size.value);
    return if ok then Some(Tensor(format, contract.value, size.value, records.value)) else None;
  }

  method DecodeBody(rules: TextRules, reader: Reader) returns (r: Option<FileBody>)
    requires reader.Valid()
    modifies reader
    ensures reader.Valid() && Read(ParseBody(rules, old(reader.Rest())), r, reader.Rest())
  {
    hide Take, TakeLe, ParseTensor;
    var tag := reader.TakeInt(1);
    if tag.None? {
      return None;
    }
    if tag.value == PLANNER_SAFETENSORS as nat {
      r := DecodeTensorBody(rules, reader, SafetensorsV1);
    } else if tag.value == PLANNER_GGUF as nat {
      r := DecodeTensorBody(rules, reader, GgufV1);
    } else if tag.value == PLANNER_BLOB as nat {
      var size := reader.TakeInt(8);
      if size.None? {
        return None;
      }
      var digest := reader.TakeBytes(32);
      if digest.None? || (size.value == 0 && digest.value != EMPTY_BLOB_DIGEST) {
        return None;
      }
      return Some(Blob(size.value, digest.value));
    } else {
      return None;
    }
  }

  method DecodeEntry(rules: TextRules, reader: Reader, ordinals: nat) returns (r: Option<Entry>)
    requires reader.Valid()
    modifies reader
    ensures reader.Valid() && Read(ParseEntry(rules, old(reader.Rest()), ordinals), r, reader.Rest())
  {
    hide Take, TakeLe, ParseBody, ValidTarget;
    var kind := reader.TakeInt(1);
    if kind.None? {
      return None;
    }
    if kind.value == KIND_DIRECTORY as nat {
      return Some(Directory);
    } else if kind.value == KIND_FILE as nat {
      var flag := reader.TakeInt(1);
      if flag.None? || flag.value > 1 {
        return None;
      }
      var body := DecodeBody(rules, reader);
      return if body.Some? then Some(File(flag.value == 1, body.value)) else None;
    } else if kind.value == KIND_SYMLINK as nat {
      var length := reader.TakeInt(4);
      if length.None? || length.value > MAX_SYMLINK_TARGET_BYTES {
        return None;
      }
      var target := reader.TakeBytes(length.value);
      if target.None? || !rules.utf8(target.value) || !ValidTarget(rules, target.value) {
        return None;
      }
      return Some(Symlink(target.value));
    } else if kind.value == KIND_HARDLINK as nat {
      var ordinal := reader.TakeInt(8);
      if ordinal.None? || ordinal.value >= ordinals {
        return None;
      }
      return Some(Hardlink(ordinal.value));
    }
    return None;
  }

  method DecodePath(rules: TextRules, reader: Reader, last: Option<Text>) returns (r: Option<Text>)
    requires reader.Valid()
    modifies reader
    ensures reader.Valid() && Read(ParsePath(rules, old(reader.Rest()), last), r, reader.Rest())
  {
    hide Take, TakeLe, ValidPath, Before;
    var length := reader.TakeInt(4);
    if length.None? || length.value == 0 || length.value > MAX_PATH_BYTES {
      return None;
    }
    var path := reader.TakeBytes(length.value);
    if path.None? || !rules.utf8(path.value) || !ValidPath(rules, path.value) {
      return None;
    }
    if last.Some? && !Before(last.value, path.value) {
      return None;
    }
    return path;
  }

  method DecodeItems(rules: TextRules, reader: Reader, count: nat) returns (r: Option<seq<Item<Entry>>>)
    requires reader.Valid()
    modifies reader
    ensures reader.Valid() && Read(ParseItems(rules, old(reader.Rest()), count, 0, None), r, reader.Rest())
  {
    hide ParsePath, ParseEntry;
    var items: seq<Item<Entry>>, ordinals: nat, last: Option<Text> := [], 0, None;
    ghost var start := reader.Rest();
    PrependNothing(ParseItems(rules, start, count, 0, None));
    for k := 0 to count
      invariant reader.Valid()
      invariant ParseItems(rules, start, count, 0, None)
        == Prepend(items, ParseItems(rules, reader.Rest(), count - k, ordinals, last))
    {
      var path := DecodePath(rules, reader, last);
      if path.None? {
        return None;
      }
      var entry := DecodeEntry(rules, reader, ordinals);
      if entry.None? {
        return None;
      }
      var item := Item(path.value, entry.value);
      PrependOne(items, item, ParseItems(rules, reader.Rest(), count - k - 1, ordinals + Ordinals(entry.value), Some(path.value)));
      items, ordinals, last := items + [item], ordinals + Ordinals(entry.value), Some(path.value);
    }
    assert items + [] == items;
    return Some(items);
  }

  /** Case-fold uniqueness, then an explicit directory above every entry. */
  method ValidateTree<E>(rules: TextRules, items: seq<Item<E>>, directory: E -> bool) returns (ok: bool)
    ensures ok <==> TreeOk(rules, items, directory)
  {
    hide SplitParent;
    var folded: set<Text> := {};
    for i := 0 to |items|
      invariant folded == set k | 0 <= k < i :: rules.fold(items[k].path)
      invariant forall j, k | 0 <= j < k < i :: rules.fold(items[j].path) != rules.fold(items[k].path)
    {
      if rules.fold(items[i].path) in folded {
        return false;
      }
      folded := folded + {rules.fold(items[i].path)};
    }
    for i := 0 to |items|
      invariant forall k | 0 <= k < i :: ParentListed(items, directory, items[k].path)
    {
      if !ParentListed(items, directory, items[i].path) {
        return false;
      }
    }
    return true;
  }

  /** Strictly decodes one manifest: Some exactly on a canonical snapshot's bytes. */
  method Decode(rules: TextRules, bytes: Bytes) returns (r: Option<Snapshot>)
    ensures r == Parse(rules, bytes)
    ensures forall s :: r == Some(s) <==> Canonical(rules, s) && Emit(s) == bytes
  {
    hide Take, TakeLe, ParseItems, TreeOk, Canonical, Emit;
    forall s ensures Parse(rules, bytes) == Some(s) <==> Canonical(rules, s) && Emit(s) == bytes {
      AcceptsExactlyCanonical(rules, bytes, s);
    }
    var reader := new Reader(bytes);
    var magic := reader.TakeBytes(4);
    if magic.None? || magic.value != MAGIC {
      return None;
    }
    var parent := DecodeParent(reader);
    if parent.None? {
      return None;
    }
    var count := reader.TakeInt(8);
    if count.None? || count.value > reader.Remaining() / MIN_ENTRY_BYTES {
      return None;
    }
    var items := DecodeItems(rules, reader, count.value);
    if items.None? || reader.Remaining() != 0 {
      return None;
    }
    var ok := ValidateTree(rules, items.value, IsDirectory);
    return if ok then Some(Snapshot(parent.value, items.value)) else None;
  }

  method DecodeParent(reader: Reader) returns (r: Option<Option<Digest>>)
    requires reader.Valid()
    modifies reader
    ensures reader.Valid() && Read(ParseParent(old(reader.Rest())), r, reader.Rest())
  {
    hide Take, TakeLe;
    var flag := reader.TakeInt(1);
    if flag.None? {
      return None;
    }
    if flag.value == 0 {
      return Some(None);
    }
    if flag.value != 1 {
      return None;
    }
    var digest := reader.TakeBytes(32);
    if digest.None? {
      return None;
    }
    var parent: Digest := digest.value;
    return Some(Some(parent));
  }

  // --- the writer as it runs ------------------------------------------------------------------------

  method WriteBody(body: FileBody) returns (bytes: Bytes)
    ensures bytes == EmitBody(body)
  {
    hide EmitRecord, Le;
    bytes := [if body.Blob? then PLANNER_BLOB else PlannerTag(body.format)];
    match body
    case Tensor(format, contract, size, records) =>
      bytes := bytes + Le(size, 8);
      bytes := bytes + EmitStamp(contract);
      bytes := bytes + Le(|records|, 8);
      ghost var head := bytes;
      for i := 0 to |records|
        invariant head + EmitRecords(records) == bytes + EmitRecords(records[i..])
      {
        assert records[i..][1..] == records[i + 1..];
        Assoc(bytes, EmitRecord(records[i]), EmitRecords(records[i + 1..]));
        bytes := bytes + EmitRecord(records[i]);
      }
      assert bytes + [] == bytes;
    case Blob(size, digest) =>
      bytes := bytes + Le(size, 8);
      bytes := bytes + digest;
  }

  method ToBytes(s: Snapshot) returns (bytes: Bytes)
    ensures bytes == Emit(s)
  {
    hide EmitEntry, Le;
    bytes := MAGIC;
    bytes := bytes + EmitParent(s.parent);
    bytes := bytes + Le(|s.entries|, 8);
    for i := 0 to |s.entries|
      invariant Emit(s) == bytes + EmitItems(s.entries[i..])
    {
      var item := s.entries[i];
      assert s.entries[i..][1..] == s.entries[i + 1..];
      Assoc(bytes, EmitItem(item), EmitItems(s.entries[i + 1..]));
      var entry := WriteEntry(item.entry);
      assert bytes + EmitItem(item) == bytes + Le(|item.path|, 4) + item.path + entry;
      bytes := bytes + Le(|item.path|, 4);
      bytes := bytes + item.path;
      bytes := bytes + entry;
    }
    assert bytes + [] == bytes;
  }

  method WriteEntry(entry: Entry) returns (bytes: Bytes)
    ensures bytes == EmitEntry(entry)
  {
    match entry
    case Directory => bytes := [KIND_DIRECTORY];
    case File(executable, body) =>
      var written := WriteBody(body);
      bytes := [KIND_FILE] + [if executable then 1 else 0] + written;
    case Symlink(target) => bytes := [KIND_SYMLINK] + Le(|target|, 4) + target;
    case Hardlink(ordinal) => bytes := [KIND_HARDLINK] + Le(ordinal, 8);
  }
}
