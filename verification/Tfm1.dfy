/** TFM1, the canonical snapshot manifest: what a manifest may say, the writer's bytes and the
    strict reader. That each accepts exactly what the other makes is proved in Tfm1Proof. */
module Tfm1 {
  import opened Wrappers
  import opened Wire
  import opened Records
  import opened Paths

  datatype FileBody =
    | Tensor(format: Planner, contract: Stamp, logicalSize: nat, records: seq<FileRecord>)
    | Blob(logicalSize: nat, digest: Digest)

  datatype Entry =
    | Directory
    | File(executable: bool, body: FileBody)
    | Symlink(target: Text)
    | Hardlink(ordinal: nat)

  /** A path and what is there. */
  datatype Item<+E> = Item(path: Text, entry: E)

  datatype Snapshot = Snapshot(parent: Option<Digest>, entries: seq<Item<Entry>>)

  const MAGIC: Bytes := [0x54, 0x46, 0x4D, 0x31]
  const KIND_DIRECTORY: byte := 1
  const KIND_FILE: byte := 2
  const KIND_SYMLINK: byte := 3
  const KIND_HARDLINK: byte := 4
  const RECORD_DATA: byte := 1
  const RECORD_HOLE: byte := 2
  const PLANNER_SAFETENSORS: byte := 1
  const PLANNER_GGUF: byte := 2
  const PLANNER_BLOB: byte := 4
  const STAMP_DIGEST_MARKER: byte := 0xFF
  const MAX_CONTRACT_NAME_BYTES := 64
  const MAX_OBJECT_SIZE := 64 * 1024 * 1024
  const MIN_ENTRY_BYTES := 6
  const MIN_RECORD_BYTES := 9

  /** SHA-256 of the empty byte string. */
  const EMPTY_BLOB_DIGEST: Digest := [
    0xe3, 0xb0, 0xc4, 0x42, 0x98, 0xfc, 0x1c, 0x14, 0x9a, 0xfb, 0xf4, 0xc8, 0x99, 0x6f, 0xb9, 0x24] + [
    0x27, 0xae, 0x41, 0xe4, 0x64, 0x9b, 0x93, 0x4c, 0xa4, 0x95, 0x99, 0x1b, 0x78, 0x52, 0xb8, 0x55]

  // --- what a manifest may say -----------------------------------------------------------------

  predicate LowerOrDigit(b: byte) { 0x61 <= b <= 0x7A || 0x30 <= b <= 0x39 }

  const HYPHEN: byte := 0x2D
  const UNDERSCORE: byte := 0x5F

  predicate FormatByte(b: byte) { LowerOrDigit(b) || b == DOT || b == HYPHEN || b == UNDERSCORE }

  /** `<producer>.<format>`: both start lower-case or digit; a producer may hyphenate, and a
      format may also use dots and underscores. */
  predicate NamedAt(name: Text, dot: nat) {
    && 0 < dot < |name| - 1 && name[dot] == DOT
    && LowerOrDigit(name[0]) && (forall i | 0 <= i < dot :: LowerOrDigit(name[i]) || name[i] == HYPHEN)
    && LowerOrDigit(name[dot + 1]) && (forall i | dot < i < |name| :: FormatByte(name[i]))
  }

  predicate ContractName(name: Text) {
    |name| <= MAX_CONTRACT_NAME_BYTES && exists dot | 0 <= dot < |name| :: NamedAt(name, dot)
  }

  ghost predicate StampOk(rules: TextRules, stamp: Stamp) {
    stamp.Named? ==> rules.utf8(stamp.name) && ContractName(stamp.name) && 0 < stamp.version < U32
  }

  ghost predicate RecordsOk(records: seq<FileRecord>, size: nat) {
    ValidRun(records, size) && forall i | 0 <= i < |records| && records[i].Data? :: records[i].length <= MAX_OBJECT_SIZE
  }

  ghost predicate BodyOk(rules: TextRules, body: FileBody) {
    match body
    case Tensor(format, contract, size, records) => !format.BlobV1? && StampOk(rules, contract) && RecordsOk(records, size)
    case Blob(size, digest) => size < U64 && (size == 0 ==> digest == EMPTY_BLOB_DIGEST)
  }

  ghost predicate EntryOk(rules: TextRules, entry: Entry, ordinals: nat) {
    match entry
    case Directory => true
    case File(_, body) => BodyOk(rules, body)
    case Symlink(target) => rules.utf8(target) && ValidTarget(rules, target)
    case Hardlink(ordinal) => ordinal < ordinals && ordinal < U64
  }

  /** Byte order. */
  predicate Before(a: Text, b: Text) {
    b != [] && (a == [] || a[0] < b[0] || (a[0] == b[0] && Before(a[1..], b[1..])))
  }

  /** Byte order, read off: the texts agree up to some point, and there `a` ends or has the smaller byte. */
  ghost predicate Ascends(a: Text, b: Text) {
    exists k :: 0 <= k <= |a| && k < |b| && a[..k] == b[..k] && (k == |a| || a[k] < b[k])
  }

  function Ordinals(entry: Entry): nat { if entry.File? then 1 else 0 }

  /** Entries in strictly increasing path order, each well formed, each hardlink naming one
      of the `ordinals` files before it. */
  ghost predicate EntriesOk(rules: TextRules, entries: seq<Item<Entry>>, ordinals: nat, last: Option<Text>)
    decreases |entries|
  {
    entries == [] ||
    var item := entries[0];
    && rules.utf8(item.path) && ValidPath(rules, item.path)
    && (last.Some? ==> Before(last.value, item.path))
    && EntryOk(rules, item.entry, ordinals)
    && EntriesOk(rules, entries[1..], ordinals + Ordinals(item.entry), Some(item.path))
  }

  predicate IsDirectory(entry: Entry) { entry.Directory? }

  /** The path's parent, if it has one, is a listed directory. */
  predicate ParentListed<E>(items: seq<Item<E>>, directory: E -> bool, path: Text) {
    var parent := SplitParent(path).0;
    parent.Some? ==> exists i :: 0 <= i < |items| && items[i].path == parent.value && directory(items[i].entry)
  }

  /** No two paths fold alike, and every parent is listed. */
  ghost predicate TreeOk<E>(rules: TextRules, items: seq<Item<E>>, directory: E -> bool) {
    && (forall i, j | 0 <= i < j < |items| :: rules.fold(items[i].path) != rules.fold(items[j].path))
    && (forall i | 0 <= i < |items| :: ParentListed(items, directory, items[i].path))
  }

  ghost predicate Canonical(rules: TextRules, s: Snapshot) {
    |s.entries| < U64 && EntriesOk(rules, s.entries, 0, None) && TreeOk(rules, s.entries, IsDirectory)
  }

  // --- the writer's bytes --------------------------------------------------------------------------

  function EmitRecord(record: FileRecord): Bytes {
    match record
    case Data(digest, length) => [RECORD_DATA] + digest + Le(length, 8)
    case Hole(length) => [RECORD_HOLE] + Le(length, 8)
  }

  function EmitRecords(records: seq<FileRecord>): Bytes {
    if records == [] then [] else EmitRecord(records[0]) + EmitRecords(records[1..])
  }

  function EmitStamp(stamp: Stamp): Bytes {
    match stamp
    case Custom(digest) => [STAMP_DIGEST_MARKER] + digest
    case Unstamped => Le(0, 1) + Le(0, 4)
    case Named(name, version) => Le(|name|, 1) + name + Le(version, 4)
  }

  function PlannerTag(planner: Planner): byte {
    match planner
    case SafetensorsV1 => PLANNER_SAFETENSORS
    case GgufV1 => PLANNER_GGUF
    case BlobV1 => PLANNER_BLOB
  }

  function EmitBody(body: FileBody): Bytes {
    match body
    case Tensor(format, contract, size, records) =>
      [PlannerTag(format)] + Le(size, 8) + EmitStamp(contract) + Le(|records|, 8) + EmitRecords(records)
    case Blob(size, digest) => [PLANNER_BLOB] + Le(size, 8) + digest
  }

  function EmitEntry(entry: Entry): Bytes {
    match entry
    case Directory => [KIND_DIRECTORY]
    case File(executable, body) => [KIND_FILE] + [if executable then 1 else 0] + EmitBody(body)
    case Symlink(target) => [KIND_SYMLINK] + Le(|target|, 4) + target
    case Hardlink(ordinal) => [KIND_HARDLINK] + Le(ordinal, 8)
  }

  function EmitItem(item: Item<Entry>): Bytes { Le(|item.path|, 4) + item.path + EmitEntry(item.entry) }

  function EmitItems(entries: seq<Item<Entry>>): Bytes {
    if entries == [] then [] else EmitItem(entries[0]) + EmitItems(entries[1..])
  }

  function EmitParent(parent: Option<Digest>): Bytes { if parent.None? then [0] else [1] + parent.value }

  function Emit(s: Snapshot): Bytes { MAGIC + EmitParent(s.parent) + Le(|s.entries|, 8) + EmitItems(s.entries) }

  // --- the strict reader ---------------------------------------------------------------------------

  function ParseRecord(rest: Bytes): Option<(FileRecord, Bytes)> {
    var (tag, r) :- TakeLe(rest, 1);
    if tag == RECORD_DATA as nat then
      var (digest, r) :- Take(r, 32);
      var (length, r) :- TakeLe(r, 8);
      Some((Data(digest, length), r))
    else if tag == RECORD_HOLE as nat then
      var (length, r) :- TakeLe(r, 8);
      Some((Hole(length), r))
    else None
  }

  function ParseRecords(rest: Bytes, count: nat): Option<(seq<FileRecord>, Bytes)>
    decreases count
  {
    if count == 0 then Some(([], rest))
    else
      var (record, r) :- ParseRecord(rest);
      var (records, r) :- ParseRecords(r, count - 1);
      Some(([record] + records, r))
  }

  ghost function ParseStamp(rules: TextRules, rest: Bytes): Option<(Stamp, Bytes)> {
    var (length, r) :- TakeLe(rest, 1);
    if length == STAMP_DIGEST_MARKER as nat then
      var (digest, r) :- Take(r, 32);
      Some((Custom(digest), r))
    else if length > MAX_CONTRACT_NAME_BYTES then None
    else
      var (name, r) :- Take(r, length);
      var (version, r) :- TakeLe(r, 4);
      if name == [] then (if version == 0 then Some((Unstamped, r)) else None)
      else if !rules.utf8(name) || version == 0 || !ContractName(name) then None
      else Some((Named(name, version), r))
  }

  ghost function ParseTensor(rules: TextRules, rest: Bytes, format: Planner): Option<(FileBody, Bytes)> {
    var (size, r) :- TakeLe(rest, 8);
    var (contract, r) :- ParseStamp(rules, r);
    var (count, r) :- TakeLe(r, 8);
    if count > MAX_FILE_RECORDS || count > |r| / MIN_RECORD_BYTES then None
    else
      var (records, r) :- ParseRecords(r, count);
      if RecordsOk(records, size) then Some((Tensor(format, contract, size, records), r)) else None
  }

  ghost function ParseBody(rules: TextRules, rest: Bytes): Option<(FileBody, Bytes)> {
    var (tag, r) :- TakeLe(rest, 1);
    if tag == PLANNER_SAFETENSORS as nat then ParseTensor(rules, r, SafetensorsV1)
    else if tag == PLANNER_GGUF as nat then ParseTensor(rules, r, GgufV1)
    else if tag == PLANNER_BLOB as nat then
      var (size, r) :- TakeLe(r, 8);
      var (digest, r) :- Take(r, 32);
      if size == 0 && digest != EMPTY_BLOB_DIGEST then None else Some((Blob(size, digest), r))
    else None
  }

  ghost function ParseEntry(rules: TextRules, rest: Bytes, ordinals: nat): Option<(Entry, Bytes)> {
    var (kind, r) :- TakeLe(rest, 1);
    if kind == KIND_DIRECTORY as nat then Some((Directory, r))
    else if kind == KIND_FILE as nat then
      var (flag, r) :- TakeLe(r, 1);
      if flag > 1 then None
      else
        var (body, r) :- ParseBody(rules, r);
        Some((File(flag == 1, body), r))
    else if kind == KIND_SYMLINK as nat then
      var (length, r) :- TakeLe(r, 4);
      if length > MAX_SYMLINK_TARGET_BYTES then None
      else
        var (target, r) :- Take(r, length);
        if rules.utf8(target) && ValidTarget(rules, target) then Some((Symlink(target), r)) else None
    else if kind == KIND_HARDLINK as nat then
      var (ordinal, r) :- TakeLe(r, 8);
      if ordinal >= ordinals then None else Some((Hardlink(ordinal), r))
    else None
  }

  ghost function ParsePath(rules: TextRules, rest: Bytes, last: Option<Text>): Option<(Text, Bytes)> {
    var (length, r) :- TakeLe(rest, 4);
    if length == 0 || length > MAX_PATH_BYTES then None
    else
      var (path, r) :- Take(r, length);
      if rules.utf8(path) && ValidPath(rules, path) && (last.Some? ==> Before(last.value, path)) then Some((path, r)) else None
  }

  ghost function ParseItems(rules: TextRules, rest: Bytes, count: nat, ordinals: nat, last: Option<Text>): Option<(seq<Item<Entry>>, Bytes)>
    decreases count
  {
    if count == 0 then Some(([], rest))
    else
      var (path, r) :- ParsePath(rules, rest, last);
      var (entry, r) :- ParseEntry(rules, r, ordinals);
      var (items, r) :- ParseItems(rules, r, count - 1, ordinals + Ordinals(entry), Some(path));
      Some(([Item(path, entry)] + items, r))
  }

  ghost function ParseParent(rest: Bytes): Option<(Option<Digest>, Bytes)> {
    var (flag, r) :- TakeLe(rest, 1);
    if flag == 0 then Some((None, r))
    else if flag == 1 then
      var (digest, r) :- Take(r, 32);
      var parent: Digest := digest;
      Some((Some(parent), r))
    else None
  }

  ghost function Parse(rules: TextRules, bytes: Bytes): Option<Snapshot> {
    var (magic, r) :- Take(bytes, 4);
    if magic != MAGIC then None
    else
      var (parent, r) :- ParseParent(r);
      var (count, r) :- TakeLe(r, 8);
      if count > |r| / MIN_ENTRY_BYTES then None
      else
        var (items, r) :- ParseItems(rules, r, count, 0, None);
        if r == [] && TreeOk(rules, items, IsDirectory) then Some(Snapshot(parent, items)) else None
  }
}
