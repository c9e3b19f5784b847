/** The two binary formats in literal bytes, their bounds, and the text rules on literal names. */
module Formats {
  import opened Wrappers
  import MixedRadix
  import opened Wire
  import opened Records
  import opened Paths
  import opened Tfm1
  import opened Tfp1

  /** The low `width` bytes of `n`, least significant first. */
  function Little(n: nat, width: nat): Bytes { seq(width, i requires 0 <= i < width => n / Pow256(i) % 256) }

  lemma {:induction false} LeIsLittle(n: nat, width: nat)
    ensures Le(n, width) == Little(n, width)
  {
    if width > 0 {
      LeIsLittle(n / 256, width - 1);
      forall i | 0 <= i < width ensures Le(n, width)[i] == n / Pow256(i) % 256 {
        if i > 0 {
          assert Le(n, width)[i] == Little(n / 256, width - 1)[i - 1];
          Deeper(n, Pow256(i - 1));
        }
      }
    }
  }

  lemma Deeper(n: nat, p: nat)
    requires p > 0
    ensures n / 256 / p == n / (256 * p)
  {
    var q, high, low := n / 256 / p, n / 256 % p, n % 256;
    assert n / 256 == p * q + high;
    assert 256 * (p * q) == 256 * p * q;
    Quotient(n, 256 * p, q, 256 * high + low);
  }

  lemma Quotient(n: nat, d: nat, q: nat, r: nat)
    requires d > 0 && n == d * q + r && r < d
    ensures n / d == q
  {
    assert n / d * d + n % d == q * d + r;
    MixedRadix.QuotientUnique(n / d, q, n % d, r, d);
  }

  // --- TFM1 -----------------------------------------------------------------------------------------------

  const TFM1: Bytes := [84, 70, 77, 49]

  /** One record. */
  lemma RecordBytes(digest: Digest, length: nat)
    ensures EmitRecord(Data(digest, length)) == [1] + digest + Little(length, 8)
    ensures EmitRecord(Hole(length)) == [2] + Little(length, 8)
  {
    LeIsLittle(length, 8);
  }

  /** A stamp: a marked digest, five zeros, or a counted name and a version. */
  lemma StampBytes(digest: Digest, name: Text, version: nat)
    requires |name| < 256
    ensures EmitStamp(Custom(digest)) == [255] + digest
    ensures EmitStamp(Unstamped) == [0, 0, 0, 0, 0]
    ensures EmitStamp(Named(name, version)) == [|name|] + name + Little(version, 4)
  {
    LeIsLittle(version, 4);
    assert Le(|name|, 1) == [|name|] && Le(0, 1) == [0];
    assert Le(0, 4) == [0] + ([0] + ([0] + [0])) by {
      assert Le(0, 2) == [0] + Le(0, 1) && Le(0, 3) == [0] + Le(0, 2) && Le(0, 4) == [0] + Le(0, 3);
    }
  }

  /** A file body: its planner's tag, its size, and a stamped record run or one digest. */
  lemma BodyBytes(contract: Stamp, size: nat, records: seq<FileRecord>, digest: Digest)
    ensures EmitBody(Tensor(SafetensorsV1, contract, size, records))
      == [1] + Little(size, 8) + EmitStamp(contract) + Little(|records|, 8) + EmitRecords(records)
    ensures EmitBody(Tensor(GgufV1, contract, size, records))
      == [2] + Little(size, 8) + EmitStamp(contract) + Little(|records|, 8) + EmitRecords(records)
    ensures EmitBody(Blob(size, digest)) == [4] + Little(size, 8) + digest
  {
    LeIsLittle(size, 8);
    LeIsLittle(|records|, 8);
  }

  /** An entry: its kind, and what that kind carries. */
  lemma EntryBytes(executable: bool, body: FileBody, target: Text, ordinal: nat)
    ensures EmitEntry(Directory) == [1]
    ensures EmitEntry(File(executable, body)) == [2, if executable then 1 else 0] + EmitBody(body)
    ensures EmitEntry(Tfm1.Symlink(target)) == [3] + Little(|target|, 4) + target
    ensures EmitEntry(Hardlink(ordinal)) == [4] + Little(ordinal, 8)
  {
    LeIsLittle(|target|, 4);
    LeIsLittle(ordinal, 8);
  }

  /** A manifest: magic, parent, entry count, and each entry after its counted path, in order. */
  lemma ManifestBytes(parent: Digest, entries: seq<Item<Entry>>)
    ensures Emit(Snapshot(None, entries)) == TFM1 + [0] + Little(|entries|, 8) + EmitItems(entries)
    ensures Emit(Snapshot(Some(parent), entries)) == TFM1 + ([1] + parent) + Little(|entries|, 8) + EmitItems(entries)
    ensures EmitItems([]) == []
    ensures entries != [] ==>
      EmitItems(entries) == Little(|entries[0].path|, 4) + entries[0].path + EmitEntry(entries[0].entry) + EmitItems(entries[1..])
  {
    LeIsLittle(|entries|, 8);
    if entries != [] { LeIsLittle(|entries[0].path|, 4); }
  }

  lemma {:induction false} RunBytes(records: seq<FileRecord>)
    ensures EmitRecords([]) == []
    ensures records != [] ==> EmitRecords(records) == EmitRecord(records[0]) + EmitRecords(records[1..])
  {
  }

  // --- TFP1 -----------------------------------------------------------------------------------------------

  /** A pack of one object: magic, count, its index row, its bytes. */
  lemma PackBytes(digest: Digest, bytes: Bytes)
    ensures EmitPack([PackObject(digest, bytes)])
      == [84, 70, 80, 49] + [1, 0, 0, 0, 0, 0, 0, 0] + (digest + [0, 0, 0, 0, 0, 0, 0, 0] + Little(|bytes|, 8)) + bytes
  {
    hide Le, Little;
    var o := PackObject(digest, bytes);
    LeIsLittle(|bytes|, 8);
    SmallLe(1);
    SmallLe(0);
    assert [o][1..] == [];
    assert EmitRows([o], 0) == EmitRow(digest, 0, |bytes|) + [];
    assert Payload([o]) == bytes + [];
  }

  lemma SmallLe(n: nat)
    requires n < 256
    ensures Le(n, 8) == [n, 0, 0, 0, 0, 0, 0, 0]
  {
    assert Le(0, 1) == [0];
    assert Le(0, 2) == [0] + Le(0, 1);
    assert Le(0, 3) == [0] + Le(0, 2);
    assert Le(0, 4) == [0] + Le(0, 3);
    assert Le(0, 5) == [0] + Le(0, 4);
    assert Le(0, 6) == [0] + Le(0, 5);
    assert Le(0, 7) == [0] + Le(0, 6);
  }

  /** Rows follow one another, each at the offset where the payload before it ends. */
  lemma RowsAndPayload(objects: seq<PackObject>, start: nat)
    requires objects != []
    ensures EmitRows(objects, start) == objects[0].digest + Little(start, 8) + Little(|objects[0].bytes|, 8)
      + EmitRows(objects[1..], start + |objects[0].bytes|)
    ensures Payload(objects) == objects[0].bytes + Payload(objects[1..])
  {
    hide Le, Little;
    LeIsLittle(start, 8);
    LeIsLittle(|objects[0].bytes|, 8);
  }

  /** The bounds both formats keep. */
  lemma Bounds()
    ensures MAX_FILE_RECORDS == 1_000_000 && MAX_OBJECT_SIZE == 67_108_864 && MAX_PACK_OBJECTS == 1_000_000 && MAX_PACK_PAYLOAD == 67_108_864
    ensures MAX_PATH_BYTES == 4096 && MAX_SYMLINK_TARGET_BYTES == 4096 && MAX_CONTRACT_NAME_BYTES == 64
    ensures U32 == 4_294_967_296 && U64 == 18_446_744_073_709_551_616
  {
  }

  // --- record runs -------------------------------------------------------------------------------------------

  /** What makes a run invalid, and that a plain one is valid. */
  lemma RunRules(d: Digest, a: nat, b: nat)
    ensures ValidRun([], 0) && (0 < a < U64 ==> ValidRun([Data(d, a)], a) && ValidRun([Hole(a)], a))
    ensures 0 < a && 0 < b && a + b < U64 ==> ValidRun([Data(d, a), Data(d, b)], a + b) && ValidRun([Hole(a), Data(d, b)], a + b)
    ensures !ValidRun([Hole(a), Hole(b)], a + b) && !ValidRun([Data(d, 0)], 0) && !ValidRun([Hole(0)], 0)
    ensures !ValidRun([Data(d, a)], a + 1) && (a >= U64 ==> !ValidRun([Data(d, a)], a))
  {
    assert [Data(d, a)][1..] == [] && [Hole(a)][1..] == [];
    assert [Data(d, a), Data(d, b)][1..] == [Data(d, b)] && [Hole(a), Data(d, b)][1..] == [Data(d, b)] && [Data(d, b)][1..] == [];
    assert [Hole(a), Hole(b)][1..] == [Hole(b)] && [Hole(b)][1..] == [];
    assert !HolesApart([Hole(a), Hole(b)], 0);
    assert [Data(d, 0)][0] == Data(d, 0) && [Hole(0)][0] == Hole(0);
  }

  // --- names ---------------------------------------------------------------------------------------------------

  /** A segment is refused for each of these reasons. */
  lemma SegmentRefused(rules: TextRules, segment: Text, b: byte)
    ensures !ValidSegment(rules, []) && !ValidSegment(rules, [46]) && !ValidSegment(rules, [46, 46])
    ensures rules.control(segment) ==> !ValidSegment(rules, segment)
    ensures !ValidSegment(rules, segment + [46]) && !ValidSegment(rules, segment + [32])
    ensures b in segment && b in {92, 58, 42, 63, 34, 60, 62, 124} ==> !ValidSegment(rules, segment)
  {
    assert (segment + [46])[|segment|] == 46 && (segment + [32])[|segment|] == 32;
  }

  function Raised(s: Text): Text { seq(|s|, i requires 0 <= i < |s| => Upper(s[i])) }

  /** The device names: CON, PRN, AUX, NUL, and COM and LPT with a digit from 1 to 9, in any case. */
  lemma ReservedIff(stem: Text)
    ensures Reserved(stem) <==>
      || Raised(stem) == [67, 79, 78] || Raised(stem) == [80, 82, 78] || Raised(stem) == [65, 85, 88] || Raised(stem) == [78, 85, 76]
      || (|stem| == 4 && (Raised(stem)[..3] == [67, 79, 77] || Raised(stem)[..3] == [76, 80, 84]) && 49 <= stem[3] <= 57)
  {
  }

  /** They are refused on their own and with any extension. */
  lemma DeviceRefused(rules: TextRules, stem: Text, rest: Text)
    requires DOT !in stem && Reserved(stem)
    ensures !ValidSegment(rules, stem) && !ValidSegment(rules, stem + [46] + rest)
  {
    hide Reserved;
    StemOf(stem, rest);
    StemWhole(stem);
  }

  /** `Aux` is one of them and `lpt0` is not. */
  lemma DeviceNames()
    ensures Reserved([65, 117, 120]) && !Reserved([108, 112, 116, 48])
  {
    hide Reserved;
    ReservedIff([65, 117, 120]);
    assert Raised([65, 117, 120]) == [65, 85, 88];
    ReservedIff([108, 112, 116, 48]);
    assert |Raised([108, 112, 116, 48])| == 4;
  }

  /** A segment of letters, digits, hyphens and underscores that is no device name is accepted. */
  lemma PlainSegment(rules: TextRules, segment: Text)
    requires segment != [] && !rules.control(segment) && !Reserved(segment)
    requires forall i | 0 <= i < |segment| :: LowerOrDigit(segment[i]) || segment[i] == 45 || segment[i] == 95
    ensures ValidSegment(rules, segment)
  {
    hide Reserved;
    StemWhole(segment);
  }

  lemma {:induction false} StemWhole(s: Text)
    requires DOT !in s
    ensures Stem(s) == s
  {
    if s != [] { StemWhole(s[1..]); }
  }

  lemma {:induction false} StemOf(stem: Text, rest: Text)
    requires DOT !in stem
    ensures Stem(stem + [46] + rest) == stem
  {
    if stem != [] {
      StemOf(stem[1..], rest);
      assert (stem + [46] + rest)[1..] == stem[1..] + [46] + rest;
    }
  }

  /** A path is refused when empty, too long, not normalised, absolute, or with a refused segment. */
  lemma PathRefused(rules: TextRules, path: Text, i: nat)
    ensures !ValidPath(rules, []) && (|path| > 4096 || !rules.nfc(path) || (path != [] && path[0] == 47) ==> !ValidPath(rules, path))
    ensures i < |Segments(path)| && !ValidSegment(rules, Segments(path)[i]) ==> !ValidPath(rules, path)
  {
    hide Segments, ValidSegment;
  }

  /** Segments without a slash join to a path that is accepted exactly when it is at most 4096 bytes,
      normalised, and each of them is accepted. */
  lemma PathAcceptedIff(rules: TextRules, s: seq<Text>)
    requires s != [] && forall i | 0 <= i < |s| :: SLASH !in s[i]
    ensures ValidPath(rules, Join(s)) <==>
      |Join(s)| <= 4096 && rules.nfc(Join(s)) && forall i | 0 <= i < |s| :: ValidSegment(rules, s[i])
  {
    hide Segments, Join, ValidSegment;
    SegmentsJoin(s);
    JoinStarts(s);
    if ValidSegment(rules, s[0]) { SegmentRefused(rules, [], 0); }
  }

  lemma {:induction false} JoinStarts(s: seq<Text>)
    requires s != []
    ensures s[0] <= Join(s)
  {
    if |s| > 1 { JoinStarts(s[..|s| - 1]); }
  }

  lemma TargetAcceptedIff(rules: TextRules, target: Text)
    ensures ValidTarget(rules, target) <==> 0 < |target| <= 4096 && !rules.control(target)
  {
  }

  // --- entries and packs ---------------------------------------------------------------------------------------

  /** Object sizes and stamps: 64 MiB bounds a data record and not a hole, an empty blob has the
      digest of nothing, and a named stamp has a version from one. */
  lemma BodyRules(rules: TextRules, d: Digest, n: nat, stamp: Stamp)
    ensures RecordsOk([Data(d, n)], n) <==> 0 < n <= 67_108_864
    ensures RecordsOk([Hole(n)], n) <==> 0 < n < 18_446_744_073_709_551_616
    ensures BodyOk(rules, Blob(n, d)) <==> n < 18_446_744_073_709_551_616 && (n == 0 ==> d == EMPTY_BLOB_DIGEST)
    ensures stamp.Named? && StampOk(rules, stamp) ==> 0 < stamp.version < 4_294_967_296 && ContractName(stamp.name) && rules.utf8(stamp.name)
    ensures stamp.Named? && 0 < stamp.version < 4_294_967_296 && ContractName(stamp.name) && rules.utf8(stamp.name) ==> StampOk(rules, stamp)
    ensures !stamp.Named? ==> StampOk(rules, stamp)
  {
    RunRules(d, n, n);
    assert [Data(d, n)][0] == Data(d, n) && [Hole(n)][0] == Hole(n);
    assert ValidRun([Data(d, n)], n) ==> PositiveLengths([Data(d, n)]);
    assert ValidRun([Hole(n)], n) ==> PositiveLengths([Hole(n)]);
  }

  /** A pack of two: each from one byte to 64 MiB, together within 64 MiB, digests ascending. */
  lemma PackRules(a: PackObject, b: PackObject)
    ensures !PackOk([]) && (PackOk([a]) <==> 0 < |a.bytes| <= 67_108_864)
    ensures PackOk([a, b]) <==>
      0 < |a.bytes| && 0 < |b.bytes| && |a.bytes| + |b.bytes| <= 67_108_864 && Before(a.digest, b.digest)
  {
    hide Before;
    assert [a][1..] == [] && [a, b][1..] == [b] && [b][1..] == [];
    assert ObjectsOk([a], 0, None) <==> 0 < |a.bytes| <= MAX_OBJECT_SIZE && |a.bytes| <= MAX_PACK_PAYLOAD;
    assert ObjectsOk([b], |a.bytes|, Some(a.digest)) <==>
      0 < |b.bytes| <= MAX_OBJECT_SIZE && |a.bytes| + |b.bytes| <= MAX_PACK_PAYLOAD && Before(a.digest, b.digest);
  }

  /** Contract names: `flux-2.a_b` is one; without a dot, with an upper-case letter, with a leading
      hyphen, or with an underscore in the producer it is not. */
  lemma ContractNames()
    ensures ContractName([102, 45, 50, 46, 97, 95, 98])
    ensures !ContractName([97]) && !ContractName([65, 46, 97]) && !ContractName([45, 97, 46, 98]) && !ContractName([97, 95, 46, 98])
    ensures !ContractName([97, 46]) && !ContractName([46, 97])
  {
    assert NamedAt([102, 45, 50, 46, 97, 95, 98], 3);
    var under: Text := [97, 95, 46, 98];
    assert under[1] == 95;
  }
}
