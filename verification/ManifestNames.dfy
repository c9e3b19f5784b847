/** What a manifest names, body by body: the objects a push owes are the objects the snapshot
    roots, each at its length, in manifest order. */
module ManifestNames {
  import opened Records
  import opened Tfm1
  import opened Tfm1Finish
  import opened Push
  import opened SealedManifest

  /** The entry is a file whose body names the object `d` of `n` bytes: a data record of a tensor
      body, or the one object of a blob that is not empty. */
  ghost predicate BodyHas(entry: Entry, d: Digest, n: nat) {
    entry.File? &&
    match entry.body
    case Tensor(_, _, _, records) => Data(d, n) in records
    case Blob(size, digest) => 0 < size == n && digest == d
  }

  ghost predicate Names(entries: seq<Item<Entry>>, d: Digest, n: nat) {
    exists i :: 0 <= i < |entries| && BodyHas(entries[i].entry, d, n)
  }

  lemma {:induction false} RunOwes(records: seq<FileRecord>, o: Owed)
    ensures o in RunOwed(records) <==> Data(o.digest, o.length) in records
  {
    if records != [] {
      RunOwes(records[1..], o);
      assert records == [records[0]] + records[1..];
    }
  }

  lemma BodyOwes(entry: Entry, o: Owed)
    requires entry.File?
    ensures o in RunOwed(BodyRecords(entry.body)) <==> BodyHas(entry, o.digest, o.length)
  {
    hide RunOwed;
    RunOwes(BodyRecords(entry.body), o);
  }

  /** What a snapshot owes is what its bodies name, with their lengths. */
  lemma {:induction false} Owes(entries: seq<Item<Entry>>, o: Owed)
    ensures o in AllOwed(entries) <==> Names(entries, o.digest, o.length)
  {
    hide RunOwed, BodyHas;
    if entries != [] {
      var head, more := entries[0].entry, entries[1..];
      Owes(more, o);
      if head.File? { BodyOwes(head, o); } else { assert !BodyHas(head, o.digest, o.length) by { NoBody(head, o); } }
      NamesSplit(entries, o.digest, o.length);
    }
  }

  lemma NoBody(entry: Entry, o: Owed)
    requires !entry.File?
    ensures !BodyHas(entry, o.digest, o.length)
  {
  }

  lemma NamesSplit(entries: seq<Item<Entry>>, d: Digest, n: nat)
    requires entries != []
    ensures Names(entries, d, n) <==> BodyHas(entries[0].entry, d, n) || Names(entries[1..], d, n)
  {
    hide BodyHas;
    if Names(entries, d, n) {
      var i :| 0 <= i < |entries| && BodyHas(entries[i].entry, d, n);
      assert i > 0 ==> entries[1..][i - 1] == entries[i];
    }
    if Names(entries[1..], d, n) {
      var i :| 0 <= i < |entries[1..]| && BodyHas(entries[1..][i].entry, d, n);
      assert entries[i + 1] == entries[1..][i];
    }
  }

  /** A file's rows come in record order. */
  lemma {:induction false} RecordsInOrder(a: seq<FileRecord>, b: seq<FileRecord>)
    ensures RunOwed(a + b) == RunOwed(a) + RunOwed(b)
  {
    hide RunOwed;
    if a == [] {
      NoRows([]);
      assert a + b == b;
    } else {
      RecordsInOrder(a[1..], b);
      HeadRow(a);
      HeadRow(a + b);
      assert (a + b)[1..] == a[1..] + b;
    }
  }

  lemma HeadRow(records: seq<FileRecord>)
    requires records != []
    ensures RunOwed(records)
      == (if records[0].Data? then [Owed(records[0].digest, records[0].length)] else []) + RunOwed(records[1..])
  {
  }

  /** The rows of a listing's first part come first, then those of the rest. */
  lemma {:induction false} OwedInOrder(a: seq<Item<Entry>>, b: seq<Item<Entry>>)
    ensures AllOwed(a + b) == AllOwed(a) + AllOwed(b)
    ensures |a| == 1 && a[0].entry.File? ==> AllOwed(a) == RunOwed(BodyRecords(a[0].entry.body))
    decreases |a|
  {
    hide RunOwed, AllOwed;
    if a == [] {
      NothingOwed();
      assert a + b == b;
    } else {
      OwedInOrder(a[1..], b);
      HeadOwed(a);
      HeadOwed(a + b);
      assert (a + b)[1..] == a[1..] + b;
      if |a| == 1 { NothingOwed(); }
    }
  }

  lemma NothingOwed()
    ensures AllOwed([]) == []
  {
  }

  lemma HeadOwed(entries: seq<Item<Entry>>)
    requires entries != []
    ensures AllOwed(entries)
      == (if entries[0].entry.File? then RunOwed(BodyRecords(entries[0].entry.body)) else []) + AllOwed(entries[1..])
  {
  }

  /** Of each digest the first row is kept, where it stands. */
  lemma {:induction false} FirstsInOrder(a: seq<Owed>, b: seq<Owed>, seen: set<Digest>)
    ensures Firsts(a + b, seen) == Firsts(a, seen) + Firsts(b, seen + DigestsOf(a))
    decreases |a|
  {
    hide DigestsOf;
    if a == [] {
      NoDigests();
      assert a + b == b && seen + {} == seen;
    } else {
      var head, more := a[0], a[1..];
      DigestsSplit(a);
      assert (a + b)[1..] == more + b && (a + b)[0] == head;
      if head.digest in seen {
        FirstsInOrder(more, b, seen);
        assert seen + DigestsOf(more) == seen + DigestsOf(a);
      } else {
        FirstsInOrder(more, b, seen + {head.digest});
        assert seen + {head.digest} + DigestsOf(more) == seen + DigestsOf(a);
      }
    }
  }

  lemma NoDigests()
    ensures DigestsOf([]) == {}
  {
  }

  /** The objects owed are the objects the snapshot's row keeps from collection. */
  lemma ClosureIsRooted(s: Snapshot, d: Digest)
    ensures d in DigestsOf(AllOwed(s.entries)) <==> d in ManifestObjects(s)
    ensures d in ManifestObjects(s) <==> exists n :: Names(s.entries, d, n)
  {
    hide AllOwed, Names;
    if d in DigestsOf(AllOwed(s.entries)) {
      var k :| 0 <= k < |AllOwed(s.entries)| && AllOwed(s.entries)[k].digest == d;
      Owes(s.entries, AllOwed(s.entries)[k]);
    }
    if n: nat :| Names(s.entries, d, n) {
      Owes(s.entries, Owed(d, n));
      assert Owed(d, n) in AllOwed(s.entries);
      var k :| 0 <= k < |AllOwed(s.entries)| && AllOwed(s.entries)[k] == Owed(d, n);
      NamedIsRooted(s, d, n);
    }
    if d in ManifestObjects(s) { RootedIsNamed(s, d); }
  }

  lemma NamedIsRooted(s: Snapshot, d: Digest, n: nat)
    requires Names(s.entries, d, n)
    ensures d in ManifestObjects(s)
  {
    var i :| 0 <= i < |s.entries| && BodyHas(s.entries[i].entry, d, n);
    var records := BodyRecords(s.entries[i].entry.body);
    assert Data(d, n) in records;
    var k :| 0 <= k < |records| && records[k] == Data(d, n);
    assert d in Digests(records);
  }

  lemma RootedIsNamed(s: Snapshot, d: Digest)
    requires d in ManifestObjects(s)
    ensures exists n :: Names(s.entries, d, n)
  {
    var i :| 0 <= i < |s.entries| && s.entries[i].entry.File? && d in Digests(BodyRecords(s.entries[i].entry.body));
    var records := BodyRecords(s.entries[i].entry.body);
    var k :| 0 <= k < |records| && records[k].Data? && records[k].digest == d;
    assert records[k] == Data(d, records[k].length) && records[k] in records;
    assert BodyHas(s.entries[i].entry, d, records[k].length);
    assert Names(s.entries, d, records[k].length);
  }
}
