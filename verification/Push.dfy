/** The push protocol: the canonical missing set, greedy packs, and the two budgeted loops. */
module Push {
  import opened Buffers
  import opened Records
  import opened Tfm1
  import opened Tfm1Finish
  import opened Tfp1

  datatype Owed = Owed(digest: Digest, length: nat)

  // --- the closure ------------------------------------------------------------------------------------

  function RunOwed(records: seq<FileRecord>): seq<Owed> {
    if records == [] then []
    else (if records[0].Data? then [Owed(records[0].digest, records[0].length)] else []) + RunOwed(records[1..])
  }

  /** Every data record, in manifest order. */
  function AllOwed(entries: seq<Item<Entry>>): seq<Owed> {
    if entries == [] then []
    else (if entries[0].entry.File? then RunOwed(BodyRecords(entries[0].entry.body)) else []) + AllOwed(entries[1..])
  }

  /** The first row of each digest not yet seen. */
  function Firsts(rows: seq<Owed>, seen: set<Digest>): seq<Owed>
    decreases |rows|
  {
    if rows == [] then []
    else if rows[0].digest in seen then Firsts(rows[1..], seen)
    else [rows[0]] + Firsts(rows[1..], seen + {rows[0].digest})
  }

  function DigestsOf(rows: seq<Owed>): set<Digest> { set i | 0 <= i < |rows| :: rows[i].digest }

  ghost predicate Unique(rows: seq<Owed>) { forall i, j | 0 <= i < j < |rows| :: rows[i].digest != rows[j].digest }

  lemma {:induction false} FirstsUnique(rows: seq<Owed>, seen: set<Digest>)
    ensures Unique(Firsts(rows, seen))
    ensures DigestsOf(Firsts(rows, seen)) == DigestsOf(rows) - seen
    ensures forall o | o in Firsts(rows, seen) :: o in rows
    decreases |rows|
  {
    if rows != [] {
      var head, more := rows[0], rows[1..];
      DigestsSplit(rows);
      if head.digest in seen {
        FirstsUnique(more, seen);
      } else {
        FirstsUnique(more, seen + {head.digest});
        var firsts := Firsts(more, seen + {head.digest});
        assert Firsts(rows, seen) == [head] + firsts;
        DigestsSplit([head] + firsts);
        assert ([head] + firsts)[1..] == firsts;
        forall i | 0 <= i < |firsts| ensures firsts[i].digest != head.digest { assert firsts[i].digest in DigestsOf(firsts); }
      }
    }
  }

  lemma DigestsSplit(rows: seq<Owed>)
    requires rows != []
    ensures DigestsOf(rows) == {rows[0].digest} + DigestsOf(rows[1..])
  {
    forall d | d in DigestsOf(rows) ensures d in {rows[0].digest} + DigestsOf(rows[1..]) {
      var i :| 0 <= i < |rows| && rows[i].digest == d;
      if i > 0 { assert rows[1..][i - 1].digest == d; }
    }
    forall d | d in DigestsOf(rows[1..]) ensures d in DigestsOf(rows) {
      var i :| 0 <= i < |rows[1..]| && rows[1..][i].digest == d;
      assert rows[i + 1].digest == d;
    }
  }

  /** `closure` and the firsts still in `rest` are the firsts of all rows. */
  ghost predicate Collected(all: seq<Owed>, closure: seq<Owed>, seen: set<Digest>, rest: seq<Owed>) {
    Firsts(all, {}) == closure + Firsts(rest, seen)
  }

  lemma CollectRow(all: seq<Owed>, closure: seq<Owed>, seen: set<Digest>, o: Owed, rest: seq<Owed>)
    requires Collected(all, closure, seen, [o] + rest)
    ensures if o.digest in seen then Collected(all, closure, seen, rest) else Collected(all, closure + [o], seen + {o.digest}, rest)
  {
    assert ([o] + rest)[1..] == rest;
    if o.digest !in seen {
      assert closure + ([o] + Firsts(rest, seen + {o.digest})) == closure + [o] + Firsts(rest, seen + {o.digest});
    }
  }

  /** The rows of a file's record and what follows them. */
  lemma RecordRows(records: seq<FileRecord>, k: nat, rest: seq<Owed>)
    requires k < |records|
    ensures RunOwed(records[k..]) + rest == (if records[k].Data? then [Owed(records[k].digest, records[k].length)] else [])
      + (RunOwed(records[k + 1..]) + rest)
  {
    assert records[k..][1..] == records[k + 1..];
  }

  lemma NoRows(rest: seq<Owed>)
    ensures RunOwed([]) + rest == rest
  {
  }

  lemma EntryRows(entries: seq<Item<Entry>>, i: nat)
    requires i < |entries|
    ensures AllOwed(entries[i..])
      == (if entries[i].entry.File? then RunOwed(BodyRecords(entries[i].entry.body)) else []) + AllOwed(entries[i + 1..])
  {
    assert entries[i..][1..] == entries[i + 1..];
  }

  lemma Starts(entries: seq<Item<Entry>>)
    ensures Collected(AllOwed(entries), [], {}, AllOwed(entries[0..]))
  {
    assert entries[0..] == entries;
  }

  lemma Ends(all: seq<Owed>, closure: seq<Owed>, seen: set<Digest>, entries: seq<Item<Entry>>)
    requires Collected(all, closure, seen, AllOwed(entries[|entries|..]))
    ensures closure == Firsts(all, {})
  {
    assert closure + [] == closure;
  }

  /** The unique closure of a snapshot's data records, in manifest order. */
  method DataClosure(s: Snapshot) returns (closure: seq<Owed>)
    ensures closure == Firsts(AllOwed(s.entries), {}) && Unique(closure)
    ensures DigestsOf(closure) == DigestsOf(AllOwed(s.entries))
  {
    hide Firsts, AllOwed, RunOwed, DigestsOf, Unique, Collected, BodyRecords;
    closure := [];
    var seen: set<Digest> := {};
    ghost var all := AllOwed(s.entries);
    Starts(s.entries);
    for i := 0 to |s.entries|
      invariant Collected(all, closure, seen, AllOwed(s.entries[i..]))
    {
      EntryRows(s.entries, i);
      if s.entries[i].entry.File? {
        closure, seen := CollectRun(BodyRecords(s.entries[i].entry.body), closure, seen, all, AllOwed(s.entries[i + 1..]));
      } else {
        assert [] + AllOwed(s.entries[i + 1..]) == AllOwed(s.entries[i + 1..]);
      }
    }
    Ends(all, closure, seen, s.entries);
    FirstsUnique(all, {});
    assert DigestsOf(all) - {} == DigestsOf(all);
  }

  method CollectRun(records: seq<FileRecord>, before: seq<Owed>, known: set<Digest>, ghost all: seq<Owed>, ghost rest: seq<Owed>)
      returns (closure: seq<Owed>, seen: set<Digest>)
    requires Collected(all, before, known, RunOwed(records) + rest)
    ensures Collected(all, closure, seen, rest)
  {
    hide Firsts, AllOwed, RunOwed, Collected;
    closure, seen := before, known;
    assert records[0..] == records;
    for k := 0 to |records|
      invariant Collected(all, closure, seen, RunOwed(records[k..]) + rest)
    {
      RecordRows(records, k, rest);
      ghost var later := RunOwed(records[k + 1..]) + rest;
      if records[k].Data? {
        CollectRow(all, closure, seen, Owed(records[k].digest, records[k].length), later);
        if records[k].digest !in seen {
          closure, seen := closure + [Owed(records[k].digest, records[k].length)], seen + {records[k].digest};
        }
      } else {
        assert [] + later == later;
      }
    }
    assert records[|records|..] == [];
    NoRows(rest);
  }

  // --- the missing set --------------------------------------------------------------------------------

  /** `rows` is `all` with some rows left out, the rest in order. */
  predicate Sublist(rows: seq<Owed>, all: seq<Owed>)
    decreases |all|
  {
    rows == [] || (all != [] && ((rows[0] == all[0] && Sublist(rows[1..], all[1..])) || Sublist(rows, all[1..])))
  }

  /** The rows of a sublist are rows of the list. */
  lemma {:induction false} SublistMembers(rows: seq<Owed>, all: seq<Owed>)
    requires Sublist(rows, all)
    ensures forall o | o in rows :: o in all
    decreases |all|
  {
    if rows != [] {
      assert rows == [rows[0]] + rows[1..] && all == [all[0]] + all[1..];
      if rows[0] == all[0] && Sublist(rows[1..], all[1..]) {
        SublistMembers(rows[1..], all[1..]);
      } else {
        SublistMembers(rows, all[1..]);
      }
    }
  }

  /** A list whose first digest is not the row's, nor any up to `k`: the row can only come later. */
  lemma {:induction false} SkipTo(rows: seq<Owed>, all: seq<Owed>, k: nat)
    requires rows != [] && k <= |all| && forall i | 0 <= i < k :: all[i].digest != rows[0].digest
    ensures Sublist(rows, all) <==> Sublist(rows, all[k..])
  {
    if k == 0 {
      assert all[0..] == all;
    } else {
      SkipTo(rows, all[1..], k - 1);
      assert all[1..][k - 1..] == all[k..];
    }
  }

  /** With unique digests, a row is where its digest is or nowhere. */
  lemma TakeRow(rows: seq<Owed>, all: seq<Owed>)
    requires rows != [] && all != [] && Unique(all) && all[0].digest == rows[0].digest
    ensures Sublist(rows, all) <==> rows[0] == all[0] && Sublist(rows[1..], all[1..])
  {
    assert rows[0] in rows;
    assert forall i | 0 <= i < |all[1..]| :: all[1..][i].digest != rows[0].digest;
    if Sublist(rows, all[1..]) {
      SublistMembers(rows, all[1..]);
    }
  }

  method VerifyCanonicalMissing(closure: seq<Owed>, missing: seq<Owed>) returns (ok: bool)
    requires Unique(closure)
    ensures ok <==> Sublist(missing, closure)
  {
    hide Sublist;
    var cursor := 0;
    assert missing[0..] == missing && closure[0..] == closure;
    for k := 0 to |missing|
      invariant 0 <= cursor <= |closure| && (Sublist(missing, closure) <==> Sublist(missing[k..], closure[cursor..]))
    {
      var rows, all := missing[k..], closure[cursor..];
      var offset := 0;
      while offset < |all| && all[offset].digest != missing[k].digest
        invariant 0 <= offset <= |all| && forall i | 0 <= i < offset :: all[i].digest != missing[k].digest
      {
        offset := offset + 1;
      }
      SkipTo(rows, all, offset);
      if offset == |all| {
        NothingLeft(rows);
        return false;
      }
      assert all[offset..] == closure[cursor + offset..];
      TakeRow(rows, all[offset..]);
      assert rows[1..] == missing[k + 1..] && all[offset..][1..] == closure[cursor + offset + 1..];
      cursor := cursor + offset + 1;
      if missing[k].length != closure[cursor - 1].length {
        return false;
      }
    }
    Nothing(closure[cursor..]);
    return true;
  }

  lemma NothingLeft(rows: seq<Owed>)
    requires rows != []
    ensures !Sublist(rows, [])
  {
  }

  lemma Nothing(all: seq<Owed>)
    ensures Sublist([], all)
  {
  }

  ghost predicate LanesOk(closure: seq<Owed>, missing: seq<Owed>, blobs: seq<Owed>, limit: nat) {
    && Sublist(missing, closure) && Sublist(blobs, closure)
    && (forall i | 0 <= i < |missing| :: missing[i].length <= limit)
    && (forall i | 0 <= i < |blobs| :: blobs[i].length > limit)
  }

  method VerifyLanes(closure: seq<Owed>, missing: seq<Owed>, blobs: seq<Owed>, limit: nat) returns (ok: bool)
    requires Unique(closure)
    ensures ok <==> LanesOk(closure, missing, blobs, limit)
  {
    hide Sublist;
    var packs := VerifyCanonicalMissing(closure, missing);
    if !packs {
      return false;
    }
    var parts := VerifyCanonicalMissing(closure, blobs);
    if !parts {
      return false;
    }
    for i := 0 to |missing|
      invariant forall k | 0 <= k < i :: missing[k].length <= limit
    {
      if missing[i].length > limit {
        return false;
      }
    }
    for i := 0 to |blobs|
      invariant forall k | 0 <= k < i :: blobs[k].length > limit
    {
      if blobs[i].length <= limit {
        return false;
      }
    }
    return true;
  }

  // --- greedy packs -------------------------------------------------------------------------------------

  function Weight(rows: seq<Owed>): nat { if rows == [] then 0 else Weight(rows[..|rows| - 1]) + rows[|rows| - 1].length }

  predicate Fits(rows: seq<Owed>, limit: nat) { 0 < |rows| <= MAX_PACK_OBJECTS && Weight(rows) <= limit }

  /** Where group `k` starts in the concatenation. */
  function Start(groups: seq<seq<Owed>>, k: nat): nat
    requires k <= |groups|
  {
    |Concat(groups[..k])|
  }

  /** Consecutive packs of `rows`, each within both bounds. */
  ghost predicate Packing(groups: seq<seq<Owed>>, rows: seq<Owed>, limit: nat) {
    Concat(groups) == rows && forall k | 0 <= k < |groups| :: Fits(groups[k], limit)
  }

  /** Group `k` could not have taken the row after it. */
  ghost predicate Closed(groups: seq<seq<Owed>>, k: nat, limit: nat)
    requires k + 1 < |groups|
  {
    groups[k + 1] != [] && !Fits(groups[k] + [groups[k + 1][0]], limit)
  }

  ghost predicate Full(groups: seq<seq<Owed>>, limit: nat) {
    forall k | 0 <= k < |groups| - 1 :: Closed(groups, k, limit)
  }

  lemma ConcatStep(groups: seq<seq<Owed>>, k: nat)
    requires k < |groups|
    ensures Concat(groups[..k + 1]) == Concat(groups[..k]) + groups[k]
    ensures Start(groups, k + 1) == Start(groups, k) + |groups[k]|
  {
    assert groups[..k + 1][..k] == groups[..k];
  }

  lemma {:induction false} ConcatPrefix(groups: seq<seq<Owed>>, k: nat)
    requires k <= |groups|
    ensures Start(groups, k) <= |Concat(groups)| && Concat(groups)[..Start(groups, k)] == Concat(groups[..k])
    decreases |groups| - k
  {
    if k == |groups| {
      assert groups[..k] == groups;
    } else {
      ConcatPrefix(groups, k + 1);
      ConcatStep(groups, k);
      assert Concat(groups)[..Start(groups, k)] == Concat(groups)[..Start(groups, k + 1)][..Start(groups, k)];
    }
  }

  /** Group `k` is its slice of the rows. */
  lemma GroupSlice(groups: seq<seq<Owed>>, rows: seq<Owed>, k: nat)
    requires Concat(groups) == rows && k < |groups|
    ensures Start(groups, k) + |groups[k]| == Start(groups, k + 1) <= |rows|
    ensures rows[Start(groups, k)..Start(groups, k + 1)] == groups[k]
  {
    hide Concat;
    ConcatPrefix(groups, k);
    ConcatPrefix(groups, k + 1);
    ConcatStep(groups, k);
    var here := Concat(groups[..k + 1]);
    assert rows[Start(groups, k)..Start(groups, k + 1)] == here[Start(groups, k)..];
  }

  lemma {:induction false} WeightAppend(a: seq<Owed>, b: seq<Owed>)
    ensures Weight(a + b) == Weight(a) + Weight(b)
  {
    if b == [] {
      assert a + b == a;
    } else {
      WeightAppend(a, b[..|b| - 1]);
      assert (a + b)[..|a + b| - 1] == a + b[..|b| - 1];
    }
  }

  /** A part of a pack that fits, fits. */
  lemma PartFits(rows: seq<Owed>, limit: nat, i: nat, j: nat, m: nat, n: nat)
    requires i <= m < n <= j <= |rows| && Fits(rows[i..j], limit)
    ensures Fits(rows[m..n], limit)
  {
    hide Weight;
    assert rows[i..j] == rows[i..m] + rows[m..n] + rows[n..j];
    WeightAppend(rows[i..m] + rows[m..n], rows[n..j]);
    WeightAppend(rows[i..m], rows[m..n]);
  }

  /** Greedy packing stays ahead: after any number of packs it has covered at least as much. */
  lemma {:induction false} GreedyStaysAhead(groups: seq<seq<Owed>>, others: seq<seq<Owed>>, rows: seq<Owed>, limit: nat, k: nat)
    requires Packing(groups, rows, limit) && Full(groups, limit) && Packing(others, rows, limit)
    requires k <= |groups| && k <= |others|
    ensures Start(others, k) <= Start(groups, k)
  {
    hide Fits, Concat;
    if k > 0 {
      GreedyStaysAhead(groups, others, rows, limit, k - 1);
      GroupSlice(groups, rows, k - 1);
      GroupSlice(others, rows, k - 1);
      if k < |groups| && Start(others, k) > Start(groups, k) {
        GroupSlice(groups, rows, k);
        var i, j := Start(groups, k - 1), Start(groups, k);
        assert Closed(groups, k - 1, limit);
        assert rows[j] == groups[k][0];
        assert rows[i..j + 1] == groups[k - 1] + [groups[k][0]];
        PartFits(rows, limit, Start(others, k - 1), Start(others, k), i, j + 1);
      }
      if k == |groups| {
        assert groups[..k] == groups;
      }
    }
  }

  /** No packing of the same rows into consecutive packs uses fewer. */
  lemma GreedyIsFewest(groups: seq<seq<Owed>>, others: seq<seq<Owed>>, rows: seq<Owed>, limit: nat)
    requires Packing(groups, rows, limit) && Full(groups, limit) && Packing(others, rows, limit)
    ensures |groups| <= |others|
  {
    hide Concat, Fits;
    if |others| < |groups| {
      var k := |others|;
      GreedyStaysAhead(groups, others, rows, limit, k);
      assert others[..k] == others;
      GroupSlice(groups, rows, k);
      NonEmpty(groups[k], limit);
    }
  }

  lemma NonEmpty(rows: seq<Owed>, limit: nat)
    requires Fits(rows, limit)
    ensures rows != []
  {
  }

  /** Each row joins the last pack if it fits there, and opens a new one otherwise. */
  function Groups(rows: seq<Owed>, limit: nat): seq<seq<Owed>> {
    if rows == [] then []
    else
      var packs, next := Groups(rows[..|rows| - 1], limit), rows[|rows| - 1];
      if packs != [] && Fits(packs[|packs| - 1] + [next], limit) then packs[..|packs| - 1] + [packs[|packs| - 1] + [next]]
      else packs + [[next]]
  }

  lemma {:induction false} GroupsPack(rows: seq<Owed>, limit: nat)
    requires forall i | 0 <= i < |rows| :: rows[i].length <= limit
    ensures Packing(Groups(rows, limit), rows, limit) && Full(Groups(rows, limit), limit)
  {
    hide Weight, Packing, Full;
    if rows == [] {
      NoPacks(limit);
    } else {
      var init, next := rows[..|rows| - 1], rows[|rows| - 1];
      assert rows == init + [next];
      GroupsPack(init, limit);
      var packs := Groups(init, limit);
      WeightOne([], next);
      if packs == [] {
        Unpacked(init, limit);
        FirstGroup(limit, next);
        assert packs + [[next]] == [[next]] && init + [next] == [next];
      } else if Fits(packs[|packs| - 1] + [next], limit) {
        var last := packs[|packs| - 1];
        assert packs == packs[..|packs| - 1] + [last];
        LastFits(packs, init, limit);
        GrowGroup(packs[..|packs| - 1], last, init, limit, next);
      } else {
        OpenGroup(packs, init, limit, next);
      }
    }
  }

  lemma NoPacks(limit: nat)
    ensures Packing([], [], limit) && Full([], limit)
  {
  }

  lemma Unpacked(rows: seq<Owed>, limit: nat)
    requires Packing([], rows, limit)
    ensures rows == []
  {
  }

  lemma LastFits(packs: seq<seq<Owed>>, rows: seq<Owed>, limit: nat)
    requires packs != [] && Packing(packs, rows, limit)
    ensures packs[|packs| - 1] != []
  {
    hide Concat;
    assert Fits(packs[|packs| - 1], limit);
  }

  /** Whole objects, in order, into as few packs as the bounds allow. */
  method Assemble(missing: seq<Owed>, limit: nat) returns (groups: seq<seq<Owed>>)
    requires forall i | 0 <= i < |missing| :: missing[i].length <= limit
    ensures groups == Groups(missing, limit) && Packing(groups, missing, limit) && Full(groups, limit)
    ensures forall others | Packing(others, missing, limit) :: |groups| <= |others|
  {
    hide Fits, Concat, Weight, Packing, Full, Groups;
    groups := [];
    var group: seq<Owed>, weight := [], 0;
    AssembleStart(limit);
    assert missing[..0] == [];
    for i := 0 to |missing|
      invariant Assembled(groups, group, missing[..i], limit) && weight == Weight(group)
      invariant i > 0 ==> group != []
    {
      var next := missing[i];
      assert missing[..i + 1] == missing[..i] + [next];
      AssembleStep(groups, group, missing[..i], limit, next);
      if group != [] && (weight + next.length > limit || |group| >= MAX_PACK_OBJECTS) {
        groups, group, weight := groups + [group], [], 0;
      }
      WeightOne(group, next);
      group, weight := group + [next], weight + next.length;
    }
    assert missing[..|missing|] == missing;
    if group != [] {
      groups := groups + [group];
    }
    GroupsPack(missing, limit);
    forall others | Packing(others, missing, limit) ensures |groups| <= |others| { GreedyIsFewest(groups, others, missing, limit); }
  }

  /** What has been packed, and the group being filled. */
  ghost predicate Assembled(groups: seq<seq<Owed>>, group: seq<Owed>, rows: seq<Owed>, limit: nat) {
    Groups(rows, limit) == (if group == [] then groups else groups + [group]) && (group == [] ==> groups == [])
  }

  lemma AssembleStart(limit: nat)
    ensures Assembled([], [], [], limit) && Weight([]) == 0
  {
  }

  lemma WeightOne(group: seq<Owed>, next: Owed)
    ensures Weight(group + [next]) == Weight(group) + next.length && Weight([]) == 0 && Weight([next]) == next.length
  {
    assert (group + [next])[..|group|] == group;
    assert [next][..0] == [];
  }

  lemma AssembleStep(groups: seq<seq<Owed>>, group: seq<Owed>, rows: seq<Owed>, limit: nat, next: Owed)
    requires Assembled(groups, group, rows, limit)
    ensures var full := group != [] && (Weight(group) + next.length > limit || |group| >= MAX_PACK_OBJECTS);
      if full then Assembled(groups + [group], [] + [next], rows + [next], limit)
      else Assembled(groups, group + [next], rows + [next], limit)
  {
    hide Weight;
    WeightOne(group, next);
    assert (rows + [next])[..|rows|] == rows && [] + [next] == [next];
    if group != [] {
      assert (groups + [group])[..|groups|] == groups;
    } else {
      assert groups + [group + [next]] == [[next]];
    }
  }

  lemma OpenGroup(packs: seq<seq<Owed>>, rows: seq<Owed>, limit: nat, next: Owed)
    requires packs != [] && Packing(packs, rows, limit) && Full(packs, limit)
    requires !Fits(packs[|packs| - 1] + [next], limit) && Fits([next], limit)
    ensures Packing(packs + [[next]], rows + [next], limit) && Full(packs + [[next]], limit)
  {
    hide Fits;
    var after := packs + [[next]];
    ConcatSnoc(packs, [next]);
    forall k | 0 <= k < |after| - 1 ensures Closed(after, k, limit) { assert k < |packs| - 1 ==> Closed(packs, k, limit); }
  }

  lemma GrowGroup(groups: seq<seq<Owed>>, group: seq<Owed>, rows: seq<Owed>, limit: nat, next: Owed)
    requires group != [] && Packing(groups + [group], rows, limit) && Full(groups + [group], limit) && Fits(group + [next], limit)
    ensures Packing(groups + [group + [next]], rows + [next], limit) && Full(groups + [group + [next]], limit)
  {
    hide Fits;
    var before, after := groups + [group], groups + [group + [next]];
    ConcatSnoc(groups, group);
    ConcatSnoc(groups, group + [next]);
    assert Concat(groups) + (group + [next]) == Concat(groups) + group + [next];
    forall k | 0 <= k < |after| ensures Fits(after[k], limit) { assert k < |groups| ==> after[k] == before[k]; }
    forall k | 0 <= k < |after| - 1 ensures Closed(after, k, limit) { assert Closed(before, k, limit); }
  }

  lemma FirstGroup(limit: nat, next: Owed)
    requires Fits([next], limit)
    ensures Packing([[next]], [next], limit) && Full([[next]], limit)
  {
    hide Fits;
    ConcatOne([next]);
  }

  lemma ConcatSnoc(groups: seq<seq<Owed>>, group: seq<Owed>)
    ensures Concat(groups + [group]) == Concat(groups) + group
  {
    assert (groups + [group])[..|groups|] == groups;
  }
}
