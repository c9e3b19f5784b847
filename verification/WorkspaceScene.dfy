/** Two concrete families of runs: one that seals, leases and collects as the machine allows, and
    one that recreates a workspace under its seal and so loses an object its head names. */
module WorkspaceScene {
  import opened Wrappers
  import opened Records
  import opened Rechunk
  import opened Paths
  import opened Workspace
  import opened WorkspaceTree
  import opened WorkspaceNames
  import opened WorkspaceEffects
  import opened WorkspaceGc
  import opened WorkspaceRuns

  // --- a run that breaks it ------------------------------------------------------------------------------

  /** Two byte strings and a manifest that names both, a workspace and a one-segment path. */
  datatype Scene = Scene(x: Bytes, z: Bytes, manifest: Bytes, ws: Text, path: Text)

  ghost predicate Staged(w: World, s: Scene) {
    && w.hash(s.x) != w.hash(s.z) && w.hash(s.manifest) != w.hash(s.x) && w.hash(s.manifest) != w.hash(s.z)
    && w.names(s.manifest) == Some({w.hash(s.x), w.hash(s.z)})
    && SLASH !in s.path && ValidPath(w.rules, s.path)
  }

  /** A file of three equal chunks, as it is first committed. */
  function Chunks(w: World, s: Scene): seq<FileRecord> {
    [Data(w.hash(s.x), 1), Data(w.hash(s.x), 1), Data(w.hash(s.x), 1)]
  }

  /** The plan that keeps the first chunk and joins the other two into one new object. */
  function Joined(w: World, s: Scene): Filed {
    Filed(s.path, SealJob(SafetensorsV1, Unstamped, [Data(w.hash(s.x), 1), Data(w.hash(s.z), 2)], true, [w.hash(s.z)]))
  }

  /** The seal of one workspace is planned; the workspace is deleted, its objects are collected,
      it is created again and brought to the same generation; then the seal finishes. */
  function Steps(w: World, s: Scene): seq<Step> {
    [Create(s.ws), Put(s.x), BeginCommit(0, s.ws, [CreateFile(s.path, false, SafetensorsV1, Chunks(w, s))]), FinishCommit(0),
     BeginSeal(1, s.ws), Put(s.z), PlanSeal(1, [Joined(w, s)]),
     Delete(s.ws), Step.Pass, Step.Pass, Step.Pass, Put(s.z),
     Create(s.ws), BeginCommit(0, s.ws, [CreateFile(s.path, false, SafetensorsV1, [])]), FinishCommit(0),
     FinishSeal(1, s.manifest)]
  }

  const RECREATE := 12

  // The tables the run passes through.

  function Born(s: Scene, objects: Objects, epoch: nat): Tables {
    EMPTY.(workspaces := map[s.ws := Head(0, 1)], inodes := map[1 := Inode(s.ws, Dir)], objects := objects, epoch := epoch)
  }

  function Holding(s: Scene, objects: Objects, epoch: nat, generation: nat, records: seq<FileRecord>): Tables {
    EMPTY.(workspaces := map[s.ws := Head(generation, 1)], dirents := map[Slot(1, s.path) := 2],
           inodes := map[1 := Inode(s.ws, Dir), 2 := Inode(s.ws, File(false, SafetensorsV1, Unstamped, records))],
           objects := objects, epoch := epoch)
  }

  function Bare(objects: Objects, epoch: nat, quarantine: map<Digest, nat>): Tables {
    EMPTY.(objects := objects, epoch := epoch, quarantine := quarantine)
  }

  lemma FirstIds()
    ensures NextId({}) == 1 && NextId({1}) == 2
  {
    assert 1 in {1};
  }

  lemma Creates(s: Scene, objects: Objects, epoch: nat)
    ensures CreateWorkspace(Bare(objects, epoch, map[]), s.ws) == Ok(Born(s, objects, epoch))
  {
    hide NextId;
    FirstIds();
    var t := Bare(objects, epoch, map[]);
    assert t.inodes.Keys == {} && t.inodes[1 := Inode(s.ws, Dir)] == map[1 := Inode(s.ws, Dir)];
  }

  lemma FilePath(w: World, s: Scene)
    requires Staged(w, s)
    ensures SplitParent(s.path) == (None, s.path) && Segments(s.path) == [s.path] && s.path != []
  {
    SplitWhole(s.path);
  }

  lemma Commits(w: World, s: Scene, objects: Objects, epoch: nat, records: seq<FileRecord>)
    requires Staged(w, s) && Digests(records) <= objects.Keys
    ensures Commit(w.rules, Born(s, objects, epoch), s.ws, [CreateFile(s.path, false, SafetensorsV1, records)])
      == Ok(Holding(s, objects, epoch, 1, records))
    ensures !BatchDropsRoot(Born(s, objects, epoch), s.ws, [CreateFile(s.path, false, SafetensorsV1, records)])
  {
    hide NextId, ValidPath, Segments, SplitParent, Digests;
    FirstIds();
    FilePath(w, s);
    var t, m := Born(s, objects, epoch), CreateFile(s.path, false, SafetensorsV1, records);
    assert t.inodes.Keys == {1};
    assert NewLeaf(w.rules, t, 1, s.path) == Ok(Slot(1, s.path));
    var next := AddNode(t, s.ws, Slot(1, s.path), File(false, SafetensorsV1, Unstamped, records));
    assert next.inodes == Holding(s, objects, epoch, 0, records).inodes;
    assert ApplyMutation(w.rules, t, s.ws, m) == Ok(next);
    assert ApplyAll(w.rules, next, s.ws, []) == Ok(next);
    assert [m][1..] == [];
    assert ApplyAll(w.rules, t, s.ws, [m]) == Ok(next);
    assert Referenced([m]) <= objects.Keys;
    var after := Holding(s, objects, epoch, 1, records);
    assert next.dirents == after.dirents && Advance(next, s.ws).workspaces == after.workspaces;
  }

  lemma Deletes(s: Scene, objects: Objects, epoch: nat, records: seq<FileRecord>)
    ensures DeleteWorkspace(Holding(s, objects, epoch, 1, records), s.ws) == Ok(Bare(objects, epoch, map[]))
  {
    var after := DeleteWorkspace(Holding(s, objects, epoch, 1, records), s.ws).value;
    assert after.workspaces == map[] && after.inodes == map[] && after.dirents == map[] && after.leases == map[];
  }

  /** With no root left, three passes empty a store that starts unquarantined. */
  lemma Collects(w: World, objects: Objects)
    ensures var marked := map d | d in objects :: 1;
      && Collect(w, Bare(objects, 0, map[])) == Ok(Bare(objects, 1, marked))
      && Collect(w, Bare(objects, 1, marked)) == Ok(Bare(objects, 2, marked))
      && Collect(w, Bare(objects, 2, marked)) == Ok(Bare(map[], 3, map[]))
  {
    var marked := map d | d in objects :: 1;
    forall epoch, q ensures Roots(w, Bare(objects, epoch, q)) == {} {}
    var a, b, c := Bare(objects, 0, map[]), Bare(objects, 1, marked), Bare(objects, 2, marked);
    assert Expired(w, a) == {} && Expired(w, b) == {} && Expired(w, c) == objects.Keys;
    assert a.objects - {} == objects && b.objects - {} == objects && c.objects - objects.Keys == map[];
    assert Quarantined(w, a) == marked && Quarantined(w, b) == marked && Quarantined(w, c) == map[];
  }

  /** Whatever the file holds, the plan is taken once its new object is there. */
  lemma Rebinds(w: World, s: Scene, objects: Objects, epoch: nat, records: seq<FileRecord>)
    requires Staged(w, s) && w.hash(s.z) in objects
    ensures Rebounded(w, Holding(s, objects, epoch, 1, records), s.ws, [Joined(w, s)])
      == Ok(Holding(s, objects, epoch, 2, Joined(w, s).job.records))
  {
    hide ValidPath, Segments, SplitParent, Digests;
    FilePath(w, s);
    var t, job := Holding(s, objects, epoch, 1, records), Joined(w, s);
    var next := Holding(s, objects, epoch, 1, job.job.records);
    assert NewDigests([job]) <= objects.Keys;
    WalkSnoc(t, 1, [], s.path);
    WalkSnoc(next, 1, [], s.path);
    assert [] + [s.path] == [s.path];
    assert ApplyMutation(w.rules, t, s.ws, SetRecords(s.path, job.job.records)).value.inodes == next.inodes;
    assert ApplyMutation(w.rules, t, s.ws, SetRecords(s.path, job.job.records)) == Ok(next);
    assert SetNode(next, 2, next.inodes[2].node.(planner := SafetensorsV1, contract := Unstamped)).inodes == next.inodes;
    assert ApplyJob(w.rules, t, s.ws, job) == Ok(next);
    assert ApplyJobs(w.rules, next, s.ws, []) == Ok(next);
    assert [job][1..] == [];
    assert ApplyJobs(w.rules, t, s.ws, [job]) == Ok(next);
    assert Advance(next, s.ws).workspaces == map[s.ws := Head(2, 1)];
  }

  function One(w: World, s: Scene): Objects { map[w.hash(s.x) := s.x] }
  function Two(w: World, s: Scene): Objects { map[w.hash(s.x) := s.x, w.hash(s.z) := s.z] }
  function Again(w: World, s: Scene): Objects { map[w.hash(s.z) := s.z] }
  function Marked(w: World, s: Scene): map<Digest, nat> { map d | d in Two(w, s) :: 1 }

  function First(w: World, s: Scene): Flight { Committing(s.ws, [CreateFile(s.path, false, SafetensorsV1, Chunks(w, s))]) }
  function Second(s: Scene): Flight { Committing(s.ws, [CreateFile(s.path, false, SafetensorsV1, [])]) }
  function Captured(w: World, s: Scene): Flight { Capturing(s.ws, 1, LinkedObjects(Holding(s, One(w, s), 0, 1, Chunks(w, s)), s.ws)) }
  function Planned(w: World, s: Scene): Flight { Sealing(s.ws, 1, Captured(w, s).captured, [Joined(w, s)]) }

  /** The configuration before step `k`. */
  function Before(w: World, s: Scene, k: nat): Config
    requires k <= 15
  {
    if k == 0 then INITIAL
    else if k == 1 then Config(Born(s, map[], 0), map[])
    else if k == 2 then Config(Born(s, One(w, s), 0), map[])
    else if k == 3 then Config(Born(s, One(w, s), 0), map[0 := First(w, s)])
    else if k == 4 then Config(Holding(s, One(w, s), 0, 1, Chunks(w, s)), map[])
    else if k == 5 then Config(Holding(s, One(w, s), 0, 1, Chunks(w, s)), map[1 := Captured(w, s)])
    else if k == 6 then Config(Holding(s, Two(w, s), 0, 1, Chunks(w, s)), map[1 := Captured(w, s)])
    else if k == 7 then Config(Holding(s, Two(w, s), 0, 1, Chunks(w, s)), map[1 := Planned(w, s)])
    else if k == 8 then Config(Bare(Two(w, s), 0, map[]), map[1 := Planned(w, s)])
    else if k == 9 then Config(Bare(Two(w, s), 1, Marked(w, s)), map[1 := Planned(w, s)])
    else if k == 10 then Config(Bare(Two(w, s), 2, Marked(w, s)), map[1 := Planned(w, s)])
    else if k == 11 then Config(Bare(map[], 3, map[]), map[1 := Planned(w, s)])
    else if k == 12 then Config(Bare(Again(w, s), 3, map[]), map[1 := Planned(w, s)])
    else if k == 13 then Config(Born(s, Again(w, s), 3), map[1 := Planned(w, s)])
    else if k == 14 then Config(Born(s, Again(w, s), 3), map[1 := Planned(w, s), 0 := Second(s)])
    else Config(Holding(s, Again(w, s), 3, 1, []), map[1 := Planned(w, s)])
  }

  ghost predicate Leads(w: World, s: Scene, k: nat)
    requires k < 15
  {
    && Next(w, Before(w, s, k), Steps(w, s)[k]) == Before(w, s, k + 1)
    && (k != RECREATE ==> Enabled(w, Before(w, s, k), Steps(w, s)[k]))
  }

  lemma ChunksAre(w: World, s: Scene)
    ensures Digests(Chunks(w, s)) == {w.hash(s.x)} && Total(Chunks(w, s)) == 3
    ensures RunsOk([CreateFile(s.path, false, SafetensorsV1, Chunks(w, s))])
    ensures Referenced([CreateFile(s.path, false, SafetensorsV1, Chunks(w, s))]) == {w.hash(s.x)}
  {
    var r, ms := Chunks(w, s), [CreateFile(s.path, false, SafetensorsV1, Chunks(w, s))];
    assert r[0].Data? && r[1..] == [Data(w.hash(s.x), 1), Data(w.hash(s.x), 1)] && r[1..][1..] == [Data(w.hash(s.x), 1)];
    assert Total(r[1..][1..]) == 1 && Total(r[1..]) == 2;
    assert w.hash(s.x) in Digests(ms[0].records);
  }

  lemma LeadsToFile(w: World, s: Scene, k: nat)
    requires Staged(w, s) && k < 3
    ensures Leads(w, s, k)
  {
    hide Commit, CreateWorkspace, ValidPath, LinkedObjects, Chunks, BatchDropsRoot, RunsOk, Referenced, Staged, Digests;
    if k == 0 {
      Creates(s, map[], 0);
    } else if k == 1 {
      assert map[][w.hash(s.x) := s.x] == One(w, s);
    } else {
      ChunksAre(w, s);
    }
  }

  lemma LeadsToCommit(w: World, s: Scene)
    requires Staged(w, s)
    ensures Leads(w, s, 3)
  {
    hide Commit, CreateWorkspace, ValidPath, LinkedObjects, Chunks, BatchDropsRoot, RunsOk, Referenced, Staged, Digests;
    ChunksAre(w, s);
    Commits(w, s, One(w, s), 0, Chunks(w, s));
    assert Before(w, s, 3).flights - {0} == map[];
  }

  lemma LeadsToPlan(w: World, s: Scene, k: nat)
    requires Staged(w, s) && 4 <= k < 7
    ensures Leads(w, s, k)
  {
    hide Commit, CreateWorkspace, ValidPath, LinkedObjects, Chunks, BatchDropsRoot, RunsOk, Referenced, Digests, JobsOk;
    if k == 5 {
      assert One(w, s)[w.hash(s.z) := s.z] == Two(w, s);
    } else if k == 6 {
      PlanIsOk(w, s);
      assert Before(w, s, 6).flights[1 := Planned(w, s)] == map[1 := Planned(w, s)];
    }
  }

  lemma PlanIsOk(w: World, s: Scene)
    ensures JobsOk(Captured(w, s).captured, [Joined(w, s)])
  {
    ChunksAre(w, s);
    var t := Holding(s, One(w, s), 0, 1, Chunks(w, s));
    assert Slot(1, s.path) in t.dirents && w.hash(s.x) in NodeObjects(t.inodes[2].node);
    assert w.hash(s.x) in LinkedObjects(t, s.ws);
  }

  lemma LeadsToCollected(w: World, s: Scene, k: nat)
    requires Staged(w, s) && 7 <= k < 12
    ensures Leads(w, s, k)
  {
    hide DeleteWorkspace, Collect, ValidPath, LinkedObjects, Chunks;
    if k == 7 {
      Deletes(s, Two(w, s), 0, Chunks(w, s));
    } else if k < 11 {
      Collects(w, Two(w, s));
    } else {
      assert map[][w.hash(s.z) := s.z] == Again(w, s);
    }
  }

  lemma LeadsToRecommit(w: World, s: Scene, k: nat)
    requires Staged(w, s) && 12 <= k < 15
    ensures Leads(w, s, k)
  {
    hide Commit, CreateWorkspace, ValidPath, LinkedObjects, Chunks, BatchDropsRoot;
    hide RunsOk, Referenced, Staged, Digests;
    EmptyFile(s);
    if k == 12 {
      Creates(s, Again(w, s), 3);
    } else if k == 14 {
      Commits(w, s, Again(w, s), 3, []);
      assert Before(w, s, 14).flights - {0} == map[1 := Planned(w, s)];
    }
  }

  lemma EmptyFile(s: Scene)
    ensures RunsOk(Second(s).mutations) && Referenced(Second(s).mutations) == {} && Digests([]) == {}
  {
  }

  lemma {:induction false} Reaches(w: World, s: Scene, k: nat)
    requires Staged(w, s) && k <= 15
    ensures After(w, Steps(w, s), k) == Before(w, s, k)
    ensures forall j | 0 <= j < k && j != RECREATE :: Enabled(w, After(w, Steps(w, s), j), Steps(w, s)[j])
  {
    hide Enabled, Next, Before, Staged, Steps;
    Lengths(w, s);
    if k > 0 {
      Reaches(w, s, k - 1);
      if k - 1 < 3 { LeadsToFile(w, s, k - 1); }
      else if k - 1 < 4 { LeadsToCommit(w, s); }
      else if k - 1 < 7 { LeadsToPlan(w, s, k - 1); }
      else if k - 1 < 12 { LeadsToCollected(w, s, k - 1); }
      else { LeadsToRecommit(w, s, k - 1); }
    }
  }

  lemma Lengths(w: World, s: Scene)
    ensures |Steps(w, s)| == 16 && Steps(w, s)[RECREATE] == Create(s.ws) && Steps(w, s)[15] == FinishSeal(1, s.manifest)
    ensures Before(w, s, 0) == INITIAL
  {
  }

  /** Every step of this run but the recreation is one the machine allows, the seal's transaction
      accepts the old plan, and the head and the new snapshot then name an object that is gone. */
  lemma RecreatedSealDangles(w: World, s: Scene)
    requires Staged(w, s)
    ensures |Steps(w, s)| == 16 && Steps(w, s)[RECREATE] == Create(s.ws)
    ensures forall k | 0 <= k < 16 && k != RECREATE :: Enabled(w, After(w, Steps(w, s), k), Steps(w, s)[k])
    ensures var t := At(w, Steps(w, s), 16);
      && w.hash(s.x) in HeadObjects(t) && w.hash(s.manifest) in t.snapshots && w.hash(s.x) in w.names(s.manifest).value
      && w.hash(s.x) !in t.objects
  {
    hide Enabled, Next, Before, Staged, Steps, HeadObjects;
    Lengths(w, s);
    Reaches(w, s, 15);
    Finishes(w, s);
  }

  lemma Finishes(w: World, s: Scene)
    requires Staged(w, s)
    ensures var c := Before(w, s, 15);
      var t := Next(w, c, FinishSeal(1, s.manifest)).tables;
      && Enabled(w, c, FinishSeal(1, s.manifest))
      && w.hash(s.x) in HeadObjects(t) && w.hash(s.manifest) in t.snapshots && w.hash(s.x) in w.names(s.manifest).value
      && w.hash(s.x) !in t.objects
  {
    hide ValidPath, Rebounded, LinkedObjects, HeadObjects, Holding, Chunks, Joined;
    Rebinds(w, s, Again(w, s), 3, []);
    var head := Holding(s, Again(w, s), 3, 2, Joined(w, s).job.records);
    JoinedNames(w, s, head);
    HeldAt(w, s);
    SameLinkedObjects(head, AddSnapshot(w, head, s.manifest, 2), s.ws);
  }

  lemma HeldAt(w: World, s: Scene)
    ensures AtGeneration(Before(w, s, 15).tables, Planned(w, s)) && Before(w, s, 15).tables.objects == Again(w, s)
    ensures var head := Holding(s, Again(w, s), 3, 2, Joined(w, s).job.records);
      head.objects == Again(w, s) && s.ws in head.workspaces && head.workspaces[s.ws].generation == 2 && head.snapshots == map[]
  {
  }

  lemma JoinedNames(w: World, s: Scene, head: Tables)
    requires exists objects, epoch :: head == Holding(s, objects, epoch, 2, Joined(w, s).job.records)
    ensures w.hash(s.x) in LinkedObjects(head, s.ws) && w.hash(s.z) in LinkedObjects(head, s.ws)
    ensures w.hash(s.x) in HeadObjects(head) && w.hash(s.z) in HeadObjects(head)
  {
    var r := Joined(w, s).job.records;
    assert r[0].Data? && r[1].Data?;
    assert w.hash(s.x) in Digests(r) && w.hash(s.z) in Digests(r);
    assert Slot(1, s.path) in head.dirents && NodeObjects(head.inodes[2].node) == Digests(r);
    LinkedAreHeads(head, s.ws);
  }

  // --- the machine does run -----------------------------------------------------------------------------

  lemma {:induction false} AfterPrefix(w: World, a: seq<Step>, b: seq<Step>, k: nat)
    requires k <= |a|
    ensures After(w, a + b, k) == After(w, a, k)
  {
    hide Next;
    if k > 0 {
      AfterPrefix(w, a, b, k - 1);
    }
  }

  /** The same scene without the recreation: commit, seal, lease the snapshot, drop its row, collect. */
  function Orderly(w: World, s: Scene): seq<Step> {
    Steps(w, s)[..7] + [FinishSeal(1, s.manifest), LeaseSnapshot(w.hash(s.manifest)), DeleteSnapshot(w.hash(s.manifest)), Step.Pass]
  }

  /** A run that commits, seals, leases and collects: what is proved of runs is proved of something. */
  lemma OrderlyIsARun(w: World, s: Scene)
    requires Staged(w, s)
    ensures Run(w, Orderly(w, s)) && |Orderly(w, s)| == 11
    ensures w.hash(s.manifest) in At(w, Orderly(w, s), 8).snapshots && HeadObjects(At(w, Orderly(w, s), 8)) == {w.hash(s.x), w.hash(s.z)}
  {
    hide Before, Staged, Steps, HeadObjects, Next;
    Lengths(w, s);
    Reaches(w, s, 7);
    SealsInOrder(w, s);
    var a := Steps(w, s)[..7];
    var b := Orderly(w, s)[7..];
    assert Steps(w, s) == a + Steps(w, s)[7..] && Orderly(w, s) == a + b;
    forall k | 0 <= k <= 7 ensures After(w, Orderly(w, s), k) == After(w, Steps(w, s), k) {
      AfterPrefix(w, a, b, k);
      AfterPrefix(w, a, Steps(w, s)[7..], k);
    }
    forall k | 0 <= k < 11 ensures Enabled(w, After(w, Orderly(w, s), k), Orderly(w, s)[k]) {
      if k < 7 {
        assert Orderly(w, s)[k] == Steps(w, s)[k];
      }
    }
    AfterStep(w, Orderly(w, s), 7);
  }

  lemma SealsInOrder(w: World, s: Scene)
    requires Staged(w, s)
    ensures var c := Before(w, s, 7);
      var t := Next(w, c, FinishSeal(1, s.manifest)).tables;
      && Enabled(w, c, FinishSeal(1, s.manifest))
      && w.hash(s.manifest) in t.snapshots && HeadObjects(t) == {w.hash(s.x), w.hash(s.z)}
  {
    hide ValidPath, Rebounded, LinkedObjects, HeadObjects, Joined;
    Rebinds(w, s, Two(w, s), 0, Chunks(w, s));
    var head := Holding(s, Two(w, s), 0, 2, Joined(w, s).job.records);
    JoinedNames(w, s, head);
    OnlyJoined(w, s, head);
    SameLinkedObjects(head, AddSnapshot(w, head, s.manifest, 2), s.ws);
  }

  lemma OnlyJoined(w: World, s: Scene, head: Tables)
    requires exists objects, epoch :: head == Holding(s, objects, epoch, 2, Joined(w, s).job.records)
    ensures HeadObjects(head) <= {w.hash(s.x), w.hash(s.z)}
  {
    assert Digests(Joined(w, s).job.records) <= {w.hash(s.x), w.hash(s.z)};
  }

  /** An address that tells byte strings of up to 31 bytes apart. */
  function ShortHash(b: Bytes): Digest {
    if |b| <= 31 then [|b|] + b + Zeros(31 - |b|) else [255] + Zeros(31)
  }

  lemma ShortHashTells(a: Bytes, b: Bytes)
    requires |a| <= 31 && ShortHash(a) == ShortHash(b)
    ensures a == b
  {
    assert ShortHash(a)[0] == |a| && ShortHash(b)[0] == (if |b| <= 31 then |b| else 255);
    assert ShortHash(a)[1..|a| + 1] == a && ShortHash(b)[1..|b| + 1] == b;
  }

  lemma ShortParts(bytes: Bytes)
    requires |bytes| <= 31
    ensures TellsApart(ShortHash, map[], bytes)
  {
    hide ShortHash;
    forall a, b | PartOf(a, bytes) && PartOf(b, bytes) && ShortHash(a) == ShortHash(b) ensures a == b {
      ShortHashTells(a, b);
    }
  }

  lemma PlainPath(rules: TextRules)
    requires rules.nfc([0x66]) && !rules.control([0x66])
    ensures SLASH !in [0x66] && ValidPath(rules, [0x66])
  {
    SplitWhole([0x66]);
    assert Segments([0x66]) == [[0x66]] && Stem([0x66]) == [0x66];
  }

  /** Such a world and scene exist, and so does a hash that tells the parts of a file apart. */
  lemma SceneExists()
    ensures exists w: World, s: Scene :: Staged(w, s)
    ensures forall bytes: Bytes | |bytes| <= 31 :: TellsApart(ShortHash, map[], bytes)
  {
    hide ShortHash, ValidPath, TellsApart;
    var x: Bytes, z: Bytes, manifest: Bytes := [1], [1, 1], [1, 1, 1];
    var rules := TextRules(_ => true, _ => true, _ => false, t => t);
    var w := World(rules, ShortHash, b => Some({ShortHash(x), ShortHash(z)}));
    if ShortHash(x) == ShortHash(z) { ShortHashTells(x, z); }
    if ShortHash(manifest) == ShortHash(x) { ShortHashTells(x, manifest); }
    if ShortHash(manifest) == ShortHash(z) { ShortHashTells(z, manifest); }
    PlainPath(rules);
    assert Staged(w, Scene(x, z, manifest, [0x77], [0x66]));
    forall bytes: Bytes | |bytes| <= 31 ensures TellsApart(ShortHash, map[], bytes) { ShortParts(bytes); }
  }
}
