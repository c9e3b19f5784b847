# Tensorfs verification model

A Dafny model of the parts of tensorfs that must not lose or move a byte: the
layout-morphism walk that arranges a tensor for a device, the workspace metadata
store with its two-epoch garbage collector, the TFM1 manifest and TFP1 pack
codecs, the push protocol, the byte-preserving re-chunking done at seal time, the
permute kernel, and the Go decision engine's layout matcher and repack search.

`dafny verify dfyconfig.toml` checks the whole project.

## The shape of the model

- **Layout** (`MixedRadix`, `LayoutMorphism`, `LayoutMap`, `LayoutWalk`,
  `LayoutBytes`, `LayoutFill`, `LayoutShapes`). A record factors logical axes into sub-axes,
  permutes them and may pad. `SourceAt` is the plain mixed-radix index map; the
  folded odometer is proved to visit exactly it. From there: every source element
  sits in exactly one slot, padding is zero, the inverse returns the source, every
  probe check of `ratify` holds at every shape, and `fill` over any split into
  chunks writes what `apply` writes on the concatenation. `LayoutShapes` writes the map
  out in plain arithmetic for turned axes, tiles and the identity.
- **Records** (`Records`, `Rechunk`). A file is a run of data and hole records over
  a content-addressed store; `Content` is the bytes it reads as. Truncation,
  sealing, `adopt` and `inherit` are proved against `Content`.
- **Workspace** (`Paths`, `Workspace`, `WorkspaceTree`, `WorkspaceNames`,
  `WorkspaceEffects`, `WorkspaceAccept`, `WorkspaceSteps`, `WorkspaceGc`,
  `WorkspaceRuns`, `WorkspaceReseal`, `WorkspaceScene`, `WorkspaceAdopt`,
  `WorkspaceStore`, `WorkspaceStage`, `SealedManifest`). The tables are a value; each
  transaction is a function on it. `WorkspaceAccept` says exactly when each mutation is
  accepted, `WorkspaceNames` path by path what it leaves, and `WorkspaceSteps` row by
  row what the other transactions leave.
  `commit_generation` and `seal_snapshot` are split where the source leaves the
  transaction (verify, then recheck and commit; capture, then plan and admit, then
  recheck and seal), so a collection pass, a delete or another commit may land in
  between. `WorkspaceRuns` states what every run of these steps keeps;
  `SealedManifest` shows that seals made by the planner and the builder are steps of
  such runs, and `WorkspaceScene` holds concrete runs. The class
  `WorkspaceStore.Metadata` carries the operations as they change the tables in
  place, each proved equal to its transaction.
- **TFM1** (`Wire`, `Tfm1`, `Tfm1Proof`, `Tfm1Decode`, `PathOrder`, `Tfm1Builder`,
  `Tfm1Resolve`, `Tfm1Finish`, `Formats`). Reader and writer are proved inverse, the strict
  reader accepts exactly the canonical encodings, and these are exactly what the
  builder writes; the builder's output depends only on the tree declared. `Formats`
  gives both formats in literal bytes.
- **Clone** (`Clone`, `CloneHead`). Cloning a snapshot into a fresh workspace and
  reading the head back returns the same listing.
- **Push** (`Tfp1`, `Tfp1Codec`, `Push`, `PushSession`, `PushBlobs`, `PushBlobEnds`,
  `PushAll`, `PushMeaning`, `ManifestNames`). The remote is a function from call to
  answer, so each statement is about every remote, and speaks only of the calls the push
  makes: what is missing or pending when round n starts, what it sends and what that
  comes to are functions the loops are proved to follow, and `PushMeaning` spells them
  out. `ManifestNames` shows that what a push owes is what the snapshot keeps.
- **Permute kernel and decision engine** (`PermuteKernel`, `PermuteMeaning`,
  `LayoutMatch`, `LayoutGreedy`, `Repack`).

SHA-256 is a function parameter into 32-byte digests. No hash into 32 bytes is
injective, so nothing assumes that: a member that admits bytes asks only that these
bytes do not collide with what is resident (`Rechunk.Agrees`), or that the hash tells
one file's parts apart from each other and from what is resident
(`Rechunk.TellsApart`). Runs ask the first of the manifests they store and nothing
else of the hash. `WorkspaceScene.SceneExists` shows that both can be met, and
`WorkspaceScene.OrderlyIsARun` exhibits a run.

UTF-8 validity, normalisation, control characters and case folding are the fields
of the parameter `TextRules`.

## What the proofs found

Each of these is a place where the natural claim is false of the code. The model
follows the code; the exact condition is proved.

- `Rmdir` of the empty path is accepted on an empty workspace and deletes its root
  inode, after which the workspace resolves nothing
  (`WorkspaceTree.RmdirCanRemoveTheRoot`). An accepted mutation keeps the tree if
  and only if it is not that one (`WorkspaceTree.MutationKeepsTree`).
- An unlinked lease may be taken on the empty path. Releasing the last one treats
  the root, which no dirent names, as an orphan
  (`WorkspaceTree.ReleaseCanRemoveTheRoot`, exact condition in
  `WorkspaceTree.ReleaseKeepsTreeIff`).
- Phase C of a seal compares the workspace's name and generation only. A workspace
  deleted and created again while it is being sealed passes that test with the old
  plan, and the sealed head can then name an object that has been collected
  (`WorkspaceScene.RecreatedSealDangles`). Whatever the plan and its age, the
  transaction keeps every named object resident if and only if the files its jobs
  write are left naming resident objects (`WorkspaceReseal.SealResidentIff`).
- `adopt_snapshot` looks for its objects outside the lock under which it later inserts
  its row. A pass between the two can take an object it found
  (`WorkspaceAdopt.InterruptedAdoptionDangles`). The row keeps residency if and only if
  the manifest and all it names are still there when it is inserted
  (`WorkspaceAdopt.AdoptResidentIff`), which holds whenever no pass came between
  (`WorkspaceAdopt.QuietAdoption`).
- The pack loop's stall budget does not bound it against every remote. It ends if and
  only if the missing set grows by a bounded amount in all
  (`PushSession.PackLoopEndsIff`), which every remote meets when no stall is tolerated
  (`PushSession.SteadyGrowsNothing`). At any stall budget of two or more, a set that
  shrinks and grows by turns keeps it going for ever (`PushSession.SeesawGoesOn`).
- The blob lane is documented to fail in bounded time against a remote that expires
  every grant. One that takes a part, lapses, and lists nothing in its next grant keeps
  the lane going for ever at every budget (`PushBlobEnds.ForgetfulGoesOn`). The lane
  ends if and only if boundedly many rounds land a part (`PushBlobEnds.LaneEndsIff`);
  remotes that list what landed, or that land whatever is sent, meet this
  (`PushBlobEnds.DurableLands`, `PushBlobEnds.EveryPartLands`).
- The matcher documents the directory name as a tie-break, but adds it to the
  score, so it outvotes one key that is already covered, and the member is refused as
  a duplicate although an assignment matches (`LayoutGreedy.HintMissesAMatch`). A pick
  is refused if and only if the member repeats a key, no candidate is free, or that
  happens (`LayoutGreedy.PickRefusedIff`, over a whole pass
  `LayoutGreedy.PassRefusedIff`). A match is also lost without any hint or clash, when
  a tie goes to a component that does not require the key
  (`LayoutGreedy.TieMissesAMatch`). When no member that carries a tensor has two
  candidates the matcher is exact (`LayoutGreedy.GreedyExact`).
- The permute kernel copies before it tests for the end, so on an empty tensor its
  first copy overruns the output and it panics unless that copy is empty
  (`PermuteKernel.EmptyTensorPanics`; exact condition in `PermuteKernel.PermuteBytes`
  and `PermuteKernel.ApplyTransform`).
- `inherit` answers an empty range past the end of a file with the empty run rather
  than a refusal (`Rechunk.Inherit` states both cases).
- Sealing a sealed file again is not always idle. A file with holes is first sealed as
  one blob, and if those bytes plan as a tensor file the next seal cuts it; in every
  other case the second seal has nothing to do (`Rechunk.SecondSeal`).
- A rename whose source is the empty path is accepted wherever the target is free and
  moves nothing, since no dirent names the root (`WorkspaceAccept.MutationAcceptedIff`).
- Arranging after restoring gives the destination back if and only if its padding
  is zero (`LayoutBytes.ImageRoundTrip`); the other order always holds.

## Model

| member | source | states |
|---|---|---|
| `LayoutMorphism.Check` | crates/tensorfs-core/src/layout_morphism.rs:140-210 | accepts a record exactly when it has provenance, its sub-axes are grouped by ascending axis, and its permutation is a bijection (the identity record: no permutation, rank 0) |
| `LayoutShapes.GroupedIff` | crates/tensorfs-core/src/layout_morphism.rs:166-192 | sub-axes pass the check exactly when their axes ascend and each logical axis is named at least once |
| `LayoutMorphism.FactorAxes` | crates/tensorfs-core/src/layout_morphism.rs:262-299 | accepts a factorization exactly when every run of sub-axes belongs to a logical axis and addresses at least its dimension, and yields the weight of every digit within its run and which axes some run pads |
| `LayoutMorphism.PlanFor` | crates/tensorfs-core/src/layout_morphism.rs:212-325 | plans any record, checked or not, exactly at the shapes its runs cover, with every derived number; for a well-factored record these are the shapes whose every axis is covered and the plan is the one the index map is proved about |
| `LayoutShapes.TilesArePlanned` | crates/tensorfs-core/src/layout_morphism.rs:212-325 | the tile record is accepted, and planned at exactly the matrices its tiles cover |
| `LayoutShapes.IdentityIsPlanned` | crates/tensorfs-core/src/layout_morphism.rs:212-325 | the identity record is planned at every nonempty shape of positive dimensions |
| `LayoutMap.SlotExists` | crates/tensorfs-core/src/layout_morphism.rs:414-455 | for every plan, each source element is carried by some destination slot |
| `LayoutMap.SlotUnique` | crates/tensorfs-core/src/layout_morphism.rs:414-455 | for every plan, no two destination slots carry the same source element |
| `LayoutMap.UnpaddedMapsEverySlot` | crates/tensorfs-core/src/layout_morphism.rs:369-371 | an unpadded plan has no padding slot |
| `LayoutMap.MappedCount` | crates/tensorfs-core/src/layout_morphism.rs:361-371 | exactly as many destination slots are mapped as there are source elements |
| `LayoutWalk.Fold` | crates/tensorfs-core/src/layout_morphism.rs:414-425 | folds exactly the maximal suffix of storage positions that stay contiguous in the source |
| `LayoutWalk.FoldedElement` | crates/tensorfs-core/src/layout_morphism.rs:414-455 | every element of a folded run reads what the unfolded mixed-radix map says of its slot, mapped or padding |
| `LayoutWalk.Advance` | crates/tensorfs-core/src/layout_morphism.rs:443-453 | one odometer step moves to the next run and keeps the recombined axis coordinates in agreement with the counters |
| `LayoutWalk.ForEachRun` | crates/tensorfs-core/src/layout_morphism.rs:414-455 | the run walk covers destinations 0..D once each in order, and each run agrees element by element with the unfolded map; every run has the one structural length |
| `LayoutWalk.ForEach` | crates/tensorfs-core/src/layout_morphism.rs:460-466 | the element walk visits every destination once in order with exactly the unfolded source index, padding when some recombined coordinate is past its dimension |
| `LayoutBytes.Apply` | crates/tensorfs-core/src/layout_morphism.rs:498-517 | accepts exactly the sized buffers and writes the arranged bytes into the slice and nothing outside it |
| `LayoutBytes.ApplyInverse` | crates/tensorfs-core/src/layout_morphism.rs:523-539 | accepts exactly the sized buffers and reads every source element back from its slot |
| `LayoutBytes.RoundTrip` | crates/tensorfs-core/src/layout_morphism.rs:498-539 | at every plan, contents and element size, the inverse of the arrangement returns the source |
| `LayoutBytes.ImageRoundTrip` | crates/tensorfs-core/src/layout_morphism.rs:498-539 | the other order of the round trip holds if and only if the padding bytes are zero |
| `LayoutBytes.PaddingIsZero` | crates/tensorfs-core/src/layout_morphism.rs:498-517 | every padding slot is written as zero bytes |
| `LayoutBytes.Tally` | crates/tensorfs-core/src/layout_morphism.rs:599-604 | the walk maps as many slots as there are source elements and the rest are padding, none when unpadded |
| `LayoutBytes.ProbePlan` | crates/tensorfs-core/src/layout_morphism.rs:583-651 | every check a ratification probe makes passes, at every planned shape |
| `LayoutBytes.Ratify` | crates/tensorfs-core/src/layout_morphism.rs:579-668 | a record is ratified exactly when check accepts it and some probe shape plans; no probe ever refuses it; the probes returned are the shapes that plan, in order, each with its slot count and whether some axis is factored into more than its dimension |
| `LayoutBytes.ProbedCount` | crates/tensorfs-core/src/layout_morphism.rs:579-668 | each given shape is probed as often as it is given if the record plans it, and not otherwise |
| `LayoutShapes.Turned` | crates/tensorfs-core/src/layout_morphism.rs:414-455 | in plain arithmetic, for all extents: the permutation [1, 2, 0] puts element (i, j, k) of an a x b x c tensor at slot (j, k, i) of a b x c x a one |
| `LayoutShapes.Tiled` | crates/tensorfs-core/src/layout_morphism.rs:414-455 | for all tile sizes: row i, column j of tile (u, v) is stored tile after tile and row by row, holds the matrix element there, and is padding past the edge |
| `LayoutShapes.IdentityStays` | crates/tensorfs-core/src/layout_morphism.rs:414-455 | the identity plan carries every element to its own place |
| `LayoutShapes.IdentityIsOneRun` | crates/tensorfs-core/src/layout_morphism.rs:414-425 | and its walk folds into a single run |
| `LayoutFill.NewSource` | crates/tensorfs-core/src/layout_fill.rs:126-135 | a chunked source knows where each of its chunks starts |
| `LayoutFill.BinarySearch` | crates/tensorfs-core/src/layout_fill.rs:172-175 | any index of an equal start or the one insertion point, repeated starts included |
| `LayoutFill.ReadAt` | crates/tensorfs-core/src/layout_fill.rs:165-189 | reads a byte range of the concatenation across any chunk boundaries, refusing exactly a range past the end |
| `LayoutFill.HostSink.Staging` | crates/tensorfs-core/src/layout_fill.rs:302-312 | hands out exactly the device range, refusing one past the buffer and remembering nothing then |
| `LayoutFill.Measure` | crates/tensorfs-core/src/layout_fill.rs:198-272 | counts padding as destination minus source bytes, and the structural number of runs |
| `LayoutFill.FillRuns` | crates/tensorfs-core/src/layout_fill.rs:198-272 | the many-chunk path writes the same bytes as the arrangement of the concatenation |
| `LayoutFill.Fill` | crates/tensorfs-core/src/layout_fill.rs:198-272 | for every split into chunks, fill refuses exactly on an unratified or unplannable record, a zero element, a wrong size or a range past the buffer, and then changes nothing; otherwise it writes what apply writes on the concatenation, touching nothing else; padding bytes are destination minus source, and the run count is the structural one |
| `PermuteKernel.PermuteRows` | crates/tensorfs-core/src/adapter.rs:504-536 | on positive dimensions the odometer writes the element-wise strided permutation, block copies or not |
| `PermuteKernel.PermuteBytes` | crates/tensorfs-core/src/adapter.rs:483-537 | for every dims and axis permutation, returns the permutation of a nonempty tensor, and on an empty one panics exactly when its first copy is not empty |
| `PermuteKernel.InvertAxes` | crates/tensorfs-core/src/adapter.rs:541-547 | computes the inverse permutation |
| `PermuteKernel.PermuteRoundTrip` | crates/tensorfs-core/src/adapter.rs:483-547 | permuting by the inverse axes undoes the permutation |
| `PermuteKernel.ViewFactorsTensor` | crates/tensorfs-core/src/contract.rs:667-707 | a resolved view multiplies to the tensor size, with no zero dimension unless the tensor is empty |
| `PermuteKernel.Resolve` | crates/tensorfs-core/src/contract.rs:667-707 | resolves the declared view, inferring at most one dimension, with overflow and inexact division refused |
| `PermuteKernel.TransformRoundTrip` | crates/tensorfs-core/src/adapter.rs:555-576 | on every tensor the forward transform moves, empty or not, the inverse returns the bytes; on the others both refuse or both panic |
| `PermuteKernel.ApplyTransform` | crates/tensorfs-core/src/adapter.rs:555-576 | moves a tensor's bytes as its transform says, refuses exactly when the view does not resolve, and panics exactly on an empty tensor whose view resolves and whose first copy is not empty |
| `PermuteKernel.EmptyTensorPanics` | crates/tensorfs-core/src/adapter.rs:510-523 | a family of valid declarations whose forward transform panics on an empty tensor |
| `PermuteMeaning.TransformMoves` | crates/tensorfs-core/src/adapter.rs:555-576 | the forward transform takes the element at coordinates x of the view to the coordinates x read in the order of the axes, and the inverse takes it back from there |
| `PermuteMeaning.TurnedTransform` | crates/tensorfs-core/src/adapter.rs:483-576 | in plain arithmetic: the axes [1, 2, 0] take element (i, j, k) of an a x b x c view to (j, k, i) of a b x c x a one, and back |
| `PermuteMeaning.ResolvesIff` | crates/tensorfs-core/src/contract.rs:667-707 | a view resolves to given dimensions if and only if they agree with its literals and exact axis quotients, at most one is inferred, they multiply to the tensor, and neither running product leaves 64 bits |
| `Records.ValidateRecordRun` | crates/tensorfs-core/src/tfm1.rs:452-482 | accepts exactly bounded runs of positive records with no adjacent holes whose lengths sum to the size without overflow |
| `Records.TruncateRecords` | crates/tensorfs-core/src/workspace.rs:1798-1836 | on every run, computes the truncated run, or refuses; a run whose lengths leave 64 bits below the cut is refused |
| `Records.StoredNeverOverruns` | crates/tensorfs-core/src/workspace.rs:1798-1836 | a run whose lengths sum within 64 bits, as every stored run's do, never meets that refusal |
| `Records.TruncationResizes` | crates/tensorfs-core/src/workspace.rs:1798-1836 | truncation keeps the first bytes, reads the extension as zeros, yields a valid run naming no new object, and refuses exactly a cut inside a data record |
| `Rechunk.PutBytes` | crates/tensorfs-core/src/store.rs:206-210 | admission never overwrites, keeps the store content addressed, and holds the bytes at their digest if and only if no other resident object has that digest |
| `Rechunk.ReadExactAt` | crates/tensorfs-core/src/workspace_source.rs:74-107 | reads exactly the requested bytes of the record run, holes as zeros, refusing only past the end |
| `Rechunk.AdmitRegions` | crates/tensorfs-core/src/store.rs:229-298 | where the hash tells the file's parts apart, each region becomes one object holding exactly its bytes, under the digest of those bytes, and nothing else is admitted |
| `Rechunk.Recut` | crates/tensorfs-core/src/workspace.rs:765-800 | where the hash tells the file's parts apart, a file re-cut along tiling regions keeps its content, has one record a region, keeps the digest of every region equal to a committed range, and gives each other region the digest of its own bytes, admitting exactly those |
| `Rechunk.BlobSealJob` | crates/tensorfs-core/src/workspace.rs:815-832 | the whole byte stream becomes one object with the same content, under the digest of the content, as an unstamped blob of one record |
| `Rechunk.PlanSealJob` | crates/tensorfs-core/src/workspace.rs:680-810 | where the hash tells the file's parts apart, sealing leaves its bytes unchanged, names only committed or newly admitted objects and keeps committed ranges; there is no job if and only if the run is empty, has holes and is stored under a tensor planner, or is already in the form planned; a job has the plan's planner and stamp with records exactly on its boundaries, or is one whole unstamped blob where the plan is a blob or the run has holes |
| `Rechunk.SecondSeal` | crates/tensorfs-core/src/workspace.rs:680-810 | sealing again finds the sealed form and has nothing to do, except for a file with holes whose bytes plan as a tensor file |
| `Rechunk.BoundariesMatch` | crates/tensorfs-core/src/workspace.rs:742-748 | decides whether the plan's regions are the committed ranges |
| `Rechunk.Adopt` | crates/tensorfs-core/src/compose.rs:226-284 | where the hash tells the file's parts apart, re-chunking a container under a contract keeps its bytes and its committed digests and leaves records on the contract's boundaries; refused exactly on a format change |
| `Rechunk.Inherit` | crates/tensorfs-core/src/compose.rs:180-200 | finds a covering run exactly for aligned ranges (and for an empty range past the end), and it carries exactly the range's bytes |
| `Paths.SegmentsJoin` | crates/tensorfs-core/src/workspace.rs:1443-1463 | splitting a joined path gives back its segments |
| `Paths.PrefixIsSubtree` | crates/tensorfs-core/src/workspace.rs:1682-1688 | the textual subtree test of rename holds exactly when the segments of one path extend the other's |
| `WorkspaceTree.WalkFinds` | crates/tensorfs-core/src/workspace.rs:1431-1464 | every linked directory is found by resolving its own path from its workspace's root |
| `WorkspaceTree.PlacesUnique` | crates/tensorfs-core/src/workspace.rs:1431-1464 | no two linked directories of a workspace share a path |
| `WorkspaceTree.OneLink` | crates/tensorfs-core/src/workspace.rs:1616-1793 | a linked directory has exactly one dirent |
| `WorkspaceTree.MoveKeepsTree` | crates/tensorfs-core/src/workspace.rs:1682-1704 | moving a dirent to a free slot outside its own subtree keeps the directory tree |
| `WorkspaceTree.RenameKeepsTree` | crates/tensorfs-core/src/workspace.rs:1682-1704 | every accepted rename keeps the tree: none makes a cycle |
| `WorkspaceTree.MutationKeepsTree` | crates/tensorfs-core/src/workspace.rs:1616-1793 | an accepted mutation keeps the tree, sibling folding and the no-orphan rule exactly when it is not Rmdir of the empty path on an unleased root |
| `WorkspaceTree.RmdirCanRemoveTheRoot` | crates/tensorfs-core/src/workspace.rs:1726-1754 | a new workspace accepts Rmdir of the empty path and loses its root |
| `WorkspaceTree.ReleaseKeepsTreeIff` | crates/tensorfs-core/src/workspace.rs:1043-1068 | a release keeps the tree exactly when the lease was not the last one on a root |
| `WorkspaceTree.ReleaseCanRemoveTheRoot` | crates/tensorfs-core/src/workspace.rs:964-982 | a lease taken on the empty path removes the root when released |
| `WorkspaceTree.CommitKeepsTree` | crates/tensorfs-core/src/workspace.rs:487-541 | an accepted batch breaks the tree at some point if and only if one of its mutations removes the root; otherwise it keeps it to the end |
| `WorkspaceTree.DeleteKeepsTree` | crates/tensorfs-core/src/workspace.rs:459-474 | deleting a workspace keeps every other workspace's tree, links and leases |
| `WorkspaceTree.CreateKeepsTree` | crates/tensorfs-core/src/workspace.rs:396-418 | creating a workspace adds a rooted, empty tree |
| `WorkspaceNames.MutationMeans` | crates/tensorfs-core/src/workspace.rs:1616-1793 | after an accepted mutation, every path of the workspace leads exactly where the mutation says: one new name, one name gone, a subtree moved, or one inode rewritten under all its names; every other path sees the same inode and row |
| `WorkspaceNames.RenameMeans` | crates/tensorfs-core/src/workspace.rs:1682-1704 | after a rename, what lay at or under the source is found at or under the target, nothing is left at the source, and no other path changes |
| `WorkspaceNames.RemoveMeans` | crates/tensorfs-core/src/workspace.rs:1705-1754 | a removal takes exactly one path; other hardlinks keep the same inode |
| `WorkspaceAccept.MutationAcceptedIff` | crates/tensorfs-core/src/workspace.rs:1616-1793 | for each of the ten mutations, over a tree: accepted if and only if a condition on the paths seen and the path rules holds; for a rename, the source is seen, it is not a directory whose segments prefix the target's, and the target is a valid free name in a seen directory with no sibling that folds alike |
| `WorkspaceAccept.CommitAcceptedIff` | crates/tensorfs-core/src/workspace.rs:487-541 | a batch that keeps the root commits if and only if its workspace exists, every object it newly names is resident, and every mutation in turn meets its condition |
| `WorkspaceAccept.TruncatableIff` | crates/tensorfs-core/src/workspace.rs:1798-1836 | a stored run is truncated exactly when the cut is not inside a data record, the length fits in 64 bits, and growing needs no record past the limit |
| `WorkspaceEffects.MutationIsLocal` | crates/tensorfs-core/src/workspace.rs:1616-1793 | a mutation leaves other workspaces, detached leased inodes and every object it does not newly name as they were |
| `WorkspaceEffects.BatchIsLocal` | crates/tensorfs-core/src/workspace.rs:531-533 | so does a whole batch, whose new names are the ones verified up front |
| `WorkspaceSteps.CommitMeans` | crates/tensorfs-core/src/workspace.rs:518-541 | a commit advances its own workspace's generation by one and touches no row but inodes and dirents |
| `WorkspaceSteps.CreateMeans` | crates/tensorfs-core/src/workspace.rs:396-418 | creation is refused exactly for a taken name, and adds an empty head at generation 0 over one new directory and nothing else |
| `WorkspaceSteps.DeleteMeans` | crates/tensorfs-core/src/workspace.rs:459-474 | deletion is refused exactly for an unknown name, takes the head, its inodes, their dirents and the leases on them, and leaves every other row |
| `WorkspaceSteps.ReleaseMeans` | crates/tensorfs-core/src/workspace.rs:1043-1068 | a release takes its lease, and the inode it held exactly when neither a dirent nor another lease still does, and no other row |
| `WorkspaceSteps.PathLeaseMeans` | crates/tensorfs-core/src/workspace.rs:964-982 | a path lease is taken exactly on a path that is there, holds the inode found, and changes nothing else |
| `WorkspaceSteps.SnapshotLeaseMeans` | crates/tensorfs-core/src/workspace.rs:1001-1037 | a snapshot lease holds the snapshot and exactly what its stored manifest names, and is refused for an id that is no snapshot |
| `WorkspaceSteps.PutMeans` | crates/tensorfs-core/src/store.rs:206-210 | storing bytes adds them under their digest unless something is there, and does nothing else |
| `WorkspaceSteps.SnapshotRowsMean` | crates/tensorfs-core/src/workspace.rs:908-950 | deleting a snapshot takes its row, adopting one adds its row at generation 0 if it is new, and neither does anything else |
| `WorkspaceSteps.JobsSet` | crates/tensorfs-core/src/workspace.rs:624-645 | after a seal's jobs, a file has the planner and stamp of the last job that leads to it, and its records where that job writes them; a file no job leads to is as it was |
| `WorkspaceSteps.SealAcceptedIff` | crates/tensorfs-core/src/workspace.rs:607-673 | the seal transaction is accepted if and only if the workspace is there, every object its jobs admitted is resident, and each job's path leads where the job needs it |
| `WorkspaceSteps.SealMeans` | crates/tensorfs-core/src/workspace.rs:607-673 | it roots the manifest at the generation it leaves, one more exactly when there was a job, and leaves every other row |
| `WorkspaceGc.StepKeepsInv` | crates/tensorfs-core/src/workspace.rs:487-676 | every step of every interleaving keeps the tree, residency, and that a seal whose generation still stands captured only what its head links |
| `WorkspaceGc.CommitKeepsInv` | crates/tensorfs-core/src/workspace.rs:518-541 | the commit transaction, with presence rechecked inside, keeps the invariant whatever ran since the verify |
| `WorkspaceGc.SealKeepsInv` | crates/tensorfs-core/src/workspace.rs:607-673 | the seal transaction keeps the invariant whatever ran since the capture and the plan |
| `WorkspaceReseal.SealResidentIff` | crates/tensorfs-core/src/workspace.rs:607-673 | from any resident tables and for any plan, however old, a seal transaction leaves every named object resident if and only if each file its jobs write last names resident objects or the manifest |
| `WorkspaceScene.RecreatedSealDangles` | crates/tensorfs-core/src/workspace.rs:607-615 | a sixteen-step run in which a workspace is deleted and created again under its seal: the transaction accepts the old plan and the head and the new snapshot name an object that is gone |
| `WorkspaceAdopt.AdoptResidentIff` | crates/tensorfs-core/src/workspace.rs:908-929 | inserting an adopted snapshot's row keeps every named object resident if and only if the row was there already or the manifest and all it names still are |
| `WorkspaceAdopt.QuietAdoption` | crates/tensorfs-core/src/workspace.rs:908-929 | an adoption that no pass interrupts between its look-up and its row is safe, whatever else runs meanwhile |
| `WorkspaceAdopt.InterruptedAdoptionDangles` | crates/tensorfs-core/src/workspace.rs:908-929 | a run in which a pass lands after the look-up: the row is inserted and names an object that is gone |
| `WorkspaceScene.OrderlyIsARun` | crates/tensorfs-core/src/workspace.rs:487-676 | an eleven-step run of the machine that commits, seals, leases and collects |
| `WorkspaceScene.SceneExists` | crates/tensorfs-core/src/workspace.rs:487-676 | such a world exists, and so does a hash that tells the parts of a file apart |
| `WorkspaceGc.PassKeeps` | crates/tensorfs-core/src/workspace.rs:1075-1156 | a collection pass takes no object the roots name and never fails to read its roots |
| `WorkspaceGc.ResidentRoots` | crates/tensorfs-core/src/workspace.rs:1170-1234 | residency is exactly a content-addressed store in which every root a pass would mark can be read and is resident |
| `WorkspaceGc.RootsAre` | crates/tensorfs-core/src/workspace.rs:1170-1234 | an object is a root if and only if some row needs it: a file's records name it, a transfer's lease holds it, or it is a snapshot or named by a snapshot's stored manifest |
| `WorkspaceRuns.AlwaysResident` | crates/tensorfs-core/src/workspace.rs:1070-1156 | in every run, every object named by an object map, a lease, or a snapshot row's manifest and closure is resident |
| `WorkspaceRuns.AlwaysATree` | crates/tensorfs-core/src/workspace.rs:1616-1793 | in every run, every workspace's linked directories stay a tree |
| `WorkspaceRuns.QuarantineRemembers` | crates/tensorfs-core/src/workspace.rs:1107-1152 | a quarantine row dates the pass from which every pass found the object resident and needed by no row |
| `WorkspaceRuns.RemovedAfterTwoIdlePasses` | crates/tensorfs-core/src/workspace.rs:1107-1140 | only a pass removes an object, and only one quarantined at least two passes before and idle at every pass since |
| `WorkspaceRuns.GoneByTheThirdPass` | crates/tensorfs-core/src/workspace.rs:1107-1152 | an object that over three passes stays resident and needed by no row, no file's records, lease, snapshot or stored manifest, is gone after the third |
| `WorkspaceRuns.TransferStaysPinned` | crates/tensorfs-core/src/workspace.rs:1001-1037 | from taking a pending-sync lease until its release, no run removes or changes the manifest or any object of its closure |
| `WorkspaceRuns.LeasedInodeStays` | crates/tensorfs-core/src/workspace.rs:964-982 | until its last lease is released or its workspace deleted, a leased inode stays with its object map rooted and resident |
| `WorkspaceRuns.DetachedInodeIsFrozen` | crates/tensorfs-core/src/workspace.rs:1609-1614 | once nothing links it, a leased inode's row does not change at all |
| `WorkspaceStore.Metadata.ResolvePath` | crates/tensorfs-core/src/workspace.rs:1431-1464 | resolves a path segment by segment through directories only |
| `WorkspaceStore.Metadata.NewLeaf` | crates/tensorfs-core/src/workspace.rs:1470-1508 | a free, validly named leaf under an existing directory, with no sibling that folds alike |
| `WorkspaceStore.Metadata.ApplyMutation` | crates/tensorfs-core/src/workspace.rs:1616-1793 | changes the tables as the mutation's transaction says, or changes nothing |
| `WorkspaceStore.Metadata.CommitGeneration` | crates/tensorfs-core/src/workspace.rs:487-541 | a batch is applied whole with one generation advance, or refused whole |
| `WorkspaceStore.Metadata.Collect` | crates/tensorfs-core/src/workspace.rs:1075-1156 | leaves exactly the objects and quarantine rows the pass specification says, one epoch on, or changes nothing; its report counts roots, rescued and newly quarantined rows, and the objects and bytes before are those left and those deleted |
| `WorkspaceStore.CollectPass` | crates/tensorfs-core/src/workspace.rs:1082-1152 | rescues rooted rows, forgets rows whose object is gone, removes objects quarantined two epochs, marks new idle ones, and reports each count |
| `WorkspaceStore.Sift` | crates/tensorfs-core/src/workspace.rs:1119-1140 | the loop over old quarantine rows removes exactly the overdue objects, keeps exactly the waiting rows, and counts rescued rows, deleted objects and their bytes |
| `WorkspaceStore.Mark` | crates/tensorfs-core/src/workspace.rs:1142-1152 | the loop over resident objects adds and counts exactly the unrooted, not yet quarantined ones |
| `WorkspaceStage.StageTree` | crates/tensorfs-core/src/workspace.rs:1841-1878 | the stack walk ends, emits each resolvable path once with its inode, and emits the directory above every path |
| `SealedManifest.SealedManifestNamesTheHead` | crates/tensorfs-core/src/workspace.rs:656-672 | the manifest a seal builds reads back as itself and names exactly the objects the sealed head links |
| `SealedManifest.SourceIsEnabled` | crates/tensorfs-core/src/workspace.rs:680-810 | a seal whose jobs the planner made and whose manifest the builder made is a step the machine allows |
| `SealedManifest.SourceRunIsARun` | crates/tensorfs-core/src/workspace.rs:573-676 | so a sequence of such steps is a run, and what is proved of runs needs no assumption about jobs or manifests |
| `Wire.FromLeLe` | crates/tensorfs-core/src/tfm1.rs:951-965 | a little-endian integer reads back |
| `Wire.LeFromLe` | crates/tensorfs-core/src/tfm1.rs:951-965 | bytes read as a little-endian integer are that integer's bytes |
| `Wire.Reader.TakeBytes` | crates/tensorfs-core/src/tfm1.rs:938-949 | takes exactly the next bytes or refuses without moving |
| `Tfm1Proof.BodyIs` | crates/tensorfs-core/src/tfm1.rs:532-580 | a well-formed body reads back from its bytes |
| `Tfm1Proof.BodySound` | crates/tensorfs-core/src/tfm1.rs:1015-1044 | bytes read as a body are that body's canonical bytes and the body is well formed |
| `Tfm1Proof.StampSound` | crates/tensorfs-core/src/tfm1.rs:1122-1144 | bytes read as a stamp are that stamp's only encoding |
| `Tfm1Proof.ParseEmit` | crates/tensorfs-core/src/tfm1.rs:582-615 | reading a canonical snapshot's bytes gives that snapshot |
| `Tfm1Proof.EmitParse` | crates/tensorfs-core/src/tfm1.rs:976-1074 | bytes the reader accepts are the bytes of the canonical snapshot it returns |
| `Tfm1Proof.AcceptsExactlyCanonical` | crates/tensorfs-core/src/tfm1.rs:976-1074 | acceptance is an exact bijection between canonical snapshots and byte strings |
| `Tfm1Decode.Decode` | crates/tensorfs-core/src/tfm1.rs:976-1074 | returns a snapshot exactly on the bytes of a canonical one |
| `Tfm1Decode.DecodeItems` | crates/tensorfs-core/src/tfm1.rs:999-1068 | the entry loop enforces order, path rules and earlier-file ordinals as it reads |
| `Tfm1Decode.DecodeTensorBody` | crates/tensorfs-core/src/tfm1.rs:1076-1115 | reads exactly well-formed tensor bodies |
| `Tfm1Decode.DecodeStamp` | crates/tensorfs-core/src/tfm1.rs:1122-1144 | reads exactly well-formed stamps |
| `Tfm1Decode.ValidateRecords` | crates/tensorfs-core/src/tfm1.rs:486-496 | accepts exactly valid runs whose data records respect the grid cap |
| `Tfm1Decode.ValidateTree` | crates/tensorfs-core/src/tfm1.rs:504-527 | accepts exactly listings with no case-fold collision and a listed directory above every entry |
| `Tfm1Decode.ToBytes` | crates/tensorfs-core/src/tfm1.rs:582-615 | writes the canonical bytes |
| `Tfm1Decode.WriteBody` | crates/tensorfs-core/src/tfm1.rs:532-580 | writes one body's canonical bytes |
| `Formats.BodyBytes` | crates/tensorfs-core/src/tfm1.rs:532-580 | a body in literal bytes: tags, widths and order of every field |
| `Formats.RecordBytes` | crates/tensorfs-core/src/tfm1.rs:532-580 | a record in literal bytes |
| `Formats.StampBytes` | crates/tensorfs-core/src/tfm1.rs:532-580 | a contract stamp in literal bytes: a marked digest, five zeros, or a counted name and a version |
| `Formats.EntryBytes` | crates/tensorfs-core/src/tfm1.rs:582-615 | an entry in literal bytes |
| `Formats.ManifestBytes` | crates/tensorfs-core/src/tfm1.rs:582-615 | a manifest in literal bytes: magic, parent, count and entries |
| `Formats.PathAcceptedIff` | crates/tensorfs-core/src/tfm1.rs:396-436 | segments join to a path that is accepted exactly when it is at most 4096 bytes, normalised, and each segment is accepted |
| `Formats.SegmentRefused` | crates/tensorfs-core/src/tfm1.rs:396-436 | the forms, bytes and endings for which a segment is refused |
| `Formats.PlainSegment` | crates/tensorfs-core/src/tfm1.rs:396-436 | a segment of letters, digits, hyphens and underscores that is no device name is accepted |
| `Formats.ReservedIff` | crates/tensorfs-core/src/tfm1.rs:57-61 | the device names: CON, PRN, AUX, NUL, and COM and LPT with a digit from 1 to 9, in any case |
| `Formats.PathRefused` | crates/tensorfs-core/src/tfm1.rs:396-436 | a path is refused when empty, longer than 4096 bytes, not normalised, absolute, or with a refused segment |
| `Formats.TargetAcceptedIff` | crates/tensorfs-core/src/tfm1.rs:438-449 | a symlink target is accepted exactly when it has from one to 4096 bytes and no control character |
| `Formats.RunRules` | crates/tensorfs-core/src/tfm1.rs:452-482 | runs of one and two records that are valid, and one refused for each rule |
| `Formats.Bounds` | crates/tensorfs-core/src/tfm1.rs:26-29 | the bounds of both formats |
| `Formats.DeviceRefused` | crates/tensorfs-core/src/tfm1.rs:396-436 | a device name is refused on its own and with any extension |
| `Formats.BodyRules` | crates/tensorfs-core/src/tfm1.rs:486-496 | 64 MiB bounds a data record and not a hole, an empty blob has the digest of nothing, a named stamp has a version from one |
| `Formats.ContractNames` | crates/tensorfs-core/src/contract.rs:278-313 | one accepted contract name and one refused for each rule |
| `PathOrder.LeastOf` | crates/tensorfs-core/src/tfm1.rs:793-798 | finds the first path of a group |
| `PathOrder.BeforeIs` | crates/tensorfs-core/src/tfm1.rs:1006-1011 | the byte order, read off: one text comes before another if and only if they agree up to a point where it ends or has the smaller byte |
| `Tfm1Builder.SameTreeRerooted` | crates/tensorfs-core/src/tfm1.rs:778-819 | re-rooting depends only on the tree |
| `Tfm1Builder.ListingDependsOnTree` | crates/tensorfs-core/src/tfm1.rs:766-862 | two successful resolutions of one tree list the same entries and ordinals |
| `Tfm1Builder.AnyMemberMayBeTheFile` | crates/tensorfs-core/src/tfm1.rs:778-819 | declaring any other member of a link group as its file declares the same tree |
| `Tfm1Builder.OrderDoesNotMatter` | crates/tensorfs-core/src/tfm1.rs:766-776 | any permutation of the declarations declares the same tree |
| `Tfm1Resolve.Collect` | crates/tensorfs-core/src/tfm1.rs:766-776 | accepts exactly valid, distinct declarations |
| `Tfm1Resolve.GroupLinks` | crates/tensorfs-core/src/tfm1.rs:780-791 | accepts exactly hardlinks to declared files and groups them |
| `Tfm1Resolve.Reroot` | crates/tensorfs-core/src/tfm1.rs:778-819 | puts every group's body at its first path and points the rest at it |
| `Tfm1Resolve.RerootedLinksEarlier` | crates/tensorfs-core/src/tfm1.rs:778-819 | after re-rooting every hardlink points at an earlier path that holds the file |
| `Tfm1Resolve.List` | crates/tensorfs-core/src/tfm1.rs:821-859 | lists the tree in path order, numbering files as it meets them |
| `Tfm1Resolve.Resolve` | crates/tensorfs-core/src/tfm1.rs:766-862 | succeeds exactly on buildable declarations and yields the one listing of their tree |
| `Tfm1Finish.Finish` | crates/tensorfs-core/src/tfm1.rs:877-899 | returns the one snapshot the declarations build, or refuses when there is none |
| `Tfm1Finish.Canonicalize` | crates/tensorfs-core/src/tfm1.rs:902-930 | a tensor keeps its checked records; any other file is empty or one whole-file object |
| `Tfm1Finish.BuildDependsOnTree` | crates/tensorfs-core/src/tfm1.rs:877-899 | two builds of one tree give the same snapshot and bytes |
| `Tfm1Finish.CanonicalMeans` | crates/tensorfs-core/src/tfm1.rs:999-1068 | a decoded listing is strictly ascending in byte order and every ordinal names an earlier file |
| `Tfm1Finish.BuiltIsCanonical` | crates/tensorfs-core/src/tfm1.rs:877-899 | every built snapshot is canonical and decodes to itself |
| `Tfm1Finish.EveryCanonicalIsBuilt` | crates/tensorfs-core/src/tfm1.rs:766-899 | every canonical snapshot is what some build writes |
| `Tfm1Finish.AcceptsExactlyBuilt` | crates/tensorfs-core/src/tfm1.rs:976-1074 | the accepted byte strings are exactly the bytes builds write |
| `Clone.CloneNeverRefuses` | crates/tensorfs-core/src/workspace.rs:422-457 | cloning a canonical snapshot whose objects are resident is accepted whole, and the head then holds exactly its entries |
| `CloneHead.HeadTree` | crates/tensorfs-core/src/workspace.rs:549-553 | stages the committed head and resolves it into its listing |
| `CloneHead.DeclareStaged` | crates/tensorfs-core/src/workspace.rs:1880-1908 | declares each inode's body at its first path and a hardlink from every other |
| `CloneHead.CloneIsBuildable` | crates/tensorfs-core/src/workspace.rs:1911-1916 | reading a cloned head back is never refused |
| `CloneHead.CloneArrives` | crates/tensorfs-core/src/workspace.rs:422-457 | from any well-formed tables, creating a workspace and cloning a canonical snapshot with resident objects into it goes through and keeps every tree |
| `CloneHead.HeadOfClone` | crates/tensorfs-core/src/workspace.rs:549-553 | reading the head of such a clone succeeds and returns exactly the listing of the snapshot, contract stamps aside |
| `CloneHead.CloneReturnsTree` | crates/tensorfs-core/src/workspace.rs:422-457 | a cloned head lists the snapshot's own paths, kinds, bits, planners, records, targets and hardlink ordinals; only contract stamps are gone |
| `Tfp1.PackRoundTrip` | crates/tensorfs-core/src/tfp1.rs:113-177 | a byte string is accepted exactly when it is a well-formed pack's bytes |
| `Tfp1Codec.Encode` | crates/tensorfs-core/src/tfp1.rs:219-269 | accepts exactly bounded, verified, duplicate-free objects, and its bytes parse to those objects ascending by digest |
| `Tfp1Codec.ReadPack` | crates/tensorfs-core/src/tfp1.rs:113-177 | the index loop and the payload check accept exactly well-formed packs |
| `Tfp1Codec.DecodePack` | crates/tensorfs-core/src/tfp1.rs:113-214 | returns objects exactly on the bytes of a verified pack of them |
| `Formats.PackBytes` | crates/tensorfs-core/src/tfp1.rs:219-269 | a pack in literal bytes: magic, count, index row, payload |
| `Formats.RowsAndPayload` | crates/tensorfs-core/src/tfp1.rs:219-269 | index rows follow one another, each at the offset where the payload before it ends |
| `Formats.PackRules` | crates/tensorfs-core/src/tfp1.rs:113-177 | a pack of two is well formed exactly when each has from one byte to 64 MiB, both together at most 64 MiB, and the digests ascend |
| `Push.DataClosure` | crates/tensorfs-core/src/sync.rs:495-510 | the first row of every digest in manifest order, each digest once |
| `ManifestNames.Owes` | crates/tensorfs-core/src/sync.rs:495-510 | a row is owed if and only if some file body names that object at that length |
| `ManifestNames.OwedInOrder` | crates/tensorfs-core/src/sync.rs:495-510 | the rows of a listing come in manifest order |
| `ManifestNames.FirstsInOrder` | crates/tensorfs-core/src/sync.rs:495-510 | of each digest the first row is kept, where it stands |
| `ManifestNames.ClosureIsRooted` | crates/tensorfs-core/src/workspace.rs:1208-1214 | the objects a push owes are exactly the objects the snapshot's row keeps from collection, and these are the ones its file bodies name |
| `Push.VerifyCanonicalMissing` | crates/tensorfs-core/src/sync.rs:525-551 | accepts exactly the order-preserving sublists of the closure |
| `PushMeaning.SublistIff` | crates/tensorfs-core/src/sync.rs:525-551 | a sublist picks its rows at growing indices, and whatever does is one |
| `Push.VerifyLanes` | crates/tensorfs-core/src/sync.rs:870-899 | accepts exactly when both lanes are sublists and each row is in the lane its size puts it in |
| `PushMeaning.LanesIff` | crates/tensorfs-core/src/sync.rs:870-899 | a view is lane-correct exactly when both lists pick rows of the closure at growing indices and the bound puts each row in the lane it is in |
| `Push.GreedyIsFewest` | crates/tensorfs-core/src/sync.rs:681-700 | no packing of the rows into consecutive packs uses fewer |
| `Push.Assemble` | crates/tensorfs-core/src/sync.rs:681-700 | each row joins the last pack if it fits and opens one otherwise; the packs concatenate back to the missing list, respect both bounds, and are as few as possible |
| `PushMeaning.FullMeans` | crates/tensorfs-core/src/sync.rs:681-700 | each pack holds from one to a million rows within the bound and is followed by a row it has no room for |
| `PushSession.GroupEncodes` | crates/tensorfs-core/src/sync.rs:702-708 | every group, loaded from a content-addressed store, meets the pack writer's rules |
| `PushSession.Upload` | crates/tensorfs-core/src/sync.rs:742-763 | makes at most the attempt budget of PUTs and returns the first answer that is no carrier failure, or a carrier failure when every attempt met one |
| `PushSession.SendGroup` | crates/tensorfs-core/src/sync.rs:702-775 | the pack sent parses to exactly the group's verified objects; it is delivered, lapses, is refused or is given up exactly as its grant and the PUTs made under it come out |
| `PushSession.SendGroups` | crates/tensorfs-core/src/sync.rs:681-775 | sends the greedy packs of the whole missing list in order: all go through, or the first that does not decides |
| `PushMeaning.GroupSentIs` | crates/tensorfs-core/src/sync.rs:702-775 | for local objects, answer by answer: a group already staged or landed goes on, a lapse makes the loop probe again, a refusal stops it, and so do carrier failures at every attempt the budget allows |
| `PushSession.PackLoop` | crates/tensorfs-core/src/sync.rs:675-799 | at most (what was missing plus what the remote adds) times the stall budget rounds; success only with nothing missing after rounds that all went through; every failure has its cause in the round it names: a local object gone, a refusal, a spent attempt budget, a view that breaks lanes, or a full stall budget of rounds without progress |
| `PushMeaning.ReachedIff` | crates/tensorfs-core/src/sync.rs:675-799 | the loop gets to a round exactly when in every round before it something was missing, no group stopped it, the probe answered a lane-correct view, and the stall budget was not full |
| `PushMeaning.DrainedMeans` | crates/tensorfs-core/src/sync.rs:675-799 | a drained pack lane is one whose last probe answered that nothing is missing |
| `PushSession.PackLoopEndsIff` | crates/tensorfs-core/src/sync.rs:675-799 | against any remote the loop ends if and only if the missing set grows by a bounded amount in all |
| `PushSession.SteadyGrowsNothing` | crates/tensorfs-core/src/sync.rs:783-798 | a missing set that never grows meets that bound with zero, and so does every remote when no stall is tolerated |
| `PushSession.SeesawGoesOn` | crates/tensorfs-core/src/sync.rs:783-798 | at any stall budget of two or more, a remote whose every view is lane-correct keeps the loop going past any number of rounds with something still missing |
| `PushSession.CompleteLoop` | crates/tensorfs-core/src/sync.rs:818-857 | with at most T promoted, at most (T+1) times the stall budget calls, success exactly on a Promoted answer, and failure only on a verdict or after a full budget of consecutive calls that admitted nothing |
| `PushBlobs.PushOneBlob` | crates/tensorfs-core/src/sync.rs:995-1109 | comes to exactly what the grant, the PUTs made and the report say, every failure with its cause; done means each part was held already or is among the parts sent, with exactly its bytes, and landed |
| `PushBlobs.BlobFailure` | crates/tensorfs-core/src/sync.rs:995-1109 | an upload fails with an error if and only if that error has its cause, lapses if and only if a part's grant does and what landed is reported, and is done if and only if every part is in place and what landed is reported |
| `PushBlobs.RowFailure` | crates/tensorfs-core/src/sync.rs:932-963 | a row fails with an error if and only if that error has its cause: its batch of sixteen is refused, its grant is left out, or its upload fails |
| `PushBlobs.PartsJoin` | crates/tensorfs-core/src/sync.rs:1049-1066 | the ranges of covering parts join back to the object |
| `PushBlobs.PushBatch` | crates/tensorfs-core/src/sync.rs:932-963 | drives the rows of one batch in order: each is done, put off, or the first to fail, and the parts landed are exactly what those rows land |
| `PushBlobs.SentAreGenuine` | crates/tensorfs-core/src/sync.rs:1049-1100 | every part the lane counts was not listed by its grant, landed within the attempt budget, and carried its range of the local object |
| `PushBlobs.PushBlobLane` | crates/tensorfs-core/src/sync.rs:912-979 | at most (rounds that land a part plus blobs) times the stall budget rounds; success only when each blob is in place, every part held already or sent with exactly its bytes; every failure has its cause: a row that fails and why, or a full budget of rounds that landed nothing and put everything off |
| `PushMeaning.LaneReachedIff` | crates/tensorfs-core/src/sync.rs:912-979 | the lane gets to a round exactly when in every round before it something was pending, no row failed, and the budget of idle rounds was not full |
| `PushMeaning.DeferredAre` | crates/tensorfs-core/src/sync.rs:932-979 | the rows a round puts off are those that lapsed, in order |
| `PushBlobEnds.LaneEndsIff` | crates/tensorfs-core/src/sync.rs:912-979 | against any remote the lane ends if and only if only boundedly many of its rounds land a part |
| `PushBlobEnds.DurableLands` | crates/tensorfs-core/src/sync.rs:921-926 | if later grants list what landed, no more rounds land a part than there are parts |
| `PushBlobEnds.EveryPartLands` | crates/tensorfs-core/src/sync.rs:912-979 | if every part offered lands, no more rounds land a part than there are blobs, whatever grants lapse |
| `PushBlobEnds.ForgetfulGoesOn` | crates/tensorfs-core/src/sync.rs:907-911 | a remote that takes a first part, lets the second lapse and lists neither keeps the lane going past any number of rounds at every stall budget |
| `PushAll.PushSnapshot` | crates/tensorfs-core/src/sync.rs:591-857 | a push of a canonical manifest succeeds only on a Promoted answer, after every blob was in place and the remote's missing set was empty, within all three bounds; every failure is one of the named causes at the stage and count it happened; no pack it sends weighs more than the remote's bound or this side's |
| `PushAll.PacksAreWelcome` | crates/tensorfs-core/src/sync.rs:636-700 | every pack of every round is within the remote's pack bound, if it names one, and within 64 MiB |
| `PushAll.SplitAtTheBound` | crates/tensorfs-core/src/sync.rs:636-640 | a view split at the remote's bound, small rows to packs and large ones to the blob lane, is never refused as a mismatch; one split elsewhere is |
| `Repack.FindRepack` | engine.go:728-767 | returns a connected chain of catalog morphisms with the fewest hops, and fails only when no chain exists |
| `Repack.ChainIff` | engine.go:728-767 | a chain, hop by hop: each step is a morphism the catalog carries and starts where the one before it arrived |
| `Repack.Shortest` | engine.go:728-767 | when the search first meets the target, no chain to it is shorter |
| `LayoutGreedy.ComponentAccepts` | engine.go:257-285 | accepts exactly members whose every tensor is declared at its shape and dtype |
| `LayoutGreedy.Claim` | engine.go:173-187 | claims a member's keys exactly when none is already covered or repeated |
| `LayoutGreedy.MatchLayout` | engine.go:153-236 | returns what the two-pass greedy function returns over a stable order by path; an accepted layout has every member in a component that accepts it, no key covered twice, every required key covered, and passes both prefilters; when no member that carries a tensor has two candidates, it accepts exactly when some assignment matches |
| `LayoutGreedy.GreedySound` | engine.go:153-236 | whatever the greedy function accepts matches, for every order |
| `LayoutGreedy.GreedyExact` | engine.go:153-236 | when no member that carries a tensor has two candidates, the greedy function refuses only what no assignment matches |
| `LayoutGreedy.BestComponent` | engine.go:201-217 | picks the first candidate of the highest score |
| `LayoutGreedy.HintIs` | engine.go:238-248 | the hint is the last directory of the path, and none without a directory |
| `LayoutGreedy.UncoveredCounts` | engine.go:201-217 | a score counts the keys still lacking |
| `LayoutGreedy.PickRefusedIff` | engine.go:200-221 | a pick is refused as a duplicate if and only if the member repeats a key, no candidate is free, or the directory name outvotes exactly one taken key |
| `LayoutGreedy.PassRefusedIff` | engine.go:188-221 | a pass refuses if and only if some member, at its turn, meets that condition |
| `LayoutGreedy.HintMissesAMatch` | engine.go:200-221 | for every shape, dtype, path and order: inputs that some assignment matches and the matcher refuses because the directory name outvotes a taken key |
| `LayoutGreedy.TieMissesAMatch` | engine.go:201-232 | for every shape, dtype and unhinted path: inputs without a clash that some assignment matches and the matcher refuses because a tie goes to the component that did not require the key |
| `LayoutMatch.EveryTensorCounts` | engine.go:173-187 | under a match the covered keys are exactly as many as the tensors |
| `LayoutMatch.NothingMatches` | engine.go:153-236 | a tensor no component declares at its shape and dtype, or a required key no member carries, leaves nothing to match |
| `LayoutMatch.OwnMatches` | engine.go:153-236 | members that carry their own component's keys as declared, each once and every required one, match |
| `LayoutMatch.FiltersAreSound` | engine.go:421-437 | neither prefilter discards a layout the headers match |
| `LayoutMatch.DiscardedNeverMatches` | engine.go:421-437 | a discarded layout is matched by no assignment at all |
| `LayoutMatch.PlausiblePair` | engine.go:421-437 | the filters on any two components: the tensors are at least the required and at most the declared keys, and the probe is a key of either |
| `LayoutMatch.CandidateShape` | engine.go:401-411 | the total entry count and, when no name is empty, the least carried key name |

## Left out

- Shape-formula text: a record's formulas are partial functions from shape to extent; the two textual parsers are not modelled.
- Overflow of tensor extents and memory reservation: extents and products are unbounded naturals.
- LayoutBytes.Ratify: takes any probe shapes; how `probe_shapes` chooses them is not modelled, since no shape can fail.
- LayoutFill.Fill: its refusals are stated for every record; the walk itself for well-factored ones, as every record of the catalog and every ratified one is. On any other record that passes the tests the walk may index out of bounds. The CUDA sink is left out, and so is the chunk-touch counter of the statistics.
- PermuteKernel.PermuteBytes: the input has the size its dimensions say, as the kernel asserts in debug builds.
- The format planners: a plan's regions are assumed to tile the file in order with positive lengths.
- Rechunk.AdmitRegions: admits one region after another; the source's worker threads reach the same store and return the same list.
- Durability of admission (temporary files, fsync, hard links) and file locks: admission is one atomic step.
- The database engine: transactions are atomic, SQL errors do not occur, row ids are one past the largest in use, workspaces are identified by name, and object maps are held as record sequences inside inodes.
- An adoption whose row comes after a pass took one of its objects: not in the runs, since it breaks what they keep; `WorkspaceAdopt.AdoptResidentIff` says exactly when it does.
- A seal across a delete and recreate of its workspace: such a step is not in the runs, since it breaks what they keep; `WorkspaceReseal.SealResidentIff` says exactly when it does.
- WorkspaceRuns.AlwaysATree: runs make neither of the two calls that remove a root; both are stated exactly for single steps and batches. What a workspace does after it lost its root is left out: the source goes on treating the missing root as a directory, and the model does not.
- WorkspaceAccept.CommitAcceptedIff: stated for batches that do not remove the root, for the same reason.
- Path length below a renamed directory: rename does not recheck descendants, so staging is stated without the path-length bound.
- WorkspaceStage.StageTree: emits in walk order; the order within a directory is not the database's, and is proved not to matter to what is built.
- Clone.CloneNeverRefuses: assumes case folding works segment by segment, as per-character lower-casing does.
- Usage and scrub, which read and report.
- Refusal labels and error texts, whose order also differs between the Rust and Go readers; the Go TFM1 codec.
- PushAll.PushSnapshot: the answer to the declaration and the view probed after the blob lane are parameters; the transfer's own lease is `WorkspaceRuns.TransferStaysPinned`; download, back-off, progress and the report are left out.
- LayoutGreedy.MatchLayout: which refusal is reported is left out, as is the catalog's check that a plausible layout has a transforming rule.
- LayoutMatch.CandidateShape: with an empty tensor name the probe is what the loop leaves, a carried name and not always the least.
- Repack.FindRepack: which of several shortest chains is returned (the by-name order) and the step kinds are left out.
- `decide`, `select`, `derive` and header composition, `role_runs`, patterns and fusions: they would add cases rather than harder statements.
- Catalog and JSON loading, ref and projection files, the HTTP transport, Python and benchmarks.
