# Verified model of the fast-confirmation-rule simulator

The simulator replays the beacon chain slot by slot. Several engine workers ask one planning backend which blocks to
import and which votes to inject at a slot. The backend reads canonical blocks from era files and orphaned blocks from a
block archive. This project models that planning backend, the loaders beneath it, the state cache and vote tracker of the
Lodestar engine, and the path from splitting an epoch range to merging the workers' records. `dafny verify dfyconfig.toml`
checks all of it.

## How the model is built

- **Canonical index.** `SlotRanges` holds the interval lists. `CanonicalIndex` is the index as a class. Between any two
  critical sections of a call other callers may claim gaps, load them, publish them and give them up; the field `others` bounds
  how many steps they still take, so that every call returns. `IndexProtocol` is the same index as a step system: each step is
  one critical section or one unlocked load, callers come and go, and theorems range over every run.
- **Planner.** `PlanSpec` defines the planner as functions on values. `CanonicalViews`, `PlanBuild`, `RealBackend` and
  `WarmPass` are the classes and loops of the source, each method proved to compute its function. Everything else about
  plans is proved of the functions: chains (`OrphanChains`), what a step takes and defers (`PlanSteps`), whole plans
  (`PlanRuns`, `ParentsFirst`), and single slots (`SlotRuns`, `SlotParents`). `SlotMeaning` and `PlanMeaning` say what an
  instruction and a plan are without the planner's functions and state: `ListedOrphans` and `VoteOrder` have the orphans
  listed at a slot and the votes of its sources, `PlanTour` the walks of a plan over era files, archive and index alone,
  `PlanFollows` and `PlanWalks` show that the planner follows them, and `PlanVotes` what votes bring in. The classes let other callers use the shared
  index between any two of their steps (`PlanBuildState.Preempt`), and their answers are those of the functions all the same.
  `AttPlan` and `SourceAgreement` relate the two implementations of the choice of sources.
- **Serving from the disk cache.** `WarmPass` is the pass that fills the cache for one range and `WarmRanges` the loop over the
  ranges of all workers, with the orphan index merged from them. `WarmCache` shows what a warmed cache is good for, `CacheExact`
  exactly when a server on the cache answers like one on the archive, and `LateOrphan` an input on which it does not.
- **Loaders.** `FirstSeen` groups rows into votes, `FirstSeenFlight` shares one load among concurrent requests,
  `EraFormat` and `EraReader` index era files, `ArchiveListing` pages through the archive's index, and `RootOrder` shows that
  the three ways in which roots are compared are one order. `Sorts` is the one sort that all of them use.
- **Engine and pipeline.** `StateCache`, `VoteTracker`, `Chunks` and `Merge`.

Errors are `None`. A method that returns an error leaves its object usable, but what it had found by then is not specified.
Integers of Go's `uint64` are a bounded subset type, so every addition that could wrap is written out
(`CheckedAdd`, `SaturatingAdd`, `WrappingAdd`).

### Oracles and assumptions

- Era reads are a function from slot to missed, block or unreadable. The archive is a partial function from root to block
  that answers with the root asked for (`pkg/beaconapi/realbackend.go:941`); the two lookups of the archive client, by root
  and by slot and root, are one such function. First-seen votes are a function from slot to votes or an error.
- A root stands for its block: era files and archive agree on shared roots, and distinct canonical blocks have distinct
  roots (`ValidEra`, `ValidEnv`). That an era block embeds the slot it is read at is proved of the era reader
  (`EraReader.AnswerEmbedsSlot`).
- `ParentsFirst` and `SlotParents` additionally use the header rule of the consensus specification (phase0 beacon chain, Block
  header, `process_block_header`): a block is newer than its parent (`ParentsOlder`), and, from the first slot that the plan or the
  instruction imports on, the parents of canonical blocks are canonical (`CanonicalLinked`). `CacheExact`, `SlotMeaning` and
  `PlanMeaning` use the former only; era files that cannot be read are part of their statements. `WarmServesRange` and
  `WarmServesCollected` use neither.
- Snappy, SHA-256, hash-tree roots, root parsing and the proto-array lookup are function parameters. Decode caches are
  transparent.

### Where the code differs from what its comments suggest

- `pkg/beaconapi/realbackend.go:489-493` says that the warm pass resolves every orphan the serving loop could request. In
  first-seen mode that is proved, and the whole answer of a serving call is the same (`WarmRanges.WarmServesRange`). In the modes
  that read votes from source blocks it is false: the code collects the votes of canonical blocks and of the orphans that the slot
  index lists, but not those of orphans which only its final walks discover (lines 553-583), although it hands these to the server
  as well. `LateOrphan.LateOrphanIsLost` is an input on which the server on the cache loses an import. `WarmRanges.WarmServesSlot`
  has the exact condition for every mode and slot, errors included: the walks from the fresh roots that the slot's votes name fail
  on both servers or on neither, and if on neither, those with their block at the slot are cached as far as they stay in the import
  window. A walk fails exactly when it meets a slot whose era file cannot be read; where all of these walks can be read, being cached
  is the whole condition.
- The construction of the expected slots (`cmd/fcr-orchestrator/main.go:606-615`) leaves out the first slot of the range when
  there is no warmup or the range starts at genesis. `Chunks.ExpectedIsWholeRange` gives the exact condition.
- A vote for slot 0 is indistinguishable from no vote in the Lodestar tracker (`engines/lodestar/src/main.ts:1423-1424`), so among
  votes for slot 0 the last one stays while among votes for any later slot the first one does.
  `VoteTracker.LatestDecides` covers both.

## Model

| member | source | states |
|---|---|---|
| SlotRanges.RangeContainingSlot | pkg/beaconapi/realbackend.go:815-825 | finds the range of an ordered list that holds the slot, and answers none only when no range does |
| SlotRanges.AddSlotRange | pkg/beaconapi/realbackend.go:827-854 | a normalised list stays normalised and covers exactly the union, also for ranges that end at MaxUint64 |
| SlotRanges.NormalUnique | pkg/beaconapi/realbackend.go:827-854 | a set of slots has only one normalised list |
| SlotRanges.UnionNormal | pkg/beaconapi/realbackend.go:827-854 | the reference definition of adding a range is normalised and covers exactly the union |
| SlotRanges.InsertSlotRange | pkg/beaconapi/realbackend.go:856-870 | the loop inserts before the first range that starts later |
| SlotRanges.InsertedOrdered | pkg/beaconapi/realbackend.go:856-870 | inserting a range disjoint from an ordered list keeps it ordered, with exactly one more range |
| SlotRanges.RemoveSlotRange | pkg/beaconapi/realbackend.go:872-881 | the in-place filter drops every copy of the range and keeps the order of the others |
| SlotRanges.WithoutOrdered | pkg/beaconapi/realbackend.go:872-881 | removing a range from an ordered list keeps it ordered, loses exactly that range and uncovers exactly its slots |
| SlotRanges.NextGap | pkg/beaconapi/realbackend.go:752-779 | no gap exactly when [from, to] is covered; otherwise a wait on the first uncovered slot, or a maximal gap of at most 256 slots that starts there and is disjoint from loaded and loading |
| SlotRanges.DemandUnique | pkg/beaconapi/realbackend.go:752-779 | the two lists and the request determine whether to return, wait or load, and the gap |
| SlotRanges.DemandExists | pkg/beaconapi/realbackend.go:752-779 | for every pair of ordered lists and every request there is such an answer |
| IndexProtocol.StepKeeps | pkg/beaconapi/realbackend.go:692-729 | every step (arrive, claim, load, publish, withdraw, wait) keeps: loaded normalised, loading ranges disjoint from each other and from loaded, each loading range owned by exactly one caller, the maps equal to the era blocks of exactly the loaded slots |
| IndexProtocol.RunSafe | pkg/beaconapi/realbackend.go:692-729 | over every run the invariant holds in each state and no loaded slot is ever lost |
| IndexProtocol.NilReturnMeansLoaded | pkg/beaconapi/realbackend.go:697-704 | after a nil return all of [from, to] is loaded, readable and equal to the era files, now and to the end of the run |
| IndexProtocol.WaiterHasLoader | pkg/beaconapi/realbackend.go:705-709 | a waiter's slot lies in a loading range owned by another caller that is not waiting |
| IndexProtocol.Progress | pkg/beaconapi/realbackend.go:697-728 | no deadlock and no lost wakeup: while a call is unfinished some caller can step |
| IndexProtocol.CallStepDecreases | pkg/beaconapi/realbackend.go:697-728 | every step of every caller lowers one measure, whichever caller runs |
| IndexProtocol.SchedulesAreFinite | pkg/beaconapi/realbackend.go:697-728 | once calls stop arriving, every schedule ends within the measure of its first state |
| IndexProtocol.UnfinishedGoesOn | pkg/beaconapi/realbackend.go:697-728 | a schedule that has not returned all calls can be extended, so a maximal one returns them all |
| IndexProtocol.NoSlotPublishedTwice | pkg/beaconapi/realbackend.go:716-724 | two publications of one run never share a slot |
| CanonicalIndex.StoreAgrees | pkg/beaconapi/realbackend.go:718-723 | storing the blocks of a gap extends the agreement of both maps with the era files to exactly the gap's slots |
| CanonicalIndex.CanonicalBlockIndex.OthersStep | pkg/beaconapi/realbackend.go:697-728 | a step of another caller (claim, publish, withdraw) keeps the lists, the maps and the claim of this caller, and never loses a loaded slot |
| CanonicalIndex.CanonicalBlockIndex.Release | pkg/beaconapi/realbackend.go:716-728 | giving a claim up removes exactly it, with its blocks published or, after a failed load, nothing |
| CanonicalIndex.CanonicalBlockIndex.EnsureRange | pkg/beaconapi/realbackend.go:692-729 | while other callers claim, load, publish and withdraw between any two of its critical sections, a call returns, fails exactly when a slot of the request is unreadable, and on success has the request loaded; a lone call loads nothing else |
| CanonicalIndex.CanonicalBlockIndex.LoadRange | pkg/beaconapi/realbackend.go:731-750 | returns exactly the blocks of the range, also up to MaxUint64, or reports an unreadable slot |
| CanonicalIndex.CanonicalBlockIndex.SnapshotRange | pkg/beaconapi/realbackend.go:795-809 | copies exactly the loaded blocks of the window, whatever the map order |
| CanonicalIndex.CanonicalBlockIndex.CanonicalInfoAtSlot | pkg/beaconapi/realbackend.go:902-908 | answers with what the era files hold at the slot, from any state of the index and whatever other callers do meanwhile |
| CanonicalIndex.CanonicalBlockIndex.InfoByRoot | pkg/beaconapi/realbackend.go:788-793 | finds a root exactly when a loaded slot holds a block with it |
| CanonicalViews.CanonicalBlockView.InfoBySlot | pkg/beaconapi/realbackend.go:1042-1053 | shows the blocks of its window and the added ones, and nothing else the index has loaded |
| CanonicalViews.CanonicalBlockView.RootKnown | pkg/beaconapi/realbackend.go:1055-1066 | knows a root exactly when a shown block has it |
| CanonicalViews.CanonicalBlockView.OthersMayLoad | pkg/beaconapi/realbackend.go:1034-1066 | whatever other workers load meanwhile, every answer of the view stays the same |
| CanonicalViews.ViewRefinesMap | pkg/beaconapi/realbackend.go:1007-1075 | a view and a map that show the same slots answer every query alike |
| AttPlan.Plan | pkg/attplan/attplan.go:40-70 | one entry per slot with the source its mode promises; rejects exactly a reversed range, a zero cap in the lookahead modes and unknown modes |
| AttPlan.SourceUnique | pkg/attplan/attplan.go:51-104 | the promise of a mode determines the source |
| AttPlan.NextNonMissedSource | pkg/attplan/attplan.go:72-95 | the first existing slot of (slot, slot + cap], none for a window past MaxUint64; the scan stops at MaxUint64 |
| AttPlan.StrictKMinus1Source | pkg/attplan/attplan.go:97-104 | the next slot if it exists; the wrap at MaxUint64 is written out |
| RealBackend.FirstNonMissedSource | pkg/beaconapi/realbackend.go:990-1005 | the scan returns the head of the existing slots of the window |
| RealBackend.PlanSourcesForSlot | pkg/beaconapi/realbackend.go:950-988 | in every mode: exactly the chosen slots in ascending order, each bounded by the evaluation slot in greedy mode and by nothing else; at most the first existing slot of the window, the next slot, or none in the other modes |
| SourceAgreement.GreedyIsWindow | pkg/beaconapi/realbackend.go:966-981 | the greedy list is exactly the existing slots of (slot, slot + cap], strictly ascending, each bounded by the evaluation slot, and empty when the window would pass MaxUint64 |
| SourceAgreement.FirstSourceAgrees | pkg/attplan/attplan.go:51-104 | in all four modes the reference planner's source is the head of the replay planner's list |
| SourceAgreement.SourcesArePromised | pkg/beaconapi/realbackend.go:950-988 | the reference list keeps that promise in every mode, also at MaxUint64 |
| SourceAgreement.PromisedSourcesUnique | pkg/beaconapi/realbackend.go:950-988 | the promise leaves one list |
| Sorts.AscendingUnique | pkg/beaconapi/realbackend.go:1540-1549 | a set has only one strictly ascending listing, so neither map order nor an unstable sort of different elements matters |
| Sorting.SortedListing | pkg/beaconapi/realbackend.go:1540-1549 | sorting any listing of a set without repeats gives that listing |
| Sorts.SortSorts | pkg/beaconapi/realbackend.go:1393-1400 | sorting by any strict weak order leaves no element before one that precedes it |
| Sorts.SortStable | pkg/beaconapi/realbackend.go:1393-1400 | the sort is stable: elements that rank alike keep their order |
| Sorting.BlocksStable | pkg/beaconapi/realbackend.go:1393-1400 | blocks of equal slot and root keep their order |
| Sorts.SortKeeps | pkg/beaconapi/realbackend.go:1393-1400 | sorting keeps length and members, and keeps distinct members distinct |
| Sorting.SortKeepsDistinct | pkg/beaconapi/realbackend.go:1393-1400 | sorting blocks keeps them distinct |
| PlanBuild.SortedRootKeys | pkg/beaconapi/realbackend.go:1540-1549 | keys taken in any order come out as the ascending listing of the set |
| PlanBuild.ReverseChain | pkg/beaconapi/realbackend.go:1445-1447 | the two-ended swap loop reverses the chain |
| PlanBuild.PlanBuildState.FetchBlockInfoByRoot | pkg/beaconapi/realbackend.go:1470-1491 | answers like the archive from any memory of earlier answers |
| PlanBuild.PlanBuildState.IsCanonicalBlockInfo | pkg/beaconapi/realbackend.go:1451-1468 | decides canonicity by the view or the era files and shows the block it found there |
| PlanBuild.PlanBuildState.ResolveOrphanChain | pkg/beaconapi/realbackend.go:1402-1449 | the walk loop, its cut counter and the reversal compute the reference chain and state |
| PlanBuild.PlanBuildState.ArchiveOrphanInfosBySlot | pkg/beaconapi/realbackend.go:1214-1253 | computes the reference search of a slot's listed orphans, with all its marks |
| PlanBuild.PlanBuildState.ArchiveOrphanImportsForSlot | pkg/beaconapi/realbackend.go:1255-1277 | computes the reference imports from a slot's listed orphans |
| PlanBuild.PlanBuildState.Preempt | pkg/beaconapi/realbackend.go:692-729 | whatever other callers do with the shared index between two steps, the state of the planner does not change |
| PlanBuild.PlanBuildState.CollectUnknownRoots | pkg/beaconapi/realbackend.go:1283-1292 | adds exactly the voted roots nobody has dealt with, and changes nothing |
| PlanBuild.PlanBuildState.OrphanImportsForSources | pkg/beaconapi/realbackend.go:1089-1171 | computes the reference scheduling: imported now, deferred to its own slot, ignored or skipped; what that brings into a plan is said by `PlanMeaning` and `PlanVotes` |
| PlanBuild.PlanBuildState.AttestationsFromSources | pkg/beaconapi/realbackend.go:1173-1199 | computes the reference votes of the sources without exact repeats |
| PlanBuild.PlanBuildState.OrphanImportsForSlotAttestations | pkg/beaconapi/realbackend.go:1315-1370 | computes the reference orphans of a slot's votes |
| RealBackend.Backend.BuildPlan | pkg/beaconapi/realbackend.go:171-274 | from any state of the shared index, and while other callers use it between any two steps, the plan is that of the reference function and has the meaning that `PlanMeaning.PlanIsMeant` spells out |
| RealBackend.Backend.BuildSlot | pkg/beaconapi/realbackend.go:276-370 | independence of history and of concurrent callers: from any state of the shared index, used by others between any two steps, the instruction is the one a fresh backend gives and has the meaning that `SlotMeaning.SlotIsMeant` spells out |
| OrphanChains.ResolvedChain | pkg/beaconapi/realbackend.go:1402-1449 | the chain is parent-linked oldest first, of distinct unknown non-canonical roots, no slot past the evaluation slot, at most 16 long, ends in the requested root; a cut is counted exactly when it is 16 long; an uncut walk ended for a reason |
| OrphanChains.WalkUpShape | pkg/beaconapi/realbackend.go:1408-1441 | the invariant of the walk: linked, distinct orphans that start at the requested root |
| PlanSteps.SlotOrphansShape | pkg/beaconapi/realbackend.go:1255-1277 | the orphans imported from a slot's list are distinct orphans of that slot, listed there and not imported or scheduled before |
| PlanSteps.PlaceRootsShape | pkg/beaconapi/realbackend.go:1122-1161 | each orphan scheduled by a slot waits exactly once under its own later slot, each one imported is new, and nothing that waited is lost |
| PlanRuns.PlanSlotKeeps | pkg/beaconapi/realbackend.go:224-272 | one iteration of the plan loop keeps its whole invariant |
| PlanRuns.PlanEmitsOnce | pkg/beaconapi/realbackend.go:222-273 | over a whole plan no root is emitted twice, and every import of the entry of slot S is a real block with from <= slot <= S |
| PlanRuns.CanonicalEmittedOnce | pkg/beaconapi/realbackend.go:242-245 | each canonical block of [from, to) is the first import of its own slot's entry and is emitted nowhere else |
| PlanRuns.NothingLost | pkg/beaconapi/realbackend.go:253-263 | the table of deferred blocks ends empty, and every scheduled orphan is emitted in the entry of its own slot |
| ParentsFirst.StepLeads | pkg/beaconapi/realbackend.go:224-272 | an iteration imports only loose orphans before their parents, and makes at most as many more blocks loose as it cuts walks |
| ParentsFirst.PlanParentsLead | pkg/beaconapi/realbackend.go:224-272 | over every plan, whatever the index lists and however many walks are cut, a block comes before its parent only if both are orphans and the block is listed without its parent or is one of at most as many blocks as walks were cut |
| ParentsFirst.ClosedIndexLeads | pkg/beaconapi/realbackend.go:224-272 | with an index that also lists the parents of its orphans, and without a cut walk, every emitted block whose parent is emitted comes after it |
| ParentsFirst.ParentsComeFirst | pkg/beaconapi/realbackend.go:224-272 | without a preloaded orphan index and without a cut walk, every emitted block whose parent is emitted comes after it in the flattened plan |
| SlotRuns.SlotEmitsOnce | pkg/beaconapi/realbackend.go:324-370 | a slot's instruction imports no root twice, only real blocks after the warmup start and up to the slot, and the canonical block of the slot first |
| SlotRuns.DedupShape | pkg/beaconapi/realbackend.go:1181-1195 | exact repeats and votes past the bound are dropped, and nothing else |
| SlotRuns.SlotVotesOnce | pkg/beaconapi/realbackend.go:1173-1199 | the votes of a slot never repeat, and they are exactly those of the canonical blocks at its sources and of the orphans listed there that no earlier source listed at a wrong slot, up to the bound of each source |
| ListedOrphans.SlotOrphansExact | pkg/beaconapi/realbackend.go:1255-1277 | the search never fails at a readable slot; it imports exactly the orphans of the slot that are listed there and not ignored, imported or scheduled, by root, and ignores exactly the listed roots of other slots |
| ListedOrphans.SourceRootsExact | pkg/beaconapi/realbackend.go:1101-1121 | looking at existing sources never fails, and the roots collected are exactly those that votes at the sources name and that are still fresh |
| VoteOrder.SourceVotesAreFirst | pkg/beaconapi/realbackend.go:1173-1199 | the votes served are, in the order of the blocks, each root's first vote within the bound |
| VoteOrder.ShownExactly | pkg/beaconapi/realbackend.go:1201-1212 | the blocks looked at are exactly those at the sources, by slot, the canonical block before the orphans, these by root |
| SlotMeaning.SlotIsMeant | pkg/beaconapi/realbackend.go:276-370 | for every mode and slot, over era files, archive and index alone: the answer is an error exactly when the question is not allowed, a slot of the window cannot be read, first-seen votes are missing or a walk meets an unreadable slot; otherwise the two slots, the votes with their order, and the imports with theirs: canonical block, new listed orphans, blocks on the walks |
| SlotMeaning.MeaningUnique | pkg/beaconapi/realbackend.go:276-370 | that meaning leaves one answer |
| PlanTour.TourAtOk | pkg/beaconapi/realbackend.go:1122-1161 | what every tour of walks keeps: what is known was listed or lies on a walk from a voted root, what was walked over and has come up is known, and its parents are settled unless the walk was cut there |
| PlanTour.WayUpSettled | pkg/beaconapi/realbackend.go:1089-1171 | after an entry, everything on the way up from a root voted for is known or due, unless the way broke off at a listed orphan or a cut |
| PlanWalks.RootsFollow | pkg/beaconapi/realbackend.go:1122-1161 | the root loop succeeds exactly when none of the entry's walks meets an unreadable slot, and then imports and defers exactly what the walks go over |
| PlanMeaning.EntryFollows | pkg/beaconapi/realbackend.go:224-272 | one iteration fails exactly when one of its walks does, and otherwise emits the entry that the tour means and goes on following it |
| PlanMeaning.PlanIsMeant | pkg/beaconapi/realbackend.go:171-274 | for every mode and range, over era files, archive and index alone: there is a plan exactly when the question is allowed, the window from - 1 to to + cap can be read and no walk meets an unreadable slot; then one entry per slot, with its evaluation slot, its first source, its sources, and its imports in order: canonical block, new listed orphans, blocks due, blocks walked over |
| PlanMeaning.MeaningUnique | pkg/beaconapi/realbackend.go:171-274 | that meaning leaves one plan |
| PlanMeaning.CutsCounted | pkg/beaconapi/realbackend.go:1441-1444 | no more blocks have a cut walk than the planner counts cuts |
| PlanVotes.VotedAreEmitted | pkg/beaconapi/realbackend.go:1089-1171 | in a greedy plan, for every root that a vote for at most the next slot names, in a block at an existing source, and that no list misplaces: every orphan of the plan's range on the way up from it is emitted, at the latest by the entry or that of its own slot, unless a newer one on the way was listed or has a cut walk |
| PlanVotes.AllVotedAreEmitted | pkg/beaconapi/realbackend.go:1089-1171 | without an orphan index and without a cut walk, that is the whole ancestry |
| PlanVotes.EmittedWasVotedFor | pkg/beaconapi/realbackend.go:224-272 | conversely, every orphan emitted was listed at its slot or lies on the way up from a root voted for at a source of its entry or an earlier one |
| SlotParents.SlotParentsLead | pkg/beaconapi/realbackend.go:324-370 | a slot's instruction imports no block before its parent, cut walks or not, if and only if no listed orphan has a parent that only the votes bring in |
| SlotParents.UnlistedParentsLead | pkg/beaconapi/realbackend.go:324-370 | without a preloaded orphan index parents always come first |
| SlotParents.ListedWaitsWhen | pkg/beaconapi/realbackend.go:1255-1277 | a listed orphan waits exactly when its parent lies, in the window, on the walk from a fresh voted root at the slot |
| WarmCache.WalkCaches | pkg/beaconapi/realbackend.go:574-582 | a walk of the warm pass leaves cached and readable everything a later walk from its root could take |
| WarmCache.ChainsAlike | pkg/beaconapi/realbackend.go:1498-1523 | a root whose walk is cached resolves from the cache to the chain of the archive, though the cache-only state may have marked other roots missing; with only the checkpoints imported, exactly such roots do |
| WarmCache.CacheServesRange | pkg/beaconapi/realbackend.go:276-370 | in first-seen mode a cache-only server gives the same instruction as one with the archive, errors included, for every slot of a warmed range and every warmup start |
| WarmCache.CacheServesSlot | pkg/beaconapi/realbackend.go:276-370 | in the other modes the same, for a slot whose source slots show only votes that were warmed |
| CacheExact.WalkIsAncestry | pkg/beaconapi/realbackend.go:1402-1449 | a walk fails exactly when it meets a slot that cannot be read, and otherwise returns the same blocks whatever was walked, shown or found missing before |
| CacheExact.VotesBringGrove | pkg/beaconapi/realbackend.go:1315-1370 | the root loop fails exactly when a root that no earlier walk passed leads to a slot that cannot be read; otherwise the orphans brought in are, in order, exactly the blocks of the window on the walks from the fresh roots whose block sits at the slot |
| CacheExact.CachePrefix | pkg/beaconapi/realbackend.go:1493-1523 | a walk over the cache is the walk over the archive up to the first block that is not cached |
| CacheExact.ServesExactly | pkg/beaconapi/realbackend.go:276-370 | in every mode, with an index the cache can serve, the answers for a slot, errors included, are equal if and only if those walks fail alike and, where they do not fail, are cached as far as they stay in the window; where they can be read, if and only if they are cached |
| CacheExact.UncachedIsLost | pkg/beaconapi/realbackend.go:1315-1370 | each server fails exactly when its walks do; otherwise a block of the window on such a walk that is not cached is imported by the server on the archive and missed by the one on the cache |
| WarmPass.WarmSlotRangeOrphans | pkg/beaconapi/realbackend.go:587-669 | every entry that the paged listing returns for every batch of the window is dealt with: its root is a checkpoint's, is no orphan of that slot, is listed and cached, or its slot already lists eight; nothing else is shown or listed; it succeeds whenever every batch is listed and every entry has a readable root, slot and a block of that slot or none |
| WarmPass.IndexComplete | pkg/beaconapi/realbackend.go:587-669 | when the archive lists exactly some entries for a batch, in pages of any length, each of them was dealt with |
| WarmPass.WalkAllWarms | pkg/beaconapi/realbackend.go:574-582 | after the final walks every collected root is cached as far as any later walk could follow it |
| WarmPass.WarmArchiveCache | pkg/beaconapi/realbackend.go:509-585 | after success every vote of the range (first-seen), or of all canonical blocks of the window, of those the index pass added and of the listed orphans (other modes), leads only to cached blocks, and every orphan found is cached; without the slot index the result and the failures are exactly those of a function of the range; with it the pass succeeds whenever all it can ask for is readable (`PassReady`) |
| WarmPass.WarmServesVote | pkg/beaconapi/realbackend.go:509-585 | in the other modes a vote of a canonical block of the window, or of one the index pass added, resolves from the cache to the same chain as from the archive |
| WarmRanges.MergedIndex | pkg/beaconapi/realbackend.go:1551-1566 | the common index lists at each slot at most eight distinct roots, all found by some pass, and misses one only at a slot that lists eight |
| WarmRanges.WarmBlockArchiveCache | pkg/beaconapi/realbackend.go:494-507 | after success each range is warmed, the cache holds what all passes fetched and the index is merged from theirs; without the slot index it fails exactly when one of the passes does, with it it succeeds whenever every pass has all it can ask for |
| WarmRanges.IndexServed | pkg/beaconapi/realbackend.go:494-507 | every orphan in the merged index is in the cache |
| WarmRanges.WarmServesRange | pkg/beaconapi/realbackend.go:494-507 | in first-seen mode, with the index merged from all ranges, cache-only serving loses nothing for any slot of any range |
| WarmRanges.WarmServesSlot | pkg/beaconapi/realbackend.go:489-507 | in every mode and for every slot, with the merged index, cache-only serving gives the same answer, errors included, if and only if the walks from the fresh voted roots fail alike and, where they do not fail, those at the slot are cached as far as they stay in the window |
| WarmRanges.WarmServesCollected | pkg/beaconapi/realbackend.go:553-572 | in the modes other than first-seen, with no assumption on parents or era files, a slot of a range is answered alike unless a source slot shows an orphan whose votes the pass of the range never collected |
| LateOrphan.LateOrphanIsLost | pkg/beaconapi/realbackend.go:553-583 | on a concrete chain the run over all ranges succeeds, and yet at slot 5 the server on the archive imports an orphan that the server on the cache does not |
| RootOrder.BytesKeepOrder | pkg/beaconapi/realbackend.go:1545-1547 | comparing roots as bytes is comparing them as big-endian numbers |
| RootOrder.RootOrdersAgree | pkg/beaconapi/firstseen.go:437-439 | comparing roots as hexadecimal text gives the same order, and only equal roots compare equal |
| FirstSeen.CompareKeysIsOrder | pkg/beaconapi/firstseen.go:388-408 | the comparator is the numeric order of the six fields and is zero only for equal keys |
| FirstSeen.KeyOrderTotal | pkg/beaconapi/firstseen.go:388-408 | the comparator is a strict total order |
| FirstSeen.SortedUniqueUint64s | pkg/beaconapi/firstseen.go:410-424 | strictly ascending, with exactly the members of the input |
| FirstSeen.GroupRows | pkg/beaconapi/firstseen.go:191-231 | fails exactly when a row at or before the deadline has another epoch or a text that is no root; else one group for each combination of fields that such rows have, with exactly their validators |
| FirstSeen.LoadEpoch | pkg/beaconapi/firstseen.go:180-258 | fails exactly when the rows cannot be read or a timely one has another epoch or a text that is no root; else every timely row is in a vote at its slot with its own epochs and parsed roots, the validators of a vote are exactly those of its rows in strictly ascending order, and the votes of a slot ascend by the six fields |
| FirstSeen.LoadIsFunctionOfTimelyRows | pkg/beaconapi/firstseen.go:191-258 | two loads with the same set of timely rows are equal, whatever the order and number of rows and the late rows |
| FirstSeenFlight.StepKeeps | pkg/beaconapi/firstseen.go:151-178 | every step keeps: a table entry exactly while one request loads the epoch, each record closed at most once, cached data from successful loads only |
| FirstSeenFlight.OneLoadPerEpoch | pkg/beaconapi/firstseen.go:153-165 | in every run at most one request loads an epoch, and the table has the epoch exactly meanwhile |
| FirstSeenFlight.ClosedOnce | pkg/beaconapi/firstseen.go:169-176 | no channel is closed twice, and a closed record never changes |
| FirstSeenFlight.CacheHoldsSuccesses | pkg/beaconapi/firstseen.go:169-172 | whatever the cache evicts, an entry is what a successful load of its epoch returned |
| FirstSeenFlight.WaiterSharesResult | pkg/beaconapi/firstseen.go:157-161 | whoever waits returns what the loader it joined returns, success or failure |
| FirstSeenFlight.Progress | pkg/beaconapi/firstseen.go:151-178 | while a request is unfinished some request can step |
| FirstSeenFlight.StepsFall | pkg/beaconapi/firstseen.go:151-178 | every step brings the end of all requests closer |
| EraFormat.HeaderRoundTrip | pkg/era/format.go:30-39 | a written header parses back to its type and length |
| EraFormat.SlotRoundTrip | pkg/era/format.go:65-76 | the slot at the start of a message at offset 100 is the one extracted |
| EraFormat.EraNumberForSlot | pkg/era/format.go:57-63 | era n >= 1 holds the slots of [(n - 1) * 8192, n * 8192) |
| EraReader.Stream.ReadRecordHeader | pkg/era/format.go:41-55 | a file that ends within a header has no more records |
| EraReader.BuildEraIndex | pkg/era/reader.go:162-242 | the pass with its own position counter computes the reference index, or fails where it does |
| EraReader.AcceptedFile | pkg/era/reader.go:197-239 | in every accepted file each reference lies within the file and its payload holds a block of exactly that slot |
| EraReader.AcceptedExactly | pkg/era/reader.go:162-256 | a file is accepted exactly when it starts with a version record, consists of whole records up to a rest shorter than a header, and its blocks decode; the index then counts the records and refers for every slot to its last block, and to nothing for other slots |
| EraReader.WrittenFile | pkg/era/reader.go:162-256 | a version record followed by written records is accepted exactly when its block records decode; the index has exactly their slots, counts all records, and re-reading returns the payload of the last block of a slot |
| EraReader.AnswerEmbedsSlot | pkg/era/reader.go:68-103 | reading an indexed slot never fails and gives a block of that slot |
| EraReader.Reader.RawBlockSSZ | pkg/era/reader.go:68-103 | the answer does not depend on what was asked before or is cached |
| ArchiveListing.SafetyLimit | pkg/blockarchive/client.go:428-440 | the limit never overflows, is at least the page size, and is 16 entries per slot where that fits |
| ArchiveListing.ListingIsAll | pkg/blockarchive/client.go:148-184 | against a server that lists its entries in pages of any length, the listing is all of them, or an error when they exceed the limit |
| ArchiveListing.ListingIsPages | pkg/blockarchive/client.go:148-184 | against any server the listing succeeds exactly when the server hands out nonempty pages to their end without failing and within the limit, and is these pages joined |
| ArchiveListing.ListIndexBySlotRange | pkg/blockarchive/client.go:148-184 | ends against any server with the listing that its pages determine; against one that lists its entries it returns exactly them when they fit the limit and an error otherwise |
| StateCache.NeverDanglingNeverLost | engines/lodestar/src/main.ts:670-674 | with agreeing maps a lookup by state root finds something exactly while a retained block owns it, and what it finds is retained |
| StateCache.RemoveKeeps | engines/lodestar/src/main.ts:785-824 | dropping a block, its reference and repointing its state root keep the three maps in agreement |
| StateCache.AddKeeps | engines/lodestar/src/main.ts:662-667 | adding an entry and its reference keeps the three maps in agreement |
| StateCache.Cache.SetStateRoot | engines/lodestar/src/main.ts:645-648 | a state root stands for the new recent state, and no other entry changes |
| StateCache.Cache.SetImportedPostState | engines/lodestar/src/main.ts:650-668 | replaces exactly one block's post-state, and the state root stands for the new one |
| StateCache.Cache.PruneFinalizedBlocks | engines/lodestar/src/main.ts:770-774 | drops exactly the pruned blocks |
| StateCache.Cache.Prune | engines/lodestar/src/main.ts:732-748 | recent states leave exactly when older than 64 slots; imported post-states stay |
| StateCache.Cache.GetImportedBlockPostState | engines/lodestar/src/main.ts:688-700 | finds a block's post-state exactly while it is retained |
| StateCache.Cache.GetStateRoot | engines/lodestar/src/main.ts:670-688 | finds a recent state, else a state of a retained owner exactly when there is one |
| VoteTracker.Tracker.AddLatestMessageBySlot | engines/lodestar/src/main.ts:1403-1428 | the three arrays grow together and hold the latest vote of every validator; a root without a node changes nothing |
| VoteTracker.LatestDecides | engines/lodestar/src/main.ts:1422-1427 | after any votes a validator's entry is its largest slot with the node of the first vote that reached it, at slot 0 of the last one |
| VoteTracker.DecidesUnique | engines/lodestar/src/main.ts:1422-1427 | at most one vote of a validator decides its entry |
| Chunks.Split | pkg/chunk/chunk.go:21-59 | the chunks partition the epochs in order, sizes differ by at most one with the larger first, nothing wraps |
| Chunks.FilterActiveChunks | cmd/fcr-orchestrator/main.go:1178-1186 | the loop keeps exactly the chunks with epochs, in order |
| Chunks.ActivePicks | cmd/fcr-orchestrator/main.go:1178-1186 | what is kept sits at ascending places, exactly those of the chunks with epochs |
| Chunks.ExpectedSlots | cmd/fcr-orchestrator/main.go:606-615 | the nested loops list the recorded slots of the chunks in order |
| Chunks.RecordedExact | cmd/fcr-orchestrator/main.go:606-615 | a slot is expected exactly when it lies in some chunk after the slot where the warmup of that chunk starts |
| Chunks.RecordedAscends | cmd/fcr-orchestrator/main.go:606-615 | the expected slots of contiguous chunks strictly ascend |
| Chunks.ActiveRecordsAll | cmd/fcr-orchestrator/main.go:606-615 | dropping the chunks without epochs loses no expected slot |
| Chunks.ExpectedIsWholeRange | cmd/fcr-orchestrator/main.go:606-615 | the expected slots are every slot of the range once in order if and only if there is a warmup and the range starts after genesis |
| Merge.ReadWorkerRecords | pkg/merge/merge.go:166-209 | succeeds exactly when all files and lines are readable and no slot occurs twice, with all records in order |
| Merge.RecordsCounted | pkg/merge/merge.go:166-209 | every record is read exactly as often as the lines of the files hold it |
| Merge.MergeRecords | pkg/merge/merge.go:116-148 | succeeds exactly when moreover every expected slot is there; the output has strictly ascending slots and exactly the records read |
| Merge.DistinctSlotsAscend | pkg/merge/merge.go:126-128 | records with distinct slots come out strictly ascending |
| Merge.OrderUnique | pkg/merge/merge.go:126-128 | two strictly ascending lists of the same records are equal, so the unstable sort has one result |
| Merge.ComputeStats | pkg/merge/merge.go:312-326 | the totals count the output, its confirmed slots, and the first and last slot bound all others |
| Merge.MergedRunIsComplete | pkg/merge/merge.go:130-148 | with a warmup and a start after genesis, a successful merge has exactly one record for every slot of the range |

## Left out

- HTTP server and clients, retries, back-off, JSON, CSV, parquet, S3 and file writes: input and output behind the oracles.
- Decoding of blocks, hash-tree roots, Snappy, SHA-256, parsing of root text and the LRU libraries: function parameters, or caches that may drop any entry.
- Flag parsing, configuration checks, subprocesses, manifests and scripts: branch-by-branch checks.
- Fork choice and the fast confirmation rule itself: client code outside this repository.
- Fork schedule lookup, block identifiers, Accept headers and `CanonicalRootLookup`: easy members only.
- Counters of the warm pass other than cut walks: statistics. The accumulator that the passes share is filled at the end of each pass instead of at each discovery, which orders every slot's list the same way; without a configured archive the pass returns at once, and the model always has one.
- ParentsFirst.ParentsComeFirst: covers neither a preloaded orphan index nor cut walks, because `archiveOrphanImportsForSlot` imports listed orphans without resolving their parents and nobody looks beyond the 16 blocks of a walk; `ParentsFirst.PlanParentsLead` says which blocks may then come early.
- WarmPass.WarmArchiveCache: in the modes other than first-seen it promises nothing for votes inside orphans that only the final walks discover, because the pass does not collect them; `WarmRanges.WarmServesSlot` says exactly when that matters. In greedy mode the order of the map decides which canonical roots are fetched besides, so there the result is bounded and not fixed.
- WarmPass.WarmEntry: the source finds a block at the wrong slot only if an earlier download left it on disk (`pkg/blockarchive/client.go:109-129`); the disk is not followed here, so such an entry is either skipped or an error.
- IndexProtocol: the mutex and condition variable are not modelled as objects; each critical section is one step, and a broadcast sends every sleeper back to the head of its loop.
- Chunks.ExpectedIsWholeRange: is stated for epochs whose slots do not saturate, as `epochToSlot` maps all others to one slot.
- StateCache: the checkpoint states and the history of evictions for tracing are left out; they share no data with the imported post-states.
- StateCache: roots are numbers, so the truth test of the replacement root, false only for the empty text, is always true.
- CanonicalViews: the maps of a view that are created on first use are empty maps from the start.
