/** The pass that fills the disk cache before a range of slots is served. */
module WarmPass {
  import opened Core
  import opened SlotRanges
  import opened Blocks
  import opened CanonicalIndex
  import opened CanonicalViews
  import opened Sorting
  import opened AttPlan
  import opened PlanSpec
  import opened OrphanChains
  import opened PlanSteps
  import opened PlanBuild
  import opened RealBackend
  import opened WarmCache
  import opened ArchiveListing

  const ARCHIVE_SLOT_RANGE_BATCH_SIZE: uint64 := 1024

  /** The archive's slot index: the server behind each range, and how the text of a root is read. */
  datatype Catalog = Catalog(servers: (uint64, uint64) -> Server, parse: string -> Option<Root>)

  /** What the pass leaves behind: the cached roots, the orphans the index listed, all orphans found, and the slots
      whose canonical blocks it collected votes from. */
  datatype WarmResult = WarmResult(
    cache: set<Root>, listed: map<uint64, seq<Root>>, orphans: map<uint64, seq<Root>>, shown: set<uint64>)

  /** Every root listed as an orphan is a cached orphan of that slot, and the slot could be read. */
  ghost predicate Listed(env: Env, orphans: map<uint64, seq<Root>>, fetched: set<Root>) {
    forall s, r :: s in orphans && r in orphans[s] ==> ListedRoot(env, fetched, s, r)
  }

  ghost predicate ListedRoot(env: Env, fetched: set<Root>, s: uint64, r: Root) {
    r in fetched && OrphanAt(env, s, r) && !env.era(s).Unreadable?
  }

  /** What the warm pass keeps: it imports, schedules and ignores nothing. */
  ghost predicate WarmOk(env: Env, st: PlanState) {
    && StateOk(env, st)
    && st.imported == env.checkpoints && st.scheduled == {} && st.ignored == {}
    && Listed(env, st.orphans, st.fetched)
  }

  /** Every root voted for was collected, or no walk follows it. */
  ghost predicate Noted(env: Env, roots: set<Root>, atts: seq<Attestation>, loadEnd: uint64) {
    forall att :: att in atts ==>
      && (att.targetRoot in roots || Halts(env, env.checkpoints, att.targetRoot, loadEnd))
      && (att.beaconBlockRoot in roots || Halts(env, env.checkpoints, att.beaconBlockRoot, loadEnd))
  }

  lemma StaleIsIdle(env: Env, st: PlanState, r: Root, loadEnd: uint64)
    requires ValidEnv(env) && WarmOk(env, st) && !Fresh(env, st, r)
    ensures Halts(env, env.checkpoints, r, loadEnd)
  {
    if RootShown(env.era, st.visible, r) {
      ShownIsDead(env, st.visible, r, loadEnd);
    }
  }

  lemma CollectedNoted(env: Env, st: PlanState, atts: seq<Attestation>, roots: set<Root>, loadEnd: uint64)
    requires ValidEnv(env) && WarmOk(env, st) && FreshRoots(env, st, atts, None) <= roots
    ensures Noted(env, roots, atts, loadEnd)
  {
    forall att, r | att in atts && r in {att.targetRoot, att.beaconBlockRoot}
      ensures r in roots || Halts(env, env.checkpoints, r, loadEnd)
    {
      if Fresh(env, st, r) {
        assert r in FreshRoots(env, st, atts, None);
      } else {
        StaleIsIdle(env, st, r, loadEnd);
      }
    }
  }

  /** Once every collected root is walked, every vote noted is warmed. */
  lemma NotedIsWarmed(env: Env, cache: set<Root>, roots: set<Root>, atts: seq<Attestation>, loadEnd: uint64)
    requires Noted(env, roots, atts, loadEnd)
    requires forall r :: r in roots ==> Cached(env, cache, r, {}, loadEnd, MAX_ORPHAN_WALK)
    ensures RootsWarmed(env, cache, atts, loadEnd)
  {
  }

  // ----- walks

  lemma {:induction false} WalkFetches(env: Env, st: PlanState, current: Root, seen: set<Root>, chain: seq<Block>,
                                       evalSlot: uint64, fuel: nat, w: Walk)
    requires ValidEnv(env) && WalkUp(env, st, current, seen, chain, evalSlot, fuel) == Some(w)
    ensures st.fetched <= w.st.fetched
    ensures forall b :: b in w.chain ==> b in chain || (b.root in w.st.fetched && !env.era(b.slot).Unreadable?)
    decreases fuel
  {
    if Climbs(env, st, current, seen, evalSlot) && fuel > 0 {
      var info := env.archive(current).value;
      WalkFetches(env, StateAfter(env, st, current, seen, evalSlot), info.parentRoot, seen + {current}, chain + [info],
        evalSlot, fuel - 1, w);
    }
  }

  lemma ListedAfterWalk(env: Env, st: PlanState, st': PlanState, chain: seq<Block>)
    requires Listed(env, st.orphans, st.fetched) && Grows(env, st, st', chain)
    requires forall b :: b in chain ==> Orphan(env, b) && b.root in st'.fetched && !env.era(b.slot).Unreadable?
    ensures Listed(env, st'.orphans, st'.fetched)
  {
    forall s, r | s in st'.orphans && r in st'.orphans[s]
      ensures r in st'.fetched && OrphanAt(env, s, r) && !env.era(s).Unreadable?
    {
      assert r in OrphansAt(st', s);
      if r !in OrphansAt(st, s) {
        var b :| b in chain && b.root == r && b.slot == s;
      }
    }
  }

  lemma WarmAfterWalk(env: Env, st: PlanState, st': PlanState, chain: seq<Block>)
    requires WarmOk(env, st) && Grows(env, st, st', chain) && Listed(env, st'.orphans, st'.fetched)
    ensures WarmOk(env, st')
  {
  }

  /** Resolving a root in the warm pass leaves everything cached that a later walk from it could take. */
  lemma WalkWarms(env: Env, st: PlanState, root: Root, loadEnd: uint64, f: Found)
    requires ValidEnv(env) && WarmOk(env, st) && ResolveChain(env, st, root, loadEnd) == Some(f)
    ensures WarmOk(env, f.st) && st.fetched <= f.st.fetched
    ensures Cached(env, f.st.fetched, root, {}, loadEnd, MAX_ORPHAN_WALK)
  {
    hide WalkUp, Grows, Climbing;
    var w := WalkUp(env, st, root, {}, [], loadEnd, MAX_ORPHAN_WALK).value;
    WalkFetches(env, st, root, {}, [], loadEnd, MAX_ORPHAN_WALK, w);
    WalkCaches(env, st, root, {}, [], loadEnd, MAX_ORPHAN_WALK, w, f.st.fetched);
    ResolvedChain(env, st, root, loadEnd, f);
    ReversedMembers(w.chain);
    ListedAfterWalk(env, st, f.st, f.blocks);
    WarmAfterWalk(env, st, f.st, f.blocks);
  }

  // ----- orphans listed at a slot

  lemma {:induction false} GatherListed(env: Env, st: PlanState, slot: uint64, roots: seq<Root>, seen: set<Root>,
                                        infos: seq<Block>, f: Found)
    requires ValidEnv(env) && StateOk(env, st) && st.ignored == {}
    requires forall r :: r in roots ==> r in st.fetched && OrphanAt(env, slot, r)
    requires forall r :: r in seen ==> env.archive(r).Some? && env.archive(r).value in infos
    requires GatherOrphans(env, st, slot, roots, seen, infos) == Some(f)
    ensures StateOk(env, f.st) && f.st == st.(visible := f.st.visible)
    ensures forall b :: b in infos ==> b in f.blocks
    ensures forall r :: r in roots ==> env.archive(r).Some? && env.archive(r).value in f.blocks
    decreases |roots|
  {
    if roots != [] {
      var root, rest := roots[0], roots[1..];
      assert root in roots;
      if root in seen {
        GatherListed(env, st, slot, rest, seen, infos, f);
      } else {
        var info, st1 := env.archive(root).value, st.(fetched := st.fetched + {root});
        assert st1 == st;
        var v := Judge(env, st1, info).value;
        assert info in infos + [info];
        GatherListed(env, v.st, slot, rest, seen + {root}, infos + [info], f);
      }
    }
  }

  lemma ListedInfos(env: Env, st: PlanState, slot: uint64, f: Found)
    requires ValidEnv(env) && WarmOk(env, st) && OrphanInfos(env, st, slot) == Some(f)
    ensures WarmOk(env, f.st) && f.st.orphans == st.orphans && f.st.fetched == st.fetched
    ensures forall r :: r in OrphansAt(st, slot) ==> env.archive(r).Some? && env.archive(r).value in f.blocks
  {
    var g := GatherOrphans(env, st, slot, OrphansAt(st, slot), {}, []).value;
    GatherListed(env, st, slot, OrphansAt(st, slot), {}, [], g);
    SortKeepsMembers(g.blocks);
  }

  // ----- the archive's slot index

  /** An index entry was dealt with: its root is a checkpoint's, or no orphan of its slot, or listed, or the slot was
      full. */
  ghost predicate Entered(env: Env, catalog: Catalog, st: PlanState, e: IndexEntry) {
    catalog.parse(e.blockRoot).Some? && RootEntered(env, st, e.slot, catalog.parse(e.blockRoot).value)
  }

  ghost predicate RootEntered(env: Env, st: PlanState, slot: uint64, r: Root) {
    r in env.checkpoints || !OrphanAt(env, slot, r) || r in OrphansAt(st, slot)
      || |OrphansAt(st, slot)| >= MAX_ORPHANS_PER_SLOT
  }

  /** The warm state only grows. */
  ghost predicate Further(st: PlanState, st': PlanState) {
    && st.fetched <= st'.fetched && st.visible <= st'.visible
    && (forall s :: OrphansAt(st, s) <= OrphansAt(st', s))
  }

  lemma EnteredFurther(env: Env, catalog: Catalog, st: PlanState, st': PlanState, e: IndexEntry)
    requires Entered(env, catalog, st, e) && Further(st, st')
    ensures Entered(env, catalog, st', e)
  {
  }

  /** Listing a cached orphan. */
  lemma RememberStep(env: Env, st: PlanState, info: Block)
    requires ValidEnv(env) && WarmOk(env, st) && Orphan(env, info) && info.root in st.fetched
    requires !env.era(info.slot).Unreadable?
    ensures var st' := st.(orphans := AppendOrphan(st.orphans, info.slot, info.root));
      WarmOk(env, st') && Further(st, st') && RootEntered(env, st', info.slot, info.root)
  {
    var st' := st.(orphans := AppendOrphan(st.orphans, info.slot, info.root));
    forall s, r | s in st'.orphans && r in st'.orphans[s]
      ensures ListedRoot(env, st'.fetched, s, r)
    {
      if s == info.slot {
        assert ListedAt(st'.orphans, s) == Append(ListedAt(st.orphans, s), info.root);
        if r in ListedAt(st.orphans, s) {
          assert ListedRoot(env, st.fetched, s, r);
        } else {
          assert r == info.root;
        }
      } else {
        assert s in st.orphans && st'.orphans[s] == st.orphans[s];
        assert ListedRoot(env, st.fetched, s, r);
      }
    }
  }

  lemma JudgeStep(env: Env, st: PlanState, info: Block, v: Verdict)
    requires ValidEnv(env) && WarmOk(env, st) && Judge(env, st, info) == Some(v)
    ensures WarmOk(env, v.st) && v.st == st.(visible := v.st.visible) && (v.canonical <==> Canonical(env.era, info))
    ensures Further(st, v.st) && v.st.visible <= st.visible + {info.slot} && !env.era(info.slot).Unreadable?
  {
  }

  lemma JudgeFails(env: Env, st: PlanState, info: Block)
    requires Judge(env, st, info) == None
    ensures env.era(info.slot).Unreadable?
  {
  }

  lemma FetchStep(env: Env, st: PlanState, root: Root)
    requires WarmOk(env, st)
    ensures WarmOk(env, st.(fetched := st.fetched + {root})) && Further(st, st.(fetched := st.fetched + {root}))
  {
    forall s, r | s in st.orphans && r in st.orphans[s]
      ensures ListedRoot(env, st.fetched + {root}, s, r)
    {
      assert ListedRoot(env, st.fetched, s, r);
    }
  }

  lemma KnownEntered(env: Env, st: PlanState, slot: uint64, r: Root)
    requires ValidEnv(env) && WarmOk(env, st) && (r == ZERO_ROOT || RootKnown(env, st, r))
    ensures RootEntered(env, st, slot, r)
  {
    if RootShown(env.era, st.visible, r) {
      ShownIsDead(env, st.visible, r, slot);
    }
  }

  /** What an entry must be like for the pass to get past it for certain: its root can be read, and a block of that root
      sits at the entry's slot, which can be read. */
  ghost predicate EntryFits(env: Env, catalog: Catalog, e: IndexEntry) {
    && catalog.parse(e.blockRoot).Some?
    && (var info := env.archive(catalog.parse(e.blockRoot).value);
        info.Some? ==> info.value.slot == e.slot && !env.era(e.slot).Unreadable?)
  }

  /** What entries of the index may add: shown slots that they name and roots that they list. */
  ghost predicate Adds(catalog: Catalog, entries: iset<IndexEntry>, st: PlanState, st': PlanState) {
    && (forall s :: s in st'.visible ==> s in st.visible || exists e :: e in entries && e.slot == s)
    && (forall s, r :: r in OrphansAt(st', s) ==> r in OrphansAt(st, s) || Names(catalog, entries, s, r))
  }

  ghost predicate Names(catalog: Catalog, entries: iset<IndexEntry>, s: uint64, r: Root) {
    exists e :: e in entries && e.slot == s && catalog.parse(e.blockRoot) == Some(r)
  }

  lemma AddsSame(catalog: Catalog, entries: iset<IndexEntry>, st: PlanState)
    ensures Adds(catalog, entries, st, st)
  {
  }

  lemma AddsAgain(catalog: Catalog, entries: iset<IndexEntry>, a: PlanState, b: PlanState, c: PlanState)
    requires Adds(catalog, entries, a, b) && Adds(catalog, entries, b, c)
    ensures Adds(catalog, entries, a, c)
  {
    hide Names;
  }

  lemma EntryAdds(catalog: Catalog, entries: iset<IndexEntry>, e: IndexEntry, r: Root, st: PlanState, st': PlanState)
    requires e in entries && catalog.parse(e.blockRoot) == Some(r) && st'.visible <= st.visible + {e.slot}
    requires st'.orphans == st.orphans || st'.orphans == AppendOrphan(st.orphans, e.slot, r)
    ensures Adds(catalog, entries, st, st')
  {
    assert Names(catalog, entries, e.slot, r);
  }

  /** One entry of the index. A block that the archive holds at another slot is not found there, and skipped, unless it
      is on disk from an earlier download; then the entry is an error. */
  method WarmEntry(state: PlanBuildState, catalog: Catalog, ghost entries: iset<IndexEntry>, entry: IndexEntry)
    returns (ok: bool)
    requires state.Valid() && ValidEnv(state.env) && WarmOk(state.env, state.State()) && entry in entries
    modifies state.Repr()
    ensures state.Valid()
    ensures ok ==> WarmOk(state.env, state.State()) && Further(old(state.State()), state.State())
    ensures ok ==> Entered(state.env, catalog, state.State(), entry)
    ensures ok ==> Adds(catalog, entries, old(state.State()), state.State())
    ensures EntryFits(state.env, catalog, entry) ==> ok
  {
    hide PlanBuildState.Valid, PlanBuildState.State, ValidEnv, WarmOk, Judge, AppendOrphan, PlanSpec.RootKnown, Adds;
    AddsSame(catalog, entries, state.State());
    var parsed := catalog.parse(entry.blockRoot);
    if parsed.None? {
      return false;
    }
    var root := parsed.value;
    if root == ZERO_ROOT || state.RootKnown(root) {
      KnownEntered(state.env, state.State(), entry.slot, root);
      return true;
    }
    RootsMatch(state.env, root);
    var known := state.FetchedInfo(root);
    if known.Some? {
      if known.value.slot == entry.slot {
        ok := WarmBlock(state, catalog, entries, entry, known.value);
        return;
      }
      return true;
    }
    var info := state.env.archive(root);
    var onDisk: bool := *;
    if info.None? || (info.value.slot != entry.slot && !onDisk) {
      return true;
    }
    if info.value.slot != entry.slot {
      return false;
    }
    ok := WarmBlock(state, catalog, entries, entry, info.value);
  }

  /** A found block at the entry's slot: an orphan is remembered, and listed. */
  method WarmBlock(state: PlanBuildState, catalog: Catalog, ghost entries: iset<IndexEntry>, entry: IndexEntry,
                   info: Block)
    returns (ok: bool)
    requires state.Valid() && ValidEnv(state.env) && WarmOk(state.env, state.State()) && entry in entries
    requires info.slot == entry.slot && info.root != ZERO_ROOT && state.env.archive(info.root) == Some(info)
    requires catalog.parse(entry.blockRoot) == Some(info.root)
    modifies state.Repr()
    ensures state.Valid()
    ensures ok ==> WarmOk(state.env, state.State()) && Further(old(state.State()), state.State())
    ensures ok ==> Entered(state.env, catalog, state.State(), entry)
    ensures ok ==> Adds(catalog, entries, old(state.State()), state.State())
    ensures !ok ==> state.env.era(info.slot).Unreadable?
  {
    hide PlanBuildState.Valid, PlanBuildState.State, ValidEnv, WarmOk, Judge, AppendOrphan, Adds, Canonical, Further;
    ghost var before := state.State();
    var canonical := state.IsCanonicalBlockInfo(info);
    if canonical.None? {
      JudgeFails(state.env, before, info);
      return false;
    }
    ghost var judged := state.State();
    JudgeStep(state.env, before, info, Verdict(canonical.value, judged));
    if canonical.value {
      CanonicalEntered(state.env, judged, info);
      EntryAdds(catalog, entries, entry, info.root, before, judged);
      return true;
    }
    FetchStep(state.env, judged, info.root);
    state.RememberFetched(info);
    ghost var fetched := state.State();
    OrphanFound(state.env, info);
    RememberStep(state.env, fetched, info);
    state.RememberArchiveOrphanInfo(info);
    FurtherAgain(before, judged, fetched);
    FurtherAgain(before, fetched, state.State());
    EntryAdds(catalog, entries, entry, info.root, before, state.State());
    return true;
  }

  lemma CanonicalEntered(env: Env, st: PlanState, info: Block)
    requires Canonical(env.era, info) && env.archive(info.root) == Some(info)
    ensures RootEntered(env, st, info.slot, info.root)
  {
  }

  lemma OrphanFound(env: Env, info: Block)
    requires !Canonical(env.era, info) && env.archive(info.root) == Some(info) && info.root != ZERO_ROOT
    ensures Orphan(env, info)
  {
  }

  lemma RootsMatch(env: Env, root: Root)
    requires ValidEnv(env)
    ensures env.archive(root).Some? ==> env.archive(root).value.root == root
  {
  }

  method WarmEntries(state: PlanBuildState, catalog: Catalog, ghost all: iset<IndexEntry>, entries: seq<IndexEntry>)
    returns (ok: bool)
    requires state.Valid() && ValidEnv(state.env) && WarmOk(state.env, state.State())
    requires forall e :: e in entries ==> e in all
    modifies state.Repr()
    ensures state.Valid()
    ensures ok ==> WarmOk(state.env, state.State()) && Further(old(state.State()), state.State())
    ensures ok ==> forall e :: e in entries ==> Entered(state.env, catalog, state.State(), e)
    ensures ok ==> Adds(catalog, all, old(state.State()), state.State())
    ensures (forall e :: e in entries ==> EntryFits(state.env, catalog, e)) ==> ok
  {
    hide PlanBuildState.Valid, PlanBuildState.State, ValidEnv, WarmOk, Further, Entered, EntryFits, Adds;
    FurtherSame(state.State());
    AddsSame(catalog, all, state.State());
    for k := 0 to |entries|
      invariant state.Valid() && WarmOk(state.env, state.State()) && Further(old(state.State()), state.State())
      invariant Adds(catalog, all, old(state.State()), state.State())
      invariant forall j :: 0 <= j < k ==> Entered(state.env, catalog, state.State(), entries[j])
    {
      ghost var before := state.State();
      assert entries[k] in entries;
      ok := WarmEntry(state, catalog, all, entries[k]);
      if !ok {
        return;
      }
      FurtherAgain(old(state.State()), before, state.State());
      AddsAgain(catalog, all, old(state.State()), before, state.State());
      forall j | 0 <= j < k
        ensures Entered(state.env, catalog, state.State(), entries[j])
      {
        EnteredFurther(state.env, catalog, before, state.State(), entries[j]);
      }
    }
    return true;
  }

  lemma FurtherSame(st: PlanState)
    ensures Further(st, st)
  {
  }

  lemma FurtherAgain(a: PlanState, b: PlanState, c: PlanState)
    requires Further(a, b) && Further(b, c)
    ensures Further(a, c)
  {
  }

  /** The last slot of the batch that starts at `batchFrom`. */
  function BatchEnd(batchFrom: uint64, to: uint64): (r: uint64)
    requires batchFrom <= to
    ensures batchFrom <= r <= to && r - batchFrom < ARCHIVE_SLOT_RANGE_BATCH_SIZE
  {
    var max := CheckedAdd(batchFrom, ARCHIVE_SLOT_RANGE_BATCH_SIZE - 1);
    if max.Some? && max.value < to then max.value else to
  }

  /** The first slots of the batches of a range. */
  ghost function BatchStarts(from: uint64, to: uint64): seq<uint64>
    requires from <= to
    decreases (to as int) - (from as int)
  {
    [from] + if BatchEnd(from, to) == to then [] else BatchStarts(BatchEnd(from, to) + 1, to)
  }

  /** What the index lists for the batch that starts at `batchFrom`. */
  ghost function BatchListing(catalog: Catalog, batchFrom: uint64, to: uint64): Option<seq<IndexEntry>>
    requires batchFrom <= to
  {
    var batchTo := BatchEnd(batchFrom, to);
    Listing(catalog.servers(batchFrom, batchTo), batchFrom, batchTo, batchTo - batchFrom + 1)
  }

  /** Every entry that the index lists for a batch was dealt with. */
  ghost predicate BatchEntered(env: Env, st: PlanState, catalog: Catalog, batchFrom: uint64, to: uint64) {
    && batchFrom <= to
    && BatchListing(catalog, batchFrom, to).Some?
    && (forall e :: e in BatchListing(catalog, batchFrom, to).value ==> Entered(env, catalog, st, e))
  }

  lemma BatchFurther(env: Env, st: PlanState, st': PlanState, catalog: Catalog, batchFrom: uint64, to: uint64)
    requires BatchEntered(env, st, catalog, batchFrom, to) && Further(st, st')
    ensures BatchEntered(env, st', catalog, batchFrom, to)
  {
    hide BatchListing;
    forall e | e in BatchListing(catalog, batchFrom, to).value
      ensures Entered(env, catalog, st', e)
    {
      EnteredFurther(env, catalog, st, st', e);
    }
  }

  method ListBatch(catalog: Catalog, batchFrom: uint64, to: uint64) returns (r: Option<seq<IndexEntry>>)
    requires batchFrom <= to
    ensures r == BatchListing(catalog, batchFrom, to)
  {
    hide Listing;
    var batchTo := BatchEnd(batchFrom, to);
    var limit: int64 := batchTo - batchFrom + 1;
    r := ListIndexBySlotRange(catalog.servers(batchFrom, batchTo), batchFrom, batchTo, limit);
  }

  /** The entries the index lists for the batches of a range. */
  ghost predicate IsEntry(catalog: Catalog, from: uint64, to: uint64, e: IndexEntry) {
    from <= to && exists b :: b in BatchStarts(from, to) && InBatch(catalog, b, to, e)
  }

  ghost predicate InBatch(catalog: Catalog, b: uint64, to: uint64, e: IndexEntry) {
    b <= to && BatchListing(catalog, b, to).Some? && e in BatchListing(catalog, b, to).value
  }

  ghost function Entries(catalog: Catalog, from: uint64, to: uint64): iset<IndexEntry> {
    iset e | IsEntry(catalog, from, to, e)
  }

  /** The listing of a batch succeeds, and every entry fits. */
  ghost predicate BatchFits(env: Env, catalog: Catalog, b: uint64, to: uint64) {
    && b <= to && BatchListing(catalog, b, to).Some?
    && (forall e :: e in BatchListing(catalog, b, to).value ==> EntryFits(env, catalog, e))
  }

  /** One batch; the entries of the batches before stay dealt with. */
  method WarmBatch(state: PlanBuildState, catalog: Catalog, ghost all: iset<IndexEntry>, batchFrom: uint64, to: uint64,
                   ghost done: seq<uint64>)
    returns (ok: bool)
    requires batchFrom <= to && state.Valid() && ValidEnv(state.env) && WarmOk(state.env, state.State())
    requires forall b :: b in done ==> BatchEntered(state.env, state.State(), catalog, b, to)
    requires forall e :: InBatch(catalog, batchFrom, to, e) ==> e in all
    modifies state.Repr()
    ensures state.Valid()
    ensures ok ==> WarmOk(state.env, state.State()) && Further(old(state.State()), state.State())
    ensures ok ==> forall b :: b in done + [batchFrom] ==> BatchEntered(state.env, state.State(), catalog, b, to)
    ensures ok ==> Adds(catalog, all, old(state.State()), state.State())
    ensures BatchFits(state.env, catalog, batchFrom, to) ==> ok
  {
    hide PlanBuildState.Valid, PlanBuildState.State, ValidEnv, WarmOk, Further, Entered, BatchEntered, BatchListing,
      Adds,
      EntryFits;
    var entries := ListBatch(catalog, batchFrom, to);
    if entries.None? {
      return false;
    }
    assert forall e :: e in entries.value ==> InBatch(catalog, batchFrom, to, e);
    ok := WarmEntries(state, catalog, all, entries.value);
    if !ok {
      return;
    }
    forall b | b in done
      ensures BatchEntered(state.env, state.State(), catalog, b, to)
    {
      BatchFurther(state.env, old(state.State()), state.State(), catalog, b, to);
    }
    BatchDone(state.env, state.State(), catalog, batchFrom, to);
  }

  lemma NextBatch(from: uint64, to: uint64, done: seq<uint64>, batchFrom: uint64)
    requires from <= to && batchFrom <= to && BatchStarts(from, to) == done + BatchStarts(batchFrom, to)
    ensures BatchEnd(batchFrom, to) == to ==> BatchStarts(from, to) == done + [batchFrom]
    ensures BatchEnd(batchFrom, to) < to ==>
      BatchStarts(from, to) == done + [batchFrom] + BatchStarts(BatchEnd(batchFrom, to) + 1, to)
  {
  }

  lemma BatchIsEntry(catalog: Catalog, from: uint64, to: uint64, done: seq<uint64>, b: uint64)
    requires from <= to && b <= to && BatchStarts(from, to) == done + BatchStarts(b, to)
    ensures b in BatchStarts(from, to) && forall e :: InBatch(catalog, b, to, e) ==> e in Entries(catalog, from, to)
  {
    hide InBatch;
    assert BatchStarts(b, to)[0] == b;
    assert BatchStarts(from, to)[|done|] == b;
  }

  /** Asks for the index of the range batch by batch; a batch that ends at MaxUint64 is the last. */
  method WarmSlotRangeOrphans(state: PlanBuildState, catalog: Catalog, from: uint64, to: uint64) returns (ok: bool)
    requires state.Valid() && ValidEnv(state.env) && WarmOk(state.env, state.State())
    modifies state.Repr()
    ensures state.Valid()
    ensures ok ==> WarmOk(state.env, state.State()) && Further(old(state.State()), state.State())
    ensures ok && from <= to ==> forall b :: b in BatchStarts(from, to) ==>
      BatchEntered(state.env, state.State(), catalog, b, to)
    ensures ok ==> Adds(catalog, Entries(catalog, from, to), old(state.State()), state.State())
    ensures from > to || (forall b :: b in BatchStarts(from, to) ==> BatchFits(state.env, catalog, b, to)) ==> ok
  {
    hide PlanBuildState.Valid, PlanBuildState.State, ValidEnv, WarmOk, Further, BatchEntered, BatchStarts, Adds,
      BatchFits,
      Entries, InBatch;
    ghost var all := Entries(catalog, from, to);
    FurtherSame(state.State());
    AddsSame(catalog, all, state.State());
    if from > to {
      return true;
    }
    var batchFrom := from;
    ghost var done: seq<uint64> := [];
    while true
      invariant batchFrom <= to && state.Valid() && WarmOk(state.env, state.State())
      invariant Further(old(state.State()), state.State()) && Adds(catalog, all, old(state.State()), state.State())
      invariant BatchStarts(from, to) == done + BatchStarts(batchFrom, to)
      invariant forall b :: b in done ==> BatchEntered(state.env, state.State(), catalog, b, to)
      decreases (to as int) - (batchFrom as int)
    {
      var batchTo := BatchEnd(batchFrom, to);
      ghost var before := state.State();
      BatchIsEntry(catalog, from, to, done, batchFrom);
      ok := WarmBatch(state, catalog, all, batchFrom, to, done);
      if !ok {
        return;
      }
      FurtherAgain(old(state.State()), before, state.State());
      AddsAgain(catalog, all, old(state.State()), before, state.State());
      NextBatch(from, to, done, batchFrom);
      done := done + [batchFrom];
      if batchTo == to || batchTo == MAX_UINT64 {
        return;
      }
      batchFrom := batchTo + 1;
    }
  }

  lemma BatchDone(env: Env, st: PlanState, catalog: Catalog, batchFrom: uint64, to: uint64)
    requires batchFrom <= to && BatchListing(catalog, batchFrom, to).Some?
    requires forall e :: e in BatchListing(catalog, batchFrom, to).value ==> Entered(env, catalog, st, e)
    ensures BatchEntered(env, st, catalog, batchFrom, to)
  {
    hide BatchListing, Entered;
  }

  // ----- collecting and walking

  /** The roots that the votes of one slot name afresh. */
  ghost function VotedAt(env: Env, st: PlanState, s: uint64): set<Root>
    requires env.firstSeen.Some?
  {
    if env.firstSeen.value(s).Some? then FreshRoots(env, st, env.firstSeen.value(s).value, None) else {}
  }

  ghost function SlotRoots(env: Env, st: PlanState, from: uint64, to: uint64): set<Root>
    requires env.firstSeen.Some?
  {
    set s: uint64, r | from <= s < to && r in VotedAt(env, st, s) :: r
  }

  ghost predicate VotesThere(env: Env, from: uint64, to: uint64)
    requires env.firstSeen.Some?
  {
    forall s: uint64 :: from <= s < to ==> env.firstSeen.value(s).Some?
  }

  /** The roots that the votes of a canonical block name afresh. */
  ghost function ShownVotes(env: Env, st: PlanState, s: uint64): set<Root> {
    if env.era(s).Present? then FreshRoots(env, st, env.era(s).block.attestations, None) else {}
  }

  ghost function ShownRoots(env: Env, st: PlanState): set<Root> {
    set s, r | s in st.visible && r in ShownVotes(env, st, s) :: r
  }

  lemma NextSlotRoots(env: Env, st: PlanState, from: uint64, s: uint64)
    requires env.firstSeen.Some? && from <= s < MAX_UINT64
    ensures SlotRoots(env, st, from, s + 1) == SlotRoots(env, st, from, s) + VotedAt(env, st, s)
  {
    hide VotedAt;
    assert forall r :: r in VotedAt(env, st, s) ==> r in SlotRoots(env, st, from, s + 1);
  }

  /** The votes of every slot of the range: all roots they name afresh, or an error when the votes of a slot are not
      there. */
  method CollectSlotVotes(state: PlanBuildState, from: uint64, to: uint64) returns (r: Option<set<Root>>)
    requires state.Valid() && state.env.firstSeen.Some?
    modifies state.index
    ensures state.Valid() && state.State() == old(state.State())
    ensures r.Some? <==> VotesThere(state.env, from, to)
    ensures r.Some? ==> r.value == SlotRoots(state.env, state.State(), from, to)
  {
    hide PlanBuildState.Valid, PlanBuildState.State, FreshRoots;
    var roots: set<Root> := {};
    if from >= to {
      return Some(roots);
    }
    var simSlot := from;
    while simSlot < to
      invariant from <= simSlot <= to && state.Valid() && state.State() == old(state.State())
      invariant VotesThere(state.env, from, simSlot) && roots == SlotRoots(state.env, state.State(), from, simSlot)
      decreases (to as int) - (simSlot as int)
    {
      var atts := state.env.firstSeen.value(simSlot);
      if atts.None? {
        return None;
      }
      roots := state.CollectUnknownRoots(atts.value, None, roots);
      NextSlotRoots(state.env, state.State(), from, simSlot);
      simSlot := simSlot + 1;
    }
    return Some(roots);
  }

  /** The planner's map holds the canonical blocks of its visible slots. */
  lemma MapShows(state: PlanBuildState, copy: CanonicalBlockMap)
    requires state.Valid() && state.canonical == AsMap(copy)
    ensures state.State().visible == copy.bySlot.Keys
    ensures forall s :: s in copy.bySlot ==> state.env.era(s) == Present(copy.bySlot[s])
  {
  }

  lemma NextShownRoots(env: Env, st: PlanState, done: set<uint64>, s: uint64)
    ensures (set x, r | x in done + {s} && r in ShownVotes(env, st, x) :: r)
         == (set x, r | x in done && r in ShownVotes(env, st, x) :: r) + ShownVotes(env, st, s)
  {
    hide ShownVotes;
    assert s in done + {s};
  }

  /** The votes of all canonical blocks of the planner's map, also of those that the index pass added, in any order. */
  method CollectCanonicalVotes(state: PlanBuildState, copy: CanonicalBlockMap) returns (roots: set<Root>)
    requires state.Valid() && state.canonical == AsMap(copy)
    modifies state.index
    ensures state.Valid() && state.State() == old(state.State())
    ensures roots == ShownRoots(state.env, state.State())
  {
    hide PlanBuildState.Valid, PlanBuildState.State, FreshRoots;
    MapShows(state, copy);
    ghost var bySlot, done, st := copy.bySlot, {}, state.State();
    roots := {};
    var rest := copy.bySlot.Keys;
    while rest != {}
      invariant state.Valid() && state.State() == st && copy.bySlot == bySlot
      invariant done + rest == bySlot.Keys
      invariant roots == set x, r | x in done && r in ShownVotes(state.env, st, x) :: r
      decreases rest
    {
      var slot :| slot in rest;
      roots := state.CollectUnknownRoots(copy.bySlot[slot].attestations, None, roots);
      NextShownRoots(state.env, st, done, slot);
      done, rest := done + {slot}, rest - {slot};
    }
    assert done == st.visible;
  }

  /** The votes of every listed orphan are noted. */
  ghost predicate SlotNoted(env: Env, roots: set<Root>, listed: seq<Root>, loadEnd: uint64) {
    forall r :: r in listed ==> env.archive(r).Some? && Noted(env, roots, env.archive(r).value.attestations, loadEnd)
  }

  lemma SlotNotedMore(env: Env, roots: set<Root>, more: set<Root>, listed: seq<Root>, loadEnd: uint64)
    requires SlotNoted(env, roots, listed, loadEnd) && roots <= more
    ensures SlotNoted(env, more, listed, loadEnd)
  {
  }

  lemma BlocksNoted(env: Env, st: PlanState, infos: seq<Block>, listed: seq<Root>, roots: set<Root>, loadEnd: uint64)
    requires ValidEnv(env) && WarmOk(env, st) && FreshRoots(env, st, Attestations(infos), None) <= roots
    requires forall r :: r in listed ==> env.archive(r).Some? && env.archive(r).value in infos
    ensures SlotNoted(env, roots, listed, loadEnd)
  {
    forall r | r in listed
      ensures Noted(env, roots, env.archive(r).value.attestations, loadEnd)
    {
      var b := env.archive(r).value;
      AttestationsExact(infos);
      CollectedNoted(env, st, b.attestations, roots, loadEnd);
    }
  }

  // ----- which roots are collected

  ghost predicate NamedIn(atts: seq<Attestation>, r: Root) {
    exists att :: att in atts && r in {att.targetRoot, att.beaconBlockRoot}
  }

  /** A shown canonical block or a listed orphan votes for the root. */
  ghost predicate Named(env: Env, st: PlanState, r: Root) {
    || (exists s :: s in st.visible && env.era(s).Present? && NamedIn(env.era(s).block.attestations, r))
    || (exists s :: ListedNames(env, OrphansAt(st, s), r))
  }

  ghost predicate ListedNames(env: Env, listed: seq<Root>, r: Root) {
    exists x :: x in listed && env.archive(x).Some? && NamedIn(env.archive(x).value.attestations, r)
  }

  lemma ListedRootsNamed(env: Env, st: PlanState, infos: seq<Block>, listed: seq<Root>)
    requires forall b :: b in infos ==> b.root in listed && env.archive(b.root) == Some(b)
    ensures forall r :: r in FreshRoots(env, st, Attestations(infos), None) ==> ListedNames(env, listed, r)
  {
    forall r | r in FreshRoots(env, st, Attestations(infos), None)
      ensures ListedNames(env, listed, r)
    {
      var att :| att in Attestations(infos) && r in {att.targetRoot, att.beaconBlockRoot};
      AttestationsExact(infos);
      var b :| b in infos && att in b.attestations;
      assert NamedIn(b.attestations, r);
    }
  }

  lemma ShownRootsNamed(env: Env, st: PlanState)
    ensures forall r :: r in ShownRoots(env, st) ==> Named(env, st, r)
  {
    forall r | r in ShownRoots(env, st)
      ensures Named(env, st, r)
    {
      var s :| s in st.visible && r in ShownVotes(env, st, s);
      assert NamedIn(env.era(s).block.attestations, r);
    }
  }

  /** The search at a slot of the warm pass never fails: whatever is listed there was judged before. */
  lemma ListedReads(env: Env, st: PlanState, slot: uint64)
    requires WarmOk(env, st)
    ensures OrphanInfos(env, st, slot).Some?
  {
    if OrphansAt(st, slot) != [] {
      var r := OrphansAt(st, slot)[0];
      assert slot in st.orphans && r in st.orphans[slot];
      assert OrphanAt(env, slot, r);
      GatherReads(env, st, slot, OrphansAt(st, slot), {}, []);
    }
  }

  lemma InfosListed(env: Env, st: PlanState, slot: uint64, f: Found)
    requires ValidEnv(env) && WarmOk(env, st) && OrphanInfos(env, st, slot) == Some(f)
    ensures forall b :: b in f.blocks ==> b.root in OrphansAt(st, slot) && env.archive(b.root) == Some(b)
  {
    InfosShape(env, st, slot, f);
  }

  /** The votes of the orphans listed at one slot. */
  method CollectListedSlot(state: PlanBuildState, slot: uint64, roots: set<Root>, loadEnd: uint64)
    returns (r: Option<set<Root>>)
    requires state.Valid() && ValidEnv(state.env) && WarmOk(state.env, state.State())
    modifies state.Repr()
    ensures state.Valid()
    ensures r.Some? && WarmOk(state.env, state.State()) && state.State().orphans == old(state.State()).orphans
    ensures roots <= r.value && SlotNoted(state.env, r.value, OrphansAt(old(state.State()), slot), loadEnd)
    ensures forall x :: x in r.value ==> x in roots || ListedNames(state.env, OrphansAt(old(state.State()), slot), x)
  {
    hide PlanBuildState.Valid, PlanBuildState.State, ValidEnv, WarmOk, FreshRoots, OrphanInfos, Noted, ListedNames;
    ListedReads(state.env, state.State(), slot);
    var infos := state.ArchiveOrphanInfosBySlot(slot);
    if infos.None? {
      return None;
    }
    ListedInfos(state.env, old(state.State()), slot, Found(infos.value, state.State()));
    InfosListed(state.env, old(state.State()), slot, Found(infos.value, state.State()));
    var more := state.CollectRootsOfBlocks(infos.value, None, roots);
    ListedRootsNamed(state.env, state.State(), infos.value, OrphansAt(old(state.State()), slot));
    BlocksNoted(state.env, state.State(), infos.value, OrphansAt(old(state.State()), slot), more, loadEnd);
    return Some(more);
  }

  /** The votes of all orphans the index listed, slot by slot in any order. */
  method CollectListedVotes(state: PlanBuildState, roots0: set<Root>, loadEnd: uint64) returns (r: Option<set<Root>>)
    requires state.Valid() && ValidEnv(state.env) && WarmOk(state.env, state.State())
    modifies state.Repr()
    ensures state.Valid()
    ensures r.Some? && WarmOk(state.env, state.State()) && roots0 <= r.value
    ensures forall s :: SlotNoted(state.env, r.value, OrphansAt(old(state.State()), s), loadEnd)
    ensures forall x :: x in r.value ==> x in roots0 || Named(state.env, old(state.State()), x)
    ensures old(state.State()).orphans == map[] ==> r == Some(roots0) && state.State() == old(state.State())
  {
    hide PlanBuildState.Valid, ValidEnv, WarmOk, SlotNoted, ListedNames, NamedIn;
    ghost var listed := state.State();
    var roots, rest := roots0, state.orphanRootsBySlot.Keys;
    while rest != {}
      invariant state.Valid() && WarmOk(state.env, state.State()) && state.State().orphans == listed.orphans
      invariant roots0 <= roots && forall x :: x in roots ==> x in roots0 || Named(state.env, listed, x)
      invariant rest <= listed.orphans.Keys && (listed.orphans == map[] ==> roots == roots0 && state.State() == listed)
      invariant forall s :: s in listed.orphans && s !in rest ==>
        SlotNoted(state.env, roots, OrphansAt(listed, s), loadEnd)
      decreases rest
    {
      var slot :| slot in rest;
      assert listed.orphans != map[] by {
        assert slot in listed.orphans;
      }
      assert OrphansAt(state.State(), slot) == OrphansAt(listed, slot);
      var more := CollectListedSlot(state, slot, roots, loadEnd);
      if more.None? {
        return None;
      }
      forall s | s in listed.orphans && s !in rest
        ensures SlotNoted(state.env, more.value, OrphansAt(listed, s), loadEnd)
      {
        SlotNotedMore(state.env, roots, more.value, OrphansAt(listed, s), loadEnd);
      }
      roots, rest := more.value, rest - {slot};
    }
    forall s | s !in listed.orphans
      ensures SlotNoted(state.env, roots, OrphansAt(listed, s), loadEnd)
    {
      NothingNoted(state.env, roots, loadEnd);
    }
    return Some(roots);
  }

  lemma NothingNoted(env: Env, roots: set<Root>, loadEnd: uint64)
    ensures SlotNoted(env, roots, [], loadEnd)
  {
  }

  /** Resolving roots one after the other. */
  ghost function WalkAll(env: Env, st: PlanState, roots: seq<Root>, evalSlot: uint64): Option<PlanState>
    decreases |roots|
  {
    if roots == [] then Some(st)
    else
      match ResolveChain(env, st, roots[0], evalSlot)
      case None => None
      case Some(f) => WalkAll(env, f.st, roots[1..], evalSlot)
  }

  /** Every root that was walked is cached as far as any later walk could follow it. */
  lemma {:induction false} WalkAllWarms(env: Env, st: PlanState, roots: seq<Root>, loadEnd: uint64, st': PlanState)
    requires ValidEnv(env) && WarmOk(env, st) && WalkAll(env, st, roots, loadEnd) == Some(st')
    ensures WarmOk(env, st') && st.fetched <= st'.fetched
    ensures forall r :: r in roots ==> Cached(env, st'.fetched, r, {}, loadEnd, MAX_ORPHAN_WALK)
    decreases |roots|
  {
    hide ValidEnv, WarmOk, Cached, ResolveChain;
    if roots != [] {
      var f := ResolveChain(env, st, roots[0], loadEnd).value;
      WalkWarms(env, st, roots[0], loadEnd, f);
      WalkAllWarms(env, f.st, roots[1..], loadEnd, st');
      CachedEarlier(env, f.st.fetched, st'.fetched, roots[0], {}, loadEnd, loadEnd, MAX_ORPHAN_WALK);
    }
  }

  /** Resolves every collected root once, at the end of the window. */
  method WalkCollected(state: PlanBuildState, roots: set<Root>, loadEnd: uint64) returns (ok: bool)
    requires state.Valid()
    modifies state.Repr()
    ensures state.Valid()
    ensures WalkAll(state.env, old(state.State()), SortedRoots(roots), loadEnd) == if ok then Some(state.State())
      else None
  {
    hide PlanBuildState.Valid, PlanBuildState.State, SortedRoots, ResolveChain;
    var sorted := SortedRootKeys(roots);
    ghost var expected := WalkAll(state.env, state.State(), sorted, loadEnd);
    AllOf(sorted);
    for k := 0 to |sorted|
      invariant state.Valid() && expected == WalkAll(state.env, state.State(), sorted[k..], loadEnd)
    {
      NextOf(sorted, k);
      var chain := state.ResolveOrphanChain(sorted[k], loadEnd);
      if chain.None? {
        return false;
      }
    }
    return true;
  }

  /** What a successful pass over [from, to) guarantees: the votes of the range (first-seen), or those of all canonical
      blocks of the window, of the others it came across, and of the orphans the index listed, lead only to cached
      blocks. */
  ghost predicate Warmed(env: Env, from: uint64, to: uint64, w: WarmResult) {
    var loadEnd := SaturatingAdd(to, env.cap);
    && Listed(env, w.orphans, w.cache)
    && PresentIn(env.era, Window(from, loadEnd)) <= w.shown && (forall s :: s in w.shown ==> env.era(s).Present?)
    && (env.mode == FirstSeenGossip ==> VotesWarmed(env, w.cache, from, to, loadEnd))
    && (env.mode != FirstSeenGossip ==>
          && (forall s :: s in w.shown ==> RootsWarmed(env, w.cache, env.era(s).block.attestations, loadEnd))
          && (forall s, r :: s in w.listed && r in w.listed[s] ==>
                env.archive(r).Some? && RootsWarmed(env, w.cache, env.archive(r).value.attestations, loadEnd)))
  }

  ghost function PassStart(env: Env, from: uint64, to: uint64): PlanState {
    PlanState(PresentIn(env.era, Window(from, SaturatingAdd(to, env.cap))), env.checkpoints, {}, {}, {}, {}, map[], 0)
  }

  /** The roots of a pass that lists no index. */
  ghost function PassRoots(env: Env, st: PlanState, from: uint64, to: uint64): Option<set<Root>> {
    if env.mode != FirstSeenGossip then Some(ShownRoots(env, st))
    else if env.firstSeen.None? || !VotesThere(env, from, to) then None
    else Some(SlotRoots(env, st, from, to))
  }

  ghost function PassWalked(env: Env, from: uint64, to: uint64): Option<WarmResult> {
    var st := PassStart(env, from, to);
    match PassRoots(env, st, from, to)
    case None => None
    case Some(roots) =>
      match WalkAll(env, st, SortedRoots(roots), SaturatingAdd(to, env.cap))
      case None => None
      case Some(last) => Some(WarmResult(last.fetched, map[], last.orphans, st.visible))
  }

  /** The pass in the modes that do not ask for the slot index: it depends on nothing but the range and the oracles. */
  ghost function PassResult(env: Env, from: uint64, to: uint64): Option<WarmResult>
    requires env.mode != GreedyLookahead
  {
    if from >= to then Some(WarmResult({}, map[], map[], {}))
    else if !Readable(env.era, from, SaturatingAdd(to, env.cap)) then None
    else PassWalked(env, from, to)
  }

  /** The state that lists exactly these orphans. */
  ghost function Bare(orphans: map<uint64, seq<Root>>): PlanState {
    PlanState({}, {}, {}, {}, {}, {}, orphans, 0)
  }

  /** The index part of the guarantee: the entries the archive lists for the window were dealt with. */
  ghost predicate IndexEntered(env: Env, catalog: Catalog, from: uint64, to: uint64, w: WarmResult) {
    && from <= SaturatingAdd(to, env.cap)
    && (forall b :: b in BatchStarts(from, SaturatingAdd(to, env.cap)) ==>
          BatchEntered(env, Bare(w.listed), catalog, b, SaturatingAdd(to, env.cap)))
  }

  /** When the server behind a batch lists exactly `all`, in pages of any length, every one of them was dealt with. */
  lemma IndexComplete(env: Env, catalog: Catalog, from: uint64, to: uint64, w: WarmResult, b: uint64,
                      all: seq<IndexEntry>)
    requires IndexEntered(env, catalog, from, to, w) && b in BatchStarts(from, SaturatingAdd(to, env.cap))
    requires b <= SaturatingAdd(to, env.cap)
    requires var batchTo := BatchEnd(b, SaturatingAdd(to, env.cap));
      Lists(catalog.servers(b, batchTo), PageLimit(batchTo - b + 1), all)
    ensures forall e :: e in all ==> Entered(env, catalog, Bare(w.listed), e)
  {
    hide Entered, Lists;
    var loadEnd := SaturatingAdd(to, env.cap);
    var batchTo := BatchEnd(b, loadEnd);
    assert BatchEntered(env, Bare(w.listed), catalog, b, loadEnd);
    ListingIsAll(catalog.servers(b, batchTo), b, batchTo, batchTo - b + 1, all);
  }

  lemma SameEntries(env: Env, st: PlanState, catalog: Catalog, from: uint64, to: uint64)
    requires from <= to && forall b :: b in BatchStarts(from, to) ==> BatchEntered(env, st, catalog, b, to)
    ensures forall b :: b in BatchStarts(from, to) ==> BatchEntered(env, Bare(st.orphans), catalog, b, to)
  {
    hide BatchListing, BatchStarts;
    forall b | b in BatchStarts(from, to)
      ensures BatchEntered(env, Bare(st.orphans), catalog, b, to)
    {
      forall e | e in BatchListing(catalog, b, to).value
        ensures Entered(env, catalog, Bare(st.orphans), e)
      {
        assert Entered(env, catalog, st, e) && OrphansAt(Bare(st.orphans), e.slot) == OrphansAt(st, e.slot);
      }
    }
  }

  /** Opens the state of the pass on a copy of the window. */
  method OpenPass(b: Backend, from: uint64, loadEnd: uint64)
    returns (r: Option<PlanBuildState>, copy: CanonicalBlockMap)
    requires b.Valid() && from <= loadEnd
    modifies b.index
    ensures b.Valid() && (r.Some? <==> Readable(b.env.era, from, loadEnd))
    ensures r.Some? ==> r.value.Valid() && r.value.env == b.env && r.value.index == b.index
    ensures r.Some? ==> fresh(r.value) && fresh(copy) && r.value.canonical == AsMap(copy)
    ensures r.Some? ==>
      r.value.State()
        == PlanState(PresentIn(b.env.era, Window(from, loadEnd)), b.env.checkpoints, {}, {}, {}, {}, map[], 0)
  {
    hide Normal, Agrees, Slots, Window;
    var window := b.LoadCanonicalBlockInfos(from, loadEnd);
    if window.None? {
      copy := new CanonicalBlockMap(b.env.era, map[], map[]);
      return None, copy;
    }
    copy := window.value;
    var state := new PlanBuildState.Warm(b.env, b.index, AsMap(copy));
    return Some(state), copy;
  }

  lemma StartIsWarm(env: Env, from: uint64, to: uint64)
    ensures WarmOk(env, PassStart(env, from, to))
  {
  }

  lemma SlotsNoted(env: Env, st: PlanState, from: uint64, to: uint64, loadEnd: uint64)
    requires ValidEnv(env) && WarmOk(env, st) && env.firstSeen.Some? && VotesThere(env, from, to)
    ensures forall s: uint64 :: from <= s < to ==>
      Noted(env, SlotRoots(env, st, from, to), env.firstSeen.value(s).value, loadEnd)
  {
    hide WarmOk, ValidEnv, FreshRoots, Noted;
    forall s: uint64 | from <= s < to
      ensures Noted(env, SlotRoots(env, st, from, to), env.firstSeen.value(s).value, loadEnd)
    {
      assert VotedAt(env, st, s) <= SlotRoots(env, st, from, to);
      CollectedNoted(env, st, env.firstSeen.value(s).value, SlotRoots(env, st, from, to), loadEnd);
    }
  }

  lemma ShownNoted(env: Env, st: PlanState, roots: set<Root>, loadEnd: uint64)
    requires ValidEnv(env) && WarmOk(env, st) && ShownRoots(env, st) <= roots
    ensures forall s :: s in st.visible ==>
      env.era(s).Present? && Noted(env, roots, env.era(s).block.attestations, loadEnd)
  {
    hide FreshRoots, Noted;
    forall s | s in st.visible
      ensures env.era(s).Present? && Noted(env, roots, env.era(s).block.attestations, loadEnd)
    {
      assert ShownVotes(env, st, s) <= ShownRoots(env, st);
      CollectedNoted(env, st, env.era(s).block.attestations, roots, loadEnd);
    }
  }

  /** Collects the roots of the pass, by mode. */
  method CollectRoots(state: PlanBuildState, copy: CanonicalBlockMap, from: uint64, to: uint64, loadEnd: uint64)
    returns (r: Option<set<Root>>)
    requires state.Valid() && ValidEnv(state.env) && WarmOk(state.env, state.State())
    requires state.canonical == AsMap(copy)
    modifies state.Repr()
    ensures state.Valid()
    ensures r.Some? ==> WarmOk(state.env, state.State())
    ensures old(state.State()).orphans == map[] ==>
      r == PassRoots(state.env, old(state.State()), from, to) && (r.Some? ==> state.State() == old(state.State()))
    ensures r.Some? ==> Collected(state.env, old(state.State()), r.value, from, to, loadEnd)
    ensures state.env.mode != FirstSeenGossip ==>
      r.Some? && forall x :: x in r.value ==> Named(state.env, old(state.State()), x)
  {
    hide PlanBuildState.Valid, PlanBuildState.State, ValidEnv, WarmOk, SlotNoted, Noted, SlotRoots, ShownRoots,
      VotesThere, Named;
    if state.env.mode == FirstSeenGossip {
      if state.env.firstSeen.None? {
        return None;
      }
      r := CollectSlotVotes(state, from, to);
      if r.Some? {
        SlotsNoted(state.env, state.State(), from, to, loadEnd);
        ThereMeansSome(state.env, from, to);
      }
      return;
    }
    var roots := CollectCanonicalVotes(state, copy);
    ShownRootsNamed(state.env, state.State());
    r := CollectListedVotes(state, roots, loadEnd);
    ShownNoted(state.env, old(state.State()), r.value, loadEnd);
  }

  lemma ThereMeansSome(env: Env, from: uint64, to: uint64)
    requires env.firstSeen.Some? && VotesThere(env, from, to)
    ensures forall s: uint64 :: from <= s < to ==> env.firstSeen.value(s).Some?
  {
  }

  /** Every vote the pass must see was collected, or leads nowhere. */
  ghost predicate Collected(env: Env, st: PlanState, roots: set<Root>, from: uint64, to: uint64, loadEnd: uint64) {
    && (env.mode == FirstSeenGossip ==> env.firstSeen.Some? && forall s: uint64 :: from <= s < to ==>
          env.firstSeen.value(s).Some? && Noted(env, roots, env.firstSeen.value(s).value, loadEnd))
    && (env.mode != FirstSeenGossip ==>
          && (forall s :: s in st.visible ==>
            env.era(s).Present? && Noted(env, roots, env.era(s).block.attestations, loadEnd))
          && (forall s :: SlotNoted(env, roots, OrphansAt(st, s), loadEnd)))
  }

  lemma PassWarmed(env: Env, collected: PlanState, roots: set<Root>, st: PlanState, from: uint64, to: uint64)
    requires WarmOk(env, collected) && WarmOk(env, st)
    requires PresentIn(env.era, Window(from, SaturatingAdd(to, env.cap))) <= collected.visible
    requires forall r :: r in roots ==> Cached(env, st.fetched, r, {}, SaturatingAdd(to, env.cap), MAX_ORPHAN_WALK)
    requires Collected(env, collected, roots, from, to, SaturatingAdd(to, env.cap))
    ensures Warmed(env, from, to, WarmResult(st.fetched, collected.orphans, st.orphans, collected.visible))
  {
    hide Cached, Noted, Window, PresentIn;
    var loadEnd := SaturatingAdd(to, env.cap);
    if env.mode == FirstSeenGossip {
      forall s: uint64 | from <= s < to
        ensures SlotWarmed(env, st.fetched, s, loadEnd)
      {
        NotedIsWarmed(env, st.fetched, roots, env.firstSeen.value(s).value, loadEnd);
      }
    } else {
      forall s | s in collected.visible
        ensures RootsWarmed(env, st.fetched, env.era(s).block.attestations, loadEnd)
      {
        NotedIsWarmed(env, st.fetched, roots, env.era(s).block.attestations, loadEnd);
      }
      forall s, r | s in collected.orphans && r in collected.orphans[s]
        ensures env.archive(r).Some? && RootsWarmed(env, st.fetched, env.archive(r).value.attestations, loadEnd)
      {
        assert SlotNoted(env, roots, OrphansAt(collected, s), loadEnd) && r in OrphansAt(collected, s);
        NotedIsWarmed(env, st.fetched, roots, env.archive(r).value.attestations, loadEnd);
      }
    }
  }

  // ----- when the pass with the slot index succeeds

  /** A walk that does not climb stops without an error where the slot can be read. */
  lemma StopReads(env: Env, st: PlanState, current: Root, seen: set<Root>, chain: seq<Block>, evalSlot: uint64,
                  fuel: nat)
    requires fuel > 0 && !Climbs(env, st, current, seen, evalSlot)
    requires Halts(env, st.imported, current, evalSlot) || !env.era(env.archive(current).value.slot).Unreadable?
    ensures WalkUp(env, st, current, seen, chain, evalSlot, fuel).Some?
  {
  }

  lemma {:induction false} WalkReads(env: Env, st: PlanState, current: Root, seen: set<Root>, chain: seq<Block>,
                                     evalSlot: uint64, fuel: nat)
    requires Legible(env, Ancestry(env, st.imported, current, evalSlot, fuel))
    ensures WalkUp(env, st, current, seen, chain, evalSlot, fuel).Some?
    decreases fuel
  {
    if fuel > 0 {
      hide WalkUp, Halts, Legible, Ancestry, Climbs;
      AncestryStep(env, st.imported, current, evalSlot, fuel);
      if !Halts(env, st.imported, current, evalSlot) {
        var info := env.archive(current).value;
        LegibleCons(env, info, Ancestry(env, st.imported, info.parentRoot, evalSlot, fuel - 1));
      }
      if Climbs(env, st, current, seen, evalSlot) {
        var info := env.archive(current).value;
        ClimbGoesOn(env, st, current, seen, chain, evalSlot, fuel);
        WalkReads(env, StateAfter(env, st, current, seen, evalSlot), info.parentRoot, seen + {current}, chain + [info],
                  evalSlot, fuel - 1);
      } else {
        StopReads(env, st, current, seen, chain, evalSlot, fuel);
      }
    }
  }

  lemma {:induction false} WalkAllReads(env: Env, st: PlanState, roots: seq<Root>, evalSlot: uint64)
    requires ValidEnv(env)
    requires forall r :: r in roots ==> Legible(env, Ancestry(env, st.imported, r, evalSlot, MAX_ORPHAN_WALK))
    ensures WalkAll(env, st, roots, evalSlot).Some?
    decreases |roots|
  {
    hide WalkUp, Ancestry, Grows, OrphanChain;
    if roots != [] {
      WalkReads(env, st, roots[0], {}, [], evalSlot, MAX_ORPHAN_WALK);
      var f := ResolveChain(env, st, roots[0], evalSlot).value;
      ResolvedChain(env, st, roots[0], evalSlot, f);
      WalkImports(env, st, roots[0], evalSlot, f);
      WalkAllReads(env, f.st, roots[1..], evalSlot);
    }
  }

  lemma WalkImports(env: Env, st: PlanState, root: Root, evalSlot: uint64, f: Found)
    requires ValidEnv(env) && ResolveChain(env, st, root, evalSlot) == Some(f)
    ensures f.st.imported == st.imported
  {
    hide ResolveChain;
    ResolvedChain(env, st, root, evalSlot, f);
  }

  /** The blocks whose votes the pass with the slot index may collect: the canonical ones of the window and of the slots
      the index names, and those the index lists. */
  ghost predicate Met(env: Env, catalog: Catalog, from: uint64, to: uint64, b: Block) {
    || (env.era(b.slot) == Present(b)
      && (from <= b.slot <= to || exists e :: IsEntry(catalog, from, to, e) && e.slot == b.slot))
    || (env.archive(b.root) == Some(b) && Names(catalog, Entries(catalog, from, to), b.slot, b.root))
  }

  /** Everything the pass asks for can be read: the window, the listing of every batch, a fitting block for every entry,
      and the slots along the walks from the roots that the blocks it meets vote for. */
  ghost predicate PassReady(env: Env, catalog: Catalog, from: uint64, to: uint64) {
    var loadEnd := SaturatingAdd(to, env.cap);
    && from <= loadEnd && Readable(env.era, from, loadEnd)
    && (forall b :: b in BatchStarts(from, loadEnd) ==> BatchFits(env, catalog, b, loadEnd))
    && (forall b, r :: Met(env, catalog, from, loadEnd, b) && NamedIn(b.attestations, r) ==>
          Legible(env, Ancestry(env, env.checkpoints, r, loadEnd, MAX_ORPHAN_WALK)))
  }

  lemma CollectedAreMet(env: Env, catalog: Catalog, from: uint64, to: uint64, st: PlanState, r: Root)
    requires ValidEnv(env) && WarmOk(env, st) && Named(env, st, r)
    requires Adds(catalog, Entries(catalog, from, SaturatingAdd(to, env.cap)), PassStart(env, from, to), st)
    ensures exists b :: Met(env, catalog, from, SaturatingAdd(to, env.cap), b) && NamedIn(b.attestations, r)
  {
    hide NamedIn, IsEntry;
    var loadEnd := SaturatingAdd(to, env.cap);
    if s :| s in st.visible && env.era(s).Present? && NamedIn(env.era(s).block.attestations, r) {
      var b := env.era(s).block;
      if s in PassStart(env, from, to).visible {
        assert In(SlotRange(from, loadEnd), s);
      }
      assert Met(env, catalog, from, loadEnd, b);
    } else {
      var s :| ListedNames(env, OrphansAt(st, s), r);
      var x :| x in OrphansAt(st, s) && env.archive(x).Some? && NamedIn(env.archive(x).value.attestations, r);
      assert OrphansAt(PassStart(env, from, to), s) == [];
      assert OrphanAt(env, s, x);
      assert Met(env, catalog, from, loadEnd, env.archive(x).value);
    }
  }

  lemma ReadyWalks(env: Env, catalog: Catalog, from: uint64, to: uint64, collected: PlanState, roots: set<Root>,
                   st: PlanState)
    requires PassReady(env, catalog, from, to) && ValidEnv(env) && WarmOk(env, collected) && WarmOk(env, st)
    requires Adds(catalog, Entries(catalog, from, SaturatingAdd(to, env.cap)), PassStart(env, from, to), collected)
    requires forall r :: r in roots ==> Named(env, collected, r)
    ensures WalkAll(env, st, SortedRoots(roots), SaturatingAdd(to, env.cap)).Some?
  {
    hide Met, NamedIn, Named, WalkAll, Legible, Ancestry, Adds, BatchFits, BatchStarts, Readable;
    forall r | r in SortedRoots(roots)
      ensures Legible(env, Ancestry(env, st.imported, r, SaturatingAdd(to, env.cap), MAX_ORPHAN_WALK))
    {
      CollectedAreMet(env, catalog, from, to, collected, r);
    }
    WalkAllReads(env, st, SortedRoots(roots), SaturatingAdd(to, env.cap));
  }

  /** Fills the disk cache for the slots [from, to): every vote a server of these slots will see leads only to cached
      blocks. */
  method WarmArchiveCache(b: Backend, catalog: Catalog, from: uint64, to: uint64) returns (r: Option<WarmResult>)
    requires b.Valid()
    modifies b.index
    ensures b.Valid()
    ensures r.Some? && from < to ==> Warmed(b.env, from, to, r.value)
    ensures from >= to ==> r == Some(WarmResult({}, map[], map[], {}))
    ensures r.Some? && from < to && b.env.mode == GreedyLookahead ==> IndexEntered(b.env, catalog, from, to, r.value)
    ensures b.env.mode != GreedyLookahead ==> r == PassResult(b.env, from, to)
    ensures b.env.mode == GreedyLookahead && from < to && PassReady(b.env, catalog, from, to) ==> r.Some?
  {
    hide PlanBuildState.State, ValidEnv, WarmOk, PresentIn, Window, Warmed, BatchEntered, BatchStarts,
      CanonicalBlockIndex.Valid,
      PassWalked, IndexEntered, Readable;
    if from >= to {
      return Some(WarmResult({}, map[], map[], {}));
    }
    var loadEnd := SaturatingAdd(to, b.env.cap);
    var state, copy := OpenPass(b, from, loadEnd);
    if state.None? {
      return None;
    }
    r := RunPass(b.env, state.value, copy, catalog, from, to);
  }

  method RunPass(ghost env: Env, state: PlanBuildState, copy: CanonicalBlockMap, catalog: Catalog, from: uint64,
                 to: uint64)
    returns (r: Option<WarmResult>)
    requires env == state.env && from < to && ValidEnv(env)
    requires state.Valid() && state.canonical == AsMap(copy)
    requires state.State() == PassStart(env, from, to)
    modifies state.Repr()
    ensures state.Valid()
    ensures r.Some? ==> Warmed(env, from, to, r.value)
    ensures r.Some? && env.mode == GreedyLookahead ==> IndexEntered(env, catalog, from, to, r.value)
    ensures env.mode != GreedyLookahead ==> r == PassWalked(env, from, to)
    ensures env.mode == GreedyLookahead && PassReady(env, catalog, from, to) ==> r.Some?
  {
    hide PlanBuildState.Valid, Adds, Named, BatchFits, Met, ValidEnv, WarmOk, SlotNoted, Noted, PresentIn, Window,
      Warmed, BatchEntered, BatchStarts,
      PassRoots,
      Collected, Cached, SortedRoots, WalkAll;
    StartIsWarm(env, from, to);
    var loadEnd := SaturatingAdd(to, state.env.cap);
    if state.env.mode == GreedyLookahead {
      var ok := WarmSlotRangeOrphans(state, catalog, from, loadEnd);
      if !ok {
        return None;
      }
      SameEntries(state.env, state.State(), catalog, from, loadEnd);
    }
    var listed, shown := state.orphanRootsBySlot, copy.bySlot.Keys;
    ghost var collected := state.State();
    var roots := CollectRoots(state, copy, from, to, loadEnd);
    if roots.None? {
      return None;
    }
    ghost var before := state.State();
    if state.env.mode == GreedyLookahead && PassReady(env, catalog, from, to) {
      ReadyWalks(env, catalog, from, to, collected, roots.value, before);
    }
    var ok := WalkCollected(state, roots.value, loadEnd);
    if !ok {
      return None;
    }
    WalkAllWarms(state.env, before, SortedRoots(roots.value), loadEnd, state.State());
    PassWarmed(state.env, collected, roots.value, state.State(), from, to);
    return Some(WarmResult(state.fetchedByRoot.Keys, listed, state.orphanRootsBySlot, shown));
  }

  lemma LargerCache(env: Env, cache: set<Root>, larger: set<Root>, atts: seq<Attestation>, loadEnd: uint64)
    requires RootsWarmed(env, cache, atts, loadEnd) && cache <= larger
    ensures RootsWarmed(env, larger, atts, loadEnd)
  {
    forall att | att in atts
      ensures Cached(env, larger, att.targetRoot, {}, loadEnd, MAX_ORPHAN_WALK)
      ensures Cached(env, larger, att.beaconBlockRoot, {}, loadEnd, MAX_ORPHAN_WALK)
    {
      CachedEarlier(env, cache, larger, att.targetRoot, {}, loadEnd, loadEnd, MAX_ORPHAN_WALK);
      CachedEarlier(env, cache, larger, att.beaconBlockRoot, {}, loadEnd, loadEnd, MAX_ORPHAN_WALK);
    }
  }

  lemma VotesLarger(env: Env, cache: set<Root>, larger: set<Root>, from: uint64, to: uint64, loadEnd: uint64)
    requires VotesWarmed(env, cache, from, to, loadEnd) && cache <= larger
    ensures VotesWarmed(env, larger, from, to, loadEnd)
  {
    forall s: uint64 | from <= s < to
      ensures SlotWarmed(env, larger, s, loadEnd)
    {
      assert SlotWarmed(env, cache, s, loadEnd);
      LargerCache(env, cache, larger, env.firstSeen.value(s).value, loadEnd);
    }
  }

  /** In the modes that read votes from source blocks: a vote of a canonical block of the window, or of one the index
      pass came across, resolves from the cache to the same chain as from the archive, whatever the server has imported,
      shown or found missing by then. */
  lemma WarmServesVote(env: Env, from: uint64, to: uint64, w: WarmResult, s: uint64, att: Attestation, root: Root,
                       online: PlanState, cached: PlanState, evalSlot: uint64)
    requires ValidEnv(env) && env.mode != FirstSeenGossip && Warmed(env, from, to, w)
    requires s in w.shown || (from <= s <= SaturatingAdd(to, env.cap) && env.era(s).Present?)
    requires env.era(s).Present? && att in env.era(s).block.attestations
    requires root in {att.targetRoot, att.beaconBlockRoot}
    requires evalSlot <= SaturatingAdd(to, env.cap) && Alike(env, online, cached, evalSlot)
    ensures var a, b := ResolveChain(env, online, root, evalSlot),
                        ResolveChain(CacheEnv(env, w.cache), cached, root, evalSlot);
      a.Some? && b.Some? && a.value.blocks == b.value.blocks
  {
    var loadEnd := SaturatingAdd(to, env.cap);
    assert s in PresentIn(env.era, Window(from, loadEnd)) || s in w.shown;
    CachedEarlier(env, w.cache, w.cache, root, {}, loadEnd, evalSlot, MAX_ORPHAN_WALK);
    ChainsAlike(env, w.cache, online, cached, root, evalSlot);
  }
}
