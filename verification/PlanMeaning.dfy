/** What a plan is, said of the era files, the archive, the orphan index and the configuration alone. */
module PlanMeaning {
  import opened Core
  import opened SlotRanges
  import opened Blocks
  import opened Sorting
  import opened Sorts
  import opened AttPlan
  import opened PlanSpec
  import opened OrphanChains
  import opened PlanSteps
  import opened PlanRuns
  import opened SlotRuns
  import opened CacheExact
  import opened SourceAgreement
  import opened ListedOrphans
  import opened PlanTour
  import opened PlanFollows
  import opened PlanWalks

  /** The configuration and the era files of the window allow a plan. */
  ghost predicate PlanAskable(env: Env, from: uint64, to: uint64) {
    && from <= to && !env.mode.Unsupported?
    && (env.mode == NextNonMissed || env.mode == GreedyLookahead ==> 1 <= env.cap)
    && (env.mode == FirstSeenGossip ==> env.firstSeen.Some?)
    && (forall s: uint64 :: from - 1 <= s <= to + env.cap ==> !env.era(s).Unreadable?)
  }

  /** An orphan that walks of the entry have brought in. */
  ghost predicate WalkedIn(env: Env, from: uint64, simSlot: uint64, b: Block)
    requires from <= simSlot < MAX_UINT64
  {
    && IsBlock(env, b) && b.root in TourAt(env, from, simSlot + 1).known
    && b.root !in Entered(env, from, TourAt(env, from, simSlot), simSlot).known
  }

  /** The imports of an entry in their order: the canonical block, the orphans listed at the slot, the blocks due, and
      the blocks that the entry's own walks bring in. */
  ghost predicate EntryImports(env: Env, from: uint64, simSlot: uint64, imports: seq<BlockImport>)
    requires from <= simSlot < MAX_UINT64
  {
    exists listed, due, walked :: EntryParts(env, from, simSlot, listed, due, walked, imports)
  }

  ghost predicate EntryParts(env: Env, from: uint64, simSlot: uint64, listed: seq<Block>, due: seq<Block>,
                             walked: seq<Block>, imports: seq<BlockImport>)
    requires from <= simSlot < MAX_UINT64
  {
    var t := TourAt(env, from, simSlot);
    && imports == (if env.era(simSlot).Present? then [BlockImport(simSlot, env.era(simSlot).block.root, true)] else [])
         + OrphanImports(listed) + OrphanImports(due) + OrphanImports(walked)
    && BySlotAndRoot(listed) && BySlotAndRoot(due) && BySlotAndRoot(walked)
    && (forall b :: b in listed <==> TakenFromList(env, from, t, simSlot, b))
    && (forall b :: b in due <==> IsBlock(env, b) && b.root in Due(env, t, simSlot))
    && (forall b :: b in walked <==> WalkedIn(env, from, simSlot, b))
  }

  ghost predicate EntryMeans(env: Env, from: uint64, simSlot: uint64, e: PlanEntry)
    requires from <= simSlot < MAX_UINT64
  {
    && e.simSlot == simSlot && e.evalSlot == simSlot + 1
    && IsSource(EraSlots(env.era), simSlot, env.mode, env.cap, e.sourceBlockSlot)
    && SourcesOk(EraSlots(env.era), simSlot, env.mode, env.cap, simSlot + 1, e.sources)
    && EntryImports(env, from, simSlot, e.imports)
  }

  /** Some entry of the plan has a walk that meets a slot that cannot be read. */
  ghost predicate WalkBlocked(env: Env, from: uint64, to: uint64) {
    exists s: uint64 :: from <= s < to && !EntryClear(env, from, s)
  }

  /** What BuildPlan answers: an error exactly when the question is not allowed or a walk meets a slot that cannot be
      read, and otherwise one entry for each slot. */
  ghost predicate PlanMeans(env: Env, from: uint64, to: uint64, r: Option<seq<PlanEntry>>) {
    if !PlanAskable(env, from, to) || WalkBlocked(env, from, to) then r.None?
    else
      && r.Some? && |r.value| == to - from
      && forall k :: 0 <= k < |r.value| ==> EntryMeans(env, from, from + k, r.value[k])
  }

  // ----- the sources of an entry

  lemma SourceIsFirst(blocks: set<uint64>, simSlot: uint64, mode: Mode, cap: uint64, evalSlot: uint64,
                      sources: seq<Source>)
    requires SourcesOk(blocks, simSlot, mode, cap, evalSlot, sources) && !mode.Unsupported?
    ensures IsSource(blocks, simSlot, mode, cap, if sources == [] then None else Some(sources[0].slot))
  {
    if sources == [] {
      forall s: uint64
        ensures !Chosen(blocks, simSlot, mode, cap, s)
      {
        assert !HasSource(sources, s);
      }
      NothingChosen(blocks, simSlot, mode, cap);
    } else {
      assert HasSource(sources, sources[0].slot);
      if mode == GreedyLookahead {
        forall s: uint64 | simSlot + 1 <= s < sources[0].slot
          ensures s !in blocks
        {
          assert !HasSource(sources, s);
        }
      }
    }
  }

  lemma NothingChosen(blocks: set<uint64>, simSlot: uint64, mode: Mode, cap: uint64)
    requires !mode.Unsupported? && forall s: uint64 :: !Chosen(blocks, simSlot, mode, cap, s)
    ensures IsSource(blocks, simSlot, mode, cap, None)
  {
    if mode == StrictKMinus1 || mode == NextNonMissed {
      var hi := if mode == StrictKMinus1 then simSlot + 1 else simSlot + cap;
      if mode == StrictKMinus1 || hi <= MAX_UINT64 {
        forall s: uint64
          ensures !FirstIn(blocks, simSlot + 1, hi, Some(s))
        {
          assert !Chosen(blocks, simSlot, mode, cap, s);
        }
        NoneFirst(blocks, simSlot + 1, hi);
      }
    } else if mode == GreedyLookahead {
      forall s: uint64 | simSlot + cap <= MAX_UINT64 && simSlot < s <= simSlot + cap
        ensures s !in blocks
      {
        assert !Chosen(blocks, simSlot, mode, cap, s);
      }
    }
  }

  lemma NoneFirst(blocks: set<uint64>, lo: int, hi: int)
    requires 0 <= lo && hi <= MAX_UINT64 + 1 && forall s: uint64 :: !FirstIn(blocks, lo, hi, Some(s))
    ensures FirstIn(blocks, lo, hi, None)
  {
    if s: uint64 :| lo <= s <= hi && s in blocks {
      LeastIsFirst(blocks, lo, hi, s);
    }
  }

  lemma {:induction false} LeastIsFirst(blocks: set<uint64>, lo: int, hi: int, s: uint64)
    requires lo <= s <= hi && s in blocks
    ensures exists f: uint64 :: FirstIn(blocks, lo, hi, Some(f))
    decreases s - lo
  {
    if u: uint64 :| lo <= u < s && u in blocks {
      LeastIsFirst(blocks, lo, hi, u);
    } else {
      assert FirstIn(blocks, lo, hi, Some(s));
    }
  }

  lemma VisibleAhead(env: Env, from: uint64, to: uint64, simSlot: uint64)
    requires from <= simSlot < to
    ensures forall s: uint64 :: simSlot < s <= simSlot + (if env.mode == StrictKMinus1 then 1 else env.cap) ==>
      (s in PlanVisible(env, from, to) <==> env.era(s).Present?)
  {
    forall s: uint64 | simSlot < s <= simSlot + (if env.mode == StrictKMinus1 then 1 else env.cap)
      ensures s in PlanVisible(env, from, to) <==> env.era(s).Present?
    {
      assert In(SlotRange(LoadStart(from), SaturatingAdd(to, env.cap)), s);
    }
  }

  lemma SourcesVisible(blocks: set<uint64>, simSlot: uint64, mode: Mode, cap: uint64, evalSlot: uint64)
    ensures var sources := Sources(blocks, simSlot, mode, cap, evalSlot);
      forall i :: 0 <= i < |sources| ==> sources[i].slot in blocks
  {
    var sources := Sources(blocks, simSlot, mode, cap, evalSlot);
    hide Sources;
    SourcesArePromised(blocks, simSlot, mode, cap, evalSlot);
    forall i | 0 <= i < |sources|
      ensures sources[i].slot in blocks
    {
      assert HasSource(sources, sources[i].slot);
      ChosenAhead(blocks, simSlot, mode, cap, sources[i].slot);
    }
  }

  /** The sources of an entry. */
  lemma EntrySources(env: Env, from: uint64, to: uint64, simSlot: uint64)
    requires PlanAskable(env, from, to) && from <= simSlot < to
    ensures var sources := Sources(PlanVisible(env, from, to), simSlot, env.mode, env.cap, simSlot + 1);
      && SourcesOf(env, simSlot, sources)
      && IsSource(EraSlots(env.era), simSlot, env.mode, env.cap,
                  if sources == [] then None else Some(sources[0].slot))
      && (forall i :: 0 <= i < |sources| ==> sources[i].slot in PlanVisible(env, from, to))
  {
    var blocks := PlanVisible(env, from, to);
    var sources := Sources(blocks, simSlot, env.mode, env.cap, simSlot + 1);
    hide Sources, IsSource, PlanVisible, SourcesOk, EraSlots;
    VisibleAhead(env, from, to, simSlot);
    EraSources(env, blocks, simSlot, env.cap, simSlot + 1);
    SourceIsFirst(EraSlots(env.era), simSlot, env.mode, env.cap, simSlot + 1, sources);
    SourcesVisible(blocks, simSlot, env.mode, env.cap, simSlot + 1);
  }

  // ----- one entry

  /** The planner before entry `simSlot` follows the tour. */
  ghost predicate Follows(env: Env, from: uint64, to: uint64, p: Planning, simSlot: uint64) {
    && from <= simSlot <= to && Running(env, p, from, to, simSlot)
    && PlanVisible(env, from, to) <= p.st.visible
    && (var t := TourAt(env, from, simSlot);
        && TourOk(env, from, simSlot, t) && Tracks(env, Lost(env, from, simSlot), p.st, t)
        && (simSlot < to ==> DueWaits(env, p.pending, t, simSlot)))
  }

  /** The state before the walks of an entry. */
  ghost predicate Prepared(env: Env, from: uint64, to: uint64, simSlot: uint64, st: PlanState,
                           pending: map<uint64, seq<Block>>)
    requires from <= simSlot
  {
    && StateOk(env, st) && simSlot < to && PendingOk(env, st, pending, simSlot + 1, to)
    && PlanVisible(env, from, to) <= st.visible
    && Ready(env, from, simSlot, st, Entered(env, from, TourAt(env, from, simSlot), simSlot))
  }

  /** Canonical block, list and blocks due. */
  lemma EntryPrepares(env: Env, from: uint64, to: uint64, p: Planning, simSlot: uint64)
    returns (listed: Found, deferred: Found)
    requires World(env) && PlanAskable(env, from, to) && Follows(env, from, to, p, simSlot) && simSlot < to
    ensures var c := CanonicalImport(env, p.st, simSlot);
      && c.0 == (if env.era(simSlot).Present? then [BlockImport(simSlot, env.era(simSlot).block.root, true)] else [])
      && SlotOrphans(env, c.1, simSlot, from) == Some(listed)
    ensures deferred == ImportPending(listed.st, SortBlocks(PendingAt(p.pending, simSlot)), [])
    ensures Prepared(env, from, to, simSlot, deferred.st, Undeferred(p.pending, simSlot))
    ensures BySlotAndRoot(listed.blocks) && BySlotAndRoot(deferred.blocks)
    ensures forall b :: b in listed.blocks <==>
      TakenFromList(env, from, TourAt(env, from, simSlot), simSlot, b)
    ensures forall b :: b in deferred.blocks <==>
      IsBlock(env, b) && b.root in Due(env, TourAt(env, from, simSlot), simSlot)
  {
    hide World, PlanAskable, Tracks, TourOk, SlotOrphans, TourAt, Lost, PlanVisible, CanonicalImport, ImportPending,
      SortBlocks, PendingOk, EntryOk, TakenFromList, Due, Entered, DueWaits, Running, Undeferred, ValidEnv, StateOk;
    WorldIsValid(env);
    SlotInWindow(env, from, to, simSlot);
    var t := TourAt(env, from, simSlot);
    var (first, st1) := CanonicalImport(env, p.st, simSlot);
    CanonicalStep(env, p, from, to, simSlot, first, st1);
    CanonicalTracks(env, Lost(env, from, simSlot), p.st, t, simSlot);
    listed := ListedTracks(env, from, simSlot, st1, t);
    ListedPart(env, st1, p.pending, simSlot, from, to, listed);
    deferred := ImportPending(listed.st, SortBlocks(PendingAt(p.pending, simSlot)), []);
    DeferredStep(env, listed.st, p.pending, to, simSlot, deferred);
    RestWaits(env, listed.st, p.pending, to, simSlot, deferred.st);
    DueDeferred(env, from, to, p, st1, listed.st, t, simSlot, deferred);
    EnteredTracks(env, from, simSlot, st1, listed.st, deferred.st, t);
    EnteredOk(env, from, simSlot, t);
    assert Ready(env, from, simSlot, deferred.st, Entered(env, from, t, simSlot)) by {
      PassedSoFar(env, from, simSlot, t);
    }
    assert st1.visible <= listed.st.visible;
  }

  lemma SlotInWindow(env: Env, from: uint64, to: uint64, simSlot: uint64)
    requires PlanAskable(env, from, to) && from <= simSlot < to
    ensures !env.era(simSlot).Unreadable?
  {
  }

  lemma PassedSoFar(env: Env, from: uint64, simSlot: uint64, t: Tour)
    requires TourOk(env, from, simSlot, t)
    ensures forall x :: x in Entered(env, from, t, simSlot).passed ==>
      env.archive(x).Some? && env.archive(x).value.slot <= simSlot
  {
  }

  lemma DueDeferred(env: Env, from: uint64, to: uint64, p: Planning, st: PlanState, st': PlanState, t: Tour,
                    simSlot: uint64, deferred: Found)
    requires ValidEnv(env) && PendingOk(env, st', p.pending, simSlot, to) && DueWaits(env, p.pending, t, simSlot)
    requires Tracks(env, Lost(env, from, simSlot), st, t) && st'.scheduled == st.scheduled
    requires deferred.blocks == SortBlocks(PendingAt(p.pending, simSlot))
    requires forall r :: r in deferred.st.imported <==>
      r in st'.imported || exists b :: b in PendingAt(p.pending, simSlot) && b.root == r
    ensures BySlotAndRoot(deferred.blocks)
    ensures forall b :: b in deferred.blocks <==> IsBlock(env, b) && b.root in Due(env, t, simSlot)
    ensures forall r :: r in deferred.st.imported <==> r in st'.imported || r in Due(env, t, simSlot)
  {
    assert st'.scheduled <= t.passed;
    hide Tracks, SortBlocks, Orphan;
    DueBlocks(env, from, to, p, st', t, simSlot);
    SortKeepsMembers(PendingAt(p.pending, simSlot));
    forall r
      ensures r in Due(env, t, simSlot) <==> exists b :: b in PendingAt(p.pending, simSlot) && b.root == r
    {
      if r in Due(env, t, simSlot) {
        assert IsBlock(env, env.archive(r).value) && env.archive(r).value in deferred.blocks;
      }
    }
  }

  /** What holds after the walks of an entry. */
  ghost predicate EntryPlaced(env: Env, from: uint64, to: uint64, simSlot: uint64, st: PlanState, placed: Placing)
    requires from <= simSlot < to
  {
    var next: uint64 := simSlot + 1;
    && Tracks(env, Lost(env, from, next), placed.st, TourAt(env, from, next))
    && st.visible <= placed.st.visible
    && (next < to ==> DueWaits(env, placed.pending, TourAt(env, from, next), next))
    && BySlotAndRoot(placed.infos)
    && (forall b :: b in placed.infos <==> WalkedIn(env, from, simSlot, b))
  }

  lemma PreparedReady(env: Env, from: uint64, to: uint64, simSlot: uint64, st: PlanState,
                      pending: map<uint64, seq<Block>>)
    requires from <= simSlot && Prepared(env, from, to, simSlot, st, pending)
    ensures Ready(env, from, simSlot, st, Entered(env, from, TourAt(env, from, simSlot), simSlot))
    ensures PlanVisible(env, from, to) <= st.visible && StateOk(env, st)
    ensures simSlot < to && PendingOk(env, st, pending, simSlot + 1, to)
  {
  }

  lemma WalkingStarts(env: Env, from: uint64, to: uint64, simSlot: uint64, st: PlanState,
                      pending: map<uint64, seq<Block>>, t0: Tour, st': PlanState)
    requires simSlot < to && PendingOk(env, st, pending, simSlot + 1, to)
    requires Ready(env, from, simSlot, st, t0) && Tracks(env, Lost(env, from, simSlot + 1), st', t0)
    ensures Walking(env, from, to, simSlot, Placing([], pending, st'), t0, t0)
  {
    assert st.scheduled <= t0.passed;
    hide Tracks, TourOk, Lost, StateOk, DistinctRoots;
    var next: uint64 := simSlot + 1;
    NoneWaits(env, st, pending, t0, simSlot, to);
    assert Due(env, t0, next) == {};
    hide Due, PendingOk;
  }

  lemma NoneWaits(env: Env, st: PlanState, pending: map<uint64, seq<Block>>, t: Tour, simSlot: uint64, to: uint64)
    requires simSlot < to && PendingOk(env, st, pending, simSlot + 1, to) && st.scheduled <= t.passed
    requires forall x :: x in t.passed ==> env.archive(x).Some? && env.archive(x).value.slot <= simSlot
    ensures PendingAt(pending, simSlot + 1) == []
  {
    var next: uint64 := simSlot + 1;
    if next in pending {
      assert pending[next][0] in pending[next];
    }
  }

  lemma CollectedSorted(env: Env, from: uint64, simSlot: uint64, roots: set<Root>)
    requires forall r :: r in roots ==> VotedFor(env, from, simSlot, r)
    ensures SortedRoots(roots) == Only(SortedRoots(VotedRoots(env, from, simSlot)), roots)
  {
    hide VotedFor;
    OnlySorted(roots, VotedRoots(env, from, simSlot));
  }

  lemma NobodyVoted(env: Env, from: uint64, simSlot: uint64)
    requires env.mode != GreedyLookahead
    ensures SortedRoots(VotedRoots(env, from, simSlot)) == []
  {
    assert VotedRoots(env, from, simSlot) == {};
  }

  /** What the walks bring in is sorted, and nothing that was shown is forgotten. */
  lemma PlacedIn(env: Env, from: uint64, to: uint64, simSlot: uint64, st: PlanState, sources: seq<Source>,
                 pending: map<uint64, seq<Block>>, placed: Placing)
    requires ValidEnv(env) && from <= simSlot < to && StateOk(env, st) && PendingOk(env, st, pending, simSlot + 1, to)
    requires SourceImports(env, st, sources, simSlot, simSlot + 1, from, to, pending) == Some(placed)
    ensures st.visible <= placed.st.visible && DistinctRoots(placed.infos)
  {
    hide SourceImports;
    PlacedPart(env, st, sources, pending, simSlot, from, to, placed);
  }

  lemma SortedDistinct(blocks: seq<Block>)
    requires DistinctRoots(SortBlocks(blocks))
    ensures BySlotAndRoot(SortBlocks(blocks))
    ensures forall b :: b in SortBlocks(blocks) <==> b in blocks
  {
    SortKeepsMembers(blocks);
  }

  lemma GreedyPlaced(env: Env, from: uint64, to: uint64, simSlot: uint64, st: PlanState, t0: Tour, q: Placing,
                     placed: Placing)
    requires ValidEnv(env) && from <= simSlot < to
    requires t0 == Entered(env, from, TourAt(env, from, simSlot), simSlot)
    requires Walking(env, from, to, simSlot, q,
                     VisitAll(env, from, t0, simSlot, SortedRoots(VotedRoots(env, from, simSlot))), t0)
    requires placed == q.(infos := SortBlocks(q.infos)) && DistinctRoots(placed.infos)
    requires st.visible <= placed.st.visible
    ensures EntryPlaced(env, from, to, simSlot, st, placed)
  {
    hide VisitAll, VotedRoots, Tracks, TourOk, Entered, SortBlocks, TourAt, BySlotAndRoot, ValidEnv, Lost, Due;
    SortedDistinct(q.infos);
    NextTour(env, from, simSlot);
    var t: Tour := VisitAll(env, from, t0, simSlot, SortedRoots(VotedRoots(env, from, simSlot)));
    WaitsAfter(env, from, to, simSlot, q, t, t0);
    hide DueWaits;
  }

  lemma WaitsAfter(env: Env, from: uint64, to: uint64, simSlot: uint64, q: Placing, t: Tour, t0: Tour)
    requires ValidEnv(env) && simSlot < to && Walking(env, from, to, simSlot, q, t, t0)
    ensures simSlot + 1 < to ==> DueWaits(env, q.pending, t, simSlot + 1)
  {
    hide Tracks, TourOk;
    forall r | simSlot + 1 < to && r in Due(env, t, simSlot + 1)
      ensures env.archive(r).value in PendingAt(q.pending, simSlot + 1)
    {
      assert IsBlock(env, env.archive(r).value);
    }
  }

  lemma NextTour(env: Env, from: uint64, simSlot: uint64)
    requires from <= simSlot < MAX_UINT64
    ensures TourAt(env, from, simSlot + 1) ==
      VisitAll(env, from, Entered(env, from, TourAt(env, from, simSlot), simSlot), simSlot,
               SortedRoots(VotedRoots(env, from, simSlot)))
  {
    hide VisitAll, Entered, VotedRoots;
  }

  /** Where no votes are followed, an entry has no walks. */
  lemma IdlePlaced(env: Env, from: uint64, to: uint64, simSlot: uint64, st: PlanState,
                   pending: map<uint64, seq<Block>>)
    requires from <= simSlot < to && Prepared(env, from, to, simSlot, st, pending)
    requires env.mode != GreedyLookahead && SortedRoots(VotedRoots(env, from, simSlot)) == []
    ensures EntryClear(env, from, simSlot)
    ensures EntryPlaced(env, from, to, simSlot, st, Placing([], pending, st))
  {
    hide Tracks, VotedRoots, TourOk, Misplaced, PlanVisible;
    NextTour(env, from, simSlot);
    var t0 := Entered(env, from, TourAt(env, from, simSlot), simSlot);
    hide TourAt, Entered;
    assert TourAt(env, from, simSlot + 1) == t0;
    forall r
      ensures r in Lost(env, from, simSlot + 1) <==> r in Lost(env, from, simSlot) + LostAt(env, simSlot)
    {
      LostAfter(env, from, simSlot, r);
    }
    assert Lost(env, from, simSlot + 1) == Lost(env, from, simSlot) + LostAt(env, simSlot);
  }

  /** The walks of an entry succeed exactly when they are clear, and bring in what the tour does. */
  lemma WalksFollow(env: Env, from: uint64, to: uint64, simSlot: uint64, st: PlanState, sources: seq<Source>,
                    pending: map<uint64, seq<Block>>)
    requires World(env) && from <= simSlot < to && Prepared(env, from, to, simSlot, st, pending)
    requires SourcesOf(env, simSlot, sources)
    requires forall i :: 0 <= i < |sources| ==> sources[i].slot in PlanVisible(env, from, to)
    ensures var placed := SourceImports(env, st, sources, simSlot, simSlot + 1, from, to, pending);
      && (placed.Some? <==> EntryClear(env, from, simSlot))
      && (placed.Some? ==> EntryPlaced(env, from, to, simSlot, st, placed.value))
  {
    hide World, Prepared, SourcesOf, SourceRoots, PlaceRoots, SortBlocks, TourAt, Clear, EntryPlaced, Walking,
      VisitAll, VotedRoots, Tracks, Lost, VotedFor, Entered;
    WorldIsValid(env);
    PreparedReady(env, from, to, simSlot, st, pending);
    var t0 := Entered(env, from, TourAt(env, from, simSlot), simSlot);
    var list := SortedRoots(VotedRoots(env, from, simSlot));
    if env.mode == GreedyLookahead {
      assert SourcesShown(env, st, sources);
      var rs := SourcesTrack(env, from, simSlot, st, t0, sources);
      var start := Placing([], pending, rs.st);
      WalkingStarts(env, from, to, simSlot, st, pending, t0, rs.st);
      VotedRootsAre(env, from, simSlot);
      CollectedSorted(env, from, simSlot, rs.roots);
      RootsFollow(env, from, to, simSlot, start, t0, t0, list, rs.roots);
      var placed := SourceImports(env, st, sources, simSlot, simSlot + 1, from, to, pending);
      var q := PlaceRoots(env, start, Only(list, rs.roots), simSlot, simSlot + 1, from, to);
      if q.Some? {
        PlacedIn(env, from, to, simSlot, st, sources, pending, placed.value);
        assert placed.value == q.value.(infos := SortBlocks(q.value.infos));
        GreedyPlaced(env, from, to, simSlot, st, t0, q.value, placed.value);
      }
    } else {
      NobodyVoted(env, from, simSlot);
      IdlePlaced(env, from, to, simSlot, st, pending);
    }
  }

  /** One iteration: it fails exactly when a walk of the entry is blocked, and otherwise emits what the entry means. */
  lemma EntryFollows(env: Env, from: uint64, to: uint64, p: Planning, simSlot: uint64)
    requires World(env) && PlanAskable(env, from, to) && Follows(env, from, to, p, simSlot) && simSlot < to
    ensures var q := PlanSlot(env, p, PlanVisible(env, from, to), simSlot, from, to);
      && (q.Some? <==> EntryClear(env, from, simSlot))
      && (q.Some? ==>
            && Follows(env, from, to, q.value, simSlot + 1) && |q.value.out| == |p.out| + 1
            && q.value.out[..|p.out|] == p.out && EntryMeans(env, from, simSlot, q.value.out[|p.out|]))
  {
    hide World, PlanAskable, Follows, EntryClear, EntryMeans, SlotOrphans, SourceImports, CanonicalImport,
      ImportPending, PlanVisible, Sources, EntryPlaced, Prepared, SourcesOf, BySlotAndRoot, TakenFromList, WalkedIn,
      IsSource, TourAt, Due, IsBlock;
    FollowsWithin(env, from, to, p, simSlot);
    var listed, deferred := EntryPrepares(env, from, to, p, simSlot);
    var sources := Sources(PlanVisible(env, from, to), simSlot, env.mode, env.cap, simSlot + 1);
    EntrySources(env, from, to, simSlot);
    var pending := Undeferred(p.pending, simSlot);
    WalksFollow(env, from, to, simSlot, deferred.st, sources, pending);
    var placed := SourceImports(env, deferred.st, sources, simSlot, simSlot + 1, from, to, pending);
    var q := PlanSlot(env, p, PlanVisible(env, from, to), simSlot, from, to);
    assert q.Some? <==> placed.Some?;
    if placed.Some? {
      var c := CanonicalImport(env, p.st, simSlot);
      EntryIs(env, from, to, simSlot, c.0, listed, deferred, sources, placed.value, q.value.out[|p.out|]);
      FollowsNext(env, from, to, p, simSlot, q.value, deferred, placed.value);
    }
  }

  lemma EntryIs(env: Env, from: uint64, to: uint64, simSlot: uint64, first: seq<BlockImport>, listed: Found,
                deferred: Found, sources: seq<Source>, placed: Placing, e: PlanEntry)
    requires from <= simSlot < to && EntryPlaced(env, from, to, simSlot, deferred.st, placed)
    requires first == if env.era(simSlot).Present? then [BlockImport(simSlot, env.era(simSlot).block.root, true)]
      else []
    requires BySlotAndRoot(listed.blocks) && BySlotAndRoot(deferred.blocks)
    requires forall b :: b in listed.blocks <==>
      TakenFromList(env, from, TourAt(env, from, simSlot), simSlot, b)
    requires forall b :: b in deferred.blocks <==>
      IsBlock(env, b) && b.root in Due(env, TourAt(env, from, simSlot), simSlot)
    requires SourcesOf(env, simSlot, sources)
    requires IsSource(EraSlots(env.era), simSlot, env.mode, env.cap,
                      if sources == [] then None else Some(sources[0].slot))
    requires e == PlanEntry(simSlot, simSlot + 1,
                            first + OrphanImports(listed.blocks) + OrphanImports(deferred.blocks)
                            + OrphanImports(placed.infos),
                            sources, if sources == [] then None else Some(sources[0].slot))
    ensures EntryMeans(env, from, simSlot, e)
  {
    hide Tracks, Lost, DueWaits, BySlotAndRoot, TakenFromList, WalkedIn, IsSource, TourAt, Due, IsBlock, SourcesOk,
      EraSlots, OrphanImports;
    assert EntryParts(env, from, simSlot, listed.blocks, deferred.blocks, placed.infos, e.imports);
  }

  lemma FollowsNext(env: Env, from: uint64, to: uint64, p: Planning, simSlot: uint64, q: Planning, deferred: Found,
                    placed: Placing)
    requires World(env) && Follows(env, from, to, p, simSlot) && simSlot < to
    requires PlanSlot(env, p, PlanVisible(env, from, to), simSlot, from, to) == Some(q)
    requires q.st == placed.st && q.pending == placed.pending
    requires Prepared(env, from, to, simSlot, deferred.st, Undeferred(p.pending, simSlot))
    requires EntryPlaced(env, from, to, simSlot, deferred.st, placed)
    ensures Follows(env, from, to, q, simSlot + 1)
  {
    hide World, Running, PlanSlot, TourOk, Tracks, Lost, TourAt, DueWaits, PlanVisible, Entered;
    WorldIsValid(env);
    PlanSlotKeeps(env, p, PlanVisible(env, from, to), simSlot, from, to, q);
    TourAtOk(env, from, simSlot + 1);
    PreparedReady(env, from, to, simSlot, deferred.st, Undeferred(p.pending, simSlot));
  }

  // ----- the plan

  /** The entries of a plan from the index `lo` on are what they mean. */
  ghost predicate EntriesMean(env: Env, from: uint64, out: seq<PlanEntry>, lo: int)
    requires 0 <= lo && from + |out| <= MAX_UINT64
  {
    forall k :: lo <= k < |out| ==> EntryMeans(env, from, from + k, out[k])
  }

  lemma {:induction false} EntriesFollow(env: Env, from: uint64, to: uint64, p: Planning, simSlot: uint64)
    requires World(env) && PlanAskable(env, from, to) && Follows(env, from, to, p, simSlot)
    requires from <= simSlot <= to && |p.out| == simSlot - from
    ensures var q := PlanSlots(env, p, PlanVisible(env, from, to), simSlot, from, to);
      && (q.Some? <==> forall s: uint64 :: simSlot <= s < to ==> EntryClear(env, from, s))
      && (q.Some? ==>
            |q.value.out| == to - from && q.value.out[..|p.out|] == p.out
            && EntriesMean(env, from, q.value.out, |p.out|))
    decreases (to as int) - (simSlot as int)
  {
    hide World, PlanAskable, Follows, EntryClear, EntryMeans, PlanSlot, PlanVisible;
    if simSlot < to {
      EntryFollows(env, from, to, p, simSlot);
      var r := PlanSlot(env, p, PlanVisible(env, from, to), simSlot, from, to);
      if r.Some? {
        EntriesFollow(env, from, to, r.value, simSlot + 1);
        var q := PlanSlots(env, r.value, PlanVisible(env, from, to), simSlot + 1, from, to);
        if q.Some? {
          EntriesJoin(env, from, simSlot, p.out, r.value.out, q.value.out);
        }
      }
    }
  }

  lemma FollowsWithin(env: Env, from: uint64, to: uint64, p: Planning, simSlot: uint64)
    requires Follows(env, from, to, p, simSlot)
    ensures from <= simSlot <= to
  {
  }

  lemma EntriesJoin(env: Env, from: uint64, simSlot: uint64, a: seq<PlanEntry>, b: seq<PlanEntry>, c: seq<PlanEntry>)
    requires from <= simSlot < MAX_UINT64 && |a| == simSlot - from && |b| == |a| + 1 && b[..|a|] == a
    requires EntryMeans(env, from, simSlot, b[|a|])
    requires from + |c| <= MAX_UINT64 && |b| <= |c| && c[..|b|] == b && EntriesMean(env, from, c, |b|)
    ensures c[..|a|] == a && EntriesMean(env, from, c, |a|)
  {
    hide EntryMeans;
    assert c[|a|] == c[..|b|][|a|] == b[|a|];
    assert c[..|a|] == b[..|a|];
  }

  lemma PlanStartFollows(env: Env, from: uint64, to: uint64)
    requires World(env) && from <= to
    ensures Follows(env, from, to, PlanStart(env, from, to), from)
  {
    WorldIsValid(env);
    StartRuns(env, from, to);
    StartOk(env, from);
    var p := PlanStart(env, from, to);
    assert TourAt(env, from, from) == Tour(env.checkpoints, {}, {});
    StartTracks(env, from, to);
    hide Running, TourOk, Tracks, Lost, PlanVisible;
  }

  lemma StartTracks(env: Env, from: uint64, to: uint64)
    requires World(env) && from <= to
    ensures Tracks(env, Lost(env, from, from), PlanStart(env, from, to).st, Tour(env.checkpoints, {}, {}))
  {
    WorldIsValid(env);
    var st := PlanStart(env, from, to).st;
    forall s: uint64, r: Root
      ensures r in OrphansAt(st, s) <==> r in ListedAt(env.preload, s)
    {
      ClonedList(env, st.visible, st.imported, s, r);
    }
    assert Lost(env, from, from) == iset{};
  }

  lemma ClonedList(env: Env, visible: set<uint64>, imported: set<Root>, s: uint64, r: Root)
    ensures r in OrphansAt(StartState(env, visible, imported), s) <==> r in ListedAt(env.preload, s)
  {
    if s in env.preload {
      SameMembers(SortRootList(env.preload[s]), env.preload[s]);
    }
  }

  lemma PlanAsked(env: Env, from: uint64, to: uint64)
    ensures PlanAskable(env, from, to) <==>
      !PlanRejected(env, from, to) && Readable(env.era, LoadStart(from), SaturatingAdd(to, env.cap))
  {
    if PlanAskable(env, from, to) {
      forall s: uint64 | LoadStart(from) <= s <= SaturatingAdd(to, env.cap)
        ensures !env.era(s).Unreadable?
      {
      }
    }
    if !PlanRejected(env, from, to) && Readable(env.era, LoadStart(from), SaturatingAdd(to, env.cap)) {
      forall s: uint64 | from - 1 <= s <= to + env.cap
        ensures !env.era(s).Unreadable?
      {
      }
    }
  }

  /** Era files, archive, index and configuration fix the plan in every mode: whether there is one, and of every entry
      the two slots, the sources and the imports with their order. */
  lemma PlanIsMeant(env: Env, from: uint64, to: uint64)
    requires World(env)
    ensures PlanMeans(env, from, to, match BuildPlan(env, from, to) case None => None case Some(p) => Some(p.out))
  {
    hide World, PlanAskable, PlanRejected, Readable, PlanSlots, PlanVisible, EntryClear, EntryMeans, Follows;
    PlanAsked(env, from, to);
    if PlanAskable(env, from, to) {
      assert from <= to by { AskedOrdered(env, from, to); }
      PlanStartFollows(env, from, to);
      EntriesFollow(env, from, to, PlanStart(env, from, to), from);
    }
  }

  lemma AskedOrdered(env: Env, from: uint64, to: uint64)
    requires PlanAskable(env, from, to)
    ensures from <= to
  {
  }

  // ----- only one plan

  lemma OneEntryImports(env: Env, from: uint64, simSlot: uint64, a: seq<BlockImport>, b: seq<BlockImport>)
    requires from <= simSlot < MAX_UINT64
    requires EntryImports(env, from, simSlot, a) && EntryImports(env, from, simSlot, b)
    ensures a == b
  {
    hide BySlotAndRoot, TakenFromList, WalkedIn, IsBlock, Due, TourAt, OrphanImports;
    var l, d, w :| EntryParts(env, from, simSlot, l, d, w, a);
    var m, e, x :| EntryParts(env, from, simSlot, m, e, x, b);
    OneBlockList(l, m);
    OneBlockList(d, e);
    OneBlockList(w, x);
  }

  lemma OneEntry(env: Env, from: uint64, simSlot: uint64, a: PlanEntry, b: PlanEntry)
    requires from <= simSlot < MAX_UINT64
    requires EntryMeans(env, from, simSlot, a) && EntryMeans(env, from, simSlot, b)
    ensures a == b
  {
    hide EntryImports, SourcesOk, IsSource, EraSlots;
    OneEntryImports(env, from, simSlot, a.imports, b.imports);
    PromisedSourcesUnique(EraSlots(env.era), simSlot, env.mode, env.cap, simSlot + 1, a.sources, b.sources);
    SourceUnique(EraSlots(env.era), simSlot, env.mode, env.cap, a.sourceBlockSlot, b.sourceBlockSlot);
  }

  /** The meaning leaves one plan. */
  lemma MeaningUnique(env: Env, from: uint64, to: uint64, a: Option<seq<PlanEntry>>, b: Option<seq<PlanEntry>>)
    requires PlanMeans(env, from, to, a) && PlanMeans(env, from, to, b)
    ensures a == b
  {
    hide EntryMeans, PlanAskable, WalkBlocked;
    if a.Some? {
      forall k | 0 <= k < |a.value|
        ensures a.value[k] == b.value[k]
      {
        OneEntry(env, from, from + k, a.value[k], b.value[k]);
      }
      assert a.value == b.value;
    }
  }

  /** No more walks were cut than the planner counts. */
  lemma CutsCounted(env: Env, from: uint64, to: uint64, p: Planning)
    requires World(env) && BuildPlan(env, from, to) == Some(p)
    ensures from <= to && |TourAt(env, from, to).cut| <= p.st.truncations
  {
    hide World, PlanAskable, PlanRejected, Readable, PlanSlots, PlanVisible, EntryClear, Follows;
    PlanAsked(env, from, to);
    AskedOrdered(env, from, to);
    PlanStartFollows(env, from, to);
    FollowsToTheEnd(env, from, to, PlanStart(env, from, to), from, p);
    FollowedCuts(env, from, to, p);
  }

  lemma FollowedCuts(env: Env, from: uint64, to: uint64, p: Planning)
    requires Follows(env, from, to, p, to)
    ensures |TourAt(env, from, to).cut| <= p.st.truncations
  {
    hide Running, TourOk, ListsTrack, StateOk, Lost, TourAt;
  }

  lemma {:induction false} FollowsToTheEnd(env: Env, from: uint64, to: uint64, p: Planning, simSlot: uint64,
                                           q: Planning)
    requires World(env) && PlanAskable(env, from, to) && Follows(env, from, to, p, simSlot)
    requires from <= simSlot <= to && PlanSlots(env, p, PlanVisible(env, from, to), simSlot, from, to) == Some(q)
    ensures Follows(env, from, to, q, to)
    decreases (to as int) - (simSlot as int)
  {
    hide World, PlanAskable, Follows, EntryClear, EntryMeans, PlanSlot, PlanVisible;
    if simSlot < to {
      EntryFollows(env, from, to, p, simSlot);
      var r := PlanSlot(env, p, PlanVisible(env, from, to), simSlot, from, to).value;
      FollowsToTheEnd(env, from, to, r, simSlot + 1, q);
    }
  }
}
