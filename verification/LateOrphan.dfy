/** An input on which serving from the warmed cache loses an orphan. */
module LateOrphan {
  import opened Core
  import opened SlotRanges
  import opened Blocks
  import opened CanonicalIndex
  import opened Sorting
  import opened Sorts
  import opened AttPlan
  import opened PlanSpec
  import opened OrphanChains
  import opened PlanSteps
  import opened WarmCache
  import opened WarmPass
  import opened CacheExact
  import opened WarmRanges

  const CHECKPOINT: Root := 50

  /** The canonical block of slot 7 holds a vote of slot 6 for the orphan `FIRST_ORPHAN` of slot 6, which holds a vote
      of slot 5 for the orphan `SECOND_ORPHAN` of slot 5. */
  const SOURCE_BLOCK := Block(6, 100, CHECKPOINT, [])
  const CANONICAL_BLOCK := Block(7, 101, 100, [Attestation(1, 6, 200, ZERO_ROOT, [])])
  const FIRST_ORPHAN := Block(6, 200, CHECKPOINT, [Attestation(2, 5, 300, ZERO_ROOT, [])])
  const SECOND_ORPHAN := Block(5, 300, CHECKPOINT, [])

  ghost function LateEnv(): Env {
    Env(s => if s == 6 then Present(SOURCE_BLOCK) else if s == 7 then Present(CANONICAL_BLOCK) else Missed,
        r => if r == 200 then Some(FIRST_ORPHAN) else if r == 300 then Some(SECOND_ORPHAN) else None,
        {CHECKPOINT}, map[], None, StrictKMinus1, 1)
  }

  /** The pass over [4, 8) walks only from `FIRST_ORPHAN`: nobody looks at the votes of `FIRST_ORPHAN` itself. */
  ghost function LateResult(): WarmResult {
    WarmResult({200}, map[], map[6 := [200]], {6, 7})
  }

  ghost function LateTotal(): WarmTotal {
    WarmTotal({200}, [LateResult()], map[6 := [200]])
  }

  lemma LateWorld()
    ensures World(LateEnv())
  {
  }

  lemma BothShown()
    ensures PresentIn(LateEnv().era, Window(4, 9)) == {6, 7}
  {
    assert In(SlotRange(4, 9), 6) && In(SlotRange(4, 9), 7);
  }

  lemma SourceShown()
    ensures PresentIn(LateEnv().era, Window(4, 6)) == {6}
  {
    assert In(SlotRange(4, 6), 6);
  }

  lemma OneRoot(r: Root)
    ensures SortedRoots({r}) == [r]
  {
    AscendingUnique(SortedRoots({r}), [r], RootBefore);
  }

  lemma OnlyFirstVoted(st: PlanState)
    requires st == PassStart(LateEnv(), 4, 8)
    ensures ShownRoots(LateEnv(), st) == {200}
  {
    BothShown();
    var att := CANONICAL_BLOCK.attestations[0];
    assert ShownVotes(LateEnv(), st, 6) == {};
    assert ShownVotes(LateEnv(), st, 7) == FreshRoots(LateEnv(), st, [att], None);
    assert att in [att];
    assert Fresh(LateEnv(), st, 200);
    assert 200 in ShownVotes(LateEnv(), st, 7);
    assert 7 in st.visible;
  }

  lemma FirstClimbs(st: PlanState)
    requires st == PassStart(LateEnv(), 4, 8)
    ensures Climbs(LateEnv(), st, 200, {}, 9)
    ensures StateAfter(LateEnv(), st, 200, {}, 9) == st.(fetched := {200}, orphans := map[6 := [200]])
  {
    BothShown();
    assert !RootShown(LateEnv().era, st.visible, 200);
    var fetched := st.(fetched := st.fetched + {200});
    assert 6 in st.visible && ShownAt(LateEnv().era, st.visible, 6) == Some(SOURCE_BLOCK);
    assert Judge(LateEnv(), fetched, FIRST_ORPHAN) == Some(Verdict(false, fetched));
    assert st.fetched + {200} == {200};
    var none: seq<Root> := [];
    assert none + [200] == [200];
    assert AppendOrphan(map[], 6, 200) == map[][6 := none + [200]];
  }

  lemma FirstResolves(st: PlanState)
    requires st == PassStart(LateEnv(), 4, 8)
    ensures ResolveChain(LateEnv(), st, 200, 9)
      == Some(Found(Reversed([FIRST_ORPHAN]), st.(fetched := {200}, orphans := map[6 := [200]])))
  {
    FirstClimbs(st);
    var next := StateAfter(LateEnv(), st, 200, {}, 9);
    assert RootKnown(LateEnv(), next, CHECKPOINT);
    assert [] + [FIRST_ORPHAN] == [FIRST_ORPHAN];
    assert WalkUp(LateEnv(), next, CHECKPOINT, {} + {200}, [FIRST_ORPHAN], 9, MAX_ORPHAN_WALK - 1)
      == Some(Walk([FIRST_ORPHAN], false, next));
  }

  lemma LatePass()
    ensures PassResult(LateEnv(), 4, 8) == Some(LateResult())
  {
    hide ResolveChain, SortedRoots, ShownRoots;
    var st := PassStart(LateEnv(), 4, 8);
    OnlyFirstVoted(st);
    OneRoot(200);
    FirstResolves(st);
    BothShown();
  }

  lemma LateWarmed()
    ensures Warmed(LateEnv(), 4, 8, LateResult())
  {
    BothShown();
    var att := CANONICAL_BLOCK.attestations[0];
    assert Cached(LateEnv(), {200}, CHECKPOINT, {200}, 9, MAX_ORPHAN_WALK - 1);
    assert {} + {200} == {200};
    assert Cached(LateEnv(), {200}, 200, {}, 9, MAX_ORPHAN_WALK);
    assert Cached(LateEnv(), {200}, ZERO_ROOT, {}, 9, MAX_ORPHAN_WALK);
    assert RootsWarmed(LateEnv(), {200}, [att], 9);
  }

  lemma LateDone(catalog: Catalog)
    ensures TotalWarmed(LateEnv(), catalog, [(4, 8)], LateTotal())
  {
    hide Warmed, PassWalked, Readable;
    LatePass();
    LateWarmed();
    var t := LateTotal();
    assert t.passes[..0] == [];
    forall s
      ensures ListedAt(t.orphans, s) == MergedAt(t.passes, s)
    {
      assert MergedAt([], s) == [];
      assert MergedAt(t.passes, s) == AppendAll([], ListedAt(LateResult().orphans, s));
      OneAppended(200);
    }
    forall r
      ensures r in t.cache <==> exists k :: 0 <= k < |t.passes| && r in t.passes[k].cache
    {
      assert t.passes[0].cache == {200};
    }
  }

  lemma OneAppended(r: Root)
    requires r != ZERO_ROOT
    ensures AppendAll([], [r]) == [r]
  {
    assert [r][..0] == [];
    assert AppendAll([], []) == [];
    assert [] + [r] == [r];
  }

  // ----- the server at slot 5

  ghost function Served(): Env {
    ServingEnv(LateEnv(), LateTotal())
  }

  lemma OneSorted(r: Root)
    ensures SortRootList([r]) == [r]
  {
    SortedListing([r], {r});
    OneRoot(r);
  }

  ghost function LateStart(): PlanState {
    PlanState({6}, {CHECKPOINT}, {}, {}, {}, {}, map[6 := [200]], 0)
  }

  lemma StartsAt5()
    ensures SlotStart(Served(), 5, 3) == LateStart() && Readable(Served().era, 4, 6)
  {
    OneSorted(200);
    SourceShown();
    var one: map<uint64, seq<Root>> := map[6 := [200]];
    assert ClonedOrphans(one) == one;
  }

  lemma NothingListed()
    ensures CanonicalImport(Served(), LateStart(), 5) == ([], LateStart())
    ensures SlotOrphans(Served(), LateStart(), 5, 4) == Some(Found([], LateStart()))
  {
    assert OrphansAt(LateStart(), 5) == [];
    OneBlockSorted([]);
  }

  lemma OneBlockSorted(infos: seq<Block>)
    requires |infos| <= 1
    ensures SortBlocks(infos) == infos
  {
    SortKeepsMembers(infos);
    if infos != [] {
      assert SortBlocks(infos)[0] in infos;
    }
  }

  ghost function AfterSource(): PlanState {
    LateStart().(fetched := {200})
  }

  lemma FirstJudged()
    ensures Judge(Served(), AfterSource(), FIRST_ORPHAN) == Some(Verdict(false, AfterSource()))
    ensures Served().archive(200) == Some(FIRST_ORPHAN)
  {
  }

  lemma FirstGathered()
    ensures GatherOrphans(Served(), LateStart(), 6, [200], {}, []) == Some(Found([FIRST_ORPHAN], AfterSource()))
  {
    hide Judge, Served;
    FirstJudged();
    var st := LateStart();
    assert st.(fetched := st.fetched + {200}) == AfterSource();
    assert [200][1..] == [] && [] + [FIRST_ORPHAN] == [FIRST_ORPHAN];
    assert GatherOrphans(Served(), AfterSource(), 6, [], {} + {200}, [FIRST_ORPHAN])
      == Some(Found([FIRST_ORPHAN], AfterSource()));
  }

  lemma SourceShows()
    ensures SourceInfos(Served(), LateStart(), 6) == Some(Found([SOURCE_BLOCK, FIRST_ORPHAN], AfterSource()))
  {
    hide GatherOrphans;
    FirstGathered();
    OneBlockSorted([FIRST_ORPHAN]);
    assert ShownAt(Served().era, AfterSource().visible, 6) == Some(SOURCE_BLOCK);
    assert [SOURCE_BLOCK] + [FIRST_ORPHAN] == [SOURCE_BLOCK, FIRST_ORPHAN];
  }

  lemma VotesSeen() returns (v: Votes)
    ensures SlotVotes(Served(), LateStart(), 5) == Some(v) && v.st == AfterSource()
    ensures FIRST_ORPHAN.attestations[0] in v.attestations
  {
    hide SourceInfos, Dedup;
    var window := LateStart().visible * Window(6, 6);
    assert In(SlotRange(6, 6), 6) && 6 in window;
    assert SaturatingAdd(5, 1) == 6 && SlotLoadEnd(Served(), 5) == 6;
    var sources := Sources(window, 5, StrictKMinus1, 1, 6);
    assert sources == [Source(6, None)];
    SourceShows();
    var infos := [SOURCE_BLOCK, FIRST_ORPHAN];
    var atts := Attestations(infos);
    AttestationsExact(infos);
    var next := Dedup(atts, None, {}, []);
    VotesKept();
    v := Votes(next.0, AfterSource());
    assert sources[1..] == [];
    assert SourceVotes(Served(), AfterSource(), [], next.1, next.0) == Some(v);
    assert SourceVotes(Served(), LateStart(), sources, {}, []) == Some(v);
  }

  lemma VotesKept()
    ensures FIRST_ORPHAN.attestations[0] in Dedup(Attestations([SOURCE_BLOCK, FIRST_ORPHAN]), None, {}, []).0
  {
    var b := FIRST_ORPHAN.attestations[0];
    assert [SOURCE_BLOCK, FIRST_ORPHAN][1..] == [FIRST_ORPHAN] && [FIRST_ORPHAN][1..] == [];
    assert Attestations([FIRST_ORPHAN]) == [b] + Attestations([]) == [b];
    assert Attestations([SOURCE_BLOCK, FIRST_ORPHAN]) == [] + [b] == [b];
    assert [b][1..] == [];
    assert Dedup([b], None, {}, []) == ([] + [b], {} + {2});
  }

  lemma SecondIsVoted()
    ensures VoteStage(Served(), 5, 3).Some? && VotesLegible(Served(), 5, 3)
    ensures var v := VoteStage(Served(), 5, 3).value;
      && v.st.imported == {CHECKPOINT}
      && InGrove(Served(), v.st.imported, FreshRoots(Served(), v.st, v.attestations, None), 5, 4, SECOND_ORPHAN)
  {
    hide SlotVotes, SlotOrphans, SlotStart, CanonicalImport, Readable;
    StartsAt5();
    NothingListed();
    var v := VotesSeen();
    assert VoteStage(Served(), 5, 3) == Some(v);
    var roots := FreshRoots(Served(), v.st, v.attestations, None);
    assert Fresh(Served(), v.st, 300);
    assert 300 in roots;
    assert Brings(Served(), v.st.imported, 300, 5, SECOND_ORPHAN);
    AllReadable();
  }

  lemma AllReadable()
    ensures VotesLegible(Served(), 5, 3)
  {
    hide VoteStage, FreshRoots, Ancestry;
    assert forall s: uint64 :: !Served().era(s).Unreadable?;
  }

  /** StrictKMinus1 with range [4, 8): the run over all ranges succeeds with exactly this result, all blocks obey the
      rules and all era files can be read, and yet at slot 5 the server on the archive imports `SECOND_ORPHAN` and the
      server on the cache does not. */
  lemma LateOrphanIsLost(catalog: Catalog)
    ensures World(LateEnv()) && TotalWarmed(LateEnv(), catalog, [(4, 8)], LateTotal())
    ensures PassResult(LateEnv(), 4, 8) == Some(LateResult())
    ensures var served := ServingEnv(LateEnv(), LateTotal());
      var online, cached := BuildSlot(served, 5, 3), BuildSlot(CacheEnv(served, LateTotal().cache), 5, 3);
      && online.Some? && cached.Some?
      && BlockImport(5, SECOND_ORPHAN.root, false) in online.value.imports
      && BlockImport(5, SECOND_ORPHAN.root, false) !in cached.value.imports
  {
    hide BuildSlot, CacheEnv, InGrove, World, TotalWarmed, PassResult, ServingEnv, VoteStage, FreshRoots, VotesFail,
      Legible;
    LateWorld();
    LatePass();
    LateDone(catalog);
    SecondIsVoted();
    ServingWorld(LateEnv(), LateTotal());
    IndexServed(LateEnv(), catalog, [(4, 8)], LateTotal(), {200});
    var v := VoteStage(Served(), 5, 3).value;
    SameCheckpoints();
    WorldIsValid(Served());
    LegibleNeverFails(Served(), {200}, v.st.imported, FreshRoots(Served(), v.st, v.attestations, None), 5);
    UncachedIsLost(Served(), {200}, 5, 3, SECOND_ORPHAN);
  }

  lemma SameCheckpoints()
    ensures Served().checkpoints == {CHECKPOINT}
  {
  }
}
