/** What a slot's instruction is, said of the era files, the archive and the configuration alone. */
module SlotMeaning {
  import opened Core
  import opened SlotRanges
  import opened Blocks
  import opened CanonicalIndex
  import opened Sorting
  import opened Sorts
  import opened AttPlan
  import opened PlanSpec
  import opened OrphanChains
  import opened PlanSteps
  import opened SlotRuns
  import opened WarmCache
  import opened CacheExact
  import opened SourceAgreement
  import opened ListedOrphans
  import opened VoteOrder

  /** How far past the slot a mode looks. */
  function Lookahead(env: Env): uint64 {
    match env.mode
    case FirstSeenGossip => 0
    case StrictKMinus1 => 1
    case _ => env.cap
  }

  /** The configuration and the era files of the window allow an answer. */
  ghost predicate Askable(env: Env, simSlot: uint64, warmupStart: uint64) {
    && warmupStart < simSlot
    && (env.mode == NextNonMissed || env.mode == GreedyLookahead ==> 1 <= env.cap)
    && (env.mode == FirstSeenGossip ==> env.firstSeen.Some? && env.firstSeen.value(simSlot).Some?)
    && (forall s: uint64 :: warmupStart < s <= simSlot + Lookahead(env) ==> !env.era(s).Unreadable?)
  }

  // ----- the votes

  /** An orphan that the index lists at the source slot, and neither at the slot itself nor at an earlier source. */
  ghost predicate ListedAtSource(env: Env, simSlot: uint64, s: uint64, r: Root) {
    && r in ListedAt(env.preload, s) && OrphanAt(env, s, r) && r !in ListedAt(env.preload, simSlot)
    && (forall t: uint64 :: SourceSlot(env, simSlot, t) && t < s ==> r !in ListedAt(env.preload, t))
  }

  ghost predicate BlockAtSource(env: Env, simSlot: uint64, s: uint64, b: Block) {
    env.era(s) == Present(b) || (env.archive(b.root) == Some(b) && ListedAtSource(env, simSlot, s, b.root))
  }

  ghost predicate HeldAt(env: Env, simSlot: uint64, s: uint64, att: Attestation) {
    exists b :: BlockAtSource(env, simSlot, s, b) && att in b.attestations
  }

  /** A block at a source slot holds this vote, and in greedy mode the vote is not for a slot after the next one. */
  ghost predicate Held(env: Env, simSlot: uint64, att: Attestation) {
    && (env.mode == GreedyLookahead ==> att.slot <= simSlot + 1)
    && (exists s :: SourceSlot(env, simSlot, s) && HeldAt(env, simSlot, s, att))
  }

  /** The blocks at the sources, slot after slot, at each slot the canonical one first and the orphans by root. */
  ghost predicate ShownInOrder(env: Env, simSlot: uint64, shown: seq<Block>) {
    && SourceOrder(env, shown)
    && (forall b :: b in shown <==> SourceSlot(env, simSlot, b.slot) && BlockAtSource(env, simSlot, b.slot, b))
  }

  /** Of the votes of these blocks, in their order, each root's first within the bound. */
  ghost predicate ServedInOrder(env: Env, simSlot: uint64, votes: seq<Attestation>) {
    exists shown :: ShownInOrder(env, simSlot, shown)
      && votes == FirstCasts(AllVotes(shown), VoteBound(env.mode, SaturatingAdd(simSlot, 1)))
  }

  /** The votes of a slot: the first-seen ones as they are, or those of the source blocks, each root once. */
  ghost predicate VotesMean(env: Env, simSlot: uint64, votes: seq<Attestation>) {
    if env.mode == FirstSeenGossip then env.firstSeen.Some? && env.firstSeen.value(simSlot) == Some(votes)
    else
      && (forall i, j :: 0 <= i < j < |votes| ==> votes[i].root != votes[j].root)
      && (forall v :: v in votes ==> Held(env, simSlot, v))
      && (forall att :: Held(env, simSlot, att) ==> exists v :: v in votes && v.root == att.root)
      && ServedInOrder(env, simSlot, votes)
  }

  // ----- the imports

  /** What is imported before the votes are looked at. */
  ghost function KnownAt(env: Env, simSlot: uint64): set<Root> {
    env.checkpoints + (if env.era(simSlot).Present? then {env.era(simSlot).block.root} else {})
    + (set r | r in ListedAt(env.preload, simSlot) && OrphanAt(env, simSlot, r))
  }

  /** The index lists the root at the slot or at one of its sources. */
  ghost predicate LookedUp(env: Env, simSlot: uint64, r: Root) {
    r in ListedAt(env.preload, simSlot) || exists s :: SourceSlot(env, simSlot, s) && r in ListedAt(env.preload, s)
  }

  /** The roots from which walks start: those that the votes name, without the ones listed where the planner looked. */
  ghost function WalkedRoots(env: Env, simSlot: uint64, votes: seq<Attestation>): set<Root> {
    set att, r | att in votes && r in {att.targetRoot, att.beaconBlockRoot} && r != ZERO_ROOT
      && !LookedUp(env, simSlot, r) :: r
  }

  /** An orphan that the index lists at the slot and that the engine does not have as a checkpoint. */
  ghost predicate NewListed(env: Env, simSlot: uint64, b: Block) {
    && Orphan(env, b) && b.slot == simSlot
    && b.root in ListedAt(env.preload, simSlot) && b.root !in env.checkpoints
  }

  /** The canonical block, then the orphans listed at the slot, then the blocks on the walks, each part in order. */
  ghost predicate ImportsMean(env: Env, simSlot: uint64, minSlot: uint64, votes: seq<Attestation>,
                              imports: seq<BlockImport>)
  {
    exists listed, voted :: PartsMean(env, simSlot, minSlot, votes, listed, voted, imports)
  }

  ghost predicate PartsMean(env: Env, simSlot: uint64, minSlot: uint64, votes: seq<Attestation>, listed: seq<Block>,
                            voted: seq<Block>, imports: seq<BlockImport>)
  {
    && imports == (if env.era(simSlot).Present? then [BlockImport(simSlot, env.era(simSlot).block.root, true)] else [])
         + OrphanImports(listed) + OrphanImports(voted)
    && BySlotAndRoot(listed) && BySlotAndRoot(voted)
    && (forall b :: b in listed <==> NewListed(env, simSlot, b))
    && (forall b :: b in voted <==>
          InGrove(env, KnownAt(env, simSlot), WalkedRoots(env, simSlot, votes), simSlot, minSlot, b))
  }

  /** What BuildSlot answers: an error exactly when the question is not allowed or one of the walks meets a slot that
      cannot be read, and otherwise these slots, votes and imports. */
  ghost predicate SlotMeans(env: Env, simSlot: uint64, warmupStart: uint64, r: Option<SlotInstruction>) {
    if !Askable(env, simSlot, warmupStart) then r.None?
    else exists votes :: AnswerMeans(env, simSlot, warmupStart, votes, r)
  }

  ghost predicate AnswerMeans(env: Env, simSlot: uint64, warmupStart: uint64, votes: seq<Attestation>,
                              r: Option<SlotInstruction>)
    requires warmupStart < simSlot
  {
    && VotesMean(env, simSlot, votes)
    && (r.None? <==> VotesFail(env, KnownAt(env, simSlot), WalkedRoots(env, simSlot, votes), simSlot))
    && (r.Some? ==>
          && r.value.simSlot == simSlot
          && r.value.evalSlot == (if simSlot == MAX_UINT64 then MAX_UINT64 else simSlot + 1)
          && r.value.attestations == votes
          && ImportsMean(env, simSlot, warmupStart + 1, votes, r.value.imports))
  }

  // ----- the state before the votes

  /** The state after the listed orphans. */
  ghost predicate Opened(env: Env, simSlot: uint64, st: PlanState) {
    && StateOk(env, st) && st.imported == KnownAt(env, simSlot) && st.scheduled == {}
    && (forall s: uint64, r: Root :: r in OrphansAt(st, s) <==> r in ListedAt(env.preload, s))
    && (forall r :: r in st.ignored ==>
          Shut(env, r) || (r in ListedAt(env.preload, simSlot) && Elsewhere(env, simSlot, r)))
    && (forall r :: r in ListedAt(env.preload, simSlot) && Elsewhere(env, simSlot, r) ==> r in st.ignored)
    && (forall s: uint64 :: simSlot < s <= simSlot + Lookahead(env) ==> (s in st.visible <==> env.era(s).Present?))
  }

  lemma ClonedAt(env: Env, visible: set<uint64>, imported: set<Root>, s: uint64, r: Root)
    ensures r in OrphansAt(StartState(env, visible, imported), s) <==> r in ListedAt(env.preload, s)
  {
    if s in env.preload {
      SameMembers(SortRootList(env.preload[s]), env.preload[s]);
    }
  }

  /** The state after the canonical block. */
  ghost predicate Started(env: Env, simSlot: uint64, st: PlanState) {
    && StateOk(env, st) && st.scheduled == {} && st.ignored == {}
    && st.imported == env.checkpoints + (if env.era(simSlot).Present? then {env.era(simSlot).block.root} else {})
    && (forall s: uint64, r: Root :: r in OrphansAt(st, s) <==> r in ListedAt(env.preload, s))
    && (forall s: uint64 :: simSlot < s <= simSlot + Lookahead(env) ==> (s in st.visible <==> env.era(s).Present?))
  }

  lemma SlotStarts(env: Env, simSlot: uint64, warmupStart: uint64)
    requires ValidEnv(env) && Askable(env, simSlot, warmupStart)
    ensures !SlotRejected(env, simSlot, warmupStart)
    ensures Readable(env.era, warmupStart + 1, SlotLoadEnd(env, simSlot))
    ensures var c := CanonicalImport(env, SlotStart(env, simSlot, warmupStart), simSlot);
      && Started(env, simSlot, c.1)
      && c.0 == if env.era(simSlot).Present? then [BlockImport(simSlot, env.era(simSlot).block.root, true)] else []
  {
    var st := SlotStart(env, simSlot, warmupStart);
    var c := CanonicalImport(env, st, simSlot);
    FirstShown(env, simSlot, warmupStart, c.0, c.1);
    forall s: uint64, r: Root
      ensures r in OrphansAt(st, s) <==> r in ListedAt(env.preload, s)
    {
      ClonedAt(env, st.visible, st.imported, s, r);
    }
    forall s: uint64 | warmupStart < s <= simSlot + Lookahead(env)
      ensures s in st.visible <==> env.era(s).Present?
    {
      assert In(SlotRange(warmupStart + 1, SlotLoadEnd(env, simSlot)), s);
    }
    assert env.era(simSlot).Present? ==> simSlot in st.visible;
  }

  lemma SlotOpens(env: Env, simSlot: uint64, minSlot: uint64, st: PlanState) returns (listed: Found)
    requires ValidEnv(env) && Started(env, simSlot, st) && minSlot <= simSlot && !env.era(simSlot).Unreadable?
    ensures SlotOrphans(env, st, simSlot, minSlot) == Some(listed) && Opened(env, simSlot, listed.st)
    ensures Ascends(listed.blocks, BlockBefore)
    ensures forall b :: b in listed.blocks <==> NewListed(env, simSlot, b)
  {
    hide SlotOrphans, Elsewhere;
    listed := SlotOrphansExact(env, st, simSlot, minSlot);
    forall r
      ensures r in listed.st.imported <==> r in KnownAt(env, simSlot)
    {
      if r in ListedAt(env.preload, simSlot) && OrphanAt(env, simSlot, r) {
        assert ListedHere(env, st, simSlot, env.archive(r).value);
      }
    }
  }

  // ----- the votes read from the sources

  lemma ListedAlike(env: Env, simSlot: uint64, st: PlanState, sources: seq<Source>, i: nat, r: Root)
    requires ValidEnv(env) && Opened(env, simSlot, st) && i < |sources|
    requires SourcesOk(EraSlots(env.era), simSlot, env.mode, env.cap, SaturatingAdd(simSlot, 1), sources)
    ensures ProperlyListed(env, st, sources, i, r) <==> ListedAtSource(env, simSlot, sources[i].slot, r)
  {
    var s := sources[i].slot;
    assert HasSource(sources, s);
    assert SourceSlot(env, simSlot, s);
    SourceSlotAhead(env, simSlot, s);
    if ProperlyListed(env, st, sources, i, r) {
      forall t: uint64 | SourceSlot(env, simSlot, t) && t < s
        ensures r !in ListedAt(env.preload, t)
      {
        assert HasSource(sources, t);
        var j :| 0 <= j < |sources| && sources[j].slot == t;
      }
    }
    if ListedAtSource(env, simSlot, s, r) {
      forall j | 0 <= j < i && sources[j].slot != s
        ensures r !in OrphansAt(st, sources[j].slot)
      {
        assert HasSource(sources, sources[j].slot);
        assert SourceSlot(env, simSlot, sources[j].slot);
      }
    }
  }

  lemma VoteHeld(env: Env, simSlot: uint64, st: PlanState, sources: seq<Source>, i: nat, att: Attestation)
    requires ValidEnv(env) && Opened(env, simSlot, st) && i < |sources|
    requires SourcesOk(EraSlots(env.era), simSlot, env.mode, env.cap, SaturatingAdd(simSlot, 1), sources)
    ensures VoteAtSource(env, st, sources, i, att) <==>
      (env.mode == GreedyLookahead ==> att.slot <= simSlot + 1) && HeldAt(env, simSlot, sources[i].slot, att)
  {
    hide Opened, ListedAtSource, ProperlyListed;
    forall b: Block
      ensures AtSource(env, st, sources, i, b) <==> BlockAtSource(env, simSlot, sources[i].slot, b)
    {
      ListedAlike(env, simSlot, st, sources, i, b.root);
    }
    assert HasSource(sources, sources[i].slot);
    assert SourceSlot(env, simSlot, sources[i].slot);
    SourceSlotAhead(env, simSlot, sources[i].slot);
    hide AtSource, BlockAtSource;
  }

  lemma HeldAlike(env: Env, simSlot: uint64, st: PlanState, sources: seq<Source>, att: Attestation)
    requires ValidEnv(env) && Opened(env, simSlot, st)
    requires SourcesOk(EraSlots(env.era), simSlot, env.mode, env.cap, SaturatingAdd(simSlot, 1), sources)
    ensures Held(env, simSlot, att) <==> exists i :: 0 <= i < |sources| && VoteAtSource(env, st, sources, i, att)
  {
    hide Opened, HeldAt, VoteAtSource, Chosen;
    if Held(env, simSlot, att) {
      var s :| SourceSlot(env, simSlot, s) && HeldAt(env, simSlot, s, att);
      assert HasSource(sources, s);
      var i :| 0 <= i < |sources| && sources[i].slot == s;
      VoteHeld(env, simSlot, st, sources, i, att);
    }
    if i :| 0 <= i < |sources| && VoteAtSource(env, st, sources, i, att) {
      VoteHeld(env, simSlot, st, sources, i, att);
      assert HasSource(sources, sources[i].slot);
      assert SourceSlot(env, simSlot, sources[i].slot);
    }
  }

  /** The state after the votes. */
  ghost predicate Voted(env: Env, simSlot: uint64, st: PlanState) {
    && StateOk(env, st) && st.imported == KnownAt(env, simSlot) && st.scheduled == {}
    && (forall r :: r in st.ignored ==> Shut(env, r) || LookedUp(env, simSlot, r))
    && (forall r :: LookedUp(env, simSlot, r) ==>
          r in st.ignored || Halts(env, KnownAt(env, simSlot), r, simSlot))
  }

  lemma SourcesOfSlot(env: Env, simSlot: uint64, st: PlanState)
    requires Opened(env, simSlot, st) && env.mode != FirstSeenGossip
    ensures SourcesOk(EraSlots(env.era), simSlot, env.mode, env.cap, SaturatingAdd(simSlot, 1),
                      SlotSources(env, st, simSlot))
  {
    var evalSlot := SaturatingAdd(simSlot, 1);
    var blocks := st.visible * Window(evalSlot, SlotLoadEnd(env, simSlot));
    forall s: uint64 | simSlot < s <= simSlot + (if env.mode == StrictKMinus1 then 1 else SlotCap(env))
      ensures s in blocks <==> env.era(s).Present?
    {
      assert In(SlotRange(evalSlot, SlotLoadEnd(env, simSlot)), s);
    }
    EraSources(env, blocks, simSlot, SlotCap(env), evalSlot);
  }

  /** What looking at the sources ignores. */
  lemma LookedUpIs(env: Env, simSlot: uint64, st: PlanState, st': PlanState, sources: seq<Source>)
    requires ValidEnv(env) && Opened(env, simSlot, st) && SourcesSearched(env, st, st', sources)
    requires SourcesOk(EraSlots(env.era), simSlot, env.mode, env.cap, SaturatingAdd(simSlot, 1), sources)
    ensures Voted(env, simSlot, st')
  {
    forall r | r in st'.ignored
      ensures Shut(env, r) || LookedUp(env, simSlot, r)
    {
      if MisplacedAt(env, st, sources, r) {
        var i :| 0 <= i < |sources| && r in OrphansAt(st, sources[i].slot) && Elsewhere(env, sources[i].slot, r);
        assert HasSource(sources, sources[i].slot);
        assert SourceSlot(env, simSlot, sources[i].slot);
      }
    }
    forall r | LookedUp(env, simSlot, r) && r !in st'.ignored
      ensures Halts(env, KnownAt(env, simSlot), r, simSlot)
    {
      if r !in ListedAt(env.preload, simSlot) {
        var s :| SourceSlot(env, simSlot, s) && r in ListedAt(env.preload, s);
        SourceSlotAhead(env, simSlot, s);
        assert HasSource(sources, s);
        var i :| 0 <= i < |sources| && sources[i].slot == s;
        assert r in OrphansAt(st, sources[i].slot);
      }
    }
  }

  lemma FirstSeenVoted(env: Env, simSlot: uint64, st: PlanState)
    requires ValidEnv(env) && Opened(env, simSlot, st) && env.mode == FirstSeenGossip
    ensures Voted(env, simSlot, st)
  {
  }

  /** The votes exist and are those the mode promises. */
  lemma VotesAre(env: Env, simSlot: uint64, st: PlanState) returns (v: Votes)
    requires ValidEnv(env) && Opened(env, simSlot, st)
    requires env.mode == FirstSeenGossip ==> env.firstSeen.Some? && env.firstSeen.value(simSlot).Some?
    ensures SlotVotes(env, st, simSlot) == Some(v)
    ensures VotesMean(env, simSlot, v.attestations) && Voted(env, simSlot, v.st)
  {
    hide Opened, Held, Voted, SourcesOk, SourceVotes, AfterSources, VotesOnce, VotesExact,
      ServedInOrder;
    if env.mode == FirstSeenGossip {
      FirstSeenVoted(env, simSlot, st);
      v := SlotVotes(env, st, simSlot).value;
    } else {
      assert StateOk(env, st) by { OpenedOk(env, simSlot, st); }
      var sources := SlotSources(env, st, simSlot);
      SourcesOfSlot(env, simSlot, st);
      SourcesAreShown(env, st, simSlot);
      var after := SourcesLooked(env, st, sources);
      SourceVotesAfter(env, st, sources, {}, []);
      v := SlotVotes(env, st, simSlot).value;
      LookedUpIs(env, simSlot, st, after, sources);
      var all := SlotVotesOnce(env, st, simSlot, v);
      VotesInOrder(env, simSlot, st, sources, v);
      OnceExactMean(env, simSlot, st, sources, v.attestations, all);
    }
  }

  lemma AtSourceMeans(env: Env, simSlot: uint64, st: PlanState, sources: seq<Source>, b: Block)
    requires ValidEnv(env) && Opened(env, simSlot, st)
    requires SourcesOk(EraSlots(env.era), simSlot, env.mode, env.cap, SaturatingAdd(simSlot, 1), sources)
    ensures (exists i :: 0 <= i < |sources| && AtSource(env, st, sources, i, b)) <==>
      SourceSlot(env, simSlot, b.slot) && BlockAtSource(env, simSlot, b.slot, b)
  {
    hide Opened, Chosen, ListedAtSource;
    if i :| 0 <= i < |sources| && AtSource(env, st, sources, i, b) {
      ListedAlike(env, simSlot, st, sources, i, b.root);
      assert HasSource(sources, sources[i].slot);
      assert SourceSlot(env, simSlot, sources[i].slot);
    }
    if SourceSlot(env, simSlot, b.slot) && BlockAtSource(env, simSlot, b.slot, b) {
      assert HasSource(sources, b.slot);
      var i :| 0 <= i < |sources| && sources[i].slot == b.slot;
      ListedAlike(env, simSlot, st, sources, i, b.root);
      assert AtSource(env, st, sources, i, b);
    }
  }

  lemma VotesInOrder(env: Env, simSlot: uint64, st: PlanState, sources: seq<Source>, v: Votes)
    requires ValidEnv(env) && Opened(env, simSlot, st) && SourcesShown(env, st, sources)
    requires SourcesOk(EraSlots(env.era), simSlot, env.mode, env.cap, SaturatingAdd(simSlot, 1), sources)
    requires SourceVotes(env, st, sources, {}, []) == Some(v)
    ensures ServedInOrder(env, simSlot, v.attestations)
  {
    assert StateOk(env, st) by { OpenedOk(env, simSlot, st); }
    hide Opened, Held, SourceOrder, BlockAtSource, AtSource, SourceVotes, StateOk, ValidEnv, Chosen, AllVotes,
      Attestations;
    var max, shown := VoteBound(env.mode, SaturatingAdd(simSlot, 1)), ShownBlocks(env, st, sources);
    assert CastRoots([], max) == {} && FirstCasts([], max) == [];
    SourceVotesAreFirst(env, st, sources, [], max, v);
    assert [] + Attestations(shown) == Attestations(shown);
    AllVotesAre(shown);
    ShownExactly(env, st, sources);
    forall b
      ensures b in shown <==> SourceSlot(env, simSlot, b.slot) && BlockAtSource(env, simSlot, b.slot, b)
    {
      AtSourceMeans(env, simSlot, st, sources, b);
    }
    assert ShownInOrder(env, simSlot, shown);
  }

  lemma OpenedOk(env: Env, simSlot: uint64, st: PlanState)
    requires Opened(env, simSlot, st)
    ensures StateOk(env, st)
  {
  }

  lemma OnceExactMean(env: Env, simSlot: uint64, st: PlanState, sources: seq<Source>, votes: seq<Attestation>,
                      all: set<Root>)
    requires ValidEnv(env) && Opened(env, simSlot, st) && env.mode != FirstSeenGossip
    requires SourcesOk(EraSlots(env.era), simSlot, env.mode, env.cap, SaturatingAdd(simSlot, 1), sources)
    requires VotesOnce(all, votes) && VotesExact(env, st, sources, all, votes, [])
    requires ServedInOrder(env, simSlot, votes)
    ensures VotesMean(env, simSlot, votes)
  {
    hide Opened, Held, SourcesOk, VoteAtSource, ServedInOrder;
    forall att: Attestation
      ensures Held(env, simSlot, att) <==> exists i :: 0 <= i < |sources| && VoteAtSource(env, st, sources, i, att)
    {
      HeldAlike(env, simSlot, st, sources, att);
    }
    forall att | Held(env, simSlot, att)
      ensures exists v :: v in votes && v.root == att.root
    {
      var i :| 0 <= i < |sources| && VoteAtSource(env, st, sources, i, att);
      assert att.root in all;
    }
  }

  // ----- the walks

  /** Roots from which nothing is walked make no difference. */
  lemma SameGrove(env: Env, known: set<Root>, a: set<Root>, b: set<Root>, simSlot: uint64, minSlot: uint64, x: Block)
    requires forall r :: (r in a) != (r in b) ==> Halts(env, known, r, simSlot)
    ensures InGrove(env, known, a, simSlot, minSlot, x) <==> InGrove(env, known, b, simSlot, minSlot, x)
  {
    hide Halts;
    forall r | (r in a) != (r in b)
      ensures !Brings(env, known, r, simSlot, x)
    {
      AncestryStep(env, known, r, simSlot, MAX_ORPHAN_WALK);
    }
    hide Brings;
  }

  lemma SameFailures(env: Env, known: set<Root>, a: set<Root>, b: set<Root>, simSlot: uint64)
    requires forall r :: (r in a) != (r in b) ==> Halts(env, known, r, simSlot)
    requires VotesFail(env, known, a, simSlot)
    ensures VotesFail(env, known, b, simSlot)
  {
    hide Halts, InGrove, Ancestry;
    var r :| r in a && WalkFails(env, known, a, simSlot, r);
    AncestryStep(env, known, r, simSlot, MAX_ORPHAN_WALK);
    NothingIllegible(env);
    assert r in b;
    if env.archive(r).Some? {
      SameGrove(env, known, CacheExact.Before(a, r), CacheExact.Before(b, r), simSlot, 0, env.archive(r).value);
    }
    assert WalkFails(env, known, b, simSlot, r);
  }

  lemma WalkedAlike(env: Env, simSlot: uint64, st: PlanState, votes: seq<Attestation>, r: Root)
    requires ValidEnv(env) && Voted(env, simSlot, st)
    requires (r in FreshRoots(env, st, votes, None)) != (r in WalkedRoots(env, simSlot, votes))
    ensures Halts(env, KnownAt(env, simSlot), r, simSlot)
  {
    WalkedMember(env, simSlot, votes, r);
    FreshNamed(env, st, votes, None, r);
    hide FreshRoots, WalkedRoots, LookedUp, KnownAt, Names;
    if RootShown(env.era, st.visible, r) {
      ShownIsDead(env, st.visible, r, simSlot);
    }
    if r in FreshRoots(env, st, votes, None) {
      assert exists att :: att in votes && Names(att, r);
      assert LookedUp(env, simSlot, r);
    }
  }

  lemma WalkedMember(env: Env, simSlot: uint64, votes: seq<Attestation>, r: Root)
    ensures r in WalkedRoots(env, simSlot, votes) <==>
      !LookedUp(env, simSlot, r) && exists att :: att in votes && Names(att, r)
  {
    if att :| att in votes && Names(att, r) {
      assert r in {att.targetRoot, att.beaconBlockRoot};
    }
  }

  /** The orphans voted for are those on the walks. */
  lemma WalksAre(env: Env, simSlot: uint64, minSlot: uint64, st: PlanState, votes: seq<Attestation>)
    requires World(env) && Voted(env, simSlot, st) && minSlot <= simSlot
    ensures var f := VoteImports(env, st, votes, simSlot, minSlot);
      && (f.None? <==> VotesFail(env, KnownAt(env, simSlot), WalkedRoots(env, simSlot, votes), simSlot))
      && (f.Some? ==> Ascends(f.value.blocks, BlockBefore) && forall b :: b in f.value.blocks <==>
            InGrove(env, KnownAt(env, simSlot), WalkedRoots(env, simSlot, votes), simSlot, minSlot, b))
  {
    hide VoteImports, InGrove, FreshRoots, WalkedRoots, VotesFail, KnownAt, Halts;
    WorldIsValid(env);
    VotesBringGrove(env, st, votes, simSlot, minSlot);
    var a, b, known := FreshRoots(env, st, votes, None), WalkedRoots(env, simSlot, votes), KnownAt(env, simSlot);
    forall r | (r in a) != (r in b)
      ensures Halts(env, known, r, simSlot)
    {
      WalkedAlike(env, simSlot, st, votes, r);
    }
    if VotesFail(env, known, a, simSlot) {
      SameFailures(env, known, a, b, simSlot);
    }
    if VotesFail(env, known, b, simSlot) {
      SameFailures(env, known, b, a, simSlot);
    }
    forall x
      ensures InGrove(env, known, a, simSlot, minSlot, x) <==> InGrove(env, known, b, simSlot, minSlot, x)
    {
      SameGrove(env, known, a, b, simSlot, minSlot, x);
    }
  }

  // ----- the answer

  lemma NotAskable(env: Env, simSlot: uint64, warmupStart: uint64)
    requires ValidEnv(env) && !Askable(env, simSlot, warmupStart)
    ensures BuildSlot(env, simSlot, warmupStart) == None
  {
    hide SlotOrphans, CanonicalImport, VoteImports, SlotStart, ValidEnv;
    if !SlotRejected(env, simSlot, warmupStart) && Readable(env.era, warmupStart + 1, SlotLoadEnd(env, simSlot)) {
      assert env.mode == FirstSeenGossip && env.firstSeen.value(simSlot) == None;
    }
  }

  /** Era files, archive and configuration fix the answer for a slot in every mode: whether there is one, the two slots,
      the votes, and the imports with their order. */
  lemma SlotIsMeant(env: Env, simSlot: uint64, warmupStart: uint64)
    requires World(env)
    ensures SlotMeans(env, simSlot, warmupStart, BuildSlot(env, simSlot, warmupStart))
  {
    hide World, ValidEnv, Askable, SlotRejected, Readable, SlotStart, CanonicalImport, SlotOrphans, SlotVotes,
      VoteImports, VotesMean, ImportsMean, Opened, Started, Voted, VotesFail, WalkedRoots, KnownAt;
    WorldIsValid(env);
    if !Askable(env, simSlot, warmupStart) {
      NotAskable(env, simSlot, warmupStart);
    } else {
      AskedInWindow(env, simSlot, warmupStart);
      SlotStarts(env, simSlot, warmupStart);
      var first := CanonicalImport(env, SlotStart(env, simSlot, warmupStart), simSlot);
      var listed := SlotOpens(env, simSlot, warmupStart + 1, first.1);
      var v := VotesAre(env, simSlot, listed.st);
      WalksAre(env, simSlot, warmupStart + 1, v.st, v.attestations);
      var f := VoteImports(env, v.st, v.attestations, simSlot, warmupStart + 1);
      if f.Some? {
        Imports(env, simSlot, warmupStart + 1, v.attestations, first.0, listed.blocks, f.value.blocks);
      }
      assert AnswerMeans(env, simSlot, warmupStart, v.attestations, BuildSlot(env, simSlot, warmupStart));
    }
  }

  lemma AskedInWindow(env: Env, simSlot: uint64, warmupStart: uint64)
    requires Askable(env, simSlot, warmupStart)
    ensures warmupStart < simSlot && !env.era(simSlot).Unreadable?
    ensures env.mode == FirstSeenGossip ==> env.firstSeen.Some? && env.firstSeen.value(simSlot).Some?
  {
  }

  lemma Imports(env: Env, simSlot: uint64, minSlot: uint64, votes: seq<Attestation>, first: seq<BlockImport>,
                listed: seq<Block>, voted: seq<Block>)
    requires first == if env.era(simSlot).Present? then [BlockImport(simSlot, env.era(simSlot).block.root, true)]
      else []
    requires Ascends(listed, BlockBefore) && Ascends(voted, BlockBefore)
    requires forall b :: b in listed <==> NewListed(env, simSlot, b)
    requires forall b :: b in voted <==>
      InGrove(env, KnownAt(env, simSlot), WalkedRoots(env, simSlot, votes), simSlot, minSlot, b)
    ensures ImportsMean(env, simSlot, minSlot, votes, first + OrphanImports(listed) + OrphanImports(voted))
  {
    AscendsBy(listed);
    AscendsBy(voted);
    hide NewListed, InGrove, WalkedRoots, KnownAt, Ascends, BySlotAndRoot;
    assert PartsMean(env, simSlot, minSlot, votes, listed, voted,
                     first + OrphanImports(listed) + OrphanImports(voted));
  }

  // ----- only one answer

  lemma OneVoteList(env: Env, simSlot: uint64, a: seq<Attestation>, b: seq<Attestation>)
    requires VotesMean(env, simSlot, a) && VotesMean(env, simSlot, b)
    ensures a == b
  {
    hide ShownInOrder, FirstCasts, Held;
    if env.mode != FirstSeenGossip {
      var max := VoteBound(env.mode, SaturatingAdd(simSlot, 1));
      var x :| ShownInOrder(env, simSlot, x) && a == FirstCasts(AllVotes(x), max);
      var y :| ShownInOrder(env, simSlot, y) && b == FirstCasts(AllVotes(y), max);
      OneShownList(env, simSlot, x, y);
    }
  }

  lemma OneShownList(env: Env, simSlot: uint64, a: seq<Block>, b: seq<Block>)
    requires ShownInOrder(env, simSlot, a) && ShownInOrder(env, simSlot, b)
    ensures a == b
  {
    hide SourceOrder, SourceSlot, BlockAtSource;
    OneOrder(env, a, b);
  }

  lemma OneImportList(env: Env, simSlot: uint64, minSlot: uint64, votes: seq<Attestation>, a: seq<BlockImport>,
                      b: seq<BlockImport>)
    requires ImportsMean(env, simSlot, minSlot, votes, a) && ImportsMean(env, simSlot, minSlot, votes, b)
    ensures a == b
  {
    hide InGrove, NewListed, BySlotAndRoot, KnownAt, WalkedRoots, OrphanImports;
    var l, v :| PartsMean(env, simSlot, minSlot, votes, l, v, a);
    var m, w :| PartsMean(env, simSlot, minSlot, votes, m, w, b);
    OneBlockList(l, m);
    OneBlockList(v, w);
  }

  /** The meaning leaves one answer. */
  lemma MeaningUnique(env: Env, simSlot: uint64, warmupStart: uint64, a: Option<SlotInstruction>,
                      b: Option<SlotInstruction>)
    requires SlotMeans(env, simSlot, warmupStart, a) && SlotMeans(env, simSlot, warmupStart, b)
    ensures a == b
  {
    hide VotesMean, ImportsMean, VotesFail;
    if Askable(env, simSlot, warmupStart) {
      var x :| AnswerMeans(env, simSlot, warmupStart, x, a);
      var y :| AnswerMeans(env, simSlot, warmupStart, y, b);
      OneVoteList(env, simSlot, x, y);
      if a.Some? {
        OneImportList(env, simSlot, warmupStart + 1, x, a.value.imports, b.value.imports);
      }
    }
  }
}
