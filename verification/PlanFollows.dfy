/** One iteration of BuildPlan follows one entry of the tour. */
module PlanFollows {
  import opened Core
  import opened Blocks
  import opened Sorting
  import opened AttPlan
  import opened PlanSpec
  import opened OrphanChains
  import opened PlanSteps
  import opened SlotRuns
  import opened WarmCache
  import opened SourceAgreement
  import opened ListedOrphans
  import opened PlanTour

  // ----- how a planner state and a tour match

  /** The roots that lists looked at before an entry have misplaced. */
  ghost function Lost(env: Env, from: uint64, simSlot: int): iset<Root> {
    iset r | Misplaced(env, from, simSlot, r)
  }

  /** The planner has imported what is known and canonical blocks besides, and will walk neither over what was walked
      over nor over what lists misplaced. */
  ghost predicate Tracks(env: Env, lost: iset<Root>, st: PlanState, t: Tour) {
    && StateOk(env, st)
    && t.known <= st.imported && (forall r :: r in st.imported && r !in t.known ==> Shut(env, r))
    && st.scheduled <= t.passed
    && (forall r :: r in t.passed ==> r in st.imported || r in st.scheduled || r in st.ignored)
    && (forall r :: r in st.ignored ==> Shut(env, r) || r in t.passed || r in lost)
    && (forall r :: r in lost ==> r in st.ignored)
    && ListsTrack(env, st, t)
    && |t.cut| <= st.truncations
  }

  /** The lists are those of the index, and walks have added their blocks at their own slots. */
  ghost predicate ListsTrack(env: Env, st: PlanState, t: Tour) {
    && (forall s: uint64, r :: r in ListedAt(env.preload, s) ==> r in OrphansAt(st, s))
    && (forall s: uint64, r :: r in OrphansAt(st, s) ==>
          r in ListedAt(env.preload, s) || (r in t.passed && OrphanAt(env, s, r)))
  }

  /** The blocks due at a slot wait for it. */
  ghost predicate DueWaits(env: Env, pending: map<uint64, seq<Block>>, t: Tour, simSlot: uint64) {
    forall r :: r in Due(env, t, simSlot) ==> env.archive(r).value in PendingAt(pending, simSlot)
  }

  // ----- before the walks

  lemma CanonicalTracks(env: Env, lost: iset<Root>, st: PlanState, t: Tour, simSlot: uint64)
    requires ValidEnv(env) && Tracks(env, lost, st, t)
    ensures Tracks(env, lost, CanonicalImport(env, st, simSlot).1, t)
  {
  }

  /** The roots that only the list of the slot misplaces. */
  ghost function LostAt(env: Env, simSlot: uint64): iset<Root> {
    iset r | WronglyListed(env, simSlot, r)
  }

  ghost predicate IsBlock(env: Env, b: Block) {
    env.archive(b.root) == Some(b)
  }

  /** The orphans that an entry takes from the list of its slot. */
  ghost predicate TakenFromList(env: Env, from: uint64, t: Tour, simSlot: uint64, b: Block) {
    IsBlock(env, b) && b.root in Listed(env, from, simSlot) && b.root !in t.known && b.root !in t.passed
  }

  lemma ListedHereIs(env: Env, from: uint64, simSlot: uint64, st: PlanState, t: Tour, b: Block)
    requires ValidEnv(env) && TourOk(env, from, simSlot, t) && Tracks(env, Lost(env, from, simSlot), st, t)
    ensures ListedHere(env, st, simSlot, b) && b.root !in st.imported && b.root !in st.scheduled
      <==> TakenFromList(env, from, t, simSlot, b)
    ensures ListedHere(env, st, simSlot, b) ==> b.root in Listed(env, from, simSlot) || b.root in Due(env, t, simSlot)
  {
    hide TourOk, Misplaced, StateOk, Canonical;
    assert ListedHere(env, st, simSlot, b) ==> OrphanAt(env, simSlot, b.root);
    assert IsBlock(env, b) && OrphanAt(env, simSlot, b.root) ==> Orphan(env, b) && b.slot == simSlot;
    assert Orphan(env, b) ==> !Shut(env, b.root);
  }

  /** After the list of the slot has been looked at. */
  lemma ListedTracks(env: Env, from: uint64, simSlot: uint64, st: PlanState, t: Tour) returns (listed: Found)
    requires ValidEnv(env) && TourOk(env, from, simSlot, t) && Tracks(env, Lost(env, from, simSlot), st, t)
    requires from <= simSlot && !env.era(simSlot).Unreadable?
    ensures SlotOrphans(env, st, simSlot, from) == Some(listed)
    ensures BySlotAndRoot(listed.blocks)
    ensures forall b :: b in listed.blocks <==> TakenFromList(env, from, t, simSlot, b)
    ensures Searched(env, st, listed.st, simSlot)
    ensures st.imported <= listed.st.imported
    ensures forall r :: r in listed.st.imported ==>
      r in st.imported || r in Listed(env, from, simSlot) || r in Due(env, t, simSlot)
    ensures forall r :: r in Listed(env, from, simSlot) && r !in t.passed ==> r in listed.st.imported
  {
    hide Tracks, TourOk, SlotOrphans, Searched, ListedHere, Listed, Due, TakenFromList;
    assert StateOk(env, st) by { TracksOk(env, Lost(env, from, simSlot), st, t); }
    listed := SlotOrphansExact(env, st, simSlot, from);
    AscendsBy(listed.blocks);
    forall b
      ensures b in listed.blocks <==> TakenFromList(env, from, t, simSlot, b)
      ensures ListedHere(env, st, simSlot, b) ==>
        b.root in Listed(env, from, simSlot) || b.root in Due(env, t, simSlot)
    {
      ListedHereIs(env, from, simSlot, st, t, b);
    }
    forall r | r in Listed(env, from, simSlot) && r !in t.passed
      ensures r in listed.st.imported
    {
      ListedIsImported(env, from, simSlot, st, t, r);
    }
  }

  lemma TracksOk(env: Env, lost: iset<Root>, st: PlanState, t: Tour)
    requires Tracks(env, lost, st, t)
    ensures StateOk(env, st)
  {
  }

  lemma ListedIsImported(env: Env, from: uint64, simSlot: uint64, st: PlanState, t: Tour, r: Root)
    requires ValidEnv(env) && TourOk(env, from, simSlot, t) && Tracks(env, Lost(env, from, simSlot), st, t)
    requires r in Listed(env, from, simSlot) && r !in t.passed
    ensures r in st.imported || (r !in st.scheduled && exists b :: ListedHere(env, st, simSlot, b) && b.root == r)
  {
    var b := env.archive(r).value;
    if r !in st.imported {
      ListedHereIs(env, from, simSlot, st, t, b);
      assert TakenFromList(env, from, t, simSlot, b);
    }
  }

  /** The blocks due, in order. */
  lemma DueBlocks(env: Env, from: uint64, to: uint64, p: Planning, st: PlanState, t: Tour, simSlot: uint64)
    requires PendingOk(env, st, p.pending, simSlot, to) && DueWaits(env, p.pending, t, simSlot)
    requires st.scheduled <= t.passed && ValidEnv(env)
    ensures var due := SortBlocks(PendingAt(p.pending, simSlot));
      && BySlotAndRoot(due)
      && (forall b :: b in due <==> IsBlock(env, b) && b.root in Due(env, t, simSlot))
  {
    var waiting := PendingAt(p.pending, simSlot);
    SortKeepsMembers(waiting);
    assert DistinctRoots(waiting);
    DistinctAscend(waiting);
    AscendsBy(SortBlocks(waiting));
    forall b | b in waiting
      ensures IsBlock(env, b) && b.root in Due(env, t, simSlot)
    {
      assert simSlot in p.pending;
    }
  }

  /** After the list of the slot and the blocks due. */
  lemma EnteredTracks(env: Env, from: uint64, simSlot: uint64, st: PlanState, listed: PlanState, st': PlanState,
                      t: Tour)
    requires ValidEnv(env) && Tracks(env, Lost(env, from, simSlot), st, t)
    requires Searched(env, st, listed, simSlot) && st.imported <= listed.imported
    requires forall r :: r in listed.imported ==>
      r in st.imported || r in Listed(env, from, simSlot) || r in Due(env, t, simSlot)
    requires forall r :: r in Listed(env, from, simSlot) && r !in t.passed ==> r in listed.imported
    requires st' == listed.(imported := st'.imported)
    requires forall r :: r in st'.imported <==> r in listed.imported || r in Due(env, t, simSlot)
    ensures Tracks(env, Lost(env, from, simSlot) + LostAt(env, simSlot), st', Entered(env, from, t, simSlot))
  {
    hide Misplaced, StateOk, Canonical, ListsTrack;
    var t' := Entered(env, from, t, simSlot);
    forall r | r in t'.known
      ensures r in st'.imported
    {
      if r in Listed(env, from, simSlot) && r in t.passed {
        assert r in Due(env, t, simSlot);
      }
    }
    forall r | r in LostAt(env, simSlot)
      ensures r in st'.ignored
    {
      assert r in OrphansAt(st, simSlot) by { ListsHave(env, st, t, simSlot, r); }
    }
    forall r | r in st'.ignored
      ensures Shut(env, r) || r in t'.passed || r in Lost(env, from, simSlot) + LostAt(env, simSlot)
    {
      if r in OrphansAt(st, simSlot) && Elsewhere(env, simSlot, r) {
        ListsHave(env, st, t, simSlot, r);
      }
    }
    ListsStay(env, st, t, st', t');
    assert StateOk(env, st') by { StateStays(env, listed, st'); }
  }

  lemma ListsHave(env: Env, st: PlanState, t: Tour, s: uint64, r: Root)
    requires ListsTrack(env, st, t)
    ensures r in ListedAt(env.preload, s) ==> r in OrphansAt(st, s)
    ensures r in OrphansAt(st, s) && !OrphanAt(env, s, r) ==> r in ListedAt(env.preload, s)
    ensures r in OrphansAt(st, s) && r !in t.passed ==> r in ListedAt(env.preload, s)
  {
  }

  lemma ListsStay(env: Env, st: PlanState, t: Tour, st': PlanState, t': Tour)
    requires ListsTrack(env, st, t) && st'.orphans == st.orphans && t.passed <= t'.passed
    ensures ListsTrack(env, st', t')
  {
  }

  // ----- looking at the sources

  ghost predicate SourcesOf(env: Env, simSlot: uint64, sources: seq<Source>) {
    SourcesOk(EraSlots(env.era), simSlot, env.mode, env.cap, SaturatingAdd(simSlot, 1), sources)
  }

  lemma SourceAt(env: Env, simSlot: uint64, sources: seq<Source>, i: nat)
    requires SourcesOf(env, simSlot, sources) && i < |sources|
    ensures SourceSlot(env, simSlot, sources[i].slot) && simSlot < sources[i].slot
  {
    assert HasSource(sources, sources[i].slot);
    assert SourceSlot(env, simSlot, sources[i].slot);
    SourceSlotAhead(env, simSlot, sources[i].slot);
  }

  lemma SourceIndex(env: Env, simSlot: uint64, sources: seq<Source>, s: uint64) returns (i: nat)
    requires SourcesOf(env, simSlot, sources) && SourceSlot(env, simSlot, s)
    ensures i < |sources| && sources[i].slot == s
  {
    hide Chosen;
    assert HasSource(sources, s);
    i :| 0 <= i < |sources| && sources[i].slot == s;
  }

  /** Nothing that walks went over sits after the slot of the entry, so the lists there are those of the index. */
  lemma ListsAhead(env: Env, simSlot: uint64, st: PlanState, t: Tour, s: uint64, r: Root)
    requires ListsTrack(env, st, t) && simSlot < s
    requires forall x :: x in t.passed ==> env.archive(x).Some? && env.archive(x).value.slot <= simSlot
    ensures r in OrphansAt(st, s) <==> r in ListedAt(env.preload, s)
  {
    ListsHave(env, st, t, s, r);
  }

  /** The roots that lists have misplaced after the sources of an entry: those before, at its slot and at its
      sources. */
  lemma LostAfter(env: Env, from: uint64, simSlot: uint64, r: Root)
    requires from <= simSlot
    ensures Misplaced(env, from, simSlot + 1, r) <==>
      Misplaced(env, from, simSlot, r) || WronglyListed(env, simSlot, r)
      || (env.mode == GreedyLookahead && exists t: uint64 :: SourceSlot(env, simSlot, t) && WronglyListed(env, t, r))
  {
    hide WronglyListed, SourceSlot;
    if Misplaced(env, from, simSlot + 1, r) {
      var t :| Browsed(env, from, simSlot + 1, t) && WronglyListed(env, t, r);
      if !Browsed(env, from, simSlot, t) && t != simSlot {
        var e: uint64 :| from <= e < simSlot + 1 && SourceSlot(env, e, t);
        assert e == simSlot;
      }
    }
    if Misplaced(env, from, simSlot, r) {
      var t :| Browsed(env, from, simSlot, t) && WronglyListed(env, t, r);
      assert Browsed(env, from, simSlot + 1, t);
    }
    assert Browsed(env, from, simSlot + 1, simSlot);
    forall t: uint64 | env.mode == GreedyLookahead && SourceSlot(env, simSlot, t)
      ensures Browsed(env, from, simSlot + 1, t)
    {
    }
  }

  /** What holds between the blocks due and the walks of an entry. */
  ghost predicate Ready(env: Env, from: uint64, simSlot: uint64, st: PlanState, t: Tour) {
    && TourOk(env, from, simSlot + 1, t)
    && Tracks(env, Lost(env, from, simSlot) + LostAt(env, simSlot), st, t)
    && (forall x :: x in t.passed ==> env.archive(x).Some? && env.archive(x).value.slot <= simSlot)
  }

  /** A list properly names an orphan at a source exactly when no list before misplaced it. */
  lemma ProperlyShown(env: Env, from: uint64, simSlot: uint64, st: PlanState, t: Tour, sources: seq<Source>, i: nat,
                      r: Root)
    requires ValidEnv(env) && Ready(env, from, simSlot, st, t) && SourcesOf(env, simSlot, sources) && i < |sources|
    ensures var s := sources[i].slot; ProperlyListed(env, st, sources, i, r) <==>
      r in ListedAt(env.preload, s) && OrphanAt(env, s, r) && !MisplacedBefore(env, from, simSlot, s, r)
  {
    hide TourOk, Misplaced, SourceSlot;
    var s := sources[i].slot;
    SourceAt(env, simSlot, sources, i);
    ListsAhead(env, simSlot, st, t, s, r);
    if r in ListedAt(env.preload, s) && OrphanAt(env, s, r) {
      NotIgnored(env, from, simSlot, st, t, s, r);
      if ProperlyListed(env, st, sources, i, r) {
        forall u: uint64 | SourceSlot(env, simSlot, u) && u < s
          ensures !WronglyListed(env, u, r)
        {
          var j := SourceIndex(env, simSlot, sources, u);
          SourceAt(env, simSlot, sources, j);
          ListsAhead(env, simSlot, st, t, u, r);
          assert j < i;
        }
      }
      if !MisplacedBefore(env, from, simSlot, s, r) {
        forall j | 0 <= j < i && sources[j].slot != s
          ensures r !in OrphansAt(st, sources[j].slot)
        {
          SourceAt(env, simSlot, sources, j);
          ListsAhead(env, simSlot, st, t, sources[j].slot, r);
          assert !WronglyListed(env, sources[j].slot, r);
        }
      }
    }
  }

  lemma NotIgnored(env: Env, from: uint64, simSlot: uint64, st: PlanState, t: Tour, s: uint64, r: Root)
    requires ValidEnv(env) && Ready(env, from, simSlot, st, t) && simSlot < s && OrphanAt(env, s, r)
    ensures r in st.ignored <==> Misplaced(env, from, simSlot, r) || WronglyListed(env, simSlot, r)
  {
    hide TourOk, Misplaced, WronglyListed, StateOk, ListsTrack;
    assert r in Lost(env, from, simSlot) + LostAt(env, simSlot) <==>
      Misplaced(env, from, simSlot, r) || WronglyListed(env, simSlot, r);
  }

  lemma VoteShown(env: Env, from: uint64, simSlot: uint64, st: PlanState, t: Tour, sources: seq<Source>, i: nat,
                  att: Attestation)
    requires ValidEnv(env) && Ready(env, from, simSlot, st, t) && SourcesOf(env, simSlot, sources) && i < |sources|
    requires env.mode == GreedyLookahead && simSlot < MAX_UINT64
    ensures VoteAtSource(env, st, sources, i, att) <==>
      (att.slot <= simSlot + 1
       && exists b :: ShowsAt(env, from, simSlot, sources[i].slot, b) && att in b.attestations)
  {
    hide Ready, ProperlyListed, MisplacedBefore, Chosen, OrphanAt;
    forall b: Block
      ensures AtSource(env, st, sources, i, b) <==> ShowsAt(env, from, simSlot, sources[i].slot, b)
    {
      ProperlyShown(env, from, simSlot, st, t, sources, i, b.root);
    }
    assert sources[i].maxAttestationSlot == Some(SaturatingAdd(simSlot, 1));
    hide AtSource, ShowsAt;
  }

  /** The votes at the sources name exactly the roots voted for. */
  lemma NamedIsVoted(env: Env, from: uint64, simSlot: uint64, st: PlanState, t: Tour, sources: seq<Source>, r: Root)
    requires ValidEnv(env) && Ready(env, from, simSlot, st, t) && SourcesOf(env, simSlot, sources)
    requires env.mode == GreedyLookahead && simSlot < MAX_UINT64
    ensures NamedAtSource(env, st, sources, r) <==> VotedFor(env, from, simSlot, r)
  {
    hide Ready, VoteAtSource, ShowsAt, SourceSlot, Names, SourcesOf;
    if NamedAtSource(env, st, sources, r) {
      var i, att :| 0 <= i < |sources| && VoteAtSource(env, st, sources, i, att) && Names(att, r);
      VoteShown(env, from, simSlot, st, t, sources, i, att);
      SourceAt(env, simSlot, sources, i);
      assert NamedAt(env, from, simSlot, sources[i].slot, r);
    }
    if VotedFor(env, from, simSlot, r) {
      var s :| SourceSlot(env, simSlot, s) && NamedAt(env, from, simSlot, s, r);
      var b, att :| ShowsAt(env, from, simSlot, s, b) && att in b.attestations && att.slot <= simSlot + 1
        && Names(att, r);
      var i := SourceIndex(env, simSlot, sources, s);
      VoteShown(env, from, simSlot, st, t, sources, i, att);
      assert VoteAtSource(env, st, sources, i, att);
    }
  }

  /** A root that is no longer fresh is not walked from. */
  ghost predicate Inert(env: Env, from: uint64, t: Tour, simSlot: uint64, r: Root) {
    Spared(env, from, t, simSlot, r) || Halts(env, t.known, r, SaturatingAdd(simSlot, 1))
  }

  lemma StaleIsInert(env: Env, from: uint64, simSlot: uint64, st: PlanState, t: Tour, r: Root)
    requires ValidEnv(env) && Tracks(env, Lost(env, from, simSlot + 1), st, t) && !Fresh(env, st, r)
    ensures Inert(env, from, t, simSlot, r)
  {
    hide Misplaced, ListsTrack;
    if RootShown(env.era, st.visible, r) {
      ShownIsDead(env, st.visible, r, SaturatingAdd(simSlot, 1));
    }
  }

  /** After the sources: the planner matches the tour, and every root voted for that it did not collect is inert. */
  lemma SourcesTrack(env: Env, from: uint64, simSlot: uint64, st: PlanState, t: Tour, sources: seq<Source>)
    returns (rs: Roots)
    requires ValidEnv(env) && Ready(env, from, simSlot, st, t) && SourcesOf(env, simSlot, sources)
    requires env.mode == GreedyLookahead && from <= simSlot < MAX_UINT64 && SourcesShown(env, st, sources)
    ensures SourceRoots(env, st, sources, {}) == Some(rs)
    ensures Tracks(env, Lost(env, from, simSlot + 1), rs.st, t) && rs.st.truncations == st.truncations
    ensures st.visible <= rs.st.visible
    ensures forall r :: r in rs.roots ==> VotedFor(env, from, simSlot, r)
    ensures forall r :: VotedFor(env, from, simSlot, r) && r !in rs.roots ==> Inert(env, from, t, simSlot, r)
  {
    hide Ready, SourcesShown, AfterSources, SourceRoots, SourcesSearched, NamedAtSource, VotedFor, SourcesOf, Tracks,
      Fresh, Inert, Shut, Lost;
    assert StateOk(env, st) by { ReadyOk(env, from, simSlot, st, t); }
    var st' := SourcesLooked(env, st, sources);
    rs := SourceRootsExact(env, st, sources, {}, st');
    SearchedTracks(env, from, simSlot, st, t, sources, st');
    assert st.visible <= st'.visible && st'.truncations == st.truncations by { SearchKeeps(env, st, st', sources); }
    forall r
      ensures NamedAtSource(env, st, sources, r) <==> VotedFor(env, from, simSlot, r)
    {
      NamedIsVoted(env, from, simSlot, st, t, sources, r);
    }
    forall r | VotedFor(env, from, simSlot, r) && r !in rs.roots
      ensures Inert(env, from, t, simSlot, r)
    {
      if Fresh(env, st', r) {
        assert Shut(env, r);
        ShutIsInert(env, from, t, simSlot, r);
      } else {
        StaleIsInert(env, from, simSlot, st', t, r);
      }
    }
  }

  lemma ShutIsInert(env: Env, from: uint64, t: Tour, simSlot: uint64, r: Root)
    requires Shut(env, r)
    ensures Inert(env, from, t, simSlot, r)
  {
  }

  lemma ReadyOk(env: Env, from: uint64, simSlot: uint64, st: PlanState, t: Tour)
    requires Ready(env, from, simSlot, st, t)
    ensures StateOk(env, st)
  {
  }

  lemma SearchKeeps(env: Env, st: PlanState, st': PlanState, sources: seq<Source>)
    requires SourcesSearched(env, st, st', sources)
    ensures st.visible <= st'.visible && st'.truncations == st.truncations
  {
  }

  lemma SearchedTracks(env: Env, from: uint64, simSlot: uint64, st: PlanState, t: Tour, sources: seq<Source>,
                       st': PlanState)
    requires ValidEnv(env) && Ready(env, from, simSlot, st, t) && SourcesOf(env, simSlot, sources)
    requires env.mode == GreedyLookahead && from <= simSlot && SourcesSearched(env, st, st', sources)
    ensures Tracks(env, Lost(env, from, simSlot + 1), st', t)
  {
    hide TourOk, Misplaced, SourcesOf, StateOk, Canonical;
    forall r
      ensures r in Lost(env, from, simSlot + 1) <==>
        r in Lost(env, from, simSlot) + LostAt(env, simSlot) || MisplacedAt(env, st, sources, r)
    {
      LostAfter(env, from, simSlot, r);
      MisplacedIs(env, from, simSlot, st, t, sources, r);
    }
    ListsStay(env, st, t, st', t);
    hide Elsewhere, MisplacedAt, ListsTrack;
  }

  lemma MisplacedIs(env: Env, from: uint64, simSlot: uint64, st: PlanState, t: Tour, sources: seq<Source>, r: Root)
    requires ValidEnv(env) && Ready(env, from, simSlot, st, t) && SourcesOf(env, simSlot, sources)
    ensures MisplacedAt(env, st, sources, r) <==>
      exists u: uint64 :: SourceSlot(env, simSlot, u) && WronglyListed(env, u, r)
  {
    hide TourOk, SourceSlot, SourcesOf, Misplaced, StateOk;
    if MisplacedAt(env, st, sources, r) {
      var i :| 0 <= i < |sources| && r in OrphansAt(st, sources[i].slot) && Elsewhere(env, sources[i].slot, r);
      SourceAt(env, simSlot, sources, i);
      ListsAhead(env, simSlot, st, t, sources[i].slot, r);
      assert WronglyListed(env, sources[i].slot, r);
    }
    if u: uint64 :| SourceSlot(env, simSlot, u) && WronglyListed(env, u, r) {
      var i := SourceIndex(env, simSlot, sources, u);
      SourceAt(env, simSlot, sources, i);
      ListsAhead(env, simSlot, st, t, u, r);
      assert r in OrphansAt(st, sources[i].slot);
    }
  }
}
