/** Which listed orphans a slot imports, exactly, and what looking at the sources leaves behind. */
module ListedOrphans {
  import opened Core
  import opened Blocks
  import opened Sorting
  import opened Sorts
  import opened PlanSpec
  import opened OrphanChains
  import opened PlanSteps
  import opened SlotRuns

  /** No walk takes this root, whatever is imported. */
  ghost predicate Shut(env: Env, r: Root) {
    r == ZERO_ROOT || env.archive(r).None? || Canonical(env.era, env.archive(r).value)
  }

  /** What a search of the list of a slot changes besides imports: it ignores, of the roots that walks could take,
      exactly those listed there that belong to another slot. */
  ghost predicate Searched(env: Env, st: PlanState, st': PlanState, slot: uint64) {
    && StateOk(env, st') && st.visible <= st'.visible && st.ignored <= st'.ignored
    && st'.scheduled == st.scheduled && st'.orphans == st.orphans && st'.truncations == st.truncations
    && (forall r :: r in st'.ignored ==>
          r in st.ignored || Shut(env, r) || (r in OrphansAt(st, slot) && Elsewhere(env, slot, r)))
    && (forall r :: r in OrphansAt(st, slot) && Elsewhere(env, slot, r) ==> r in st'.ignored)
  }

  /** An orphan of the slot that is listed there and not ignored. */
  ghost predicate ListedHere(env: Env, st: PlanState, slot: uint64, b: Block) {
    Orphan(env, b) && b.slot == slot && b.root in OrphansAt(st, slot) && b.root !in st.ignored
  }

  lemma DistinctAscend(blocks: seq<Block>)
    requires DistinctRoots(blocks)
    ensures Ascends(SortBlocks(blocks), BlockBefore)
  {
    SortKeepsDistinct(blocks);
  }

  ghost predicate BySlotAndRoot(blocks: seq<Block>) {
    forall i, j :: 0 <= i < j < |blocks| ==>
      blocks[i].slot < blocks[j].slot || (blocks[i].slot == blocks[j].slot && blocks[i].root < blocks[j].root)
  }

  lemma AscendsBy(blocks: seq<Block>)
    requires Ascends(blocks, BlockBefore)
    ensures BySlotAndRoot(blocks)
  {
  }

  lemma OneBlockList(a: seq<Block>, b: seq<Block>)
    requires BySlotAndRoot(a) && BySlotAndRoot(b) && forall x :: x in a <==> x in b
    ensures a == b
  {
    AscendingUnique(a, b, BlockBefore);
  }

  lemma InfosExact(env: Env, st: PlanState, slot: uint64) returns (f: Found)
    requires ValidEnv(env) && StateOk(env, st) && !env.era(slot).Unreadable?
    ensures OrphanInfos(env, st, slot) == Some(f)
    ensures Searched(env, st, f.st, slot) && f.st.imported == st.imported
    ensures forall b :: b in f.blocks <==> ListedHere(env, st, slot, b)
    ensures Ascends(f.blocks, BlockBefore) && DistinctRoots(f.blocks)
  {
    hide GatherOrphans;
    GatherReads(env, st, slot, OrphansAt(st, slot), {}, []);
    var g := GatherOrphans(env, st, slot, OrphansAt(st, slot), {}, []).value;
    f := OrphanInfos(env, st, slot).value;
    GatherShape(env, st, slot, OrphansAt(st, slot), {}, [], g);
    GatherTakes(env, st, slot, OrphansAt(st, slot), {}, [], g);
    InfosShape(env, st, slot, f);
    SortKeepsMembers(g.blocks);
    DistinctAscend(g.blocks);
    forall b | ListedHere(env, st, slot, b)
      ensures b in f.blocks
    {
      assert OrphanAt(env, slot, b.root);
    }
  }

  lemma {:induction false} ImportTakes(env: Env, st: PlanState, infos: seq<Block>, minSlot: uint64, out: seq<Block>,
                                       f: Found)
    requires ValidEnv(env) && f == ImportOrphans(env, st, infos, minSlot, out)
    requires Ascends(out + infos, BlockBefore) && DistinctRoots(infos)
    requires forall b :: b in infos ==> Orphan(env, b) && minSlot <= b.slot
    ensures forall b :: b in f.blocks <==>
      b in out || (b in infos && b.root !in st.imported && b.root !in st.scheduled)
    ensures Ascends(f.blocks, BlockBefore)
    ensures f.st == st.(imported := f.st.imported)
    ensures forall r :: r in f.st.imported <==>
      r in st.imported || (r !in st.scheduled && exists b :: b in infos && b.root == r)
    decreases |infos|
  {
    hide Ascends, Orphan, ValidEnv, DistinctRoots;
    if infos == [] {
      assert out + infos == out;
    } else {
      var info, rest := infos[0], infos[1..];
      FirstOfDistinct(infos);
      assert RootKnown(env, st, info.root) <==> info.root in st.imported by {
        OrphanNotShown(env, st.visible, info);
      }
      hide RootKnown;
      if info.root in st.imported || info.root in st.scheduled {
        SkipAscends(out, info, rest);
        ImportTakes(env, st, rest, minSlot, out, f);
      } else {
        assert out + infos == (out + [info]) + rest;
        ImportTakes(env, st.(imported := st.imported + {info.root}), rest, minSlot, out + [info], f);
      }
    }
  }

  lemma FirstOfDistinct(infos: seq<Block>)
    requires infos != [] && DistinctRoots(infos)
    ensures infos == [infos[0]] + infos[1..] && DistinctRoots(infos[1..])
    ensures forall b :: b in infos <==> b == infos[0] || b in infos[1..]
    ensures forall b :: b in infos[1..] ==> b.root != infos[0].root
  {
  }

  lemma SkipAscends(out: seq<Block>, x: Block, rest: seq<Block>)
    requires Ascends(out + ([x] + rest), BlockBefore)
    ensures Ascends(out + rest, BlockBefore)
  {
    var all := out + ([x] + rest);
    forall i, j | 0 <= i < j < |out + rest|
      ensures BlockBefore((out + rest)[i], (out + rest)[j])
    {
      var k := if i < |out| then i else i + 1;
      var l := if j < |out| then j else j + 1;
      assert all[k] == (out + rest)[i] && all[l] == (out + rest)[j];
    }
  }

  /** The imports of a slot from its list, in order: exactly the orphans listed there that are not ignored, imported or
      scheduled. */
  lemma SlotOrphansExact(env: Env, st: PlanState, slot: uint64, minSlot: uint64) returns (f: Found)
    requires ValidEnv(env) && StateOk(env, st) && !env.era(slot).Unreadable? && minSlot <= slot
    ensures SlotOrphans(env, st, slot, minSlot) == Some(f) && Searched(env, st, f.st, slot)
    ensures Ascends(f.blocks, BlockBefore)
    ensures forall b :: b in f.blocks <==>
      ListedHere(env, st, slot, b) && b.root !in st.imported && b.root !in st.scheduled
    ensures forall r :: r in f.st.imported <==>
      r in st.imported || (r !in st.scheduled && exists b :: ListedHere(env, st, slot, b) && b.root == r)
  {
    hide OrphanInfos, ImportOrphans;
    var g := InfosExact(env, st, slot);
    f := ImportOrphans(env, g.st, g.blocks, minSlot, []);
    assert [] + g.blocks == g.blocks;
    ImportTakes(env, g.st, g.blocks, minSlot, [], f);
  }

  // ----- looking at the sources

  ghost function AfterSources(env: Env, st: PlanState, sources: seq<Source>): Option<PlanState>
    decreases |sources|
  {
    if sources == [] then Some(st)
    else
      match SourceInfos(env, st, sources[0].slot)
      case None => None
      case Some(f) => AfterSources(env, f.st, sources[1..])
  }

  /** The root is listed at one of these sources, and its block sits at another slot. */
  ghost predicate MisplacedAt(env: Env, st: PlanState, sources: seq<Source>, r: Root) {
    exists i :: 0 <= i < |sources| && r in OrphansAt(st, sources[i].slot) && Elsewhere(env, sources[i].slot, r)
  }

  /** What looking at the sources changes. */
  ghost predicate SourcesSearched(env: Env, st: PlanState, st': PlanState, sources: seq<Source>) {
    && StateOk(env, st') && st.visible <= st'.visible && st.ignored <= st'.ignored && st'.imported == st.imported
    && st'.scheduled == st.scheduled && st'.orphans == st.orphans && st'.truncations == st.truncations
    && (forall r :: r in st'.ignored ==> r in st.ignored || Shut(env, r) || MisplacedAt(env, st, sources, r))
    && (forall r :: MisplacedAt(env, st, sources, r) ==> r in st'.ignored)
  }

  lemma MisplacedSplit(env: Env, st: PlanState, st': PlanState, sources: seq<Source>, r: Root)
    requires sources != [] && st'.orphans == st.orphans
    ensures MisplacedAt(env, st, sources, r) <==>
      (r in OrphansAt(st, sources[0].slot) && Elsewhere(env, sources[0].slot, r))
      || MisplacedAt(env, st', sources[1..], r)
  {
    var rest := sources[1..];
    if MisplacedAt(env, st, sources, r) {
      var i :| 0 <= i < |sources| && r in OrphansAt(st, sources[i].slot) && Elsewhere(env, sources[i].slot, r);
      if i > 0 {
        assert rest[i - 1] == sources[i];
      }
    }
    if MisplacedAt(env, st', rest, r) {
      var i :| 0 <= i < |rest| && r in OrphansAt(st', rest[i].slot) && Elsewhere(env, rest[i].slot, r);
      assert sources[i + 1] == rest[i];
    }
  }

  lemma SourceShown(env: Env, st: PlanState, sources: seq<Source>) returns (f: Found)
    requires ValidEnv(env) && StateOk(env, st) && sources != [] && SourcesShown(env, st, sources)
    ensures SourceInfos(env, st, sources[0].slot) == Some(f) && f.blocks != []
    ensures Searched(env, st, f.st, sources[0].slot) && f.st.imported == st.imported
    ensures SourcesShown(env, f.st, sources[1..])
  {
    assert sources[0] == sources[0] && sources[0].slot in st.visible;
    var g := InfosExact(env, st, sources[0].slot);
    f := SourceInfos(env, st, sources[0].slot).value;
  }

  /** Existing sources can always be looked at. */
  lemma {:induction false} SourcesLooked(env: Env, st: PlanState, sources: seq<Source>) returns (st': PlanState)
    requires ValidEnv(env) && StateOk(env, st) && SourcesShown(env, st, sources)
    ensures AfterSources(env, st, sources) == Some(st') && SourcesSearched(env, st, st', sources)
    decreases |sources|
  {
    hide SourceInfos, StateOk, MisplacedAt, Shut, Elsewhere, SourcesShown;
    if sources == [] {
      st' := st;
      NothingMisplaced(env, st);
    } else {
      var f := SourceShown(env, st, sources);
      assert StateOk(env, f.st);
      st' := SourcesLooked(env, f.st, sources[1..]);
      forall r
        ensures MisplacedAt(env, st, sources, r) <==>
          (r in OrphansAt(st, sources[0].slot) && Elsewhere(env, sources[0].slot, r))
          || MisplacedAt(env, f.st, sources[1..], r)
      {
        MisplacedSplit(env, st, f.st, sources, r);
      }
    }
  }

  lemma NothingMisplaced(env: Env, st: PlanState)
    ensures forall r :: !MisplacedAt(env, st, [], r)
  {
  }

  lemma {:induction false} SourceVotesAfter(env: Env, st: PlanState, sources: seq<Source>, seen: set<Root>,
                                            out: seq<Attestation>)
    ensures var v, after := SourceVotes(env, st, sources, seen, out), AfterSources(env, st, sources);
      (v.Some? <==> after.Some?) && (v.Some? ==> v.value.st == after.value)
    decreases |sources|
  {
    hide SourceInfos, Dedup, Attestations;
    if sources != [] && SourceInfos(env, st, sources[0].slot).Some? {
      var f := SourceInfos(env, st, sources[0].slot).value;
      var next := Dedup(Attestations(f.blocks), sources[0].maxAttestationSlot, seen, out);
      SourceVotesAfter(env, f.st, sources[1..], next.1, next.0);
    }
  }

  // ----- the roots voted for by the sources

  /** A vote at one of the sources names the root. */
  ghost predicate NamedAtSource(env: Env, st: PlanState, sources: seq<Source>, r: Root) {
    exists i, att :: 0 <= i < |sources| && VoteAtSource(env, st, sources, i, att) && Names(att, r)
  }

  ghost predicate Names(att: Attestation, r: Root) {
    r != ZERO_ROOT && (r == att.targetRoot || r == att.beaconBlockRoot)
  }

  lemma NamedSplit(env: Env, st: PlanState, sources: seq<Source>, f: Found, r: Root)
    requires ValidEnv(env) && StateOk(env, st) && sources != [] && SourcesShown(env, st, sources)
    requires SourceInfos(env, st, sources[0].slot) == Some(f)
    ensures NamedAtSource(env, st, sources, r) <==>
      || (exists att :: att in Attestations(f.blocks) && WithinMax(att, sources[0].maxAttestationSlot) && Names(att, r))
      || NamedAtSource(env, f.st, sources[1..], r)
  {
    hide AtSource, ProperlyListed, VoteAtSource, SourceInfos, Names, WithinMax, Attestations, SourcesShown;
    SourceShowsAll(env, st, sources, f);
    var rest := sources[1..];
    if NamedAtSource(env, st, sources, r) {
      var i, att :| 0 <= i < |sources| && VoteAtSource(env, st, sources, i, att) && Names(att, r);
      if i == 0 {
        FirstVotes(env, st, sources, f, att);
      } else {
        LaterVotes(env, st, sources, f.st, i, att);
        assert VoteAtSource(env, f.st, rest, i - 1, att);
      }
    }
    if att :| att in Attestations(f.blocks) && WithinMax(att, sources[0].maxAttestationSlot) && Names(att, r) {
      FirstVotes(env, st, sources, f, att);
      assert VoteAtSource(env, st, sources, 0, att);
    }
    if NamedAtSource(env, f.st, rest, r) {
      var k, att :| 0 <= k < |rest| && VoteAtSource(env, f.st, rest, k, att) && Names(att, r);
      LaterVotes(env, st, sources, f.st, k + 1, att);
      assert VoteAtSource(env, st, sources, k + 1, att);
    }
  }

  /** What is no longer fresh stays so. */
  lemma FreshBefore(env: Env, st: PlanState, st': PlanState, r: Root)
    requires st'.imported == st.imported && st'.scheduled == st.scheduled
    requires st.visible <= st'.visible && st.ignored <= st'.ignored && StateOk(env, st) && !Shut(env, r)
    requires ValidEnv(env) && Fresh(env, st', r)
    ensures Fresh(env, st, r)
  {
  }

  /** The roots collected are voted for at the sources, and those that are fresh afterwards are all collected. */
  lemma {:induction false} SourceRootsExact(env: Env, st: PlanState, sources: seq<Source>, roots: set<Root>,
                                            st': PlanState) returns (rs: Roots)
    requires ValidEnv(env) && StateOk(env, st) && SourcesShown(env, st, sources)
    requires AfterSources(env, st, sources) == Some(st') && SourcesSearched(env, st, st', sources)
    ensures SourceRoots(env, st, sources, roots) == Some(rs) && rs.st == st'
    ensures forall r :: r in rs.roots ==> r in roots || NamedAtSource(env, st, sources, r)
    ensures roots <= rs.roots
    ensures forall r :: NamedAtSource(env, st, sources, r) && Fresh(env, st', r) && !Shut(env, r) ==> r in rs.roots
    decreases |sources|
  {
    hide SourceInfos, StateOk, Shut, Elsewhere, SourcesShown, NamedAtSource, Fresh, FreshRoots, Attestations;
    if sources == [] {
      rs := Roots(roots, st);
      NobodyNamed(env, st);
    } else {
      var f := SourceShown(env, st, sources);
      assert StateOk(env, f.st);
      var after := SourcesLooked(env, f.st, sources[1..]);
      var more := roots + FreshRoots(env, f.st, Attestations(f.blocks), sources[0].maxAttestationSlot);
      rs := SourceRootsExact(env, f.st, sources[1..], more, st');
      forall r
        ensures r in rs.roots ==> r in roots || NamedAtSource(env, st, sources, r)
        ensures NamedAtSource(env, st, sources, r) && Fresh(env, st', r) && !Shut(env, r) ==> r in rs.roots
      {
        NamedSplit(env, st, sources, f, r);
        FreshNamed(env, f.st, Attestations(f.blocks), sources[0].maxAttestationSlot, r);
        if Fresh(env, st', r) && !Shut(env, r) {
          FreshBefore(env, f.st, st', r);
        }
      }
    }
  }

  lemma FreshNamed(env: Env, st: PlanState, atts: seq<Attestation>, max: Option<uint64>, r: Root)
    ensures r in FreshRoots(env, st, atts, max) <==>
      Fresh(env, st, r) && exists att :: att in atts && WithinMax(att, max) && Names(att, r)
  {
    if Fresh(env, st, r) && exists att :: att in atts && WithinMax(att, max) && Names(att, r) {
      var att :| att in atts && WithinMax(att, max) && Names(att, r);
      assert r in {att.targetRoot, att.beaconBlockRoot};
    }
  }

  lemma NobodyNamed(env: Env, st: PlanState)
    ensures forall r :: !NamedAtSource(env, st, [], r)
  {
  }
}
