/** The planning backend: whole plans and single-slot instructions over the shared canonical index. */
module RealBackend {
  import opened Core
  import opened SlotRanges
  import opened Blocks
  import opened CanonicalIndex
  import opened CanonicalViews
  import opened Sorting
  import opened AttPlan
  import opened PlanSpec
  import opened PlanSteps
  import opened PlanBuild
  import opened SourceAgreement
  import CacheExact
  import PlanMeaning
  import SlotMeaning

  // ----- attestation sources

  method FirstNonMissedSource(blockExists: set<uint64>, simSlot: uint64, lookaheadCap: uint64)
    returns (r: Option<uint64>)
    requires lookaheadCap >= 1
    ensures r == if lookaheadCap > MAX_UINT64 - simSlot then None
                 else var found := Existing(blockExists, simSlot + 1, simSlot + lookaheadCap);
                   if found == [] then None else Some(found[0])
  {
    if lookaheadCap > MAX_UINT64 - simSlot {
      return None;
    }
    var end := simSlot + lookaheadCap;
    var slot := simSlot + 1;
    while true
      invariant simSlot + 1 <= slot <= end
      invariant Existing(blockExists, simSlot + 1, end) == Existing(blockExists, slot, end)
      decreases end - slot
    {
      if slot in blockExists {
        return Some(slot);
      }
      if slot == end {
        break;
      }
      slot := slot + 1;
    }
    return None;
  }

  lemma ExistingNext(blocks: set<uint64>, found: seq<uint64>, slot: uint64, end: uint64)
    requires slot <= end
    ensures found + Existing(blocks, slot, end)
      == (if slot in blocks then found + [slot] else found) + Existing(blocks, slot + 1, end)
    ensures slot == end ==> found + Existing(blocks, slot, end) == if slot in blocks then found + [slot] else found
  {
    var rest := Existing(blocks, slot + 1, end);
    assert Existing(blocks, slot, end) == (if slot in blocks then [slot] else []) + rest;
    assert slot == end ==> rest == [];
    hide Existing;
    if slot in blocks {
      assert found + ([slot] + rest) == (found + [slot]) + rest;
    } else {
      assert [] + rest == rest;
    }
  }

  lemma BoundedNext(found: seq<uint64>, slot: uint64, evalSlot: uint64)
    ensures Bounded(found + [slot], evalSlot) == Bounded(found, evalSlot) + [Source(slot, Some(evalSlot))]
  {
  }

  /** Every existing slot of the window, with a bound on the votes taken from it; the scan also stops at MaxUint64. */
  method GreedySources(blockExists: set<uint64>, simSlot: uint64, lookaheadCap: uint64, evalSlot: uint64)
    returns (sources: seq<Source>)
    requires lookaheadCap >= 1
    ensures sources == Sources(blockExists, simSlot, GreedyLookahead, lookaheadCap, evalSlot)
  {
    if lookaheadCap > MAX_UINT64 - simSlot {
      return [];
    }
    hide Existing, Bounded;
    var end := simSlot + lookaheadCap;
    var slot := simSlot + 1;
    ghost var found: seq<uint64> := [];
    sources := [];
    while true
      invariant simSlot + 1 <= slot <= end
      invariant sources == Bounded(found, evalSlot)
      invariant Existing(blockExists, simSlot + 1, end) == found + Existing(blockExists, slot, end)
      decreases end - slot
    {
      ExistingNext(blockExists, found, slot, end);
      if slot in blockExists {
        BoundedNext(found, slot, evalSlot);
        sources := sources + [Source(slot, Some(evalSlot))];
        found := found + [slot];
      }
      if slot == end {
        break;
      }
      slot := slot + 1;
    }
  }

  /** The planner's own choice of source slots. */
  method PlanSourcesForSlot(blockExists: set<uint64>, simSlot: uint64, mode: Mode, lookaheadCap: uint64,
                            evalSlot: uint64)
    returns (sources: seq<Source>)
    requires mode == NextNonMissed || mode == GreedyLookahead ==> lookaheadCap >= 1
    ensures sources == Sources(blockExists, simSlot, mode, lookaheadCap, evalSlot)
    ensures SourcesOk(blockExists, simSlot, mode, lookaheadCap, evalSlot, sources)
  {
    SourcesArePromised(blockExists, simSlot, mode, lookaheadCap, evalSlot);
    hide SourcesOk;
    match mode {
      case NextNonMissed =>
        var source := FirstNonMissedSource(blockExists, simSlot, lookaheadCap);
        if source.None? {
          return [];
        }
        return [Source(source.value, None)];
      case StrictKMinus1 =>
        var source := CheckedAdd(simSlot, 1);
        if source.None? || source.value !in blockExists {
          return [];
        }
        return [Source(source.value, None)];
      case GreedyLookahead =>
        sources := GreedySources(blockExists, simSlot, lookaheadCap, evalSlot);
      case FirstSeenGossip => return [];
      case Unsupported(_) => return [];
    }
  }

  class Backend {
    const env: Env
    const index: CanonicalBlockIndex

    ghost predicate Valid()
      reads this, index
    {
      ValidEnv(env) && index.Valid() && index.era == env.era
    }

    constructor (env: Env, others: nat)
      requires ValidEnv(env)
      ensures Valid() && this.env == env && fresh(index)
    {
      this.env := env;
      index := new CanonicalBlockIndex(env.era, others);
    }

    /** One iteration of BuildPlan's loop. */
    method ScheduleSlot(state: PlanBuildState, blockExists: set<uint64>, simSlot: uint64, from: uint64, to: uint64,
                        out0: seq<PlanEntry>, pending0: map<uint64, seq<Block>>)
      returns (ok: bool, out: seq<PlanEntry>, pending: map<uint64, seq<Block>>)
      requires state.Valid() && state.env == env
      requires (env.mode == NextNonMissed || env.mode == GreedyLookahead ==> env.cap >= 1)
      modifies state.Repr()
      ensures state.Valid()
      ensures PlanSlot(env, Planning(out0, pending0, old(state.State())), blockExists, simSlot, from, to)
           == if ok then Some(Planning(out, pending, state.State())) else None
    {
      hide Valid, PlanBuildState.Valid, PlanBuildState.State, SlotOrphans, ImportPending, SourceImports, Sources,
        CanonicalImport, SortBlocks;
      ok, out, pending := false, out0, pending0;
      var evalSlot := SaturatingAdd(simSlot, 1);
      var sources := PlanSourcesForSlot(blockExists, simSlot, env.mode, env.cap, evalSlot);
      var imports := state.ImportCanonicalBlock(simSlot);
      var listed := state.ArchiveOrphanImportsForSlot(simSlot, from);
      if listed.None? {
        return;
      }
      imports := imports + OrphanImports(listed.value);
      var deferred := state.ImportPendingBlocks(SortBlocks(PendingAt(pending, simSlot)));
      imports := imports + OrphanImports(deferred);
      if PendingAt(pending, simSlot) != [] {
        pending := pending - {simSlot};
      }
      var placed;
      placed, pending := state.OrphanImportsForSources(sources, simSlot, evalSlot, from, to, pending);
      if placed.None? {
        return;
      }
      imports := imports + OrphanImports(placed.value);
      ok := true;
      out := out + [PlanEntry(simSlot, evalSlot, imports, sources, if sources == [] then None
        else Some(sources[0].slot))];
    }

    /** Loads a window of the index and copies it. */
    method LoadCanonicalBlockInfos(from: uint64, to: uint64) returns (m: Option<CanonicalBlockMap>)
      requires Valid()
      modifies index
      ensures Valid()
      ensures m.Some? <==> from > to || Readable(env.era, from, to)
      ensures m.Some? ==>
        fresh(m.value) && m.value.Valid() && m.value.era == env.era
        && m.value.Visible() == PresentIn(env.era, Window(from, to))
    {
      hide Normal, Agrees, Slots;
      if from > to {
        var empty := new CanonicalBlockMap(env.era, map[], map[]);
        return Some(empty);
      }
      var ok := index.EnsureRange(from, to);
      if !ok {
        return None;
      }
      index.Others(None);
      var bySlot, byRoot := index.SnapshotRange(from, to);
      WindowLoaded(Slots(index.loaded), from, to);
      var copy := new CanonicalBlockMap(env.era, bySlot, byRoot);
      return Some(copy);
    }

    /** The state before the first slot: checkpoint blocks and the block right before the plan count as imported. */
    method StartPlan(copy: CanonicalBlockMap, from: uint64, to: uint64) returns (state: PlanBuildState)
      requires Valid() && copy.Valid() && copy.era == env.era && copy.Visible() == PlanVisible(env, from, to)
      ensures fresh(state) && state.Valid() && state.env == env && state.Repr() == {state, index, copy}
      ensures Planning([], map[], state.State()) == PlanStart(env, from, to)
    {
      hide Normal, Agrees, Slots, PresentIn, Window, ClonedOrphans;
      var imported := env.checkpoints;
      if from > 0 && copy.InfoBySlot(from - 1).Some? {
        imported := imported + {copy.InfoBySlot(from - 1).value.root};
      }
      state := new PlanBuildState(env, index, AsMap(copy), imported);
    }

    /** A whole plan: exactly what the reference function says, whatever the index had loaded before, and where blocks
        are newer than their parents, what a plan means over the era files and the archive. */
    method BuildPlan(from: uint64, to: uint64) returns (r: Option<seq<PlanEntry>>)
      requires Valid()
      modifies index
      ensures Valid()
      ensures r == match PlanSpec.BuildPlan(env, from, to) case None => None case Some(p) => Some(p.out)
      ensures CacheExact.World(env) ==> PlanMeaning.PlanMeans(env, from, to, r)
    {
      hide CacheExact.World, PlanMeaning.PlanMeans, ValidEnv, CanonicalBlockIndex.Valid, PlanSlots, PlanStart, Readable;
      if PlanRejected(env, from, to) {
        r := None;
      } else {
        r := AnswerPlan(from, to);
      }
      if CacheExact.World(env) {
        PlanMeaning.PlanIsMeant(env, from, to);
      }
    }

    /** The plan for a question that is allowed. */
    method AnswerPlan(from: uint64, to: uint64) returns (r: Option<seq<PlanEntry>>)
      requires Valid() && !PlanRejected(env, from, to)
      modifies index
      ensures Valid()
      ensures r == match PlanSpec.BuildPlan(env, from, to) case None => None case Some(p) => Some(p.out)
    {
      hide ValidEnv, CanonicalBlockIndex.Valid, PresentIn, Window, PlanSlots, PlanStart, Readable;
      var copy := LoadCanonicalBlockInfos(LoadStart(from), SaturatingAdd(to, env.cap));
      if copy.None? {
        return None;
      }
      var state := StartPlan(copy.value, from, to);
      r := ScheduleSlots(state, copy.value.bySlot.Keys, from, to);
      assert Valid();
    }

    method ScheduleSlots(state: PlanBuildState, blockExists: set<uint64>, from: uint64, to: uint64)
      returns (r: Option<seq<PlanEntry>>)
      requires state.Valid() && state.env == env && from <= to
      requires env.mode == NextNonMissed || env.mode == GreedyLookahead ==> env.cap >= 1
      modifies state.Repr()
      ensures state.Valid()
      ensures r == match PlanSlots(env, Planning([], map[], old(state.State())), blockExists, from, from, to)
        case None => None case Some(p) => Some(p.out)
    {
      hide PlanSlot, PlanBuildState.Valid, PlanBuildState.State;
      var out: seq<PlanEntry>, pending: map<uint64, seq<Block>> := [], map[];
      var simSlot := from;
      ghost var expected := PlanSlots(env, Planning([], map[], state.State()), blockExists, from, from, to);
      while simSlot < to
        invariant simSlot <= to
        invariant state.Valid()
        invariant expected == PlanSlots(env, Planning(out, pending, state.State()), blockExists, simSlot, from, to)
        decreases (to as int) - (simSlot as int)
      {
        var ok;
        ok, out, pending := ScheduleSlot(state, blockExists, simSlot, from, to, out, pending);
        if !ok {
          return None;
        }
        simSlot := simSlot + 1;
      }
      return Some(out);
    }

    /** The source slots that exist, looked up one by one in the view. */
    method ExistingSources(view: CanonicalBlockView, simSlot: uint64, loadEnd: uint64)
      returns (blockExists: set<uint64>)
      requires view.Valid() && simSlot <= loadEnd
      modifies view.index
      ensures view.Valid() && view.Visible() == old(view.Visible())
      ensures blockExists == view.Visible() * Window(SaturatingAdd(simSlot, 1), loadEnd)
    {
      hide Normal, Tracked, Agrees, Slots, PresentIn;
      blockExists := {};
      var slot := SaturatingAdd(simSlot, 1);
      while slot <= loadEnd
        invariant SaturatingAdd(simSlot, 1) <= slot
        invariant view.Valid() && view.Visible() == old(view.Visible())
        invariant forall s: uint64 :: s in blockExists <==>
          SaturatingAdd(simSlot, 1) <= s < slot && s <= loadEnd && s in view.Visible()
        decreases (loadEnd as int) - (slot as int)
      {
        view.index.Others(None);
        var info := view.InfoBySlot(slot);
        VisibleIsShown(view, slot);
        if info.Some? {
          blockExists := blockExists + {slot};
        }
        if slot == MAX_UINT64 {
          break;
        }
        slot := slot + 1;
      }
    }

    /** The votes of a slot. */
    method SlotAttestations(state: PlanBuildState, blockExists: set<uint64>, simSlot: uint64)
      returns (r: Option<seq<Attestation>>)
      requires state.Valid() && state.env == env
      requires env.mode == NextNonMissed || env.mode == GreedyLookahead ==> env.cap >= 1
      requires blockExists == state.State().visible * Window(SaturatingAdd(simSlot, 1), SlotLoadEnd(env, simSlot))
      modifies state.Repr()
      ensures state.Valid()
      ensures match SlotVotes(env, old(state.State()), simSlot)
              case None => r.None?
              case Some(v) => r == Some(v.attestations) && state.State() == v.st
    {
      hide PlanBuildState.Valid, PlanBuildState.State, Window, Sources, SourceVotes;
      if env.mode == FirstSeenGossip {
        if env.firstSeen.None? {
          return None;
        }
        return env.firstSeen.value(simSlot);
      }
      var sources := PlanSourcesForSlot(blockExists, simSlot, env.mode, SlotCap(env), SaturatingAdd(simSlot, 1));
      r := state.AttestationsFromSources(sources);
    }

    /** The imports and votes of one slot, on a state opened for it. */
    method InstructSlot(state: PlanBuildState, blockExists: set<uint64>, simSlot: uint64, minImportSlot: uint64)
      returns (r: Option<SlotInstruction>)
      requires ValidEnv(env) && state.Valid() && state.env == env
      requires env.mode == NextNonMissed || env.mode == GreedyLookahead ==> env.cap >= 1
      requires minImportSlot <= simSlot
      requires blockExists == state.State().visible * Window(SaturatingAdd(simSlot, 1), SlotLoadEnd(env, simSlot))
      requires StateOk(env, state.State())
      requires PresentIn(env.era, Window(minImportSlot, SlotLoadEnd(env, simSlot))) <= state.State().visible
      modifies state.Repr()
      ensures state.Valid()
      ensures r == SlotInstructed(env, old(state.State()), simSlot, minImportSlot)
    {
      hide ValidEnv, PlanBuildState.Valid, PlanBuildState.State, Window, PresentIn, StateOk, CanonicalImport,
        SlotOrphans, SlotVotes, VoteImports;
      var imports := state.ImportCanonicalBlock(simSlot);
      var listed := state.ArchiveOrphanImportsForSlot(simSlot, minImportSlot);
      if listed.None? {
        return None;
      }
      imports := imports + OrphanImports(listed.value);
      SameSources(env, old(state.State()), simSlot, minImportSlot, Found(listed.value, state.State()));
      var attestations := SlotAttestations(state, blockExists, simSlot);
      if attestations.None? {
        return None;
      }
      var voted := state.OrphanImportsForSlotAttestations(attestations.value, simSlot, minImportSlot);
      if voted.None? {
        return None;
      }
      imports := imports + OrphanImports(voted.value);
      return Some(SlotInstruction(simSlot, SaturatingAdd(simSlot, 1), imports, attestations.value));
    }

    /** The instruction for one slot. It depends on the configuration, the era files and the archive alone: for every
        state of the shared index the answer is that of the reference function, so also that of a fresh backend, and
        where blocks are newer than their parents, what an answer means over the era files and the archive. */
    method BuildSlot(simSlot: uint64, warmupStart: uint64) returns (r: Option<SlotInstruction>)
      requires Valid()
      modifies index
      ensures Valid()
      ensures r == PlanSpec.BuildSlot(env, simSlot, warmupStart)
      ensures CacheExact.World(env) ==> SlotMeaning.SlotMeans(env, simSlot, warmupStart, r)
    {
      hide CacheExact.World, SlotMeaning.SlotMeans, ValidEnv, CanonicalBlockIndex.Valid, SlotInstructed, Readable,
        SlotStart;
      if SlotRejected(env, simSlot, warmupStart) {
        r := None;
      } else {
        r := AnswerSlot(simSlot, warmupStart);
      }
      if CacheExact.World(env) {
        SlotMeaning.SlotIsMeant(env, simSlot, warmupStart);
      }
    }

    /** The answer to a question that is allowed. */
    method AnswerSlot(simSlot: uint64, warmupStart: uint64) returns (r: Option<SlotInstruction>)
      requires Valid() && !SlotRejected(env, simSlot, warmupStart)
      modifies index
      ensures Valid()
      ensures r == PlanSpec.BuildSlot(env, simSlot, warmupStart)
    {
      hide ValidEnv, CanonicalBlockIndex.Valid, PresentIn, Window, SlotInstructed, Readable, SlotStart, StateOk, Normal,
        Slots, Agrees;
      var minImportSlot := warmupStart + 1;
      var loadEnd := SlotLoadEnd(env, simSlot);
      var state, blockExists := OpenSlot(simSlot, warmupStart);
      if state.None? {
        return None;
      }
      SlotStartOk(env, simSlot, warmupStart);
      r := InstructSlot(state.value, blockExists, simSlot, minImportSlot);
      assert Valid();
    }

    /** Loads the window of a slot and opens a state on a view of it. */
    method OpenSlot(simSlot: uint64, warmupStart: uint64) returns (r: Option<PlanBuildState>, blockExists: set<uint64>)
      requires Valid() && warmupStart < simSlot
      modifies index
      ensures Valid()
      ensures r.Some? <==> Readable(env.era, warmupStart + 1, SlotLoadEnd(env, simSlot))
      ensures r.Some? ==> r.value.Valid() && r.value.env == env && fresh(r.value.Repr() - {index})
      ensures r.Some? ==> r.value.State() == SlotStart(env, simSlot, warmupStart)
      ensures r.Some? ==>
        blockExists == r.value.State().visible * Window(SaturatingAdd(simSlot, 1), SlotLoadEnd(env, simSlot))
    {
      hide Normal, Agrees, Slots, ClonedOrphans, Window, PresentIn, Holds, ValidEra;
      var minImportSlot, loadEnd := warmupStart + 1, SlotLoadEnd(env, simSlot);
      var ok := index.EnsureRange(minImportSlot, loadEnd);
      if !ok {
        return None, {};
      }
      var view := new CanonicalBlockView(index, minImportSlot, loadEnd);
      blockExists := ExistingSources(view, simSlot, loadEnd);
      var state := new PlanBuildState(env, index, AsView(view), env.checkpoints);
      return Some(state), blockExists;
    }

    lemma VisibleIsShown(view: CanonicalBlockView, slot: uint64)
      requires view.Valid()
      ensures slot in view.Visible() <==> ShownAt(view.index.era, view.Visible(), slot).Some?
    {
    }
  }

  /** The lookups before the votes show no further block in the window of the sources. */
  lemma SameSources(env: Env, st: PlanState, simSlot: uint64, minSlot: uint64, listed: Found)
    requires ValidEnv(env) && StateOk(env, st) && minSlot <= simSlot
    requires PresentIn(env.era, Window(minSlot, SlotLoadEnd(env, simSlot))) <= st.visible
    requires SlotOrphans(env, CanonicalImport(env, st, simSlot).1, simSlot, minSlot) == Some(listed)
    ensures var w := Window(SaturatingAdd(simSlot, 1), SlotLoadEnd(env, simSlot));
      st.visible * w == listed.st.visible * w
  {
    SlotOrphansShape(env, CanonicalImport(env, st, simSlot).1, simSlot, minSlot, listed);
    ShownAlike(env.era, st.visible, listed.st.visible, minSlot, SaturatingAdd(simSlot, 1), SlotLoadEnd(env, simSlot));
  }

  lemma ShownAlike(era: Era, a: set<uint64>, b: set<uint64>, lo: uint64, from: uint64, to: uint64)
    requires lo <= from && PresentIn(era, Window(lo, to)) <= a <= b
    requires forall s :: s in b ==> era(s).Present?
    ensures a * Window(from, to) == b * Window(from, to)
  {
  }

  lemma SlotStartOk(env: Env, simSlot: uint64, warmupStart: uint64)
    requires warmupStart < simSlot
    ensures StateOk(env, SlotStart(env, simSlot, warmupStart))
    ensures PresentIn(env.era, Window(warmupStart + 1, SlotLoadEnd(env, simSlot))) <= SlotStart(env, simSlot,
      warmupStart).visible
  {
  }

  lemma WindowLoaded(slots: set<uint64>, from: uint64, to: uint64)
    requires Window(from, to) <= slots
    ensures slots * Window(from, to) == Window(from, to)
  {
  }
}
