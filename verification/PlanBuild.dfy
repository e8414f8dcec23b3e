/** The planner's mutable state and its methods, each proved to compute its function in PlanSpec. */
module PlanBuild {
  import opened Core
  import opened SlotRanges
  import opened Blocks
  import opened CanonicalIndex
  import opened CanonicalViews
  import opened Sorting
  import opened Sorts
  import opened AttPlan
  import opened PlanSpec

  /** A method answered as the function says: an error for an error, else the same blocks and the same state. */
  ghost predicate Answers(expected: Option<Found>, actual: Option<seq<Block>>, st: PlanState) {
    match expected
    case None => actual.None?
    case Some(f) => actual == Some(f.blocks) && st == f.st
  }

  lemma WalkCut(env: Env, st: PlanState, current: Root, seen: set<Root>, chain: seq<Block>, evalSlot: uint64)
    ensures WalkUp(env, st, current, seen, chain, evalSlot, 0) == Some(Walk(chain, true, st))
  {
  }

  /** The branches of one round of a walk. */
  lemma WalkRound(env: Env, st: PlanState, current: Root, seen: set<Root>, chain: seq<Block>, evalSlot: uint64,
                  fuel: nat)
    requires fuel > 0
    ensures var walk := WalkUp(env, st, current, seen, chain, evalSlot, fuel);
      if current == ZERO_ROOT || RootKnown(env, st, current) || current in st.missing || current in seen
        then walk == Some(Walk(chain, false, st))
      else match env.archive(current)
        case None => walk == Some(Walk(chain, false, st.(missing := st.missing + {current})))
        case Some(info) =>
          var st1 := st.(fetched := st.fetched + {current});
          if info.slot > evalSlot then walk == Some(Walk(chain, false, st1))
          else match Judge(env, st1, info)
            case None => walk == None
            case Some(v) =>
              walk == if v.canonical then Some(Walk(chain, false, v.st))
                      else WalkUp(env, v.st.(orphans := AppendOrphan(v.st.orphans, info.slot, info.root)),
                        info.parentRoot,
                                  seen + {current}, chain + [info], evalSlot, fuel - 1)
  {
  }

  lemma GatherNone(env: Env, st: PlanState, slot: uint64, seen: set<Root>, infos: seq<Block>)
    ensures GatherOrphans(env, st, slot, [], seen, infos) == Some(Found(infos, st))
  {
  }

  /** The branches of one round of the search for the orphans listed at a slot. */
  lemma GatherRound(env: Env, st: PlanState, slot: uint64, roots: seq<Root>, seen: set<Root>, infos: seq<Block>)
    requires roots != []
    ensures var root, rest := roots[0], roots[1..];
      var gathered := GatherOrphans(env, st, slot, roots, seen, infos);
      if root == ZERO_ROOT || root in seen || root in st.missing || root in st.ignored
        then gathered == GatherOrphans(env, st, slot, rest, seen, infos)
      else match env.archive(root)
        case None => gathered
          == GatherOrphans(env, st.(missing := st.missing + {root}), slot, rest, seen + {root}, infos)
        case Some(info) =>
          var st1 := st.(fetched := st.fetched + {root});
          if info.slot != slot
            then gathered == GatherOrphans(env, st1.(ignored := st1.ignored + {root}), slot, rest, seen + {root}, infos)
          else match Judge(env, st1, info)
            case None => gathered == None
            case Some(v) =>
              gathered == if v.canonical
                then GatherOrphans(env, v.st.(ignored := v.st.ignored + {root}), slot, rest, seen + {root}, infos)
                          else GatherOrphans(env, v.st, slot, rest, seen + {root}, infos + [info])
  {
  }

  lemma PlaceNone(env: Env, p: Placing, simSlot: uint64, evalSlot: uint64, minSlot: uint64, planEnd: uint64)
    ensures PlaceRoots(env, p, [], simSlot, evalSlot, minSlot, planEnd) == Some(p)
  {
  }

  lemma PlaceRound(env: Env, p: Placing, roots: seq<Root>, simSlot: uint64, evalSlot: uint64, minSlot: uint64,
                   planEnd: uint64)
    requires roots != []
    ensures var placed := PlaceRoots(env, p, roots, simSlot, evalSlot, minSlot, planEnd);
      if !Fresh(env, p.st, roots[0]) then placed == PlaceRoots(env, p, roots[1..], simSlot, evalSlot, minSlot, planEnd)
      else match ResolveChain(env, p.st, roots[0], evalSlot)
        case None => placed == None
        case Some(f) =>
          placed == PlaceRoots(env,
          PlaceChain(env, Placing(p.infos, p.pending, f.st), f.blocks, simSlot, minSlot, planEnd),
                                             roots[1..], simSlot, evalSlot, minSlot, planEnd)
  {
  }

  lemma TakeNone(env: Env, f: Found, simSlot: uint64, minSlot: uint64)
    ensures TakeRoots(env, f, [], simSlot, minSlot) == Some(f)
  {
  }

  lemma TakeRound(env: Env, f: Found, roots: seq<Root>, simSlot: uint64, minSlot: uint64)
    requires roots != []
    ensures var taken := TakeRoots(env, f, roots, simSlot, minSlot);
      if !Fresh(env, f.st, roots[0]) then taken == TakeRoots(env, f, roots[1..], simSlot, minSlot)
      else match ResolveChain(env, f.st, roots[0], simSlot)
        case None => taken == None
        case Some(c) =>
          if c.blocks == [] then taken == TakeRoots(env, Found(f.blocks, c.st), roots[1..], simSlot, minSlot)
          else if c.blocks[|c.blocks| - 1].root != roots[0] || c.blocks[|c.blocks| - 1].slot != simSlot then
            taken == TakeRoots(env, Found(f.blocks, c.st.(ignored := c.st.ignored + {roots[0]})), roots[1..], simSlot,
              minSlot)
          else taken == TakeRoots(env, TakeChain(env, Found(f.blocks, c.st), c.blocks, simSlot, minSlot), roots[1..],
            simSlot, minSlot)
  {
  }

  lemma NextOf<T>(s: seq<T>, k: nat)
    requires k < |s|
    ensures s[k..] != [] && s[k..][0] == s[k] && s[k..][1..] == s[k + 1..]
  {
  }

  lemma AllOf<T>(s: seq<T>)
    ensures s[0..] == s && s[|s|..] == []
  {
  }

  class PlanBuildState {
    const env: Env
    const index: CanonicalBlockIndex
    const canonical: CanonicalBlocks
    var importedRoots: set<Root>
    var scheduledRoots: set<Root>
    var missingRoots: set<Root>
    var ignoredRoots: set<Root>
    var fetchedByRoot: map<Root, Block>
    var orphanRootsBySlot: map<uint64, seq<Root>>
    var truncatedChains: nat

    ghost function Repr(): set<object> {
      {this, index} + canonical.Repr()
    }

    ghost predicate Valid()
      reads Repr()
    {
      && ValidEnv(env) && index.era == env.era
      && index.Valid() && canonical.Valid(index)
      && (forall r :: r in fetchedByRoot ==> env.archive(r) == Some(fetchedByRoot[r]))
    }

    ghost function State(): PlanState
      reads Repr()
    {
      PlanState(canonical.Visible(), importedRoots, scheduledRoots, missingRoots, ignoredRoots,
                fetchedByRoot.Keys, orphanRootsBySlot, truncatedChains)
    }

    constructor (env: Env, index: CanonicalBlockIndex, canonical: CanonicalBlocks, imported: set<Root>)
      requires ValidEnv(env) && index.era == env.era && index.Valid() && canonical.Valid(index)
      ensures Valid() && this.env == env && this.index == index && this.canonical == canonical
      ensures State() == StartState(env, canonical.Visible(), imported)
    {
      this.env, this.index, this.canonical := env, index, canonical;
      importedRoots, scheduledRoots, missingRoots, ignoredRoots := imported, {}, {}, {};
      fetchedByRoot := map[];
      orphanRootsBySlot := map s | s in env.preload && env.preload[s] != [] :: SortRootList(env.preload[s]);
      truncatedChains := 0;
    }

    /** The state of the warm pass: it starts without any orphan index. */
    constructor Warm(env: Env, index: CanonicalBlockIndex, canonical: CanonicalBlocks)
      requires ValidEnv(env) && index.era == env.era && index.Valid() && canonical.Valid(index)
      ensures Valid() && this.env == env && this.index == index && this.canonical == canonical
      ensures State() == PlanState(canonical.Visible(), env.checkpoints, {}, {}, {}, {}, map[], 0)
    {
      this.env, this.index, this.canonical := env, index, canonical;
      importedRoots, scheduledRoots, missingRoots, ignoredRoots := env.checkpoints, {}, {}, {};
      fetchedByRoot, orphanRootsBySlot := map[], map[];
      truncatedChains := 0;
    }

    predicate RootKnown(root: Root)
      requires Valid()
      reads Repr()
      ensures RootKnown(root) <==> PlanSpec.RootKnown(env, State(), root)
    {
      root in importedRoots || canonical.RootKnown(root, index)
    }

    /** Between any two steps of the planner other callers may use the shared index; the planner's state does not
        change. */
    method Preempt()
      requires Valid()
      modifies index
      ensures Valid() && State() == old(State())
    {
      hide Slots, Normal, Agrees, Holds, Window, PresentIn, Tracked;
      index.Others(None);
    }

    function ShownBlock(slot: uint64): (r: Option<Block>)
      requires Valid()
      reads Repr()
      ensures r == ShownAt(env.era, State().visible, slot)
    {
      canonical.InfoBySlot(slot, index)
    }

    /** The archive answers each root once; later requests are served from memory. */
    method FetchBlockInfoByRoot(root: Root) returns (r: Option<Block>)
      requires Valid()
      modifies this`fetchedByRoot
      ensures Valid() && r == env.archive(root)
      ensures State() == if r.Some? then old(State()).(fetched := old(State()).fetched + {root}) else old(State())
    {
      if root in fetchedByRoot {
        return Some(fetchedByRoot[root]);
      }
      r := env.archive(root);
      if r.Some? {
        fetchedByRoot := fetchedByRoot[root := r.value];
      }
    }

    function FetchedInfo(root: Root): (r: Option<Block>)
      requires Valid()
      reads Repr()
      ensures r == if root in State().fetched then env.archive(root) else None
    {
      if root in fetchedByRoot then Some(fetchedByRoot[root]) else None
    }

    method RememberFetched(info: Block)
      requires Valid() && env.archive(info.root) == Some(info)
      modifies this`fetchedByRoot
      ensures Valid() && State() == old(State()).(fetched := old(State()).fetched + {info.root})
    {
      fetchedByRoot := fetchedByRoot[info.root := info];
    }

    method IsCanonicalBlockInfo(info: Block) returns (r: Option<bool>)
      requires Valid()
      modifies index, canonical.Repr()
      ensures Valid()
      ensures match Judge(env, old(State()), info)
              case None => r.None?
              case Some(v) => r == Some(v.canonical) && State() == v.st
    {
      hide Slots, Normal, Agrees, Holds, Window, PresentIn;
      Preempt();
      var shown := canonical.InfoBySlot(info.slot, index);
      if shown.Some? {
        return Some(shown.value.root == info.root);
      }
      var found := index.CanonicalInfoAtSlot(info.slot);
      if found.None? {
        return None;
      }
      if found.value.None? {
        return Some(false);
      }
      canonical.Add(found.value.value, index);
      return Some(found.value.value.root == info.root);
    }

    method RememberArchiveOrphanInfo(info: Block)
      requires Valid()
      modifies this`orphanRootsBySlot
      ensures Valid() && State() == old(State()).(orphans := AppendOrphan(old(State()).orphans, info.slot, info.root))
    {
      orphanRootsBySlot := AppendOrphan(orphanRootsBySlot, info.slot, info.root);
    }

    method MarkMissing(root: Root)
      requires Valid()
      modifies this`missingRoots
      ensures Valid() && State() == old(State()).(missing := old(State()).missing + {root})
    {
      missingRoots := missingRoots + {root};
    }

    method MarkIgnored(root: Root)
      requires Valid()
      modifies this`ignoredRoots
      ensures Valid() && State() == old(State()).(ignored := old(State()).ignored + {root})
    {
      ignoredRoots := ignoredRoots + {root};
    }

    method MarkImported(root: Root)
      requires Valid()
      modifies this`importedRoots
      ensures Valid() && State() == old(State()).(imported := old(State()).imported + {root})
    {
      importedRoots := importedRoots + {root};
    }

    method MarkScheduled(root: Root)
      requires Valid()
      modifies this`scheduledRoots
      ensures Valid() && State() == old(State()).(scheduled := old(State()).scheduled + {root})
    {
      scheduledRoots := scheduledRoots + {root};
    }

    method AddTruncatedChain()
      requires Valid()
      modifies this`truncatedChains
      ensures Valid() && State() == old(State()).(truncations := old(State()).truncations + 1)
    {
      truncatedChains := truncatedChains + 1;
    }

    /** The loop of resolveOrphanChain: walks up the ancestry, at most 16 blocks. */
    method ClimbOrphanChain(root: Root, evalSlot: uint64) returns (ok: bool, chain: seq<Block>, truncated: bool)
      requires Valid()
      modifies Repr()
      ensures Valid()
      ensures WalkUp(env, old(State()), root, {}, [], evalSlot, MAX_ORPHAN_WALK) == if ok
        then Some(Walk(chain, truncated, State())) else None
    {
      hide Valid, WalkUp, Judge, AppendOrphan, PlanSpec.RootKnown;
      ghost var walk := WalkUp(env, State(), root, {}, [], evalSlot, MAX_ORPHAN_WALK);
      var current, seen, depth := root, {}, 0;
      ok, chain, truncated := true, [], true;
      while depth < MAX_ORPHAN_WALK
        invariant depth <= MAX_ORPHAN_WALK && Valid() && truncated && ok
        invariant walk == WalkUp(env, State(), current, seen, chain, evalSlot, MAX_ORPHAN_WALK - depth)
      {
        Preempt();
        WalkRound(env, State(), current, seen, chain, evalSlot, MAX_ORPHAN_WALK - depth);
        if current == ZERO_ROOT || RootKnown(current) || current in missingRoots || current in seen {
          truncated := false;
          return;
        }
        seen := seen + {current};
        var info := FetchBlockInfoByRoot(current);
        if info.None? {
          MarkMissing(current);
          truncated := false;
          return;
        }
        if info.value.slot > evalSlot {
          truncated := false;
          return;
        }
        var canonical := IsCanonicalBlockInfo(info.value);
        if canonical.None? {
          ok := false;
          return;
        }
        if canonical.value {
          truncated := false;
          return;
        }
        chain := chain + [info.value];
        RememberArchiveOrphanInfo(info.value);
        current := info.value.parentRoot;
        depth := depth + 1;
      }
      WalkCut(env, State(), current, seen, chain, evalSlot);
    }

    /** Counts a walk that was cut, and turns the chain around in place: oldest block first. */
    method ResolveOrphanChain(root: Root, evalSlot: uint64) returns (r: Option<seq<Block>>)
      requires Valid()
      modifies Repr()
      ensures Valid() && Answers(ResolveChain(env, old(State()), root, evalSlot), r, State())
    {
      hide Valid, WalkUp;
      var ok, chain, truncated := ClimbOrphanChain(root, evalSlot);
      if !ok {
        return None;
      }
      if truncated {
        AddTruncatedChain();
      }
      chain := ReverseChain(chain);
      return Some(chain);
    }

    method ArchiveOrphanInfosBySlot(slot: uint64) returns (r: Option<seq<Block>>)
      requires Valid()
      modifies Repr()
      ensures Valid() && Answers(OrphanInfos(env, old(State()), slot), r, State())
    {
      hide Valid, GatherOrphans, Judge, AppendOrphan;
      var roots := if slot in orphanRootsBySlot then orphanRootsBySlot[slot] else [];
      ghost var st0 := State();
      ghost var gathered := GatherOrphans(env, st0, slot, roots, {}, []);
      AllOf(roots);
      if |roots| == 0 {
        GatherNone(env, st0, slot, {}, []);
        return Some([]);
      }
      var infos: seq<Block>, seen: set<Root> := [], {};
      for k := 0 to |roots|
        invariant Valid()
        invariant gathered == GatherOrphans(env, State(), slot, roots[k..], seen, infos)
      {
        Preempt();
        var root := roots[k];
        NextOf(roots, k);
        GatherRound(env, State(), slot, roots[k..], seen, infos);
        if root == ZERO_ROOT || root in seen || root in missingRoots || root in ignoredRoots {
          continue;
        }
        seen := seen + {root};
        var info := FetchBlockInfoByRoot(root);
        if info.None? {
          MarkMissing(root);
          continue;
        }
        if info.value.slot != slot {
          MarkIgnored(root);
          continue;
        }
        var canonical := IsCanonicalBlockInfo(info.value);
        if canonical.None? {
          return None;
        }
        if canonical.value {
          MarkIgnored(root);
          continue;
        }
        infos := infos + [info.value];
      }
      GatherNone(env, State(), slot, seen, infos);
      return Some(SortBlocks(infos));
    }

    method ArchiveOrphanImportsForSlot(slot: uint64, minImportSlot: uint64) returns (r: Option<seq<Block>>)
      requires Valid()
      modifies Repr()
      ensures Valid() && Answers(SlotOrphans(env, old(State()), slot, minImportSlot), r, State())
    {
      hide Valid, GatherOrphans;
      var found := ArchiveOrphanInfosBySlot(slot);
      if found.None? {
        return None;
      }
      var infos := found.value;
      ghost var expected := ImportOrphans(env, State(), infos, minImportSlot, []);
      AllOf(infos);
      if |infos| == 0 {
        return Some([]);
      }
      var imports: seq<Block> := [];
      for k := 0 to |infos|
        invariant Valid()
        invariant expected == ImportOrphans(env, State(), infos[k..], minImportSlot, imports)
      {
        Preempt();
        var info := infos[k];
        NextOf(infos, k);
        if info.slot < minImportSlot {
          MarkIgnored(info.root);
          continue;
        }
        if RootKnown(info.root) || info.root in scheduledRoots {
          continue;
        }
        MarkImported(info.root);
        imports := imports + [info];
      }
      return Some(imports);
    }

    method SourceBlockInfosBySlot(slot: uint64) returns (r: Option<seq<Block>>)
      requires Valid()
      modifies Repr()
      ensures Valid() && Answers(SourceInfos(env, old(State()), slot), r, State())
    {
      hide Valid, State, OrphanInfos;
      Preempt();
      var shown := ShownBlock(slot);
      var orphans := ArchiveOrphanInfosBySlot(slot);
      if orphans.None? {
        return None;
      }
      var infos := orphans.value;
      if shown.Some? {
        infos := [shown.value] + infos;
      }
      return Some(infos);
    }

    // ----- roots voted for

    predicate IsFresh(root: Root)
      requires Valid()
      reads Repr()
      ensures IsFresh(root) <==> Fresh(env, State(), root)
    {
      !(root == ZERO_ROOT || RootKnown(root) || root in scheduledRoots || root in missingRoots || root in ignoredRoots)
    }

    /** The attestation loops shared by the source blocks, the slot's votes and the warm pass: roots nobody has dealt
        with. */
    method CollectUnknownRoots(attestations: seq<Attestation>, max: Option<uint64>, roots: set<Root>)
      returns (all: set<Root>)
      requires Valid()
      modifies index
      ensures Valid() && State() == old(State())
      ensures all == roots + FreshRoots(env, State(), attestations, max)
    {
      hide Valid, State, Fresh;
      all := roots;
      for k := 0 to |attestations|
        invariant Valid() && State() == old(State())
        invariant all == roots + FreshRoots(env, State(), attestations[..k], max)
      {
        var attestation := attestations[k];
        FreshRootsStep(env, State(), attestations, k, max);
        if !WithinMax(attestation, max) {
          continue;
        }
        Preempt();
        if IsFresh(attestation.targetRoot) {
          all := all + {attestation.targetRoot};
        }
        Preempt();
        if IsFresh(attestation.beaconBlockRoot) {
          all := all + {attestation.beaconBlockRoot};
        }
      }
      assert attestations[..|attestations|] == attestations;
    }

    /** The roots voted for by the blocks of the source slots. */
    method CollectSourceRoots(sources: seq<Source>) returns (r: Option<set<Root>>)
      requires Valid()
      modifies Repr()
      ensures Valid()
      ensures match SourceRoots(env, old(State()), sources, {})
              case None => r.None?
              case Some(rs) => r == Some(rs.roots) && State() == rs.st
    {
      hide Valid, SourceInfos, FreshRoots;
      ghost var expected := SourceRoots(env, State(), sources, {});
      var roots: set<Root> := {};
      AllOf(sources);
      for k := 0 to |sources|
        invariant Valid()
        invariant expected == SourceRoots(env, State(), sources[k..], roots)
      {
        NextOf(sources, k);
        var infos := SourceBlockInfosBySlot(sources[k].slot);
        if infos.None? || |infos.value| == 0 {
          return None;
        }
        roots := CollectRootsOfBlocks(infos.value, sources[k].maxAttestationSlot, roots);
      }
      return Some(roots);
    }

    method CollectRootsOfBlocks(infos: seq<Block>, max: Option<uint64>, roots: set<Root>) returns (all: set<Root>)
      requires Valid()
      modifies index
      ensures Valid() && State() == old(State())
      ensures all == roots + FreshRoots(env, State(), Attestations(infos), max)
    {
      hide Valid, State;
      all := roots;
      for k := 0 to |infos|
        invariant Valid() && State() == old(State())
        invariant all == roots + FreshRoots(env, State(), Attestations(infos[..k]), max)
      {
        all := CollectUnknownRoots(infos[k].attestations, max, all);
        AttestationsAppend(infos, k);
        FreshRootsUnion(env, State(), Attestations(infos[..k]), infos[k].attestations, max);
      }
      assert infos[..|infos|] == infos;
    }

    // ----- scheduling

    /** The canonical block of a slot is imported first. */
    method ImportCanonicalBlock(simSlot: uint64) returns (imports: seq<BlockImport>)
      requires Valid()
      modifies Repr()
      ensures Valid() && (imports, State()) == CanonicalImport(env, old(State()), simSlot)
    {
      hide Valid, State;
      Preempt();
      var info := ShownBlock(simSlot);
      if info.None? {
        return [];
      }
      MarkImported(info.value.root);
      return [BlockImport(info.value.slot, info.value.root, true)];
    }

    /** The blocks deferred to the current slot. */
    method ImportPendingBlocks(infos: seq<Block>) returns (out: seq<Block>)
      requires Valid()
      modifies Repr()
      ensures Valid() && Found(out, State()) == ImportPending(old(State()), infos, [])
    {
      hide Valid;
      ghost var expected := ImportPending(State(), infos, []);
      out := [];
      AllOf(infos);
      for k := 0 to |infos|
        invariant Valid()
        invariant expected == ImportPending(State(), infos[k..], out)
      {
        NextOf(infos, k);
        if infos[k].root in importedRoots {
          continue;
        }
        out := out + [infos[k]];
        MarkImported(infos[k].root);
      }
    }

    /** Puts each block of a resolved chain where it belongs: ignored, skipped, imported now, or deferred to its own
        slot. */
    method PlaceResolvedChain(chain: seq<Block>, infos0: seq<Block>, pending0: map<uint64, seq<Block>>, simSlot: uint64,
                              minImportSlot: uint64, planEnd: uint64)
      returns (infos: seq<Block>, pending: map<uint64, seq<Block>>)
      requires Valid()
      modifies Repr()
      ensures Valid()
      ensures Placing(infos, pending, State())
        == PlaceChain(env, Placing(infos0, pending0, old(State())), chain, simSlot, minImportSlot, planEnd)
    {
      hide Valid, PlanSpec.RootKnown;
      infos, pending := infos0, pending0;
      ghost var expected := PlaceChain(env, Placing(infos, pending, State()), chain, simSlot, minImportSlot, planEnd);
      AllOf(chain);
      for k := 0 to |chain|
        invariant Valid()
        invariant expected
          == PlaceChain(env, Placing(infos, pending, State()), chain[k..], simSlot, minImportSlot, planEnd)
      {
        Preempt();
        var info := chain[k];
        NextOf(chain, k);
        if info.slot < minImportSlot {
          MarkIgnored(info.root);
          continue;
        }
        if RootKnown(info.root) || info.root in scheduledRoots {
          continue;
        }
        var targetSimSlot := info.slot;
        if targetSimSlot < simSlot {
          targetSimSlot := simSlot;
        }
        if targetSimSlot >= planEnd {
          MarkIgnored(info.root);
          continue;
        }
        if targetSimSlot == simSlot {
          MarkImported(info.root);
          infos := infos + [info];
        } else {
          MarkScheduled(info.root);
          pending := pending[targetSimSlot := PendingAt(pending, targetSimSlot) + [info]];
        }
      }
    }

    method OrphanImportsForSources(sources: seq<Source>, simSlot: uint64, evalSlot: uint64, minImportSlot: uint64,
                                   planEnd: uint64, pending0: map<uint64, seq<Block>>)
      returns (r: Option<seq<Block>>, pending: map<uint64, seq<Block>>)
      requires Valid()
      modifies Repr()
      ensures Valid()
      ensures match SourceImports(env, old(State()), sources, simSlot, evalSlot, minImportSlot, planEnd, pending0)
              case None => r.None?
              case Some(p) => r == Some(p.infos) && pending == p.pending && State() == p.st
    {
      hide Valid, State, PlaceRoots, SourceRoots, SortedRoots, SortBlocks;
      pending := pending0;
      if env.mode != GreedyLookahead {
        return Some([]), pending;
      }
      var roots := CollectSourceRoots(sources);
      if roots.None? {
        return None, pending;
      }
      var sortedRoots := SortedRootKeys(roots.value);
      var infos;
      infos, pending := PlaceSortedRoots(sortedRoots, simSlot, evalSlot, minImportSlot, planEnd, pending);
      if infos.None? {
        return None, pending;
      }
      return Some(SortBlocks(infos.value)), pending;
    }

    /** Resolves each root nobody has dealt with meanwhile and places its chain. */
    method PlaceSortedRoots(sortedRoots: seq<Root>, simSlot: uint64, evalSlot: uint64, minImportSlot: uint64,
                            planEnd: uint64, pending0: map<uint64, seq<Block>>)
      returns (r: Option<seq<Block>>, pending: map<uint64, seq<Block>>)
      requires Valid()
      modifies Repr()
      ensures Valid()
      ensures match PlaceRoots(env, Placing([], pending0, old(State())), sortedRoots, simSlot, evalSlot, minImportSlot,
        planEnd)
              case None => r.None?
              case Some(p) => r == Some(p.infos) && pending == p.pending && State() == p.st
    {
      hide Valid, State, PlaceRoots, PlaceChain, ResolveChain, Fresh;
      pending := pending0;
      ghost var expected :=
        PlaceRoots(env, Placing([], pending, State()), sortedRoots, simSlot, evalSlot, minImportSlot, planEnd);
      AllOf(sortedRoots);
      var infos: seq<Block> := [];
      for k := 0 to |sortedRoots|
        invariant Valid()
        invariant expected
          == PlaceRoots(env, Placing(infos, pending, State()), sortedRoots[k..], simSlot, evalSlot, minImportSlot,
          planEnd)
      {
        Preempt();
        NextOf(sortedRoots, k);
        PlaceRound(env, Placing(infos, pending, State()), sortedRoots[k..], simSlot, evalSlot, minImportSlot, planEnd);
        if !IsFresh(sortedRoots[k]) {
          continue;
        }
        var chain := ResolveOrphanChain(sortedRoots[k], evalSlot);
        if chain.None? {
          return None, pending;
        }
        infos, pending := PlaceResolvedChain(chain.value, infos, pending, simSlot, minImportSlot, planEnd);
      }
      PlaceNone(env, Placing(infos, pending, State()), simSlot, evalSlot, minImportSlot, planEnd);
      return Some(infos), pending;
    }

    /** The votes of the source blocks, without exact repeats. */
    method AttestationsFromSources(sources: seq<Source>) returns (r: Option<seq<Attestation>>)
      requires Valid()
      modifies Repr()
      ensures Valid()
      ensures match SourceVotes(env, old(State()), sources, {}, [])
              case None => r.None?
              case Some(v) => r == Some(v.attestations) && State() == v.st
    {
      hide Valid, State, SourceInfos, Dedup, Attestations;
      ghost var expected := SourceVotes(env, State(), sources, {}, []);
      AllOf(sources);
      var out: seq<Attestation>, seen: set<Root> := [], {};
      for k := 0 to |sources|
        invariant Valid()
        invariant expected == SourceVotes(env, State(), sources[k..], seen, out)
      {
        NextOf(sources, k);
        var infos := SourceBlockInfosBySlot(sources[k].slot);
        if infos.None? {
          return None;
        }
        out, seen := AppendUnseen(Attestations(infos.value), sources[k].maxAttestationSlot, seen, out);
      }
      return Some(out);
    }

    /** Takes the orphans that belong at the slot: a chain is taken only if its tip is the root voted for, at the slot
        itself. */
    method OrphanImportsForSlotAttestations(attestations: seq<Attestation>, simSlot: uint64, minImportSlot: uint64)
      returns (r: Option<seq<Block>>)
      requires Valid()
      modifies Repr()
      ensures Valid() && Answers(VoteImports(env, old(State()), attestations, simSlot, minImportSlot), r, State())
    {
      hide Valid, State, TakeRoots, FreshRoots, SortedRoots, SortBlocks;
      var roots := CollectUnknownRoots(attestations, None, {});
      assert roots == FreshRoots(env, State(), attestations, None);
      var sortedRoots := SortedRootKeys(roots);
      var infos := TakeSortedRoots(sortedRoots, simSlot, minImportSlot);
      if infos.None? {
        return None;
      }
      return Some(SortBlocks(infos.value));
    }

    method TakeSortedRoots(sortedRoots: seq<Root>, simSlot: uint64, minImportSlot: uint64)
      returns (r: Option<seq<Block>>)
      requires Valid()
      modifies Repr()
      ensures Valid()
      ensures Answers(TakeRoots(env, Found([], old(State())), sortedRoots, simSlot, minImportSlot), r, State())
    {
      hide Valid, State, TakeRoots, TakeChain, ResolveChain, Fresh;
      ghost var expected := TakeRoots(env, Found([], State()), sortedRoots, simSlot, minImportSlot);
      AllOf(sortedRoots);
      var infos: seq<Block> := [];
      for k := 0 to |sortedRoots|
        invariant Valid()
        invariant expected == TakeRoots(env, Found(infos, State()), sortedRoots[k..], simSlot, minImportSlot)
      {
        var root := sortedRoots[k];
        Preempt();
        NextOf(sortedRoots, k);
        TakeRound(env, Found(infos, State()), sortedRoots[k..], simSlot, minImportSlot);
        if !IsFresh(root) {
          continue;
        }
        var chain := ResolveOrphanChain(root, simSlot);
        if chain.None? {
          return None;
        }
        if |chain.value| == 0 {
          continue;
        }
        var tip := chain.value[|chain.value| - 1];
        if tip.root != root || tip.slot != simSlot {
          MarkIgnored(root);
          continue;
        }
        infos := TakeResolvedChain(chain.value, infos, simSlot, minImportSlot);
      }
      TakeNone(env, Found(infos, State()), simSlot, minImportSlot);
      return Some(infos);
    }

    method TakeResolvedChain(chain: seq<Block>, infos0: seq<Block>, simSlot: uint64, minImportSlot: uint64)
      returns (infos: seq<Block>)
      requires Valid()
      modifies Repr()
      ensures Valid()
      ensures Found(infos, State()) == TakeChain(env, Found(infos0, old(State())), chain, simSlot, minImportSlot)
    {
      hide Valid, PlanSpec.RootKnown;
      infos := infos0;
      ghost var expected := TakeChain(env, Found(infos, State()), chain, simSlot, minImportSlot);
      AllOf(chain);
      for k := 0 to |chain|
        invariant Valid()
        invariant expected == TakeChain(env, Found(infos, State()), chain[k..], simSlot, minImportSlot)
      {
        Preempt();
        var info := chain[k];
        NextOf(chain, k);
        if info.slot < minImportSlot {
          MarkIgnored(info.root);
          continue;
        }
        if info.slot > simSlot || RootKnown(info.root) || info.root in scheduledRoots {
          continue;
        }
        MarkScheduled(info.root);
        infos := infos + [info];
      }
    }
  }

  /** Collects the keys in map order and sorts them; the result does not depend on the map order. */
  method SortedRootKeys(roots: set<Root>) returns (out: seq<Root>)
    ensures out == SortedRoots(roots)
  {
    var listing: seq<Root>, rest := [], roots;
    while rest != {}
      invariant rest <= roots
      invariant forall x :: x in listing <==> x in roots && x !in rest
      invariant Distinct(listing)
      decreases rest
    {
      var root :| root in rest;
      listing, rest := listing + [root], rest - {root};
    }
    SortedListing(listing, roots);
    return SortRootList(listing);
  }

  method AppendUnseen(atts: seq<Attestation>, max: Option<uint64>, seen0: set<Root>, out0: seq<Attestation>)
    returns (out: seq<Attestation>, seen: set<Root>)
    ensures (out, seen) == Dedup(atts, max, seen0, out0)
  {
    out, seen := out0, seen0;
    AllOf(atts);
    for k := 0 to |atts|
      invariant Dedup(atts[k..], max, seen, out) == Dedup(atts, max, seen0, out0)
    {
      NextOf(atts, k);
      if !WithinMax(atts[k], max) || atts[k].root in seen {
        continue;
      }
      seen := seen + {atts[k].root};
      out := out + [atts[k]];
    }
  }

  lemma FreshRootsUnion(env: Env, st: PlanState, a: seq<Attestation>, b: seq<Attestation>, max: Option<uint64>)
    ensures FreshRoots(env, st, a + b, max) == FreshRoots(env, st, a, max) + FreshRoots(env, st, b, max)
  {
  }

  lemma FreshRootsStep(env: Env, st: PlanState, atts: seq<Attestation>, k: nat, max: Option<uint64>)
    requires k < |atts|
    ensures var att := atts[k];
      FreshRoots(env, st, atts[..k + 1], max) == FreshRoots(env, st, atts[..k], max)
        + (if WithinMax(att, max) && Fresh(env, st, att.targetRoot) then {att.targetRoot} else {})
        + (if WithinMax(att, max) && Fresh(env, st, att.beaconBlockRoot) then {att.beaconBlockRoot} else {})
  {
    assert atts[..k + 1] == atts[..k] + [atts[k]];
    FreshRootsUnion(env, st, atts[..k], [atts[k]], max);
    FreshRootsOne(env, st, atts[k], max);
  }

  lemma FreshRootsOne(env: Env, st: PlanState, att: Attestation, max: Option<uint64>)
    ensures FreshRoots(env, st, [att], max) ==
        (if WithinMax(att, max) && Fresh(env, st, att.targetRoot) then {att.targetRoot} else {})
        + (if WithinMax(att, max) && Fresh(env, st, att.beaconBlockRoot) then {att.beaconBlockRoot} else {})
  {
    assert att in [att];
  }

  lemma {:induction false} AttestationsAppend(infos: seq<Block>, k: nat)
    requires k < |infos|
    ensures Attestations(infos[..k + 1]) == Attestations(infos[..k]) + infos[k].attestations
  {
    if k > 0 {
      AttestationsAppend(infos[1..], k - 1);
      assert infos[..k + 1][1..] == infos[1..][..k] && infos[..k][1..] == infos[1..][..k - 1];
    }
  }

  /** Swaps from both ends towards the middle. */
  method ReverseChain(chain: seq<Block>) returns (r: seq<Block>)
    ensures r == Reversed(chain)
  {
    r := chain;
    var left, right := 0, |r| - 1;
    while left < right
      invariant 0 <= left <= right + 1 && left + right == |chain| - 1 && |r| == |chain|
      invariant forall k :: 0 <= k < left || right < k < |r| ==> r[k] == chain[|chain| - 1 - k]
      invariant forall k :: left <= k <= right ==> r[k] == chain[k]
      decreases right - left
    {
      r := r[left := r[right]][right := r[left]];
      left, right := left + 1, right - 1;
    }
  }
}
