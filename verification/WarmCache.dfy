/** Serving from the disk cache after a warm pass gives the same answers as serving from the full archive. */
module WarmCache {
  import opened Core
  import opened Blocks
  import opened CanonicalIndex
  import opened Sorting
  import opened Sorts
  import opened AttPlan
  import opened PlanSpec
  import opened OrphanChains
  import opened PlanSteps
  import opened SourceAgreement

  /** The serving configuration: only cached blocks and the configured checkpoint blocks are found. */
  function CacheEnv(env: Env, cache: set<Root>): Env {
    env.(archive := r => if r in cache || r in env.checkpoints then env.archive(r) else None)
  }

  /** Every block that a walk from `current` could take at `evalSlot` is cached, and its slot is readable. */
  ghost predicate Cached(env: Env, cache: set<Root>, current: Root, seen: set<Root>, evalSlot: uint64, fuel: nat)
    decreases fuel
  {
    if fuel == 0 || current == ZERO_ROOT || current in env.checkpoints || current in seen
      || Dead(env, current, evalSlot) then true
    else
      var info := env.archive(current).value;
      current in cache && !env.era(info.slot).Unreadable?
        && Cached(env, cache, info.parentRoot, seen + {current}, evalSlot, fuel - 1)
  }

  /** No walk at `evalSlot` takes this root: it is not archived, too new, or on the canonical chain. */
  ghost predicate Dead(env: Env, r: Root, evalSlot: uint64) {
    env.archive(r).None? || env.archive(r).value.slot > evalSlot || Canonical(env.era, env.archive(r).value)
  }

  lemma ShownIsDead(env: Env, visible: set<uint64>, r: Root, evalSlot: uint64)
    requires ValidEnv(env) && RootShown(env.era, visible, r)
    ensures Dead(env, r, evalSlot)
  {
  }

  /** No walk takes this root. */
  ghost predicate Halts(env: Env, known: set<Root>, r: Root, evalSlot: uint64) {
    r == ZERO_ROOT || r in known || Dead(env, r, evalSlot)
  }

  /** The orphans a walk from `current` takes when `known` is imported, newest first. */
  ghost function Ancestry(env: Env, known: set<Root>, current: Root, evalSlot: uint64, fuel: nat): seq<Block>
    decreases fuel
  {
    if fuel == 0 || Halts(env, known, current, evalSlot) then []
    else
      var b := env.archive(current).value;
      [b] + Ancestry(env, known, b.parentRoot, evalSlot, fuel - 1)
  }

  /** The era files can be read at the slots of these blocks. */
  ghost predicate Legible(env: Env, blocks: seq<Block>) {
    forall b :: b in blocks ==> !env.era(b.slot).Unreadable?
  }

  lemma AncestryStep(env: Env, known: set<Root>, current: Root, evalSlot: uint64, fuel: nat)
    ensures fuel == 0 || Halts(env, known, current, evalSlot) ==> Ancestry(env, known, current, evalSlot, fuel) == []
    ensures fuel > 0 && !Halts(env, known, current, evalSlot) ==>
      env.archive(current).Some? && Ancestry(env, known, current, evalSlot, fuel)
        == [env.archive(current).value]
           + Ancestry(env, known, env.archive(current).value.parentRoot, evalSlot, fuel - 1)
  {
  }

  lemma NothingIllegible(env: Env)
    ensures Legible(env, [])
  {
  }

  lemma LegibleCons(env: Env, b: Block, rest: seq<Block>)
    ensures Legible(env, [b] + rest) <==> !env.era(b.slot).Unreadable? && Legible(env, rest)
  {
    assert forall x :: x in [b] + rest <==> x == b || x in rest;
  }

  /** A walk that takes a block goes on with its parent. */
  lemma ClimbGoesOn(env: Env, st: PlanState, current: Root, seen: set<Root>, chain: seq<Block>, evalSlot: uint64,
                    fuel: nat)
    requires fuel > 0 && Climbs(env, st, current, seen, evalSlot)
    ensures !Halts(env, st.imported, current, evalSlot)
    ensures var info, next := env.archive(current).value, StateAfter(env, st, current, seen, evalSlot);
      && next.imported == st.imported
      && WalkUp(env, st, current, seen, chain, evalSlot, fuel)
         == WalkUp(env, next, info.parentRoot, seen + {current}, chain + [info], evalSlot, fuel - 1)
  {
  }

  /** The warm pass walks with nothing imported but the checkpoints, so everything it does not stop at it finds. */
  lemma {:induction false} WalkCaches(env: Env, st: PlanState, current: Root, seen: set<Root>, chain: seq<Block>,
                                      evalSlot: uint64, fuel: nat, w: Walk, cache: set<Root>)
    requires ValidEnv(env) && StateOk(env, st) && st.imported <= env.checkpoints
    requires WalkUp(env, st, current, seen, chain, evalSlot, fuel) == Some(w) && w.st.fetched <= cache
    ensures Cached(env, cache, current, seen, evalSlot, fuel) && st.fetched <= w.st.fetched
    decreases fuel
  {
    if fuel > 0 && RootShown(env.era, st.visible, current) {
      ShownIsDead(env, st.visible, current, evalSlot);
    }
    if Climbs(env, st, current, seen, evalSlot) && fuel > 0 {
      var info, st2 := env.archive(current).value, StateAfter(env, st, current, seen, evalSlot);
      WalkCaches(env, st2, info.parentRoot, seen + {current}, chain + [info], evalSlot, fuel - 1, w, cache);
    }
  }

  /** What was cached for a later evaluation slot serves an earlier one. */
  lemma {:induction false} CachedEarlier(env: Env, cache: set<Root>, larger: set<Root>, current: Root, seen: set<Root>,
                                         late: uint64, early: uint64, fuel: nat)
    requires Cached(env, cache, current, seen, late, fuel) && early <= late && cache <= larger
    ensures Cached(env, larger, current, seen, early, fuel)
    decreases fuel
  {
    if !(fuel == 0 || current == ZERO_ROOT || current in env.checkpoints || current in seen
      || Dead(env, current, early)) {
      CachedEarlier(env, cache, larger, env.archive(current).value.parentRoot, seen + {current}, late, early, fuel - 1);
    }
  }

  /** The cached run may call a root missing that the archive has, but only one that no walk would take. */
  ghost predicate Alike(env: Env, online: PlanState, cached: PlanState, evalSlot: uint64) {
    && online.imported == cached.imported && online.scheduled == cached.scheduled && online.ignored == cached.ignored
    && env.checkpoints <= online.imported
    && StateOk(env, online)
    && (forall s :: s in cached.visible ==> env.era(s).Present?)
    && (forall r :: r in cached.missing ==> Dead(env, r, evalSlot))
  }

  /** A walk over the cache climbs exactly where the walk over the archive does. */
  lemma ClimbAlike(env: Env, cache: set<Root>, online: PlanState, cached: PlanState, current: Root, seen: set<Root>,
                   evalSlot: uint64, fuel: nat)
    requires ValidEnv(env) && Alike(env, online, cached, evalSlot) && fuel > 0
    requires Cached(env, cache, current, seen, evalSlot, fuel)
    ensures Climbs(env, online, current, seen, evalSlot) <==>
      Climbs(CacheEnv(env, cache), cached, current, seen, evalSlot)
    ensures Climbs(env, online, current, seen, evalSlot) ==>
      && env.archive(current) == CacheEnv(env, cache).archive(current)
      && Alike(env, StateAfter(env, online, current, seen, evalSlot),
        StateAfter(CacheEnv(env, cache), cached, current, seen, evalSlot), evalSlot)
      && Cached(env, cache, env.archive(current).value.parentRoot, seen + {current}, evalSlot, fuel - 1)
  {
    if RootShown(env.era, online.visible, current) {
      ShownIsDead(env, online.visible, current, evalSlot);
    }
    if RootShown(env.era, cached.visible, current) {
      ShownIsDead(env, cached.visible, current, evalSlot);
    }
  }

  /** Where neither climbs, both stop without an error. */
  lemma HaltAlike(env: Env, cache: set<Root>, online: PlanState, cached: PlanState, current: Root, seen: set<Root>,
                  chain: seq<Block>, evalSlot: uint64, fuel: nat)
    requires ValidEnv(env) && Alike(env, online, cached, evalSlot) && fuel > 0
    requires Cached(env, cache, current, seen, evalSlot, fuel)
    requires !Climbs(env, online, current, seen, evalSlot)
    requires !Climbs(CacheEnv(env, cache), cached, current, seen, evalSlot)
    ensures var a, b := WalkUp(env, online, current, seen, chain, evalSlot, fuel),
                        WalkUp(CacheEnv(env, cache), cached, current, seen, chain, evalSlot, fuel);
      a.Some? && b.Some? && a.value.chain == b.value.chain == chain && !a.value.truncated && !b.value.truncated
        && Alike(env, a.value.st, b.value.st, evalSlot)
  {
    hide AppendOrphan;
    if RootShown(env.era, online.visible, current) {
      ShownIsDead(env, online.visible, current, evalSlot);
    }
    if RootShown(env.era, cached.visible, current) {
      ShownIsDead(env, cached.visible, current, evalSlot);
    }
  }

  lemma {:induction false} WalksAlike(env: Env, cache: set<Root>, online: PlanState, cached: PlanState, current: Root,
                                      seen: set<Root>, chain: seq<Block>, evalSlot: uint64, fuel: nat)
    requires ValidEnv(env) && Alike(env, online, cached, evalSlot) && Cached(env, cache, current, seen, evalSlot, fuel)
    ensures var a, b := WalkUp(env, online, current, seen, chain, evalSlot, fuel),
                        WalkUp(CacheEnv(env, cache), cached, current, seen, chain, evalSlot, fuel);
      a.Some? && b.Some? && a.value.chain == b.value.chain && a.value.truncated == b.value.truncated
        && Alike(env, a.value.st, b.value.st, evalSlot)
    decreases fuel
  {
    hide Alike, ValidEnv, Cached, Judge, AppendOrphan;
    if fuel > 0 {
      ClimbAlike(env, cache, online, cached, current, seen, evalSlot, fuel);
      if Climbs(env, online, current, seen, evalSlot) {
        var info := env.archive(current).value;
        WalksAlike(env, cache, StateAfter(env, online, current, seen, evalSlot),
          StateAfter(CacheEnv(env, cache), cached, current, seen, evalSlot), info.parentRoot, seen + {current},
          chain + [info], evalSlot, fuel - 1);
      } else {
        HaltAlike(env, cache, online, cached, current, seen, chain, evalSlot, fuel);
      }
    }
  }

  /** A walk only adds to the chain it has. */
  lemma {:induction false} WalkExtends(env: Env, st: PlanState, current: Root, seen: set<Root>, chain: seq<Block>,
                                       evalSlot: uint64, fuel: nat)
    ensures var w := WalkUp(env, st, current, seen, chain, evalSlot, fuel); w.Some? ==> chain <= w.value.chain
    decreases fuel
  {
    if fuel > 0 && Climbs(env, st, current, seen, evalSlot) {
      var info := env.archive(current).value;
      WalkExtends(env, StateAfter(env, st, current, seen, evalSlot), info.parentRoot, seen + {current}, chain + [info],
                  evalSlot, fuel - 1);
    }
  }

  /** Where a walk over the archive that may go on does not fail, it climbs; over the cache it stops unless the root is
      cached. */
  lemma GoesOn(env: Env, cache: set<Root>, online: PlanState, cached: PlanState, current: Root, seen: set<Root>,
               chain: seq<Block>, evalSlot: uint64, fuel: nat)
    requires ValidEnv(env) && Alike(env, online, cached, evalSlot) && online.imported == env.checkpoints && fuel > 0
    requires current != ZERO_ROOT && current !in env.checkpoints && current !in seen && !Dead(env, current, evalSlot)
    requires WalkUp(env, online, current, seen, chain, evalSlot, fuel).Some?
    ensures Climbs(env, online, current, seen, evalSlot) && !env.era(env.archive(current).value.slot).Unreadable?
    ensures current in cache ==> Climbs(CacheEnv(env, cache), cached, current, seen, evalSlot)
    ensures current in cache ==>
      Alike(env, StateAfter(env, online, current, seen, evalSlot),
            StateAfter(CacheEnv(env, cache), cached, current, seen, evalSlot), evalSlot)
    ensures current !in cache ==>
      WalkUp(CacheEnv(env, cache), cached, current, seen, chain, evalSlot, fuel).Some?
      && WalkUp(CacheEnv(env, cache), cached, current, seen, chain, evalSlot, fuel).value.chain == chain
  {
    if RootShown(env.era, online.visible, current) {
      ShownIsDead(env, online.visible, current, evalSlot);
    }
    if RootShown(env.era, cached.visible, current) {
      ShownIsDead(env, cached.visible, current, evalSlot);
    }
  }

  /** Only a cached walk gives the chain of the archive. */
  lemma {:induction false} EqualChainsCached(env: Env, cache: set<Root>, online: PlanState, cached: PlanState,
                                             current: Root, seen: set<Root>, chain: seq<Block>, evalSlot: uint64,
                                             fuel: nat)
    requires ValidEnv(env) && Alike(env, online, cached, evalSlot) && online.imported == env.checkpoints
    requires var a, b := WalkUp(env, online, current, seen, chain, evalSlot, fuel),
                         WalkUp(CacheEnv(env, cache), cached, current, seen, chain, evalSlot, fuel);
      a.Some? && b.Some? && a.value.chain == b.value.chain
    ensures Cached(env, cache, current, seen, evalSlot, fuel)
    decreases fuel
  {
    hide WalkUp, Alike, ValidEnv, Climbs, StateAfter, Dead;
    if !(fuel == 0 || current == ZERO_ROOT || current in env.checkpoints || current in seen
      || Dead(env, current, evalSlot)) {
      GoesOn(env, cache, online, cached, current, seen, chain, evalSlot, fuel);
      var info := env.archive(current).value;
      var next := StateAfter(env, online, current, seen, evalSlot);
      ClimbGoesOn(env, online, current, seen, chain, evalSlot, fuel);
      if current in cache {
        ClimbGoesOn(CacheEnv(env, cache), cached, current, seen, chain, evalSlot, fuel);
        EqualChainsCached(env, cache, next, StateAfter(CacheEnv(env, cache), cached, current, seen, evalSlot),
                          info.parentRoot, seen + {current}, chain + [info], evalSlot, fuel - 1);
      } else {
        WalkExtends(env, next, info.parentRoot, seen + {current}, chain + [info], evalSlot, fuel - 1);
      }
    }
  }

  lemma ReversedInjective(a: seq<Block>, b: seq<Block>)
    requires Reversed(a) == Reversed(b)
    ensures a == b
  {
    assert |a| == |b|;
    forall i | 0 <= i < |a|
      ensures a[i] == b[i]
    {
      assert Reversed(a)[|a| - 1 - i] == a[i] && Reversed(b)[|b| - 1 - i] == b[i];
    }
  }

  /** A root whose walk is cached resolves from the cache to the same chain as from the archive, though the cache-only
      state may have marked other roots missing. When nothing but the checkpoints is imported, only such a root does. */
  lemma ChainsAlike(env: Env, cache: set<Root>, online: PlanState, cached: PlanState, root: Root, evalSlot: uint64)
    requires ValidEnv(env) && Alike(env, online, cached, evalSlot)
    ensures var a, b := ResolveChain(env, online, root, evalSlot),
                        ResolveChain(CacheEnv(env, cache), cached, root, evalSlot);
      var alike := a.Some? && b.Some? && a.value.blocks == b.value.blocks;
      && (Cached(env, cache, root, {}, evalSlot, MAX_ORPHAN_WALK) ==>
        alike && Alike(env, a.value.st, b.value.st, evalSlot))
      && (online.imported == env.checkpoints ==> (alike <==> Cached(env, cache, root, {}, evalSlot, MAX_ORPHAN_WALK)))
  {
    hide WalkUp, Cached, Alike;
    if Cached(env, cache, root, {}, evalSlot, MAX_ORPHAN_WALK) {
      WalksAlike(env, cache, online, cached, root, {}, [], evalSlot, MAX_ORPHAN_WALK);
      SameButCount(env, cache, online, cached, root, evalSlot);
    }
    var a, b := ResolveChain(env, online, root, evalSlot), ResolveChain(CacheEnv(env, cache), cached, root, evalSlot);
    if online.imported == env.checkpoints && a.Some? && b.Some? && a.value.blocks == b.value.blocks {
      ReversedInjective(WalkUp(env, online, root, {}, [], evalSlot, MAX_ORPHAN_WALK).value.chain,
                        WalkUp(CacheEnv(env, cache), cached, root, {}, [], evalSlot, MAX_ORPHAN_WALK).value.chain);
      EqualChainsCached(env, cache, online, cached, root, {}, [], evalSlot, MAX_ORPHAN_WALK);
    }
  }

  /** Counting a cut walk changes nothing that matters here. */
  lemma SameButCount(env: Env, cache: set<Root>, online: PlanState, cached: PlanState, root: Root, evalSlot: uint64)
    requires var a, b := WalkUp(env, online, root, {}, [], evalSlot, MAX_ORPHAN_WALK),
                         WalkUp(CacheEnv(env, cache), cached, root, {}, [], evalSlot, MAX_ORPHAN_WALK);
      a.Some? && b.Some? && Alike(env, a.value.st, b.value.st, evalSlot)
    ensures var a, b := ResolveChain(env, online, root, evalSlot),
                        ResolveChain(CacheEnv(env, cache), cached, root, evalSlot);
      a.Some? && b.Some? && Alike(env, a.value.st, b.value.st, evalSlot)
  {
  }

  // ----- the instruction of one slot

  lemma {:induction false} TakeChainAlike(env: Env, cache: set<Root>, blocks: seq<Block>, online: PlanState,
                                          cached: PlanState, chain: seq<Block>, simSlot: uint64, minSlot: uint64)
    requires ValidEnv(env) && Alike(env, online, cached, simSlot) && forall b :: b in chain ==> Orphan(env, b)
    ensures var a, b := TakeChain(env, Found(blocks, online), chain, simSlot, minSlot),
                        TakeChain(CacheEnv(env, cache), Found(blocks, cached), chain, simSlot, minSlot);
      a.blocks == b.blocks && Alike(env, a.st, b.st, simSlot)
    decreases |chain|
  {
    if chain != [] {
      var info, rest := chain[0], chain[1..];
      OrphanNotShown(env, online.visible, info);
      OrphanNotShown(env, cached.visible, info);
      if info.slot < minSlot {
        TakeChainAlike(env, cache, blocks, online.(ignored := online.ignored + {info.root}),
          cached.(ignored := cached.ignored + {info.root}), rest, simSlot, minSlot);
      } else if info.slot > simSlot || info.root in online.imported || info.root in online.scheduled {
        TakeChainAlike(env, cache, blocks, online, cached, rest, simSlot, minSlot);
      } else {
        TakeChainAlike(env, cache, blocks + [info], online.(scheduled := online.scheduled + {info.root}),
          cached.(scheduled := cached.scheduled + {info.root}), rest, simSlot, minSlot);
      }
    }
  }

  /** A root that is shown or missing resolves to nothing. */
  lemma StaleResolves(env: Env, st: PlanState, root: Root, evalSlot: uint64)
    requires RootKnown(env, st, root) || root in st.missing
    ensures ResolveChain(env, st, root, evalSlot) == Some(Found([], st))
  {
    assert Reversed([]) == [];
  }

  /** One root of the vote loop, as a step. */
  ghost function TakeRoot(env: Env, f: Found, root: Root, simSlot: uint64, minSlot: uint64): Option<Found> {
    if !Fresh(env, f.st, root) then Some(f)
    else
      match ResolveChain(env, f.st, root, simSlot)
      case None => None
      case Some(c) =>
        if c.blocks == [] then Some(f.(st := c.st))
        else
          var tip := c.blocks[|c.blocks| - 1];
          if tip.root != root || tip.slot != simSlot then Some(f.(st := c.st.(ignored := c.st.ignored + {root})))
          else Some(TakeChain(env, f.(st := c.st), c.blocks, simSlot, minSlot))
  }

  lemma TakeRootsSplit(env: Env, f: Found, roots: seq<Root>, simSlot: uint64, minSlot: uint64)
    requires roots != []
    ensures TakeRoots(env, f, roots, simSlot, minSlot) ==
      match TakeRoot(env, f, roots[0], simSlot, minSlot) case None => None
        case Some(g) => TakeRoots(env, g, roots[1..], simSlot, minSlot)
  {
  }

  lemma TakeRootAlike(env: Env, cache: set<Root>, blocks: seq<Block>, online: PlanState, cached: PlanState, root: Root,
                      simSlot: uint64, minSlot: uint64)
    requires ValidEnv(env) && Alike(env, online, cached, simSlot)
    requires Cached(env, cache, root, {}, simSlot, MAX_ORPHAN_WALK)
    ensures var a, b := TakeRoot(env, Found(blocks, online), root, simSlot, minSlot),
                        TakeRoot(CacheEnv(env, cache), Found(blocks, cached), root, simSlot, minSlot);
      a.Some? && b.Some? && a.value.blocks == b.value.blocks && Alike(env, a.value.st, b.value.st, simSlot)
  {
    hide WalkUp, ResolveChain, TakeChain, Cached;
    ChainsAlike(env, cache, online, cached, root, simSlot);
    if RootKnown(env, online, root) || root in online.missing {
      StaleResolves(env, online, root, simSlot);
    }
    if RootKnown(CacheEnv(env, cache), cached, root) || root in cached.missing {
      StaleResolves(CacheEnv(env, cache), cached, root, simSlot);
    }
    var a, b := ResolveChain(env, online, root, simSlot).value,
                ResolveChain(CacheEnv(env, cache), cached, root, simSlot).value;
    ResolvedChain(env, online, root, simSlot, a);
    TakeChainAlike(env, cache, blocks, a.st, b.st, a.blocks, simSlot, minSlot);
  }

  lemma {:induction false} TakeRootsAlike(env: Env, cache: set<Root>, blocks: seq<Block>, online: PlanState,
                                          cached: PlanState, roots: seq<Root>, simSlot: uint64, minSlot: uint64)
    requires ValidEnv(env) && Alike(env, online, cached, simSlot)
    requires forall r :: r in roots ==> Cached(env, cache, r, {}, simSlot, MAX_ORPHAN_WALK)
    ensures var a, b := TakeRoots(env, Found(blocks, online), roots, simSlot, minSlot),
                        TakeRoots(CacheEnv(env, cache), Found(blocks, cached), roots, simSlot, minSlot);
      a.Some? && b.Some? && a.value.blocks == b.value.blocks
    decreases |roots|
  {
    if roots != [] {
      TakeRootsSplit(env, Found(blocks, online), roots, simSlot, minSlot);
      TakeRootsSplit(CacheEnv(env, cache), Found(blocks, cached), roots, simSlot, minSlot);
      TakeRootAlike(env, cache, blocks, online, cached, roots[0], simSlot, minSlot);
      var a, b := TakeRoot(env, Found(blocks, online), roots[0], simSlot, minSlot).value,
                  TakeRoot(CacheEnv(env, cache), Found(blocks, cached), roots[0], simSlot, minSlot).value;
      TakeRootsAlike(env, cache, a.blocks, a.st, b.st, roots[1..], simSlot, minSlot);
    }
  }

  /** Every root the votes of the range name is cached as far as walks up to `loadEnd` could follow it. */
  ghost predicate VotesWarmed(env: Env, cache: set<Root>, from: uint64, to: uint64, loadEnd: uint64) {
    env.firstSeen.Some? && forall simSlot: uint64 :: from <= simSlot < to ==> SlotWarmed(env, cache, simSlot, loadEnd)
  }

  ghost predicate SlotWarmed(env: Env, cache: set<Root>, simSlot: uint64, loadEnd: uint64)
    requires env.firstSeen.Some?
  {
    && env.firstSeen.value(simSlot).Some?
    && RootsWarmed(env, cache, env.firstSeen.value(simSlot).value, loadEnd)
  }

  ghost predicate RootsWarmed(env: Env, cache: set<Root>, atts: seq<Attestation>, loadEnd: uint64) {
    forall att :: att in atts ==>
      Cached(env, cache, att.targetRoot, {}, loadEnd, MAX_ORPHAN_WALK)
        && Cached(env, cache, att.beaconBlockRoot, {}, loadEnd, MAX_ORPHAN_WALK)
  }

  /** The orphan index handed to the server lists only roots that the cache can serve, or that nobody can. */
  ghost predicate PreloadServed(env: Env, cache: set<Root>) {
    forall s, r :: s in env.preload && r in env.preload[s] ==>
      r in cache || r in env.checkpoints || env.archive(r).None?
  }

  lemma {:induction false} GatherAlike(env: Env, cache: set<Root>, st: PlanState, slot: uint64, roots: seq<Root>,
                                       seen: set<Root>, infos: seq<Block>)
    requires forall r :: r in roots ==> r in cache || r in env.checkpoints || env.archive(r).None?
    ensures GatherOrphans(CacheEnv(env, cache), st, slot, roots, seen, infos)
      == GatherOrphans(env, st, slot, roots, seen, infos)
    decreases |roots|
  {
    if roots != [] {
      var root, rest := roots[0], roots[1..];
      if root == ZERO_ROOT || root in seen || root in st.missing || root in st.ignored {
        GatherAlike(env, cache, st, slot, rest, seen, infos);
      } else if env.archive(root).None? {
        GatherAlike(env, cache, st.(missing := st.missing + {root}), slot, rest, seen + {root}, infos);
      } else {
        var info, st1 := env.archive(root).value, st.(fetched := st.fetched + {root});
        if info.slot != slot {
          GatherAlike(env, cache, st1.(ignored := st1.ignored + {root}), slot, rest, seen + {root}, infos);
        } else if Judge(env, st1, info).Some? {
          var v := Judge(env, st1, info).value;
          if v.canonical {
            GatherAlike(env, cache, v.st.(ignored := v.st.ignored + {root}), slot, rest, seen + {root}, infos);
          } else {
            GatherAlike(env, cache, v.st, slot, rest, seen + {root}, infos + [info]);
          }
        }
      }
    }
  }

  lemma {:induction false} ImportAlike(env: Env, cache: set<Root>, st: PlanState, infos: seq<Block>, minSlot: uint64,
                                       out: seq<Block>)
    ensures ImportOrphans(CacheEnv(env, cache), st, infos, minSlot, out) == ImportOrphans(env, st, infos, minSlot, out)
    decreases |infos|
  {
    if infos != [] {
      var info, rest := infos[0], infos[1..];
      if info.slot < minSlot {
        ImportAlike(env, cache, st.(ignored := st.ignored + {info.root}), rest, minSlot, out);
      } else if RootKnown(env, st, info.root) || info.root in st.scheduled {
        ImportAlike(env, cache, st, rest, minSlot, out);
      } else {
        ImportAlike(env, cache, st.(imported := st.imported + {info.root}), rest, minSlot, out + [info]);
      }
    }
  }

  lemma ListedAlike(env: Env, cache: set<Root>, st: PlanState, slot: uint64, minSlot: uint64)
    requires forall r :: r in OrphansAt(st, slot) ==> r in cache || r in env.checkpoints || env.archive(r).None?
    ensures SlotOrphans(CacheEnv(env, cache), st, slot, minSlot) == SlotOrphans(env, st, slot, minSlot)
  {
    GatherAlike(env, cache, st, slot, OrphansAt(st, slot), {}, []);
    var f := OrphanInfos(env, st, slot);
    if f.Some? {
      ImportAlike(env, cache, f.value.st, f.value.blocks, minSlot, []);
    }
  }

  lemma StartServed(env: Env, cache: set<Root>, visible: set<uint64>, imported: set<Root>, slot: uint64)
    requires PreloadServed(env, cache)
    ensures forall r :: r in OrphansAt(StartState(env, visible, imported), slot) ==>
      r in cache || r in env.checkpoints || env.archive(r).None?
  {
    if slot in env.preload {
      SameMembers(SortRootList(env.preload[slot]), env.preload[slot]);
    }
  }

  lemma VotesAlike(env: Env, cache: set<Root>, st: PlanState, atts: seq<Attestation>, simSlot: uint64, minSlot: uint64)
    requires ValidEnv(env) && StateOk(env, st) && env.checkpoints <= st.imported
    requires RootsWarmed(env, cache, atts, simSlot)
    ensures var a, b := VoteImports(env, st, atts, simSlot, minSlot),
                        VoteImports(CacheEnv(env, cache), st, atts, simSlot, minSlot);
      a.Some? && b.Some? && a.value.blocks == b.value.blocks
  {
    var roots := FreshRoots(env, st, atts, None);
    FreshAlike(env, cache, st, atts);
    forall r | r in SortedRoots(roots)
      ensures Cached(env, cache, r, {}, simSlot, MAX_ORPHAN_WALK)
    {
      assert r in roots;
    }
    TakeRootsAlike(env, cache, [], st, st, SortedRoots(roots), simSlot, minSlot);
  }

  lemma FreshAlike(env: Env, cache: set<Root>, st: PlanState, atts: seq<Attestation>)
    ensures FreshRoots(CacheEnv(env, cache), st, atts, None) == FreshRoots(env, st, atts, None)
  {
    assert forall r :: Fresh(CacheEnv(env, cache), st, r) <==> Fresh(env, st, r);
  }

  lemma WarmedEarlier(env: Env, cache: set<Root>, atts: seq<Attestation>, late: uint64, early: uint64)
    requires RootsWarmed(env, cache, atts, late) && early <= late
    ensures RootsWarmed(env, cache, atts, early)
  {
    forall att | att in atts
      ensures Cached(env, cache, att.targetRoot, {}, early, MAX_ORPHAN_WALK)
      ensures Cached(env, cache, att.beaconBlockRoot, {}, early, MAX_ORPHAN_WALK)
    {
      CachedEarlier(env, cache, cache, att.targetRoot, {}, late, early, MAX_ORPHAN_WALK);
      CachedEarlier(env, cache, cache, att.beaconBlockRoot, {}, late, early, MAX_ORPHAN_WALK);
    }
  }

  /** In first-seen mode a server that reads only the cache answers every slot of the warmed range exactly like one that
      reads the whole archive: the same imports, the same votes, and an error exactly when the other has one. */
  lemma CacheServesRange(env: Env, cache: set<Root>, from: uint64, to: uint64, loadEnd: uint64, simSlot: uint64,
                         warmupStart: uint64)
    requires ValidEnv(env) && env.mode == FirstSeenGossip
    requires VotesWarmed(env, cache, from, to, loadEnd) && PreloadServed(env, cache)
    requires from <= simSlot < to <= loadEnd
    ensures BuildSlot(CacheEnv(env, cache), simSlot, warmupStart) == BuildSlot(env, simSlot, warmupStart)
  {
    var served := CacheEnv(env, cache);
    assert SlotWarmed(env, cache, simSlot, loadEnd);
    var atts := env.firstSeen.value(simSlot).value;
    WarmedEarlier(env, cache, atts, loadEnd, simSlot);
    if !SlotRejected(env, simSlot, warmupStart) {
      InstructedAlike(env, cache, SlotStart(env, simSlot, warmupStart), simSlot, warmupStart);
    }
  }

  lemma ListedStage(env: Env, cache: set<Root>, st: PlanState, simSlot: uint64, warmupStart: uint64)
    requires ValidEnv(env) && warmupStart < simSlot && st == SlotStart(env, simSlot, warmupStart)
    requires PreloadServed(env, cache)
    ensures CanonicalImport(CacheEnv(env, cache), st, simSlot) == CanonicalImport(env, st, simSlot)
    ensures var st1 := CanonicalImport(env, st, simSlot).1;
      && SlotOrphans(CacheEnv(env, cache), st1, simSlot, warmupStart + 1)
        == SlotOrphans(env, st1, simSlot, warmupStart + 1)
      && (var listed := SlotOrphans(env, st1, simSlot, warmupStart + 1);
          listed.Some? ==> StateOk(env, listed.value.st) && env.checkpoints <= listed.value.st.imported)
  {
    hide SlotOrphans;
    var st1 := CanonicalImport(env, st, simSlot).1;
    StartServed(env, cache, st.visible, env.checkpoints, simSlot);
    ListedAlike(env, cache, st1, simSlot, warmupStart + 1);
    var listed := SlotOrphans(env, st1, simSlot, warmupStart + 1);
    if listed.Some? {
      SlotOrphansShape(env, st1, simSlot, warmupStart + 1, listed.value);
    }
  }

  lemma InstructedAlike(env: Env, cache: set<Root>, st: PlanState, simSlot: uint64, warmupStart: uint64)
    requires ValidEnv(env) && env.mode == FirstSeenGossip && warmupStart < simSlot
    requires st == SlotStart(env, simSlot, warmupStart)
    requires env.firstSeen.Some? && SlotWarmed(env, cache, simSlot, simSlot) && PreloadServed(env, cache)
    ensures SlotInstructed(CacheEnv(env, cache), st, simSlot, warmupStart + 1)
      == SlotInstructed(env, st, simSlot, warmupStart + 1)
  {
    hide SlotOrphans, VoteImports, CanonicalImport, SlotStart, ValidEnv;
    ListedStage(env, cache, st, simSlot, warmupStart);
    var listed := SlotOrphans(env, CanonicalImport(env, st, simSlot).1, simSlot, warmupStart + 1);
    if listed.Some? {
      VotesAlike(env, cache, listed.value.st, env.firstSeen.value(simSlot).value, simSlot, warmupStart + 1);
    }
  }

  // ----- votes read from source blocks

  /** The votes that the source slots of `simSlot` can show are warmed: those of the canonical blocks and of the listed
      orphans. */
  ghost predicate SourcesWarmed(env: Env, cache: set<Root>, simSlot: uint64, loadEnd: uint64) {
    forall s: uint64 :: simSlot < s <= SlotLoadEnd(env, simSlot) ==> SourceWarmed(env, cache, s, loadEnd)
  }

  ghost predicate SourceWarmed(env: Env, cache: set<Root>, s: uint64, loadEnd: uint64) {
    && (env.era(s).Present? ==> RootsWarmed(env, cache, env.era(s).block.attestations, loadEnd))
    && (s in env.preload ==> forall r :: r in env.preload[s] && env.archive(r).Some? ==>
      RootsWarmed(env, cache, env.archive(r).value.attestations, loadEnd))
  }

  /** The listed orphans are those the server was given, and the cache serves them. */
  ghost predicate ListServed(env: Env, cache: set<Root>, st: PlanState) {
    forall s: uint64, r: Root :: r in OrphansAt(st, s) ==> RootServed(env, cache, s, r)
  }

  ghost predicate RootServed(env: Env, cache: set<Root>, s: uint64, r: Root) {
    (r in cache || r in env.checkpoints || env.archive(r).None?) && s in env.preload && r in env.preload[s]
  }

  lemma StartListServed(env: Env, cache: set<Root>, st: PlanState)
    requires PreloadServed(env, cache) && st.orphans == ClonedOrphans(env.preload)
    ensures ListServed(env, cache, st)
  {
    forall s: uint64, r: Root | r in OrphansAt(st, s)
      ensures RootServed(env, cache, s, r)
    {
      SameMembers(SortRootList(env.preload[s]), env.preload[s]);
    }
  }

  lemma WarmedJoin(env: Env, cache: set<Root>, a: seq<Attestation>, b: seq<Attestation>, loadEnd: uint64)
    requires RootsWarmed(env, cache, a, loadEnd) && RootsWarmed(env, cache, b, loadEnd)
    ensures RootsWarmed(env, cache, a + b, loadEnd)
  {
  }

  lemma {:induction false} BlocksWarmed(env: Env, cache: set<Root>, infos: seq<Block>, loadEnd: uint64)
    requires forall b :: b in infos ==> RootsWarmed(env, cache, b.attestations, loadEnd)
    ensures RootsWarmed(env, cache, Attestations(infos), loadEnd)
  {
    if infos != [] {
      BlocksWarmed(env, cache, infos[1..], loadEnd);
      WarmedJoin(env, cache, infos[0].attestations, Attestations(infos[1..]), loadEnd);
    }
  }

  lemma {:induction false} DedupMembers(atts: seq<Attestation>, max: Option<uint64>, seen: set<Root>,
                                        out: seq<Attestation>)
    ensures forall att :: att in Dedup(atts, max, seen, out).0 ==> att in out || att in atts
    decreases |atts|
  {
    if atts != [] {
      if !WithinMax(atts[0], max) || atts[0].root in seen {
        DedupMembers(atts[1..], max, seen, out);
      } else {
        DedupMembers(atts[1..], max, seen + {atts[0].root}, out + [atts[0]]);
      }
    }
  }

  lemma DedupWarmed(env: Env, cache: set<Root>, atts: seq<Attestation>, max: Option<uint64>, seen: set<Root>,
                    out: seq<Attestation>, loadEnd: uint64)
    requires RootsWarmed(env, cache, atts, loadEnd) && RootsWarmed(env, cache, out, loadEnd)
    ensures RootsWarmed(env, cache, Dedup(atts, max, seen, out).0, loadEnd)
  {
    DedupMembers(atts, max, seen, out);
  }

  /** A source slot shows the same blocks to both servers. */
  lemma InfosAlike(env: Env, cache: set<Root>, st: PlanState, s: uint64)
    requires ValidEnv(env) && StateOk(env, st) && ListServed(env, cache, st)
    ensures SourceInfos(CacheEnv(env, cache), st, s) == SourceInfos(env, st, s)
    ensures var f := SourceInfos(env, st, s);
      f.Some? ==> Steady(env, st, f.value.st) && ListServed(env, cache, f.value.st)
  {
    GatherAlike(env, cache, st, s, OrphansAt(st, s), {}, []);
    var g := OrphanInfos(env, st, s);
    if g.Some? {
      InfosShape(env, st, s, g.value);
      var f := SourceInfos(env, st, s).value;
      forall x, r | r in OrphansAt(f.st, x)
        ensures r in OrphansAt(st, x)
      {
      }
    }
  }

  /** All votes of the blocks it shows are warmed. */
  lemma InfosWarmed(env: Env, cache: set<Root>, st: PlanState, s: uint64, f: Found, loadEnd: uint64)
    requires ValidEnv(env) && StateOk(env, st) && ListServed(env, cache, st) && SourceWarmed(env, cache, s, loadEnd)
    requires SourceInfos(env, st, s) == Some(f)
    ensures RootsWarmed(env, cache, Attestations(f.blocks), loadEnd)
  {
    var g := OrphanInfos(env, st, s).value;
    InfosShape(env, st, s, g);
    forall b | b in f.blocks
      ensures RootsWarmed(env, cache, b.attestations, loadEnd)
    {
      if b in g.blocks {
        assert b.root in OrphansAt(st, s) && env.archive(b.root) == Some(b);
      }
    }
    BlocksWarmed(env, cache, f.blocks, loadEnd);
  }

  lemma {:induction false} SourceVotesAlike(env: Env, cache: set<Root>, st: PlanState, sources: seq<Source>,
                                            seen: set<Root>, out: seq<Attestation>)
    requires ValidEnv(env) && StateOk(env, st) && ListServed(env, cache, st)
    ensures SourceVotes(CacheEnv(env, cache), st, sources, seen, out) == SourceVotes(env, st, sources, seen, out)
    ensures var v := SourceVotes(env, st, sources, seen, out);
      v.Some? ==> StateOk(env, v.value.st) && v.value.st.imported == st.imported && v.value.st.scheduled == st.scheduled
    decreases |sources|
  {
    if sources != [] {
      hide SourceInfos, Dedup, Attestations, ListServed;
      InfosAlike(env, cache, st, sources[0].slot);
      var f := SourceInfos(env, st, sources[0].slot);
      if f.Some? {
        var next := Dedup(Attestations(f.value.blocks), sources[0].maxAttestationSlot, seen, out);
        SourceVotesAlike(env, cache, f.value.st, sources[1..], next.1, next.0);
      }
    }
  }

  lemma {:induction false} SourceVotesWarmed(env: Env, cache: set<Root>, st: PlanState, sources: seq<Source>,
                                             seen: set<Root>, out: seq<Attestation>, v: Votes, loadEnd: uint64)
    requires ValidEnv(env) && StateOk(env, st) && ListServed(env, cache, st)
    requires forall i :: 0 <= i < |sources| ==> SourceWarmed(env, cache, sources[i].slot, loadEnd)
    requires RootsWarmed(env, cache, out, loadEnd) && SourceVotes(env, st, sources, seen, out) == Some(v)
    ensures RootsWarmed(env, cache, v.attestations, loadEnd)
    decreases |sources|
  {
    if sources != [] {
      hide SourceInfos, Dedup, Attestations, RootsWarmed, SourceWarmed, ListServed;
      InfosAlike(env, cache, st, sources[0].slot);
      var f := SourceInfos(env, st, sources[0].slot).value;
      InfosWarmed(env, cache, st, sources[0].slot, f, loadEnd);
      var next := Dedup(Attestations(f.blocks), sources[0].maxAttestationSlot, seen, out);
      DedupWarmed(env, cache, Attestations(f.blocks), sources[0].maxAttestationSlot, seen, out, loadEnd);
      SourceVotesWarmed(env, cache, f.st, sources[1..], next.1, next.0, v, loadEnd);
    }
  }

  /** A source slot lies in the window of its mode. */
  lemma SourcesInWindow(blocks: set<uint64>, simSlot: uint64, mode: Mode, cap: uint64, evalSlot: uint64,
                        loadEnd: uint64)
    requires forall s :: s in blocks ==> s <= loadEnd
    ensures forall i :: 0 <= i < |Sources(blocks, simSlot, mode, cap, evalSlot)| ==>
      simSlot < Sources(blocks, simSlot, mode, cap, evalSlot)[i].slot <= loadEnd
  {
    var sources := Sources(blocks, simSlot, mode, cap, evalSlot);
    hide Sources, Chosen;
    SourcesArePromised(blocks, simSlot, mode, cap, evalSlot);
    forall i | 0 <= i < |sources|
      ensures simSlot < sources[i].slot <= loadEnd
    {
      assert HasSource(sources, sources[i].slot);
      ChosenAhead(blocks, simSlot, mode, cap, sources[i].slot);
    }
  }

  /** Both servers see the same votes of a slot. */
  lemma SlotVotesAlike(env: Env, cache: set<Root>, st: PlanState, simSlot: uint64)
    requires ValidEnv(env) && StateOk(env, st) && ListServed(env, cache, st)
    ensures SlotVotes(CacheEnv(env, cache), st, simSlot) == SlotVotes(env, st, simSlot)
    ensures var v := SlotVotes(env, st, simSlot);
      v.Some? ==> StateOk(env, v.value.st) && v.value.st.imported == st.imported && v.value.st.scheduled == st.scheduled
  {
    hide SourceVotes, Sources, ListServed, StateOk, ValidEnv;
    if env.mode != FirstSeenGossip {
      var evalSlot := SaturatingAdd(simSlot, 1);
      SourceVotesAlike(env, cache, st,
        Sources(WindowBlocks(env, st, simSlot), simSlot, env.mode, SlotCap(env), evalSlot), {}, []);
    }
  }

  lemma SlotVotesWarmed(env: Env, cache: set<Root>, st: PlanState, simSlot: uint64, v: Votes, loadEnd: uint64)
    requires ValidEnv(env) && StateOk(env, st) && ListServed(env, cache, st) && env.mode != FirstSeenGossip
    requires SourcesWarmed(env, cache, simSlot, loadEnd) && SlotVotes(env, st, simSlot) == Some(v)
    ensures RootsWarmed(env, cache, v.attestations, loadEnd)
  {
    hide SourceVotes, Sources, ListServed, SourceWarmed, StateOk, ValidEnv, Dead;
    var evalSlot := SaturatingAdd(simSlot, 1);
    var blocks := WindowBlocks(env, st, simSlot);
    var sources := Sources(blocks, simSlot, env.mode, SlotCap(env), evalSlot);
    SourcesInWindow(blocks, simSlot, env.mode, SlotCap(env), evalSlot, SlotLoadEnd(env, simSlot));
    SourceVotesWarmed(env, cache, st, sources, {}, [], v, loadEnd);
  }

  /** The blocks a slot's sources are chosen from. */
  ghost function WindowBlocks(env: Env, st: PlanState, simSlot: uint64): set<uint64> {
    st.visible * Window(SaturatingAdd(simSlot, 1), SlotLoadEnd(env, simSlot))
  }

  lemma StagesAlike(env: Env, cache: set<Root>, st: PlanState, simSlot: uint64, minSlot: uint64, loadEnd: uint64)
    requires ValidEnv(env) && StateOk(env, st) && env.checkpoints <= st.imported && ListServed(env, cache, st)
    requires env.mode != FirstSeenGossip && SourcesWarmed(env, cache, simSlot, loadEnd) && simSlot <= loadEnd
    ensures var v := SlotVotes(env, st, simSlot);
      && SlotVotes(CacheEnv(env, cache), st, simSlot) == v
      && (v.Some? ==>
            var a, b := VoteImports(env, v.value.st, v.value.attestations, simSlot, minSlot),
                        VoteImports(CacheEnv(env, cache), v.value.st, v.value.attestations, simSlot, minSlot);
            a.Some? && b.Some? && a.value.blocks == b.value.blocks)
  {
    hide SlotVotes, VoteImports, SourcesWarmed, ListServed, StateOk, ValidEnv, RootsWarmed;
    SlotVotesAlike(env, cache, st, simSlot);
    var v := SlotVotes(env, st, simSlot);
    if v.Some? {
      SlotVotesWarmed(env, cache, st, simSlot, v.value, loadEnd);
      WarmedEarlier(env, cache, v.value.attestations, loadEnd, simSlot);
      VotesAlike(env, cache, v.value.st, v.value.attestations, simSlot, minSlot);
    }
  }

  lemma ListedKept(env: Env, cache: set<Root>, st: PlanState, simSlot: uint64, warmupStart: uint64)
    requires ValidEnv(env) && warmupStart < simSlot && st == SlotStart(env, simSlot, warmupStart)
    requires PreloadServed(env, cache)
    ensures var listed := SlotOrphans(env, CanonicalImport(env, st, simSlot).1, simSlot, warmupStart + 1);
      listed.Some? ==> ListServed(env, cache, listed.value.st)
  {
    hide SlotOrphans, RootServed;
    var st1 := CanonicalImport(env, st, simSlot).1;
    StartListServed(env, cache, st1);
    var listed := SlotOrphans(env, st1, simSlot, warmupStart + 1);
    if listed.Some? {
      SlotOrphansShape(env, st1, simSlot, warmupStart + 1, listed.value);
      forall s: uint64, r: Root | r in OrphansAt(listed.value.st, s)
        ensures RootServed(env, cache, s, r)
      {
        assert r in OrphansAt(st1, s);
      }
    }
  }

  lemma InstructedFromSources(env: Env, cache: set<Root>, st: PlanState, simSlot: uint64, warmupStart: uint64,
                              loadEnd: uint64)
    requires ValidEnv(env) && warmupStart < simSlot <= loadEnd && st == SlotStart(env, simSlot, warmupStart)
    requires PreloadServed(env, cache)
    requires env.mode != FirstSeenGossip && SourcesWarmed(env, cache, simSlot, loadEnd)
    ensures SlotInstructed(CacheEnv(env, cache), st, simSlot, warmupStart + 1)
      == SlotInstructed(env, st, simSlot, warmupStart + 1)
  {
    hide SlotOrphans, SlotVotes, VoteImports, CanonicalImport, SlotStart, ValidEnv, SourcesWarmed, ListServed, StateOk;
    ListedStage(env, cache, st, simSlot, warmupStart);
    ListedKept(env, cache, st, simSlot, warmupStart);
    var listed := SlotOrphans(env, CanonicalImport(env, st, simSlot).1, simSlot, warmupStart + 1);
    if listed.Some? {
      StagesAlike(env, cache, listed.value.st, simSlot, warmupStart + 1, loadEnd);
    }
  }

  /** In the modes that read votes from source blocks, the same holds for a slot whose source slots show only warmed
      votes. */
  lemma CacheServesSlot(env: Env, cache: set<Root>, loadEnd: uint64, simSlot: uint64, warmupStart: uint64)
    requires ValidEnv(env) && env.mode != FirstSeenGossip && PreloadServed(env, cache)
    requires SourcesWarmed(env, cache, simSlot, loadEnd) && simSlot <= loadEnd
    ensures BuildSlot(CacheEnv(env, cache), simSlot, warmupStart) == BuildSlot(env, simSlot, warmupStart)
  {
    hide SlotInstructed, SourcesWarmed, PreloadServed, ValidEnv;
    if !SlotRejected(env, simSlot, warmupStart) {
      InstructedFromSources(env, cache, SlotStart(env, simSlot, warmupStart), simSlot, warmupStart, loadEnd);
    }
  }
}
