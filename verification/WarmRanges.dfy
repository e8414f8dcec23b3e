/** The warm pass over the ranges of all workers, and serving from its cache with the orphan index merged from them. */
module WarmRanges {
  import opened Core
  import opened Blocks
  import opened CanonicalIndex
  import opened Sorting
  import opened Sorts
  import opened AttPlan
  import opened PlanSpec
  import opened OrphanChains
  import opened RealBackend
  import opened ParentsFirst
  import opened WarmCache
  import opened WarmPass
  import opened CacheExact

  // ----- merging the orphans of the passes

  function AppendAll(roots: seq<Root>, more: seq<Root>): seq<Root> {
    if more == [] then roots else Append(AppendAll(roots, more[..|more| - 1]), more[|more| - 1])
  }

  /** What the merged index lists at a slot. */
  ghost function MergedAt(passes: seq<WarmResult>, s: uint64): seq<Root> {
    if passes == [] then []
    else AppendAll(MergedAt(passes[..|passes| - 1], s), ListedAt(passes[|passes| - 1].orphans, s))
  }

  lemma {:induction false} AppendAllHas(roots: seq<Root>, more: seq<Root>)
    requires Distinct(roots) && |roots| <= MAX_ORPHANS_PER_SLOT
    ensures roots <= AppendAll(roots, more) && Distinct(AppendAll(roots, more))
    ensures |AppendAll(roots, more)| <= MAX_ORPHANS_PER_SLOT
    ensures forall r :: r in AppendAll(roots, more) ==> r in roots || r in more
    ensures forall r :: r in more && r != ZERO_ROOT ==>
      r in AppendAll(roots, more) || |AppendAll(roots, more)| == MAX_ORPHANS_PER_SLOT
  {
    if more != [] {
      var front, last := more[..|more| - 1], more[|more| - 1];
      AppendAllHas(roots, front);
      assert more == front + [last];
    }
  }

  /** The merged index lists at each slot at most eight distinct roots, all found by some pass, and it misses a root
      that a pass found only at a slot that lists eight. */
  lemma {:induction false} MergedIndex(passes: seq<WarmResult>, s: uint64)
    ensures Distinct(MergedAt(passes, s)) && |MergedAt(passes, s)| <= MAX_ORPHANS_PER_SLOT
    ensures forall r :: r in MergedAt(passes, s) ==>
      exists k :: 0 <= k < |passes| && r in ListedAt(passes[k].orphans, s)
    ensures forall k, r :: 0 <= k < |passes| && r in ListedAt(passes[k].orphans, s) && r != ZERO_ROOT ==>
      r in MergedAt(passes, s) || |MergedAt(passes, s)| == MAX_ORPHANS_PER_SLOT
  {
    if passes != [] {
      var front, last := passes[..|passes| - 1], passes[|passes| - 1];
      MergedIndex(front, s);
      AppendAllHas(MergedAt(front, s), ListedAt(last.orphans, s));
      forall r | r in MergedAt(passes, s)
        ensures exists k :: 0 <= k < |passes| && r in ListedAt(passes[k].orphans, s)
      {
        if r in MergedAt(front, s) {
          var k :| 0 <= k < |front| && r in ListedAt(front[k].orphans, s);
          assert passes[k] == front[k];
        } else {
          assert passes[|passes| - 1] == last;
        }
      }
      forall k, r | 0 <= k < |passes| && r in ListedAt(passes[k].orphans, s) && r != ZERO_ROOT
        ensures r in MergedAt(passes, s) || |MergedAt(passes, s)| == MAX_ORPHANS_PER_SLOT
      {
        assert MergedAt(front, s) <= MergedAt(passes, s);
        if k < |front| {
          assert passes[k] == front[k];
          if r in MergedAt(front, s) {
            var i :| 0 <= i < |MergedAt(front, s)| && MergedAt(front, s)[i] == r;
            assert MergedAt(passes, s)[i] == r;
          }
        } else {
          assert passes[k] == last;
        }
      }
    }
  }

  lemma AppendOneAt(orphans: map<uint64, seq<Root>>, slot: uint64, r: Root, s: uint64)
    ensures ListedAt(AppendOrphan(orphans, slot, r), s) == if s == slot then Append(ListedAt(orphans, s), r)
      else ListedAt(orphans, s)
  {
  }

  method AppendSlot(orphans0: map<uint64, seq<Root>>, slot: uint64, roots: seq<Root>)
    returns (orphans: map<uint64, seq<Root>>)
    ensures forall s :: ListedAt(orphans, s) == if s == slot then AppendAll(ListedAt(orphans0, s), roots)
      else ListedAt(orphans0, s)
  {
    hide AppendOrphan, Append;
    orphans := orphans0;
    for k := 0 to |roots|
      invariant forall s :: ListedAt(orphans, s) == if s == slot then AppendAll(ListedAt(orphans0, s), roots[..k])
        else ListedAt(orphans0, s)
    {
      assert roots[..k + 1] == roots[..k] + [roots[k]] && roots[..k + 1][..k] == roots[..k];
      forall s
        ensures ListedAt(AppendOrphan(orphans, slot, roots[k]), s) == if s == slot
          then Append(ListedAt(orphans, s), roots[k]) else ListedAt(orphans, s)
      {
        AppendOneAt(orphans, slot, roots[k], s);
      }
      orphans := AppendOrphan(orphans, slot, roots[k]);
    }
    assert roots[..|roots|] == roots;
  }

  /** Adds the orphans of a pass to the common index, slot by slot in any order. The source adds each at the moment it
      is found, which fills every slot in the same order. */
  method MergeOrphans(orphans0: map<uint64, seq<Root>>, found: map<uint64, seq<Root>>)
    returns (orphans: map<uint64, seq<Root>>)
    ensures forall s :: ListedAt(orphans, s) == AppendAll(ListedAt(orphans0, s), ListedAt(found, s))
  {
    orphans := orphans0;
    var rest := found.Keys;
    while rest != {}
      invariant rest <= found.Keys
      invariant forall s :: s in rest ==> ListedAt(orphans, s) == ListedAt(orphans0, s)
      invariant forall s :: s !in rest ==> ListedAt(orphans, s) == AppendAll(ListedAt(orphans0, s), ListedAt(found, s))
      decreases rest
    {
      var slot :| slot in rest;
      orphans := AppendSlot(orphans, slot, found[slot]);
      rest := rest - {slot};
    }
  }

  // ----- the loop over the ranges

  type Range = (uint64, uint64)

  /** What all passes leave behind: the disk cache, what each pass found, and the common index of orphans. */
  datatype WarmTotal = WarmTotal(cache: set<Root>, passes: seq<WarmResult>, orphans: map<uint64, seq<Root>>)

  ghost predicate PassDone(env: Env, catalog: Catalog, range: Range, w: WarmResult) {
    && (range.0 < range.1 ==> Warmed(env, range.0, range.1, w))
    && (range.0 < range.1 && env.mode == GreedyLookahead ==> IndexEntered(env, catalog, range.0, range.1, w))
    && (range.0 >= range.1 ==> w == WarmResult({}, map[], map[], {}))
    && (env.mode != GreedyLookahead ==> PassResult(env, range.0, range.1) == Some(w))
  }

  /** The cache holds what the passes fetched, and the common index is merged from theirs. */
  ghost predicate Merged(t: WarmTotal) {
    && (forall r :: r in t.cache <==> exists k :: 0 <= k < |t.passes| && r in t.passes[k].cache)
    && (forall s :: ListedAt(t.orphans, s) == MergedAt(t.passes, s))
  }

  /** What a successful run over all ranges guarantees. */
  ghost predicate TotalWarmed(env: Env, catalog: Catalog, ranges: seq<Range>, t: WarmTotal) {
    && |t.passes| == |ranges| && Merged(t)
    && (forall k :: 0 <= k < |ranges| ==> PassDone(env, catalog, ranges[k], t.passes[k]))
  }

  lemma MergedMore(t: WarmTotal, w: WarmResult, orphans: map<uint64, seq<Root>>)
    requires Merged(t) && forall s :: ListedAt(orphans, s) == AppendAll(ListedAt(t.orphans, s), ListedAt(w.orphans, s))
    ensures Merged(WarmTotal(t.cache + w.cache, t.passes + [w], orphans))
  {
    var passes := t.passes + [w];
    assert passes[..|t.passes|] == t.passes && passes[|t.passes|] == w;
    forall r
      ensures r in t.cache + w.cache <==> exists k :: 0 <= k < |passes| && r in passes[k].cache
    {
      if r in t.cache {
        var k :| 0 <= k < |t.passes| && r in t.passes[k].cache;
        assert r in passes[k].cache;
      }
      if k :| 0 <= k < |t.passes| && r in passes[k].cache {
        assert r in t.passes[k].cache;
      }
    }
  }

  /** The pass over a range succeeds: for certain, or in the modes without the slot index exactly then. */
  ghost predicate PassSucceeds(env: Env, catalog: Catalog, range: Range) {
    || range.0 >= range.1
    || if env.mode == GreedyLookahead then PassReady(env, catalog, range.0, range.1)
       else PassResult(env, range.0, range.1).Some?
  }

  /** Warms the cache for the ranges of all workers, one after the other. In the modes without the slot index it fails
      exactly when one of the passes does. */
  method WarmBlockArchiveCache(env: Env, others: nat, catalog: Catalog, ranges: seq<Range>)
    returns (r: Option<WarmTotal>)
    requires ValidEnv(env)
    ensures r.Some? ==> TotalWarmed(env, catalog, ranges, r.value)
    ensures env.mode != GreedyLookahead ==>
      (r.Some? <==> forall k :: 0 <= k < |ranges| ==> PassResult(env, ranges[k].0, ranges[k].1).Some?)
    ensures (forall k :: 0 <= k < |ranges| ==> PassSucceeds(env, catalog, ranges[k])) ==> r.Some?
  {
    hide ValidEnv, Warmed, IndexEntered, PassResult, Merged, PassReady;
    var backend := new Backend(env, others);
    var total := WarmTotal({}, [], map[]);
    NothingMerged();
    for k := 0 to |ranges|
      invariant backend.Valid() && |total.passes| == k && Merged(total)
      invariant forall j :: 0 <= j < k ==> PassDone(env, catalog, ranges[j], total.passes[j])
    {
      var w := WarmArchiveCache(backend, catalog, ranges[k].0, ranges[k].1);
      if w.None? {
        return None;
      }
      var orphans := MergeOrphans(total.orphans, w.value.orphans);
      MergedMore(total, w.value, orphans);
      total := WarmTotal(total.cache + w.value.cache, total.passes + [w.value], orphans);
    }
    return Some(total);
  }

  lemma NothingMerged()
    ensures Merged(WarmTotal({}, [], map[]))
  {
  }

  // ----- the server

  /** The configuration of the server: it gets the merged index. */
  ghost function ServingEnv(env: Env, t: WarmTotal): Env {
    env.(preload := ClonedOrphans(t.orphans))
  }

  lemma ServingWorld(env: Env, t: WarmTotal)
    requires World(env)
    ensures World(ServingEnv(env, t))
  {
    var served := ServingEnv(env, t);
    forall b, p | InWorld(served, b) && InWorld(served, p) && b.parentRoot == p.root
      ensures p.slot < b.slot
    {
      assert InWorld(env, b) && InWorld(env, p);
    }
  }

  /** What is cached does not depend on the index handed to the server. */
  lemma {:induction false} CachedServing(env: Env, t: WarmTotal, cache: set<Root>, current: Root, seen: set<Root>,
                                         evalSlot: uint64, fuel: nat)
    ensures Cached(ServingEnv(env, t), cache, current, seen, evalSlot, fuel)
      == Cached(env, cache, current, seen, evalSlot, fuel)
    decreases fuel
  {
    if !(fuel == 0 || current == ZERO_ROOT || current in env.checkpoints || current in seen
      || Dead(env, current, evalSlot)) {
      CachedServing(env, t, cache, env.archive(current).value.parentRoot, seen + {current}, evalSlot, fuel - 1);
    }
  }

  lemma RootsServing(env: Env, t: WarmTotal, cache: set<Root>, atts: seq<Attestation>, loadEnd: uint64)
    ensures RootsWarmed(ServingEnv(env, t), cache, atts, loadEnd) <==> RootsWarmed(env, cache, atts, loadEnd)
  {
    hide Cached;
    forall r
      ensures Cached(ServingEnv(env, t), cache, r, {}, loadEnd, MAX_ORPHAN_WALK)
        == Cached(env, cache, r, {}, loadEnd, MAX_ORPHAN_WALK)
    {
      CachedServing(env, t, cache, r, {}, loadEnd, MAX_ORPHAN_WALK);
    }
  }

  lemma VotesServing(env: Env, t: WarmTotal, cache: set<Root>, from: uint64, to: uint64, loadEnd: uint64)
    requires VotesWarmed(env, cache, from, to, loadEnd)
    ensures VotesWarmed(ServingEnv(env, t), cache, from, to, loadEnd)
  {
    hide RootsWarmed;
    forall s: uint64 | from <= s < to
      ensures SlotWarmed(ServingEnv(env, t), cache, s, loadEnd)
    {
      assert SlotWarmed(env, cache, s, loadEnd);
      RootsServing(env, t, cache, env.firstSeen.value(s).value, loadEnd);
    }
  }

  lemma PassCacheKept(env: Env, catalog: Catalog, ranges: seq<Range>, t: WarmTotal, k: nat)
    requires TotalWarmed(env, catalog, ranges, t) && k < |ranges|
    ensures t.passes[k].cache <= t.cache && PassDone(env, catalog, ranges[k], t.passes[k])
  {
  }

  /** What the server was handed at a slot is what the merged index lists there. */
  lemma HandedAt(env: Env, t: WarmTotal, s: uint64, r: Root)
    ensures s in ServingEnv(env, t).preload && r in ServingEnv(env, t).preload[s] <==> r in ListedAt(t.orphans, s)
  {
    if s in t.orphans {
      SameMembers(SortRootList(t.orphans[s]), t.orphans[s]);
    }
  }

  /** Every orphan in the merged index is in the cache. */
  lemma IndexServed(env: Env, catalog: Catalog, ranges: seq<Range>, t: WarmTotal, cache: set<Root>)
    requires TotalWarmed(env, catalog, ranges, t) && t.cache <= cache
    ensures PreloadServed(ServingEnv(env, t), cache)
  {
    hide ClonedOrphans, OrphanAt;
    var served := ServingEnv(env, t);
    forall s, r | s in served.preload && r in served.preload[s]
      ensures r in cache
    {
      HandedAt(env, t, s, r);
      MergedIndex(t.passes, s);
      var k :| 0 <= k < |t.passes| && r in ListedAt(t.passes[k].orphans, s);
      PassCacheKept(env, catalog, ranges, t, k);
      PassListed(env, catalog, ranges[k], t.passes[k], s, r);
    }
  }

  lemma PassListed(env: Env, catalog: Catalog, range: Range, w: WarmResult, s: uint64, r: Root)
    requires PassDone(env, catalog, range, w) && r in ListedAt(w.orphans, s)
    ensures r in w.cache
  {
    hide PassResult, IndexEntered, VotesWarmed, RootsWarmed, PresentIn, OrphanAt;
  }

  /** In first-seen mode a server on the warmed cache, with the index merged from all ranges, answers every slot of
      every range like a server on the full archive. */
  lemma WarmServesRange(env: Env, catalog: Catalog, ranges: seq<Range>, t: WarmTotal, k: nat, cache: set<Root>,
                        simSlot: uint64, warmupStart: uint64)
    requires ValidEnv(env) && env.mode == FirstSeenGossip && TotalWarmed(env, catalog, ranges, t) && t.cache <= cache
    requires k < |ranges| && ranges[k].0 <= simSlot < ranges[k].1
    ensures var served := ServingEnv(env, t);
      BuildSlot(CacheEnv(served, cache), simSlot, warmupStart) == BuildSlot(served, simSlot, warmupStart)
  {
    hide BuildSlot, CacheEnv, Listed, VotesWarmed, ClonedOrphans, Merged, PresentIn, PassResult;
    var loadEnd := SaturatingAdd(ranges[k].1, env.cap);
    IndexServed(env, catalog, ranges, t, cache);
    PassCacheKept(env, catalog, ranges, t, k);
    VotesLarger(env, t.passes[k].cache, cache, ranges[k].0, ranges[k].1, loadEnd);
    VotesServing(env, t, cache, ranges[k].0, ranges[k].1, loadEnd);
    CacheServesRange(ServingEnv(env, t), cache, ranges[k].0, ranges[k].1, loadEnd, simSlot, warmupStart);
  }

  /** In every mode, and for every slot: the answer is the same, errors included, if and only if the walks from the
      fresh roots that the slot's votes name fail alike and, where they do not fail, those with their block at the slot
      are cached as far as they stay in the window; where the era files can be read along these walks, only the latter
      matters. */
  lemma WarmServesSlot(env: Env, catalog: Catalog, ranges: seq<Range>, t: WarmTotal, cache: set<Root>, simSlot: uint64,
                       warmupStart: uint64)
    requires World(env) && TotalWarmed(env, catalog, ranges, t) && t.cache <= cache
    ensures var served := ServingEnv(env, t);
      var same := BuildSlot(CacheEnv(served, cache), simSlot, warmupStart) == BuildSlot(served, simSlot, warmupStart);
      && (same <==> VotedAlike(served, cache, simSlot, warmupStart))
      && (VotesLegible(served, simSlot, warmupStart) ==> (same <==> VotedCached(served, cache, simSlot, warmupStart)))
  {
    hide BuildSlot, CacheEnv, VotedCached, VotedAlike, VotesLegible, World, ClonedOrphans;
    ServingWorld(env, t);
    IndexServed(env, catalog, ranges, t, cache);
    ServesExactly(ServingEnv(env, t), cache, simSlot, warmupStart);
  }

  // ----- which slots are safe whatever the votes say

  /** A source slot of `simSlot` shows no orphan with votes that lead out of the cache, other than those whose votes the
      pass of this range collected from the index. */
  ghost predicate LateVotesWarmed(env: Env, t: WarmTotal, w: WarmResult, cache: set<Root>, simSlot: uint64) {
    forall s: uint64, r ::
      simSlot < s <= SlotLoadEnd(env, simSlot) && r in ListedAt(t.orphans, s) && r !in ListedAt(w.listed, s) ==>
        VotesOfWarmed(env, cache, r, simSlot)
  }

  ghost predicate VotesOfWarmed(env: Env, cache: set<Root>, r: Root, evalSlot: uint64) {
    env.archive(r).Some? ==> RootsWarmed(env, cache, env.archive(r).value.attestations, evalSlot)
  }

  lemma CanonicalWarmed(env: Env, from: uint64, to: uint64, w: WarmResult, cache: set<Root>, s: uint64,
                        evalSlot: uint64)
    requires env.mode != FirstSeenGossip && Warmed(env, from, to, w) && w.cache <= cache
    requires from <= s <= SaturatingAdd(to, env.cap) && env.era(s).Present? && evalSlot <= SaturatingAdd(to, env.cap)
    ensures RootsWarmed(env, cache, env.era(s).block.attestations, evalSlot)
  {
    hide RootsWarmed;
    var loadEnd := SaturatingAdd(to, env.cap);
    assert s in PresentIn(env.era, Window(from, loadEnd));
    LargerCache(env, w.cache, cache, env.era(s).block.attestations, loadEnd);
    WarmedEarlier(env, cache, env.era(s).block.attestations, loadEnd, evalSlot);
  }

  lemma OrphanWarmed(env: Env, from: uint64, to: uint64, t: WarmTotal, w: WarmResult, cache: set<Root>, simSlot: uint64,
                     s: uint64, r: Root)
    requires env.mode != FirstSeenGossip && Warmed(env, from, to, w) && w.cache <= cache
    requires simSlot <= SaturatingAdd(to, env.cap)
    requires LateVotesWarmed(env, t, w, cache, simSlot)
    requires simSlot < s <= SlotLoadEnd(env, simSlot) && r in ListedAt(t.orphans, s)
    ensures VotesOfWarmed(env, cache, r, simSlot)
  {
    hide RootsWarmed, PresentIn;
    if r in ListedAt(w.listed, s) {
      var loadEnd := SaturatingAdd(to, env.cap);
      LargerCache(env, w.cache, cache, env.archive(r).value.attestations, loadEnd);
      WarmedEarlier(env, cache, env.archive(r).value.attestations, loadEnd, simSlot);
    }
  }

  lemma SourceServed(env: Env, from: uint64, to: uint64, t: WarmTotal, w: WarmResult, cache: set<Root>, simSlot: uint64,
                     s: uint64)
    requires env.mode != FirstSeenGossip && Warmed(env, from, to, w) && w.cache <= cache && from <= simSlot < to
    requires LateVotesWarmed(env, t, w, cache, simSlot) && simSlot < s <= SlotLoadEnd(env, simSlot)
    ensures SourceWarmed(ServingEnv(env, t), cache, s, simSlot)
  {
    hide Warmed, LateVotesWarmed, RootsWarmed, ClonedOrphans;
    var served := ServingEnv(env, t);
    if env.era(s).Present? {
      CanonicalWarmed(env, from, to, w, cache, s, simSlot);
      RootsServing(env, t, cache, env.era(s).block.attestations, simSlot);
    }
    if s in served.preload {
      forall r | r in served.preload[s] && env.archive(r).Some?
        ensures RootsWarmed(served, cache, env.archive(r).value.attestations, simSlot)
      {
        HandedAt(env, t, s, r);
        OrphanWarmed(env, from, to, t, w, cache, simSlot, s, r);
        RootsServing(env, t, cache, env.archive(r).value.attestations, simSlot);
      }
    }
  }

  /** In the modes that read votes from source blocks, without any assumption on parents or era files: a slot of a range
      is answered alike unless a source slot shows an orphan whose votes the pass of the range never collected. */
  lemma WarmServesCollected(env: Env, catalog: Catalog, ranges: seq<Range>, t: WarmTotal, k: nat, cache: set<Root>,
                            simSlot: uint64, warmupStart: uint64)
    requires ValidEnv(env) && env.mode != FirstSeenGossip && TotalWarmed(env, catalog, ranges, t) && t.cache <= cache
    requires k < |ranges| && ranges[k].0 <= simSlot < ranges[k].1
    requires LateVotesWarmed(env, t, t.passes[k], cache, simSlot)
    ensures var served := ServingEnv(env, t);
      BuildSlot(CacheEnv(served, cache), simSlot, warmupStart) == BuildSlot(served, simSlot, warmupStart)
  {
    hide BuildSlot, CacheEnv, Warmed, LateVotesWarmed, ClonedOrphans, Merged, SourceWarmed, PassResult;
    IndexServed(env, catalog, ranges, t, cache);
    PassCacheKept(env, catalog, ranges, t, k);
    var served := ServingEnv(env, t);
    forall s: uint64 | simSlot < s <= SlotLoadEnd(served, simSlot)
      ensures SourceWarmed(served, cache, s, simSlot)
    {
      SourceServed(env, ranges[k].0, ranges[k].1, t, t.passes[k], cache, simSlot, s);
    }
    CacheServesSlot(served, cache, simSlot, simSlot, warmupStart);
  }
}
