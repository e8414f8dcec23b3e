/** The walks of one BuildPlan iteration are those of the tour. */
module PlanWalks {
  import opened Core
  import opened Blocks
  import opened Sorting
  import opened Sorts
  import opened PlanSpec
  import opened OrphanChains
  import opened PlanSteps
  import opened WarmCache
  import opened CacheExact
  import opened ListedOrphans
  import opened PlanTour
  import opened PlanFollows

  // ----- placing one chain

  /** Blocks that one step of the root loop may place: orphans up to the next slot, none of them imported, and scheduled
      only if they wait for the next slot. */
  ghost predicate Placeable(env: Env, p: Placing, simSlot: uint64, from: uint64, to: uint64, b: Block) {
    && Orphan(env, b) && b.slot <= simSlot + 1 && b.root !in p.st.imported
    && (from <= b.slot && b.root in p.st.scheduled ==>
          b.slot == simSlot + 1 && (b.slot < to ==> b in PendingAt(p.pending, b.slot)))
  }

  /** What placing some blocks does. */
  ghost predicate PlacedAll(p: Placing, q: Placing, blocks: seq<Block>, simSlot: uint64, from: uint64, to: uint64)
    requires simSlot < to
  {
    var next: uint64 := simSlot + 1;
    && q.st == p.st.(imported := q.st.imported, scheduled := q.st.scheduled, ignored := q.st.ignored)
    && (forall r :: r in q.st.imported <==>
          r in p.st.imported || exists b :: b in blocks && b.root == r && from <= b.slot <= simSlot)
    && p.st.scheduled <= q.st.scheduled && p.st.ignored <= q.st.ignored
    && (forall r :: r in q.st.scheduled || r in q.st.ignored ==>
          r in p.st.scheduled || r in p.st.ignored || r in RootsOf(blocks))
    && (forall r :: r in q.st.scheduled ==> r in p.st.scheduled || r in RootsOf(blocks))
    && (forall r :: r in q.st.ignored ==> r in p.st.ignored || r in RootsOf(blocks))
    && (forall b :: b in blocks ==> b.root in q.st.imported || b.root in q.st.scheduled || b.root in q.st.ignored)
    && (forall b :: b in q.infos <==> b in p.infos || (b in blocks && from <= b.slot <= simSlot))
    && (forall b :: b in PendingAt(q.pending, next) <==>
          b in PendingAt(p.pending, next) || (b in blocks && b.slot == next && next < to))
  }

  lemma NothingPlaced(p: Placing, simSlot: uint64, from: uint64, to: uint64)
    requires simSlot < to
    ensures PlacedAll(p, p, [], simSlot, from, to)
  {
  }

  lemma PlaceOne(env: Env, p: Placing, b: Block, simSlot: uint64, from: uint64, to: uint64)
    requires ValidEnv(env) && from <= simSlot < to && Placeable(env, p, simSlot, from, to, b)
    ensures PlacedAll(p, PlaceBlock(env, p, b, simSlot, from, to), [b], simSlot, from, to)
  {
    OrphanNotShown(env, p.st.visible, b);
    assert RootsOf([b]) == {b.root};
    assert RootKnown(env, p.st, b.root) <==> b.root in p.st.imported;
    hide RootKnown, Orphan, ValidEnv;
  }

  lemma StillPlaceable(env: Env, p: Placing, b: Block, c: Block, simSlot: uint64, from: uint64, to: uint64)
    requires ValidEnv(env) && from <= simSlot < to && Placeable(env, p, simSlot, from, to, b)
    requires Placeable(env, p, simSlot, from, to, c) && b.root != c.root
    ensures Placeable(env, PlaceBlock(env, p, b, simSlot, from, to), simSlot, from, to, c)
  {
    PlaceOne(env, p, b, simSlot, from, to);
    assert c.root !in RootsOf([b]);
    hide PlaceBlock;
  }

  lemma PlacedJoin(p: Placing, q: Placing, r: Placing, b: Block, rest: seq<Block>, simSlot: uint64, from: uint64,
                   to: uint64)
    requires simSlot < to
    requires PlacedAll(p, q, [b], simSlot, from, to) && PlacedAll(q, r, rest, simSlot, from, to)
    ensures PlacedAll(p, r, [b] + rest, simSlot, from, to)
  {
    var all := [b] + rest;
    assert forall x :: x in all <==> x == b || x in rest;
    forall x
      ensures x in RootsOf(all) <==> x == b.root || x in RootsOf(rest)
    {
    }
    assert RootsOf([b]) == {b.root};
    hide RootsOf;
  }

  lemma {:induction false} PlaceChainExact(env: Env, p: Placing, chain: seq<Block>, simSlot: uint64, from: uint64,
                                           to: uint64)
    requires ValidEnv(env) && from <= simSlot < to && DistinctRoots(chain)
    requires forall b :: b in chain ==> Placeable(env, p, simSlot, from, to, b)
    ensures PlacedAll(p, PlaceChain(env, p, chain, simSlot, from, to), chain, simSlot, from, to)
    decreases |chain|
  {
    hide PlaceBlock, PlacedAll, Placeable, ValidEnv;
    if chain == [] {
      NothingPlaced(p, simSlot, from, to);
    } else {
      var q, rest := PlaceBlock(env, p, chain[0], simSlot, from, to), chain[1..];
      FirstOfDistinct(chain);
      PlaceOne(env, p, chain[0], simSlot, from, to);
      forall c | c in rest
        ensures Placeable(env, q, simSlot, from, to, c)
      {
        StillPlaceable(env, p, chain[0], c, simSlot, from, to);
      }
      PlaceChainExact(env, q, rest, simSlot, from, to);
      PlacedJoin(p, q, PlaceChain(env, q, rest, simSlot, from, to), chain[0], rest, simSlot, from, to);
    }
  }

  // ----- one root

  lemma {:induction false} WalkKeepsLists(env: Env, st: PlanState, current: Root, seen: set<Root>, chain: seq<Block>,
                                          evalSlot: uint64, fuel: nat, w: Walk)
    requires WalkUp(env, st, current, seen, chain, evalSlot, fuel) == Some(w)
    ensures forall s: uint64, r :: r in OrphansAt(st, s) ==> r in OrphansAt(w.st, s)
    decreases fuel
  {
    if fuel > 0 && Climbs(env, st, current, seen, evalSlot) {
      var info, next := env.archive(current).value, StateAfter(env, st, current, seen, evalSlot);
      WalkKeepsLists(env, next, info.parentRoot, seen + {current}, chain + [info], evalSlot, fuel - 1, w);
    }
  }

  lemma ResolveKeepsLists(env: Env, st: PlanState, root: Root, evalSlot: uint64, c: Found)
    requires ResolveChain(env, st, root, evalSlot) == Some(c)
    ensures forall s: uint64, r :: r in OrphansAt(st, s) ==> r in OrphansAt(c.st, s)
  {
    hide WalkUp;
    WalkKeepsLists(env, st, root, {}, [], evalSlot, MAX_ORPHAN_WALK,
                   WalkUp(env, st, root, {}, [], evalSlot, MAX_ORPHAN_WALK).value);
  }

  /** Canonical blocks besides do not change a walk. */
  lemma {:induction false} SameAncestry(env: Env, known: set<Root>, imported: set<Root>, current: Root,
                                        evalSlot: uint64, fuel: nat)
    requires known <= imported && forall r :: r in imported && r !in known ==> Shut(env, r)
    ensures Ancestry(env, imported, current, evalSlot, fuel) == Ancestry(env, known, current, evalSlot, fuel)
    decreases fuel
  {
    assert Halts(env, known, current, evalSlot) <==> Halts(env, imported, current, evalSlot);
    hide Halts;
    AncestryStep(env, known, current, evalSlot, fuel);
    AncestryStep(env, imported, current, evalSlot, fuel);
    if fuel > 0 && !Halts(env, known, current, evalSlot) {
      SameAncestry(env, known, imported, env.archive(current).value.parentRoot, evalSlot, fuel - 1);
    }
  }

  /** The root loop so far: the planner matches the tour, the blocks due at the next slot wait, and what is imported
      since the walks began is on the list. */
  ghost predicate Walking(env: Env, from: uint64, to: uint64, simSlot: uint64, p: Placing, t: Tour, t0: Tour)
    requires simSlot < to
  {
    var next: uint64 := simSlot + 1;
    && TourOk(env, from, next, t) && Tracks(env, Lost(env, from, next), p.st, t)
    && (forall b :: b in PendingAt(p.pending, next) <==>
          IsBlock(env, b) && b.root in Due(env, t, next) && next < to)
    && (forall b :: b in p.infos <==> IsBlock(env, b) && b.root in t.known && b.root !in t0.known)
    && t0.known <= t.known
  }

  /** What a walk that did not fail has found. */
  ghost predicate Walked(env: Env, st: PlanState, c: Found, t: Tour, simSlot: uint64, r: Root) {
    && c.blocks == Reversed(Path(env, t, simSlot, r)) && Kept(env, st, c.st)
    && c.st.truncations == st.truncations + (if |c.blocks| == MAX_ORPHAN_WALK then 1 else 0)
    && (forall s: uint64, x :: x in OrphansAt(st, s) ==> x in OrphansAt(c.st, s))
    && (forall s: uint64, x :: x in OrphansAt(c.st, s) && x !in OrphansAt(st, s) ==>
          exists b :: b in c.blocks && b.root == x && b.slot == s)
    && DistinctRoots(c.blocks)
  }

  lemma WalkIsPath(env: Env, from: uint64, simSlot: uint64, st: PlanState, t: Tour, r: Root)
    requires World(env) && simSlot < MAX_UINT64 && Tracks(env, Lost(env, from, simSlot + 1), st, t)
    ensures var c := ResolveChain(env, st, r, simSlot + 1);
      && (c.Some? <==> Legible(env, Path(env, t, simSlot, r)))
      && (c.Some? ==> Walked(env, st, c.value, t, simSlot, r))
  {
    hide Ancestry, ResolveChain, World, Legible, Lost;
    assert StateOk(env, st);
    ResolveIsAncestry(env, st, r, simSlot + 1);
    SameAncestry(env, t.known, st.imported, r, simSlot + 1, MAX_ORPHAN_WALK);
    var c := ResolveChain(env, st, r, simSlot + 1);
    if c.Some? {
      WorldIsValid(env);
      ResolvedChain(env, st, r, simSlot + 1, c.value);
      ResolveKeepsLists(env, st, r, simSlot + 1, c.value);
      assert DistinctRoots(c.value.blocks);
    }
  }

  lemma PathPlaceable(env: Env, from: uint64, to: uint64, simSlot: uint64, p: Placing, t: Tour, t0: Tour, c: Found,
                      r: Root, b: Block)
    requires World(env) && from <= simSlot < to && Walking(env, from, to, simSlot, p, t, t0)
    requires Walked(env, p.st, c, t, simSlot, r) && b in c.blocks
    ensures Placeable(env, p.(st := c.st), simSlot, from, to, b) && IsBlock(env, b) && b in Path(env, t, simSlot, r)
    ensures b.root !in t.known
  {
    hide Walking, Tracks, Orphan;
    assert Kept(env, p.st, c.st) && b in Path(env, t, simSlot, r) by {
      hide Path;
      ReversedMembers(Path(env, t, simSlot, r));
    }
    hide Walked;
    assert env.checkpoints <= t.known by { WalkingHasCheckpoints(env, from, to, simSlot, p, t, t0); }
    PathShape(env, from, t, simSlot, r, b);
    UnknownPlaceable(env, from, to, simSlot, p, t, t0, b);
  }

  /** An orphan that is not known is not imported, and scheduled only if it is due next. */
  lemma UnknownPlaceable(env: Env, from: uint64, to: uint64, simSlot: uint64, p: Placing, t: Tour, t0: Tour, b: Block)
    requires simSlot < to && Walking(env, from, to, simSlot, p, t, t0)
    requires IsBlock(env, b) && Orphan(env, b) && b.root !in t.known
    ensures b.root !in p.st.imported
    ensures from <= b.slot && b.root in p.st.scheduled ==>
      b.slot == simSlot + 1 && (b.slot < to ==> b in PendingAt(p.pending, b.slot))
  {
    hide Tracks, TourOk;
    OrphanTracks(env, Lost(env, from, simSlot + 1), p.st, t, b);
    if from <= b.slot && b.root in p.st.scheduled {
      ScheduledIsDue(env, from, simSlot, t, b);
    }
  }

  lemma OrphanTracks(env: Env, lost: iset<Root>, st: PlanState, t: Tour, b: Block)
    requires Tracks(env, lost, st, t) && IsBlock(env, b) && Orphan(env, b)
    ensures b.root in st.scheduled ==> b.root in t.passed
    ensures b.root in st.imported ==> b.root in t.known
  {
    hide ListsTrack, StateOk;
  }

  lemma WalkingHasCheckpoints(env: Env, from: uint64, to: uint64, simSlot: uint64, p: Placing, t: Tour, t0: Tour)
    requires simSlot < to && Walking(env, from, to, simSlot, p, t, t0)
    ensures env.checkpoints <= t.known
  {
  }

  lemma ScheduledIsDue(env: Env, from: uint64, simSlot: uint64, t: Tour, b: Block)
    requires simSlot < MAX_UINT64 && TourOk(env, from, simSlot + 1, t) && b.root in t.passed && b.root !in t.known
    requires IsBlock(env, b) && Orphan(env, b) && from <= b.slot
    ensures b.slot == simSlot + 1 && b.root in Due(env, t, simSlot + 1)
  {
    assert PassedOk(env, from, simSlot + 1, t, b.root);
  }

  /** The blocks that a walk adds to the tour. */
  lemma PathBlocks(env: Env, from: uint64, t: Tour, simSlot: uint64, r: Root, blocks: seq<Block>)
    requires !Spared(env, from, t, simSlot, r) && blocks == Reversed(Path(env, t, simSlot, r))
    ensures var t' := Visit(env, from, t, simSlot, r);
      && (forall x :: x in t'.passed <==> x in t.passed || x in RootsOf(blocks))
      && (forall x :: x in t'.known <==>
            x in t.known || exists b :: b in blocks && b.root == x && from <= b.slot <= simSlot)
      && |t'.cut| <= |t.cut| + (if |blocks| == MAX_ORPHAN_WALK then 1 else 0)
  {
    hide Path, Spared, Misplaced;
    var path := Path(env, t, simSlot, r);
    ReversedMembers(path);
    assert RootsOf(blocks) == RootsOf(path);
    if |path| == MAX_ORPHAN_WALK && path[|path| - 1].root !in t.cut {
      assert Visit(env, from, t, simSlot, r).cut == t.cut + {path[|path| - 1].root};
    } else {
      assert Visit(env, from, t, simSlot, r).cut == t.cut;
    }
  }

  lemma WalkedLists(env: Env, st: PlanState, c: PlanState, blocks: seq<Block>, t: Tour, t': Tour)
    requires ListsTrack(env, st, t) && t.passed <= t'.passed && RootsOf(blocks) <= t'.passed
    requires forall b :: b in blocks ==> IsBlock(env, b) && Orphan(env, b)
    requires forall s: uint64, x :: x in OrphansAt(st, s) ==> x in OrphansAt(c, s)
    requires forall s: uint64, x :: x in OrphansAt(c, s) && x !in OrphansAt(st, s) ==>
      exists b :: b in blocks && b.root == x && b.slot == s
    ensures ListsTrack(env, c, t')
  {
    hide Orphan;
    forall s: uint64, r | r in OrphansAt(c, s)
      ensures r in ListedAt(env.preload, s) || (r in t'.passed && OrphanAt(env, s, r))
    {
      ListsHave(env, st, t, s, r);
      if r !in OrphansAt(st, s) {
        var b :| b in blocks && b.root == r && b.slot == s;
        assert r in RootsOf(blocks);
      }
    }
    forall s: uint64, r | r in ListedAt(env.preload, s)
      ensures r in OrphansAt(c, s)
    {
      ListsHave(env, st, t, s, r);
    }
  }

  lemma WalkTracks(env: Env, lost: iset<Root>, st: PlanState, c: PlanState, st': PlanState, blocks: seq<Block>, t: Tour,
                   t': Tour)
    requires Tracks(env, lost, st, t) && Kept(env, st, c)
    requires st' == c.(imported := st'.imported, scheduled := st'.scheduled, ignored := st'.ignored)
    requires st.imported <= st'.imported && st.scheduled <= st'.scheduled && st.ignored <= st'.ignored
    requires t.known <= t'.known
    requires forall x :: x in t'.passed <==> x in t.passed || x in RootsOf(blocks)
    requires forall x :: x in t'.known ==> x in st'.imported
    requires forall x :: x in st'.imported ==> x in st.imported || x in t'.known
    requires forall x :: x in st'.scheduled ==> x in st.scheduled || x in RootsOf(blocks)
    requires forall x :: x in st'.ignored ==> x in st.ignored || x in RootsOf(blocks)
    requires forall x :: x in RootsOf(blocks) ==> x in st'.imported || x in st'.scheduled || x in st'.ignored
    requires ListsTrack(env, c, t') && |t'.cut| <= c.truncations
    ensures Tracks(env, lost, st', t')
  {
    hide RootsOf, Shut;
    ListsStay(env, c, t', st', t');
    hide ListsTrack;
  }

  /** One walk keeps planner and tour together. */
  lemma WalkFollows(env: Env, from: uint64, to: uint64, simSlot: uint64, p: Placing, t: Tour, t0: Tour, r: Root)
    requires World(env) && from <= simSlot < to && Walking(env, from, to, simSlot, p, t, t0)
    requires Fresh(env, p.st, r) && VotedFor(env, from, simSlot, r)
    ensures !Spared(env, from, t, simSlot, r)
    ensures var c := ResolveChain(env, p.st, r, simSlot + 1);
      && (c.Some? <==> Legible(env, Path(env, t, simSlot, r)))
      && (c.Some? ==> Walking(env, from, to, simSlot,
                              PlaceChain(env, p.(st := c.value.st), c.value.blocks, simSlot, from, to),
                              Visit(env, from, t, simSlot, r), t0))
  {
    hide World, VotedFor, ResolveChain, Walked, Path, Walking, PlaceChain, Spared, Lost, Legible, Tracks, Visit;
    FreshNotSpared(env, from, to, simSlot, p, t, t0, r);
    assert Tracks(env, Lost(env, from, simSlot + 1), p.st, t) by { WalkingTracks(env, from, to, simSlot, p, t, t0); }
    WalkIsPath(env, from, simSlot, p.st, t, r);
    var c := ResolveChain(env, p.st, r, simSlot + 1);
    if c.Some? {
      WalkedFollows(env, from, to, simSlot, p, t, t0, r, c.value);
    }
  }

  lemma WalkingTracks(env: Env, from: uint64, to: uint64, simSlot: uint64, p: Placing, t: Tour, t0: Tour)
    requires simSlot < to && Walking(env, from, to, simSlot, p, t, t0)
    ensures Tracks(env, Lost(env, from, simSlot + 1), p.st, t) && TourOk(env, from, simSlot + 1, t)
    ensures StateOk(env, p.st) && t0.known <= t.known && ListsTrack(env, p.st, t) && |t.cut| <= p.st.truncations
  {
  }

  lemma FreshNotSpared(env: Env, from: uint64, to: uint64, simSlot: uint64, p: Placing, t: Tour, t0: Tour, r: Root)
    requires simSlot < to && Walking(env, from, to, simSlot, p, t, t0) && Fresh(env, p.st, r)
    ensures !Spared(env, from, t, simSlot, r)
  {
    hide TourOk, ListsTrack, StateOk, Misplaced;
    assert r in Lost(env, from, simSlot + 1) <==> Misplaced(env, from, simSlot + 1, r);
  }

  lemma ChainPlaced(env: Env, from: uint64, to: uint64, simSlot: uint64, p: Placing, t: Tour, t0: Tour, r: Root,
                    c: Found)
    requires World(env) && from <= simSlot < to && Walking(env, from, to, simSlot, p, t, t0)
    requires Walked(env, p.st, c, t, simSlot, r)
    ensures PlacedAll(p.(st := c.st), PlaceChain(env, p.(st := c.st), c.blocks, simSlot, from, to), c.blocks, simSlot,
                      from, to)
    ensures forall b :: b in c.blocks ==> IsBlock(env, b) && Orphan(env, b) && b.root !in t.known
  {
    hide World, Walking, Walked, Path, PlacedAll, PlaceChain, Orphan;
    forall b | b in c.blocks
      ensures Placeable(env, p.(st := c.st), simSlot, from, to, b) && IsBlock(env, b) && Orphan(env, b)
      ensures b.root !in t.known
    {
      PathPlaceable(env, from, to, simSlot, p, t, t0, c, r, b);
    }
    assert DistinctRoots(c.blocks) by { WalkedDistinct(env, p.st, c, t, simSlot, r); }
    WorldIsValid(env);
    PlaceChainExact(env, p.(st := c.st), c.blocks, simSlot, from, to);
  }

  lemma WalkedDistinct(env: Env, st: PlanState, c: Found, t: Tour, simSlot: uint64, r: Root)
    requires Walked(env, st, c, t, simSlot, r)
    ensures DistinctRoots(c.blocks)
  {
  }

  lemma WalkedFollows(env: Env, from: uint64, to: uint64, simSlot: uint64, p: Placing, t: Tour, t0: Tour, r: Root,
                      c: Found)
    requires World(env) && from <= simSlot < to && Walking(env, from, to, simSlot, p, t, t0)
    requires VotedFor(env, from, simSlot, r) && !Spared(env, from, t, simSlot, r)
    requires Walked(env, p.st, c, t, simSlot, r)
    ensures Walking(env, from, to, simSlot, PlaceChain(env, p.(st := c.st), c.blocks, simSlot, from, to),
                    Visit(env, from, t, simSlot, r), t0)
  {
    hide World, VotedFor, Spared, Path, PlaceChain, Lost, Orphan, TourOk, Visit, StateOk;
    ChainPlaced(env, from, to, simSlot, p, t, t0, r, c);
    var q, t' := PlaceChain(env, p.(st := c.st), c.blocks, simSlot, from, to), Visit(env, from, t, simSlot, r);
    WalkingTracks(env, from, to, simSlot, p, t, t0);
    VisitOk(env, from, simSlot, t, r);
    PathBlocks(env, from, t, simSlot, r, c.blocks);
    assert Tracks(env, Lost(env, from, simSlot + 1), q.st, t') by {
      hide Walking, Tracks, PendingAt;
      WalkedLists(env, p.st, c.st, c.blocks, t, t');
      hide ListsTrack;
      WalkTracks(env, Lost(env, from, simSlot + 1), p.st, c.st, q.st, c.blocks, t, t');
    }
    hide Tracks, Walked, Kept;
    NextDue(env, from, to, simSlot, p, t, t0, q, t', c.blocks);
    NextInfos(env, from, to, simSlot, p, t, t0, q, t', c.blocks);
  }

  lemma NextDue(env: Env, from: uint64, to: uint64, simSlot: uint64, p: Placing, t: Tour, t0: Tour, q: Placing,
                t': Tour, blocks: seq<Block>)
    requires simSlot < to && Walking(env, from, to, simSlot, p, t, t0)
    requires forall b :: b in PendingAt(q.pending, simSlot + 1) <==>
      b in PendingAt(p.pending, simSlot + 1) || (b in blocks && b.slot == simSlot + 1 && simSlot + 1 < to)
    requires forall x :: x in t'.passed <==> x in t.passed || x in RootsOf(blocks)
    requires forall b :: b in blocks ==> IsBlock(env, b) && Orphan(env, b)
    ensures forall b :: b in PendingAt(q.pending, simSlot + 1) <==>
      IsBlock(env, b) && b.root in Due(env, t', simSlot + 1) && simSlot + 1 < to
  {
    hide Tracks, TourOk, Orphan;
    forall b
      ensures b in PendingAt(q.pending, simSlot + 1) <==>
        IsBlock(env, b) && b.root in Due(env, t', simSlot + 1) && simSlot + 1 < to
    {
      if IsBlock(env, b) && b.root in RootsOf(blocks) {
        var x :| x in blocks && x.root == b.root;
        assert x == b;
      }
    }
  }

  lemma NextInfos(env: Env, from: uint64, to: uint64, simSlot: uint64, p: Placing, t: Tour, t0: Tour, q: Placing,
                  t': Tour, blocks: seq<Block>)
    requires simSlot < to && Walking(env, from, to, simSlot, p, t, t0)
    requires forall b :: b in q.infos <==> b in p.infos || (b in blocks && from <= b.slot <= simSlot)
    requires forall x :: x in t'.known <==>
      x in t.known || exists b :: b in blocks && b.root == x && from <= b.slot <= simSlot
    requires forall b :: b in blocks ==> IsBlock(env, b) && b.root !in t.known
    ensures forall b :: b in q.infos <==> IsBlock(env, b) && b.root in t'.known && b.root !in t0.known
  {
    hide Tracks, TourOk;
    forall b
      ensures b in q.infos <==> IsBlock(env, b) && b.root in t'.known && b.root !in t0.known
    {
      if IsBlock(env, b) && b.root in t'.known && b.root !in t.known {
        var x :| x in blocks && x.root == b.root && from <= x.slot <= simSlot;
        assert x == b;
      }
    }
  }

  // ----- the loop over the roots

  lemma InertVisit(env: Env, from: uint64, t: Tour, simSlot: uint64, r: Root)
    requires Inert(env, from, t, simSlot, r)
    ensures Visit(env, from, t, simSlot, r) == t
    ensures Spared(env, from, t, simSlot, r) || Legible(env, Path(env, t, simSlot, r))
  {
    if !Spared(env, from, t, simSlot, r) {
      AncestryStep(env, t.known, r, SaturatingAdd(simSlot, 1), MAX_ORPHAN_WALK);
      NothingIllegible(env);
      assert Visit(env, from, t, simSlot, r) == t;
    }
  }

  lemma InertStays(env: Env, from: uint64, t: Tour, t': Tour, simSlot: uint64, r: Root)
    requires Inert(env, from, t, simSlot, r) && TourGrows(t, t')
    ensures Inert(env, from, t', simSlot, r)
  {
  }

  /** The roots of a list that are in a set. */
  ghost function Only(list: seq<Root>, roots: set<Root>): seq<Root> {
    if list == [] then [] else (if list[0] in roots then [list[0]] else []) + Only(list[1..], roots)
  }

  lemma FirstLeast(list: seq<Root>)
    requires list != [] && Ascending(list)
    ensures Ascending(list[1..]) && forall r :: r in list[1..] ==> list[0] < r
    ensures forall r :: r in list <==> r == list[0] || r in list[1..]
  {
    forall r | r in list[1..]
      ensures list[0] < r
    {
      var k :| 0 <= k < |list[1..]| && list[1..][k] == r;
      assert list[k + 1] == r;
    }
  }

  lemma LeastFirst(x: Root, rest: seq<Root>)
    requires Ascending(rest) && forall r :: r in rest ==> x < r
    ensures Ascending([x] + rest)
  {
    assert forall j :: 0 <= j < |rest| ==> rest[j] in rest;
  }

  lemma {:induction false} OnlyAscends(list: seq<Root>, roots: set<Root>)
    requires Ascending(list)
    ensures Ascending(Only(list, roots)) && forall r :: r in Only(list, roots) <==> r in list && r in roots
  {
    if list != [] {
      FirstLeast(list);
      OnlyAscends(list[1..], roots);
      LeastFirst(list[0], Only(list[1..], roots));
      assert [] + Only(list[1..], roots) == Only(list[1..], roots);
      hide Ascending;
    }
  }

  lemma OnlySorted(roots: set<Root>, all: set<Root>)
    requires roots <= all
    ensures SortedRoots(roots) == Only(SortedRoots(all), roots)
  {
    OnlyAscends(SortedRoots(all), roots);
    AscendingUnique(SortedRoots(roots), Only(SortedRoots(all), roots), RootBefore);
  }

  lemma {:induction false} RootsFollow(env: Env, from: uint64, to: uint64, simSlot: uint64, p: Placing, t: Tour,
                                       t0: Tour, list: seq<Root>, roots: set<Root>)
    requires World(env) && from <= simSlot < to && Walking(env, from, to, simSlot, p, t, t0)
    requires forall r :: r in list ==> VotedFor(env, from, simSlot, r)
    requires forall r :: r in list && r !in roots ==> Inert(env, from, t, simSlot, r)
    ensures var q := PlaceRoots(env, p, Only(list, roots), simSlot, simSlot + 1, from, to);
      && (q.Some? <==> Clear(env, from, t, simSlot, list))
      && (q.Some? ==> Walking(env, from, to, simSlot, q.value, VisitAll(env, from, t, simSlot, list), t0))
    decreases |list|
  {
    hide World, Walking, VotedFor, Inert, Fresh, ResolveChain, PlaceChain, Visit, Spared, Path, Legible;
    if list != [] {
      var r, rest := list[0], list[1..];
      assert r in list && forall x :: x in rest ==> x in list;
      var t' := Visit(env, from, t, simSlot, r);
      if r in roots {
        assert Only(list, roots)[0] == r && Only(list, roots)[1..] == Only(rest, roots);
      } else {
        assert Only(list, roots) == Only(rest, roots);
      }
      if r in roots && Fresh(env, p.st, r) {
        WalkFollows(env, from, to, simSlot, p, t, t0, r);
        VisitGrows(env, from, t, simSlot, r);
        forall x | x in rest && x !in roots
          ensures Inert(env, from, t', simSlot, x)
        {
          InertStays(env, from, t, t', simSlot, x);
        }
        var c := ResolveChain(env, p.st, r, simSlot + 1);
        if c.Some? {
          RootsFollow(env, from, to, simSlot, PlaceChain(env, p.(st := c.value.st), c.value.blocks, simSlot, from, to),
                      t', t0, rest, roots);
        }
      } else {
        if r in roots {
          StaleInert(env, from, to, simSlot, p, t, t0, r);
        }
        InertVisit(env, from, t, simSlot, r);
        RootsFollow(env, from, to, simSlot, p, t, t0, rest, roots);
      }
    }
  }

  lemma VisitGrows(env: Env, from: uint64, t: Tour, simSlot: uint64, r: Root)
    ensures TourGrows(t, Visit(env, from, t, simSlot, r))
  {
  }

  lemma StaleInert(env: Env, from: uint64, to: uint64, simSlot: uint64, p: Placing, t: Tour, t0: Tour, r: Root)
    requires World(env) && simSlot < to && Walking(env, from, to, simSlot, p, t, t0) && !Fresh(env, p.st, r)
    ensures Inert(env, from, t, simSlot, r)
  {
    WorldIsValid(env);
    WalkingTracks(env, from, to, simSlot, p, t, t0);
    StaleIsInert(env, from, simSlot, p.st, t, r);
  }
}
