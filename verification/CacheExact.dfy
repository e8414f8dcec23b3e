/** Exactly when a server on the disk cache answers a slot like a server on the full archive. */
module CacheExact {
  import opened Core
  import opened Blocks
  import opened Sorting
  import opened Sorts
  import opened PlanSpec
  import opened OrphanChains
  import opened PlanSteps
  import opened ParentsFirst
  import opened SlotRuns
  import opened WarmCache

  /** What holds of the blocks a server may meet. */
  ghost predicate World(env: Env) {
    ValidEnv(env) && ParentsOlder(env)
  }

  lemma CacheWorld(env: Env, cache: set<Root>)
    requires World(env)
    ensures World(CacheEnv(env, cache))
  {
    var served := CacheEnv(env, cache);
    forall b, p | InWorld(served, b) && InWorld(served, p) && b.parentRoot == p.root
      ensures p.slot < b.slot
    {
      assert InWorld(env, b) && InWorld(env, p);
    }
  }

  lemma ParentOlder(env: Env, b: Block)
    requires ValidEnv(env) && ParentsOlder(env) && env.archive(b.root) == Some(b) && env.archive(b.parentRoot).Some?
    ensures env.archive(b.parentRoot).value.slot < b.slot
  {
    assert InWorld(env, b) && InWorld(env, env.archive(b.parentRoot).value);
  }

  // ----- a walk does not depend on what was walked before

  ghost predicate SeenNewer(env: Env, current: Root, seen: set<Root>) {
    forall r :: r in seen ==>
      env.archive(r).Some?
        && (env.archive(current).Some? ==> env.archive(current).value.slot < env.archive(r).value.slot)
  }

  ghost predicate Kept(env: Env, st: PlanState, st': PlanState) {
    && StateOk(env, st')
    && st'.imported == st.imported && st'.scheduled == st.scheduled && st'.ignored == st.ignored
  }

  /** Whatever is shown or missing, a walk stops exactly where the ancestry does, or fails at a slot that cannot be
      read. */
  lemma HaltsOrClimbs(env: Env, st: PlanState, current: Root, seen: set<Root>, chain: seq<Block>, evalSlot: uint64,
                      fuel: nat)
    requires World(env) && StateOk(env, st) && SeenNewer(env, current, seen) && fuel > 0
    ensures Climbs(env, st, current, seen, evalSlot) <==>
      !Halts(env, st.imported, current, evalSlot) && !env.era(env.archive(current).value.slot).Unreadable?
    ensures Climbs(env, st, current, seen, evalSlot) ==>
      var next := StateAfter(env, st, current, seen, evalSlot);
      && Kept(env, st, next) && SeenNewer(env, env.archive(current).value.parentRoot, seen + {current})
    ensures Halts(env, st.imported, current, evalSlot) ==>
      var w := WalkUp(env, st, current, seen, chain, evalSlot, fuel);
      w.Some? && w.value.chain == chain && Kept(env, st, w.value.st)
    ensures !Halts(env, st.imported, current, evalSlot) && env.era(env.archive(current).value.slot).Unreadable? ==>
      WalkUp(env, st, current, seen, chain, evalSlot, fuel) == None
  {
    if RootShown(env.era, st.visible, current) {
      ShownIsDead(env, st.visible, current, evalSlot);
    }
    if env.archive(current).Some? && env.archive(env.archive(current).value.parentRoot).Some? {
      ParentOlder(env, env.archive(current).value);
    }
  }

  /** A walk fails exactly when it meets a slot that cannot be read, and otherwise returns the same blocks whatever was
      walked, shown or found missing before. */
  lemma {:induction false} WalkIsAncestry(env: Env, st: PlanState, current: Root, seen: set<Root>, chain: seq<Block>,
                                          evalSlot: uint64, fuel: nat)
    requires World(env) && StateOk(env, st) && SeenNewer(env, current, seen)
    ensures var w, a := WalkUp(env, st, current, seen, chain, evalSlot, fuel),
                        Ancestry(env, st.imported, current, evalSlot, fuel);
      && (w.Some? <==> Legible(env, a))
      && (w.Some? ==> w.value.chain == chain + a && Kept(env, st, w.value.st))
    decreases fuel
  {
    hide World, StateOk, SeenNewer, Halts, Legible, WalkUp, Climbs, Ancestry;
    NothingIllegible(env);
    AncestryStep(env, st.imported, current, evalSlot, fuel);
    if fuel == 0 {
      WalkEnds(env, st, current, seen, chain, evalSlot);
    } else {
      HaltsOrClimbs(env, st, current, seen, chain, evalSlot, fuel);
      if !Halts(env, st.imported, current, evalSlot) {
        var info := env.archive(current).value;
        var rest := Ancestry(env, st.imported, info.parentRoot, evalSlot, fuel - 1);
        LegibleCons(env, info, rest);
        if Climbs(env, st, current, seen, evalSlot) {
          var next := StateAfter(env, st, current, seen, evalSlot);
          ClimbGoesOn(env, st, current, seen, chain, evalSlot, fuel);
          WalkIsAncestry(env, next, info.parentRoot, seen + {current}, chain + [info], evalSlot, fuel - 1);
          assert chain + [info] + rest == chain + ([info] + rest);
        }
      }
    }
  }

  lemma WalkEnds(env: Env, st: PlanState, current: Root, seen: set<Root>, chain: seq<Block>, evalSlot: uint64)
    requires StateOk(env, st)
    ensures WalkUp(env, st, current, seen, chain, evalSlot, 0) == Some(Walk(chain, true, st)) && Kept(env, st, st)
  {
  }

  lemma ResolveIsAncestry(env: Env, st: PlanState, root: Root, evalSlot: uint64)
    requires World(env) && StateOk(env, st)
    ensures var c, a := ResolveChain(env, st, root, evalSlot),
                        Ancestry(env, st.imported, root, evalSlot, MAX_ORPHAN_WALK);
      && (c.Some? <==> Legible(env, a))
      && (c.Some? ==> c.value.blocks == Reversed(a) && Kept(env, st, c.value.st))
  {
    hide WalkUp, World, Ancestry, Legible;
    WalkIsAncestry(env, st, root, {}, [], evalSlot, MAX_ORPHAN_WALK);
  }

  /** Ever older orphans, none of them imported, from the block of the root on. */
  lemma {:induction false} AncestryShape(env: Env, known: set<Root>, current: Root, evalSlot: uint64, fuel: nat)
    requires World(env)
    ensures var a := Ancestry(env, known, current, evalSlot, fuel);
      && (a != [] ==> env.archive(current) == Some(a[0]))
      && (forall b :: b in a ==> Orphan(env, b) && b.slot <= evalSlot && b.root !in known)
      && (forall i, j :: 0 <= i < j < |a| ==> a[j].slot < a[i].slot)
    decreases fuel
  {
    if fuel > 0 && !Halts(env, known, current, evalSlot) {
      var b := env.archive(current).value;
      AncestryShape(env, known, b.parentRoot, evalSlot, fuel - 1);
      if env.archive(b.parentRoot).Some? {
        ParentOlder(env, b);
      }
      var rest := Ancestry(env, known, b.parentRoot, evalSlot, fuel - 1);
      if rest != [] {
        assert forall j :: 0 < j < |rest| ==> rest[j].slot < rest[0].slot;
      }
    }
  }

  // ----- what the votes of a slot bring in

  /** The root's block sits at the slot itself. */
  ghost predicate Seed(env: Env, r: Root, simSlot: uint64) {
    env.archive(r).Some? && env.archive(r).value.slot == simSlot
  }

  /** A block of the window on the walk from a root whose block sits at the slot. */
  ghost predicate InGrove(env: Env, known: set<Root>, roots: set<Root>, simSlot: uint64, minSlot: uint64, b: Block) {
    minSlot <= b.slot && exists r :: r in roots && Brings(env, known, r, simSlot, b)
  }

  ghost predicate Brings(env: Env, known: set<Root>, r: Root, simSlot: uint64, b: Block) {
    Seed(env, r, simSlot) && b in Ancestry(env, known, r, simSlot, MAX_ORPHAN_WALK)
  }

  /** The block of the root lies on the walk from one of these roots at the slot. */
  ghost predicate Passed(env: Env, known: set<Root>, roots: set<Root>, simSlot: uint64, r: Root) {
    env.archive(r).Some? && InGrove(env, known, roots, simSlot, 0, env.archive(r).value)
  }

  ghost predicate Touched(st: PlanState, r: Root) {
    r in st.scheduled || r in st.ignored
  }

  /** The vote loop after the roots `done`. */
  ghost predicate Grown(env: Env, f: Found, known: set<Root>, done: set<Root>, simSlot: uint64, minSlot: uint64,
                        before: set<Root>)
  {
    && f.st.imported == known && StateOk(env, f.st)
    && (forall r :: r in f.st.scheduled ==> env.archive(r).Some? && env.archive(r).value in f.blocks)
    && (forall b :: b in f.blocks <==> InGrove(env, known, done, simSlot, minSlot, b))
    && (forall r :: r in f.st.ignored ==> r in before || r in done || Passed(env, known, done, simSlot, r))
    && (forall r :: Passed(env, known, done, simSlot, r) ==> Touched(f.st, r))
  }

  lemma {:induction false} TakeChainAll(env: Env, f: Found, chain: seq<Block>, simSlot: uint64, minSlot: uint64)
    requires ValidEnv(env) && StateOk(env, f.st)
    requires forall b :: b in chain ==> Orphan(env, b) && b.slot <= simSlot && b.root !in f.st.imported
    requires forall r :: r in f.st.scheduled ==> env.archive(r).Some? && env.archive(r).value in f.blocks
    ensures var g := TakeChain(env, f, chain, simSlot, minSlot);
      && g.st.imported == f.st.imported && StateOk(env, g.st)
      && (forall b :: b in g.blocks <==> b in f.blocks || (b in chain && minSlot <= b.slot))
      && (forall r :: r in g.st.scheduled ==> env.archive(r).Some? && env.archive(r).value in g.blocks)
      && (forall r :: r in g.st.ignored ==>
        r in f.st.ignored || (env.archive(r).Some? && env.archive(r).value in chain))
      && (forall r :: Touched(f.st, r) ==> Touched(g.st, r)) && (forall b :: b in chain ==> Touched(g.st, b.root))
    decreases |chain|
  {
    if chain != [] {
      var info, rest := chain[0], chain[1..];
      OrphanNotShown(env, f.st.visible, info);
      assert forall b :: b in chain <==> b == info || b in rest;
      assert env.archive(info.root).value == info;
      if info.slot < minSlot {
        var g := f.(st := f.st.(ignored := f.st.ignored + {info.root}));
        assert Touched(g.st, info.root);
        TakeChainAll(env, g, rest, simSlot, minSlot);
      } else if info.root in f.st.scheduled {
        assert Touched(f.st, info.root);
        TakeChainAll(env, f, rest, simSlot, minSlot);
      } else {
        var g := Found(f.blocks + [info], f.st.(scheduled := f.st.scheduled + {info.root}));
        assert info in g.blocks && Touched(g.st, info.root);
        TakeChainAll(env, g, rest, simSlot, minSlot);
      }
    }
  }

  /** On a walk only the first block sits at the slot. */
  lemma PassedIsOlder(env: Env, known: set<Root>, done: set<Root>, r: Root, simSlot: uint64)
    requires World(env) && r !in done && Passed(env, known, done, simSlot, r)
    ensures !Seed(env, r, simSlot)
  {
    var b := env.archive(r).value;
    var r1 :| r1 in done && Brings(env, known, r1, simSlot, b);
    AncestryShape(env, known, r1, simSlot, MAX_ORPHAN_WALK);
  }

  /** A root that no longer counts as fresh brings nothing, and was passed by an earlier walk unless its own cannot
      fail. */
  lemma StaleBringsNothing(env: Env, f: Found, known: set<Root>, done: set<Root>, r: Root, simSlot: uint64,
                           minSlot: uint64, before: set<Root>)
    requires World(env) && Grown(env, f, known, done, simSlot, minSlot, before)
    requires !Fresh(env, f.st, r) && r !in done && r !in before
    ensures forall b :: !Brings(env, known, r, simSlot, b)
    ensures Passed(env, known, done, simSlot, r) || Legible(env, Ancestry(env, known, r, simSlot, MAX_ORPHAN_WALK))
  {
    if RootShown(env.era, f.st.visible, r) {
      ShownIsDead(env, f.st.visible, r, simSlot);
    }
    if r in f.st.scheduled {
      assert InGrove(env, known, done, simSlot, minSlot, env.archive(r).value);
    }
    if Passed(env, known, done, simSlot, r) {
      PassedIsOlder(env, known, done, r, simSlot);
    } else {
      assert Halts(env, known, r, simSlot);
    }
  }

  lemma GroveMore(env: Env, known: set<Root>, done: set<Root>, r: Root, simSlot: uint64, minSlot: uint64, b: Block)
    ensures InGrove(env, known, done + {r}, simSlot, minSlot, b)
        <==> InGrove(env, known, done, simSlot, minSlot, b) || (minSlot <= b.slot && Brings(env, known, r, simSlot, b))
  {
    hide Brings;
    if minSlot <= b.slot {
      if Brings(env, known, r, simSlot, b) {
        assert r in done + {r};
      } else if InGrove(env, known, done, simSlot, minSlot, b) {
        var x :| x in done && Brings(env, known, x, simSlot, b);
        assert x in done + {r};
      }
    }
  }

  /** After a root, exactly what it brings is added. */
  lemma GrownMore(env: Env, f: Found, g: Found, known: set<Root>, done: set<Root>, r: Root, simSlot: uint64,
                  minSlot: uint64, before: set<Root>)
    requires Grown(env, f, known, done, simSlot, minSlot, before)
    requires g.st.imported == known && StateOk(env, g.st)
    requires forall x :: x in g.st.scheduled ==> env.archive(x).Some? && env.archive(x).value in g.blocks
    requires forall b :: b in g.blocks <==> b in f.blocks || (minSlot <= b.slot && Brings(env, known, r, simSlot, b))
    requires forall x :: x in g.st.ignored ==> x in f.st.ignored || x == r || BringsRoot(env, known, r, simSlot, x)
    requires forall x :: Touched(f.st, x) || BringsRoot(env, known, r, simSlot, x) ==> Touched(g.st, x)
    ensures Grown(env, g, known, done + {r}, simSlot, minSlot, before)
  {
    hide InGrove, Brings, StateOk, Touched;
    forall b
      ensures b in g.blocks <==> InGrove(env, known, done + {r}, simSlot, minSlot, b)
    {
      GroveMore(env, known, done, r, simSlot, minSlot, b);
    }
    forall x
      ensures Passed(env, known, done + {r}, simSlot, x)
          <==> Passed(env, known, done, simSlot, x) || BringsRoot(env, known, r, simSlot, x)
    {
      if env.archive(x).Some? {
        GroveMore(env, known, done, r, simSlot, 0, env.archive(x).value);
      }
    }
  }

  ghost predicate BringsRoot(env: Env, known: set<Root>, r: Root, simSlot: uint64, x: Root) {
    env.archive(x).Some? && Brings(env, known, r, simSlot, env.archive(x).value)
  }

  /** A root is walked unless an earlier walk passed it; the loop fails there exactly when the walk meets a slot that
      cannot be read. */
  lemma TakeRootGrows(env: Env, f: Found, known: set<Root>, done: set<Root>, r: Root, simSlot: uint64, minSlot: uint64,
                      before: set<Root>)
    requires World(env) && Grown(env, f, known, done, simSlot, minSlot, before) && minSlot <= simSlot
    requires r !in done && r !in before
    ensures var g := TakeRoot(env, f, r, simSlot, minSlot);
      && (g.Some? <==>
            Passed(env, known, done, simSlot, r) || Legible(env, Ancestry(env, known, r, simSlot, MAX_ORPHAN_WALK)))
      && (g.Some? ==> Grown(env, g.value, known, done + {r}, simSlot, minSlot, before))
  {
    hide WalkUp, ResolveChain, TakeChain, Ancestry, World, InGrove, Legible;
    if !Fresh(env, f.st, r) {
      StaleBringsNothing(env, f, known, done, r, simSlot, minSlot, before);
      GrownMore(env, f, f, known, done, r, simSlot, minSlot, before);
    } else {
      assert !Passed(env, known, done, simSlot, r);
      ResolveIsAncestry(env, f.st, r, simSlot);
      var c := ResolveChain(env, f.st, r, simSlot);
      if c.Some? {
        WalkedGrows(env, f, c.value, known, done, r, simSlot, minSlot, before);
      }
    }
  }

  /** The loop after a walk that did not fail. */
  lemma WalkedGrows(env: Env, f: Found, c: Found, known: set<Root>, done: set<Root>, r: Root, simSlot: uint64,
                    minSlot: uint64, before: set<Root>)
    requires World(env) && Grown(env, f, known, done, simSlot, minSlot, before) && minSlot <= simSlot
    requires Fresh(env, f.st, r) && ResolveChain(env, f.st, r, simSlot) == Some(c) && Kept(env, f.st, c.st)
    requires c.blocks == Reversed(Ancestry(env, known, r, simSlot, MAX_ORPHAN_WALK))
    ensures var g := TakeRoot(env, f, r, simSlot, minSlot);
      g.Some? && Grown(env, g.value, known, done + {r}, simSlot, minSlot, before)
  {
    hide WalkUp, ResolveChain, TakeChain, Ancestry, World, InGrove, Legible, Passed;
    AncestryShape(env, known, r, simSlot, MAX_ORPHAN_WALK);
    var a := Ancestry(env, known, r, simSlot, MAX_ORPHAN_WALK);
    ReversedMembers(a);
    RootsAreTheirBlocks(env);
    if a != [] {
      assert c.blocks[|c.blocks| - 1] == a[0];
      if a[0].slot == simSlot {
        WorldIsValid(env);
        TakeChainAll(env, f.(st := c.st), c.blocks, simSlot, minSlot);
      }
    }
    GrownMore(env, f, TakeRoot(env, f, r, simSlot, minSlot).value, known, done, r, simSlot, minSlot, before);
  }

  lemma WorldIsValid(env: Env)
    requires World(env)
    ensures ValidEnv(env)
  {
  }

  lemma RootsAreTheirBlocks(env: Env)
    requires World(env)
    ensures forall r :: env.archive(r).Some? ==> env.archive(r).value.root == r
  {
  }

  // ----- when the votes fail

  ghost function Before(roots: set<Root>, r: Root): set<Root> {
    set x | x in roots && x < r
  }

  /** The loop walks from this root and meets a slot that cannot be read. */
  ghost predicate WalkFails(env: Env, known: set<Root>, roots: set<Root>, simSlot: uint64, r: Root) {
    && !Passed(env, known, Before(roots, r), simSlot, r)
    && !Legible(env, Ancestry(env, known, r, simSlot, MAX_ORPHAN_WALK))
  }

  ghost predicate VotesFail(env: Env, known: set<Root>, roots: set<Root>, simSlot: uint64) {
    exists r :: r in roots && WalkFails(env, known, roots, simSlot, r)
  }

  lemma {:induction false} TakeRootsGrow(env: Env, f: Found, known: set<Root>, done: set<Root>, roots: seq<Root>,
                                         simSlot: uint64, minSlot: uint64, before: set<Root>, all: set<Root>)
    requires World(env) && Grown(env, f, known, done, simSlot, minSlot, before) && minSlot <= simSlot
    requires Ascending(roots) && forall r :: r in roots ==> r !in done && r !in before
    requires forall r, x :: r in done && x in roots ==> r < x
    requires forall r :: r in all <==> r in done || r in roots
    ensures var g := TakeRoots(env, f, roots, simSlot, minSlot);
      && (g.Some? <==> forall r :: r in roots ==> !WalkFails(env, known, all, simSlot, r))
      && (g.Some? ==> Grown(env, g.value, known, all, simSlot, minSlot, before))
    decreases |roots|
  {
    hide World, Grown, TakeRoot, Passed, Legible;
    if roots == [] {
      assert all == done;
    } else {
      forall x | x in roots[1..]
        ensures roots[0] < x
      {
        var j :| 0 < j < |roots| && roots[j] == x;
      }
      assert roots[0] in roots && forall r :: r in roots <==> r == roots[0] || r in roots[1..];
      assert Before(all, roots[0]) == done;
      TakeRootsSplit(env, f, roots, simSlot, minSlot);
      TakeRootGrows(env, f, known, done, roots[0], simSlot, minSlot, before);
      var g := TakeRoot(env, f, roots[0], simSlot, minSlot);
      if g.Some? {
        TakeRootsGrow(env, g.value, known, done + {roots[0]}, roots[1..], simSlot, minSlot, before, all);
      }
    }
  }

  /** The votes of a slot fail exactly when one of their walks does; otherwise the orphans they bring in are, in order,
      exactly the blocks of the window on the walks from the fresh roots whose block sits at the slot. */
  lemma VotesBringGrove(env: Env, st: PlanState, atts: seq<Attestation>, simSlot: uint64, minSlot: uint64)
    requires World(env) && StateOk(env, st) && st.scheduled == {} && minSlot <= simSlot
    ensures var f, roots := VoteImports(env, st, atts, simSlot, minSlot), FreshRoots(env, st, atts, None);
      && (f.None? <==> VotesFail(env, st.imported, roots, simSlot))
      && (f.Some? ==> Ascends(f.value.blocks, BlockBefore) && forall b :: b in f.value.blocks <==>
            InGrove(env, st.imported, roots, simSlot, minSlot, b))
  {
    hide InGrove, TakeRoots, WalkFails;
    var all := FreshRoots(env, st, atts, None);
    var roots := SortedRoots(all);
    StartsBare(env, st, simSlot, minSlot);
    TakeRootsGrow(env, Found([], st), st.imported, {}, roots, simSlot, minSlot, st.ignored, all);
    var g := TakeRoots(env, Found([], st), roots, simSlot, minSlot);
    if g.Some? {
      var f := g.value;
      SortKeepsMembers(f.blocks);
      TakeRootsShape(env, st, Found([], st), roots, simSlot, minSlot, f);
      SortKeepsDistinct(f.blocks);
    }
  }

  lemma StartsBare(env: Env, st: PlanState, simSlot: uint64, minSlot: uint64)
    requires StateOk(env, st) && st.scheduled == {}
    ensures Grown(env, Found([], st), st.imported, {}, simSlot, minSlot, st.ignored)
  {
  }

  // ----- cache and archive

  /** The walk over the cache is the walk over the archive up to the first block that is not cached. */
  lemma {:induction false} CachePrefix(env: Env, cache: set<Root>, known: set<Root>, current: Root, evalSlot: uint64,
                                       fuel: nat)
    requires env.checkpoints <= known && ValidEnv(env)
    ensures var a, c := Ancestry(env, known, current, evalSlot, fuel),
                        Ancestry(CacheEnv(env, cache), known, current, evalSlot, fuel);
      && c <= a && (forall b :: b in c ==> b.root in cache)
      && (|c| < |a| ==> a[|c|].root !in cache)
    decreases fuel
  {
    if fuel > 0 && !Halts(env, known, current, evalSlot) && current in cache {
      CachePrefix(env, cache, known, env.archive(current).value.parentRoot, evalSlot, fuel - 1);
    }
  }

  /** Every block of the window on the walk from a fresh voted root, with a block at the slot, is cached. */
  ghost predicate RootsCached(env: Env, cache: set<Root>, known: set<Root>, roots: set<Root>, simSlot: uint64,
                              minSlot: uint64)
  {
    forall r, b :: r in roots && Brings(env, known, r, simSlot, b) && minSlot <= b.slot ==> b.root in cache
  }

  lemma PrefixCovers(a: seq<Block>, c: seq<Block>, cache: set<Root>, minSlot: uint64, b: Block)
    requires c <= a && (|c| < |a| ==> a[|c|].root !in cache) && minSlot <= b.slot
    requires forall i, j :: 0 <= i < j < |a| ==> a[j].slot < a[i].slot
    requires forall x :: x in a && minSlot <= x.slot ==> x.root in cache
    ensures b in a <==> b in c
  {
    if b in a {
      var i :| 0 <= i < |a| && a[i] == b;
      if |c| < |a| {
        assert a[|c|] in a && a[|c|].slot < minSlot;
      }
      assert i < |c| && c[i] == b;
    }
  }

  /** In the window, a cached walk over the cache is that over the archive. */
  lemma BringsAlike(env: Env, cache: set<Root>, known: set<Root>, r: Root, simSlot: uint64, minSlot: uint64, b: Block)
    requires World(env) && env.checkpoints <= known && minSlot <= b.slot
    requires forall x :: Brings(env, known, r, simSlot, x) && minSlot <= x.slot ==> x.root in cache
    ensures Brings(env, known, r, simSlot, b) <==> Brings(CacheEnv(env, cache), known, r, simSlot, b)
  {
    hide Ancestry, World, ParentsOlder, Dead, Orphan;
    assert ValidEnv(env) by { WorldIsValid(env); }
    CachePrefix(env, cache, known, r, simSlot, MAX_ORPHAN_WALK);
    AncestryShape(env, known, r, simSlot, MAX_ORPHAN_WALK);
    CacheWorld(env, cache);
    AncestryShape(CacheEnv(env, cache), known, r, simSlot, MAX_ORPHAN_WALK);
    if Seed(env, r, simSlot) {
      var a := Ancestry(env, known, r, simSlot, MAX_ORPHAN_WALK);
      forall x | x in a && minSlot <= x.slot
        ensures x.root in cache
      {
        assert Brings(env, known, r, simSlot, x);
      }
      PrefixCovers(a, Ancestry(CacheEnv(env, cache), known, r, simSlot, MAX_ORPHAN_WALK), cache, minSlot, b);
    }
  }

  /** The cache brings in the same blocks exactly when those of the window are cached. */
  lemma GrovesAlike(env: Env, cache: set<Root>, known: set<Root>, roots: set<Root>, simSlot: uint64, minSlot: uint64)
    requires World(env) && env.checkpoints <= known
    ensures (forall b :: InGrove(env, known, roots, simSlot, minSlot, b) <==>
      InGrove(CacheEnv(env, cache), known, roots, simSlot, minSlot, b))
        <==> RootsCached(env, cache, known, roots, simSlot, minSlot)
  {
    hide Brings, World;
    if RootsCached(env, cache, known, roots, simSlot, minSlot) {
      forall r, b: Block | r in roots && minSlot <= b.slot
        ensures Brings(env, known, r, simSlot, b) <==> Brings(CacheEnv(env, cache), known, r, simSlot, b)
      {
        BringsAlike(env, cache, known, r, simSlot, minSlot, b);
      }
    } else {
      var r, b :| r in roots && Brings(env, known, r, simSlot, b) && minSlot <= b.slot && b.root !in cache;
      assert InGrove(env, known, roots, simSlot, minSlot, b);
      forall x | x in roots
        ensures !Brings(CacheEnv(env, cache), known, x, simSlot, b)
      {
        OnlyCachedGrows(env, cache, known, x, simSlot, b);
      }
    }
  }

  lemma OnlyCachedGrows(env: Env, cache: set<Root>, known: set<Root>, r: Root, simSlot: uint64, b: Block)
    requires World(env) && env.checkpoints <= known && b.root !in cache
    ensures !Brings(CacheEnv(env, cache), known, r, simSlot, b)
  {
    CachePrefix(env, cache, known, r, simSlot, MAX_ORPHAN_WALK);
  }

  /** Unless one of the servers fails, the votes bring in the same orphans exactly when the window's part of every walk
      from a fresh root at the slot is cached. */
  lemma VotesAlikeExactly(env: Env, cache: set<Root>, st: PlanState, atts: seq<Attestation>, simSlot: uint64,
                          minSlot: uint64)
    requires World(env) && StateOk(env, st) && st.scheduled == {} && env.checkpoints <= st.imported
    requires minSlot <= simSlot
    ensures var a, b := VoteImports(env, st, atts, simSlot, minSlot),
                        VoteImports(CacheEnv(env, cache), st, atts, simSlot, minSlot);
      var roots := FreshRoots(env, st, atts, None);
      && (a.None? <==> VotesFail(env, st.imported, roots, simSlot))
      && (b.None? <==> VotesFail(CacheEnv(env, cache), st.imported, roots, simSlot))
      && (a.Some? && b.Some? ==>
            (a.value.blocks == b.value.blocks <==> RootsCached(env, cache, st.imported, roots, simSlot, minSlot)))
  {
    hide VoteImports, InGrove, RootsCached, FreshRoots, World, VotesFail;
    var roots := FreshRoots(env, st, atts, None);
    CacheWorld(env, cache);
    VotesBringGrove(env, st, atts, simSlot, minSlot);
    VotesBringGrove(CacheEnv(env, cache), st, atts, simSlot, minSlot);
    FreshAlike(env, cache, st, atts);
    GrovesAlike(env, cache, st.imported, roots, simSlot, minSlot);
    var a, b := VoteImports(env, st, atts, simSlot, minSlot),
                VoteImports(CacheEnv(env, cache), st, atts, simSlot, minSlot);
    if a.Some? && b.Some? && RootsCached(env, cache, st.imported, roots, simSlot, minSlot) {
      AscendingUnique(a.value.blocks, b.value.blocks, BlockBefore);
    }
  }

  // ----- a whole slot

  /** The votes of a slot and the state they are looked at in; None where the slot already failed. */
  ghost function VoteStage(env: Env, simSlot: uint64, warmupStart: uint64): Option<Votes> {
    if SlotRejected(env, simSlot, warmupStart) || !Readable(env.era, warmupStart + 1, SlotLoadEnd(env, simSlot))
      then None
    else
      var st1 := CanonicalImport(env, SlotStart(env, simSlot, warmupStart), simSlot).1;
      match SlotOrphans(env, st1, simSlot, warmupStart + 1)
      case None => None
      case Some(listed) => SlotVotes(env, listed.st, simSlot)
  }

  /** Every fresh root voted for in the slot, with a block at the slot, is cached as far as its walk stays in the
      window. */
  ghost predicate VotedCached(env: Env, cache: set<Root>, simSlot: uint64, warmupStart: uint64) {
    var v := VoteStage(env, simSlot, warmupStart);
    v.Some? ==>
      RootsCached(env, cache, v.value.st.imported, FreshRoots(env, v.value.st, v.value.attestations, None), simSlot,
        warmupStart + 1)
  }

  /** The era files can be read along the walks from the fresh voted roots. */
  ghost predicate VotesLegible(env: Env, simSlot: uint64, warmupStart: uint64) {
    var v := VoteStage(env, simSlot, warmupStart);
    v.Some? ==>
      forall r :: r in FreshRoots(env, v.value.st, v.value.attestations, None) ==>
        Legible(env, Ancestry(env, v.value.st.imported, r, simSlot, MAX_ORPHAN_WALK))
  }

  /** The walks from the fresh voted roots fail on both servers or on neither, and if on neither, the roots are
      cached. */
  ghost predicate VotedAlike(env: Env, cache: set<Root>, simSlot: uint64, warmupStart: uint64) {
    var v := VoteStage(env, simSlot, warmupStart);
    v.Some? ==>
      var known, roots := v.value.st.imported, FreshRoots(env, v.value.st, v.value.attestations, None);
      && (VotesFail(env, known, roots, simSlot) <==> VotesFail(CacheEnv(env, cache), known, roots, simSlot))
      && (VotesFail(env, known, roots, simSlot) || RootsCached(env, cache, known, roots, simSlot, warmupStart + 1))
  }

  lemma LegibleNeverFails(env: Env, cache: set<Root>, known: set<Root>, roots: set<Root>, simSlot: uint64)
    requires ValidEnv(env) && env.checkpoints <= known
    requires forall r :: r in roots ==> Legible(env, Ancestry(env, known, r, simSlot, MAX_ORPHAN_WALK))
    ensures !VotesFail(env, known, roots, simSlot) && !VotesFail(CacheEnv(env, cache), known, roots, simSlot)
  {
    hide Ancestry, Passed;
    forall r | r in roots
      ensures Legible(CacheEnv(env, cache), Ancestry(CacheEnv(env, cache), known, r, simSlot, MAX_ORPHAN_WALK))
    {
      CachePrefix(env, cache, known, r, simSlot, MAX_ORPHAN_WALK);
    }
  }

  /** Where nothing fails, being cached is all that matters. */
  lemma LegibleAlike(env: Env, cache: set<Root>, simSlot: uint64, warmupStart: uint64)
    requires ValidEnv(env) && PreloadServed(env, cache) && VotesLegible(env, simSlot, warmupStart)
    ensures VotedAlike(env, cache, simSlot, warmupStart) <==> VotedCached(env, cache, simSlot, warmupStart)
  {
    hide SlotOrphans, SlotVotes, SlotStart, CanonicalImport, PreloadServed, RootsCached, FreshRoots, Readable,
      VotesFail,
      Legible;
    var v := VoteStage(env, simSlot, warmupStart);
    if v.Some? {
      var listed := SlotOrphans(env, CanonicalImport(env, SlotStart(env, simSlot, warmupStart), simSlot).1, simSlot,
                                warmupStart + 1).value;
      StageKeeps(env, cache, simSlot, warmupStart, listed);
      LegibleNeverFails(env, cache, v.value.st.imported, FreshRoots(env, v.value.st, v.value.attestations, None),
        simSlot);
    }
  }

  lemma StageKeeps(env: Env, cache: set<Root>, simSlot: uint64, warmupStart: uint64, listed: Found)
    requires ValidEnv(env) && warmupStart < simSlot && PreloadServed(env, cache)
    requires SlotOrphans(env, CanonicalImport(env, SlotStart(env, simSlot, warmupStart), simSlot).1, simSlot,
      warmupStart + 1) == Some(listed)
    ensures listed.st.scheduled == {} && StateOk(env, listed.st) && env.checkpoints <= listed.st.imported
    ensures SlotVotes(CacheEnv(env, cache), listed.st, simSlot) == SlotVotes(env, listed.st, simSlot)
    ensures var v := SlotVotes(env, listed.st, simSlot);
      v.Some? ==> StateOk(env, v.value.st) && v.value.st.scheduled == {} && env.checkpoints <= v.value.st.imported
  {
    hide SlotOrphans, SlotVotes, ListServed, PreloadServed;
    var st := SlotStart(env, simSlot, warmupStart);
    ListedStage(env, cache, st, simSlot, warmupStart);
    ListedKept(env, cache, st, simSlot, warmupStart);
    SlotOrphansShape(env, CanonicalImport(env, st, simSlot).1, simSlot, warmupStart + 1, listed);
    SlotVotesAlike(env, cache, listed.st, simSlot);
  }

  lemma ImportsTell(a: seq<Block>, b: seq<Block>, env: Env)
    requires forall r :: env.archive(r).Some? ==> env.archive(r).value.root == r
    requires forall x :: x in a || x in b ==> env.archive(x.root) == Some(x)
    requires OrphanImports(a) == OrphanImports(b)
    ensures a == b
  {
    assert |a| == |OrphanImports(b)|;
    forall i | 0 <= i < |a|
      ensures a[i] == b[i]
    {
      assert OrphanImports(a)[i] == OrphanImports(b)[i] && a[i] in a && b[i] in b;
    }
  }

  lemma VotedAreArchived(env: Env, cache: set<Root>, st: PlanState, atts: seq<Attestation>, simSlot: uint64,
                         minSlot: uint64, f: Found)
    requires ValidEnv(env)
    requires VoteImports(env, st, atts, simSlot, minSlot) == Some(f)
      || VoteImports(CacheEnv(env, cache), st, atts, simSlot, minSlot) == Some(f)
    ensures forall x :: x in f.blocks ==> env.archive(x.root) == Some(x)
  {
    hide VoteImports;
    if VoteImports(env, st, atts, simSlot, minSlot) == Some(f) {
      VotedShape(env, st, atts, simSlot, minSlot, f);
    } else {
      VotedShape(CacheEnv(env, cache), st, atts, simSlot, minSlot, f);
    }
  }

  /** Equal import lists are equal blocks. */
  lemma InstructionsTell(env: Env, cache: set<Root>, st: PlanState, atts: seq<Attestation>, simSlot: uint64,
                         minSlot: uint64, first: seq<BlockImport>, a: Found, b: Found)
    requires ValidEnv(env)
    requires VoteImports(env, st, atts, simSlot, minSlot) == Some(a)
    requires VoteImports(CacheEnv(env, cache), st, atts, simSlot, minSlot) == Some(b)
    requires first + OrphanImports(a.blocks) == first + OrphanImports(b.blocks)
    ensures a.blocks == b.blocks
  {
    hide VoteImports;
    VotedAreArchived(env, cache, st, atts, simSlot, minSlot, a);
    VotedAreArchived(env, cache, st, atts, simSlot, minSlot, b);
    var x, y := OrphanImports(a.blocks), OrphanImports(b.blocks);
    assert x == (first + x)[|first|..] && y == (first + y)[|first|..];
    ImportsTell(a.blocks, b.blocks, env);
  }

  lemma SameStart(env: Env, cache: set<Root>, simSlot: uint64, warmupStart: uint64)
    requires warmupStart < simSlot
    ensures SlotStart(CacheEnv(env, cache), simSlot, warmupStart) == SlotStart(env, simSlot, warmupStart)
  {
  }

  /** In every mode: given an orphan index that the cache serves, the server on the cache gives the same answer for a
      slot, errors included, if and only if the walks from the fresh voted roots fail alike and, where they do not fail,
      those at the slot are cached as far as they stay in the window. Where the era files can be read along these walks,
      only the latter matters. */
  lemma ServesExactly(env: Env, cache: set<Root>, simSlot: uint64, warmupStart: uint64)
    requires World(env) && PreloadServed(env, cache)
    ensures var same := BuildSlot(CacheEnv(env, cache), simSlot, warmupStart) == BuildSlot(env, simSlot, warmupStart);
      && (same <==> VotedAlike(env, cache, simSlot, warmupStart))
      && (VotesLegible(env, simSlot, warmupStart) ==> (same <==> VotedCached(env, cache, simSlot, warmupStart)))
  {
    hide SlotOrphans, SlotVotes, VoteImports, SlotStart, CanonicalImport, PreloadServed, RootsCached, FreshRoots,
      Readable, VotesFail, VotesLegible, VotedCached, World;
    WorldIsValid(env);
    if VotesLegible(env, simSlot, warmupStart) {
      LegibleAlike(env, cache, simSlot, warmupStart);
    }
    if !SlotRejected(env, simSlot, warmupStart) && Readable(env.era, warmupStart + 1, SlotLoadEnd(env, simSlot)) {
      var st := SlotStart(env, simSlot, warmupStart);
      SameStart(env, cache, simSlot, warmupStart);
      ListedStage(env, cache, st, simSlot, warmupStart);
      var listed := SlotOrphans(env, CanonicalImport(env, st, simSlot).1, simSlot, warmupStart + 1);
      if listed.Some? {
        StageKeeps(env, cache, simSlot, warmupStart, listed.value);
        var v := SlotVotes(env, listed.value.st, simSlot);
        if v.Some? {
          VotesAlikeExactly(env, cache, v.value.st, v.value.attestations, simSlot, warmupStart + 1);
          var a, b := VoteImports(env, v.value.st, v.value.attestations, simSlot, warmupStart + 1),
                      VoteImports(CacheEnv(env, cache), v.value.st, v.value.attestations, simSlot, warmupStart + 1);
          var first := CanonicalImport(env, st, simSlot).0 + OrphanImports(listed.value.blocks);
          if a.Some? && b.Some? && first + OrphanImports(a.value.blocks) == first + OrphanImports(b.value.blocks) {
            InstructionsTell(env, cache, v.value.st, v.value.attestations, simSlot, warmupStart + 1, first, a.value,
                             b.value);
          }
        }
      }
    }
  }

  /** Listed imports are imported before the votes are looked at. */
  lemma ListedAreImported(env: Env, cache: set<Root>, simSlot: uint64, warmupStart: uint64, listed: Found, v: Votes,
                          b: Block)
    requires ValidEnv(env) && warmupStart < simSlot && PreloadServed(env, cache)
    requires SlotOrphans(env, CanonicalImport(env, SlotStart(env, simSlot, warmupStart), simSlot).1, simSlot,
                         warmupStart + 1) == Some(listed)
    requires SlotVotes(env, listed.st, simSlot) == Some(v) && b.root !in v.st.imported
    ensures forall x :: x in CanonicalImport(env, SlotStart(env, simSlot, warmupStart), simSlot).0 ==> x.canonical
    ensures forall x :: x in listed.blocks ==> x.root != b.root
  {
    hide SlotOrphans, SlotVotes, PreloadServed, ListServed;
    var st := SlotStart(env, simSlot, warmupStart);
    ListedStage(env, cache, st, simSlot, warmupStart);
    ListedKept(env, cache, st, simSlot, warmupStart);
    SlotVotesAlike(env, cache, listed.st, simSlot);
    SlotOrphansShape(env, CanonicalImport(env, st, simSlot).1, simSlot, warmupStart + 1, listed);
  }

  lemma ImportsHave(infos: seq<Block>, b: Block)
    ensures b in infos ==> BlockImport(b.slot, b.root, false) in OrphanImports(infos)
    ensures BlockImport(b.slot, b.root, false) in OrphanImports(infos) ==> exists x :: x in infos && x.root == b.root
  {
    var imports, x := OrphanImports(infos), BlockImport(b.slot, b.root, false);
    if b in infos {
      var i :| 0 <= i < |infos| && infos[i] == b;
      assert imports[i] == x;
    }
    if x in imports {
      var i :| 0 <= i < |imports| && imports[i] == x;
      assert infos[i] in infos;
    }
  }

  lemma GroveIsNew(env: Env, known: set<Root>, roots: set<Root>, simSlot: uint64, minSlot: uint64, b: Block)
    requires World(env) && InGrove(env, known, roots, simSlot, minSlot, b)
    ensures b.root !in known && env.archive(b.root) == Some(b)
  {
    var r :| r in roots && Brings(env, known, r, simSlot, b);
    AncestryShape(env, known, r, simSlot, MAX_ORPHAN_WALK);
  }

  lemma GroveIsCached(env: Env, cache: set<Root>, known: set<Root>, roots: set<Root>, simSlot: uint64, minSlot: uint64,
                      b: Block)
    requires World(env) && env.checkpoints <= known
    requires InGrove(CacheEnv(env, cache), known, roots, simSlot, minSlot, b)
    ensures b.root in cache
  {
    var r :| r in roots && Brings(CacheEnv(env, cache), known, r, simSlot, b);
    CachePrefix(env, cache, known, r, simSlot, MAX_ORPHAN_WALK);
  }

  /** The orphans voted for: the block is among those from the archive, and none from the cache has its root. */
  lemma VotedLost(env: Env, cache: set<Root>, v: Votes, simSlot: uint64, minSlot: uint64, b: Block)
    requires World(env) && StateOk(env, v.st) && v.st.scheduled == {} && env.checkpoints <= v.st.imported
    requires minSlot <= simSlot && b.root !in cache
    requires InGrove(env, v.st.imported, FreshRoots(env, v.st, v.attestations, None), simSlot, minSlot, b)
    ensures var a, c := VoteImports(env, v.st, v.attestations, simSlot, minSlot),
                        VoteImports(CacheEnv(env, cache), v.st, v.attestations, simSlot, minSlot);
      var roots := FreshRoots(env, v.st, v.attestations, None);
      && (a.None? <==> VotesFail(env, v.st.imported, roots, simSlot))
      && (c.None? <==> VotesFail(CacheEnv(env, cache), v.st.imported, roots, simSlot))
      && (a.Some? ==> b in a.value.blocks) && (c.Some? ==> forall x :: x in c.value.blocks ==> x.root != b.root)
      && b.root !in v.st.imported
  {
    hide VoteImports, InGrove, FreshRoots, World, VotesFail;
    var known, named := v.st.imported, FreshRoots(env, v.st, v.attestations, None);
    CacheWorld(env, cache);
    VotesBringGrove(env, v.st, v.attestations, simSlot, minSlot);
    VotesBringGrove(CacheEnv(env, cache), v.st, v.attestations, simSlot, minSlot);
    FreshAlike(env, cache, v.st, v.attestations);
    GroveIsNew(env, known, named, simSlot, minSlot, b);
    var c := VoteImports(CacheEnv(env, cache), v.st, v.attestations, simSlot, minSlot);
    if c.Some? {
      forall x | x in c.value.blocks
        ensures x.root != b.root
      {
        GroveIsCached(env, cache, known, named, simSlot, minSlot, x);
      }
    }
  }

  /** What is lost: a block of the window on the walk from a fresh voted root at the slot, if it is not cached, is
      imported by the server on the archive and not by the one on the cache, unless their walks fail. */
  lemma UncachedIsLost(env: Env, cache: set<Root>, simSlot: uint64, warmupStart: uint64, b: Block)
    requires World(env) && PreloadServed(env, cache) && b.root !in cache
    requires VoteStage(env, simSlot, warmupStart).Some?
    requires var v := VoteStage(env, simSlot, warmupStart).value;
      InGrove(env, v.st.imported, FreshRoots(env, v.st, v.attestations, None), simSlot, warmupStart + 1, b)
    ensures var a, c := BuildSlot(env, simSlot, warmupStart), BuildSlot(CacheEnv(env, cache), simSlot, warmupStart);
      var v := VoteStage(env, simSlot, warmupStart).value;
      var roots := FreshRoots(env, v.st, v.attestations, None);
      && (a.None? <==> VotesFail(env, v.st.imported, roots, simSlot))
      && (c.None? <==> VotesFail(CacheEnv(env, cache), v.st.imported, roots, simSlot))
      && (a.Some? ==> BlockImport(b.slot, b.root, false) in a.value.imports)
      && (c.Some? ==> BlockImport(b.slot, b.root, false) !in c.value.imports)
  {
    hide SlotOrphans, SlotVotes, VoteImports, SlotStart, CanonicalImport, PreloadServed, FreshRoots, Readable, InGrove,
      World, VotesFail;
    WorldIsValid(env);
    var st, v := SlotStart(env, simSlot, warmupStart), VoteStage(env, simSlot, warmupStart).value;
    SameStart(env, cache, simSlot, warmupStart);
    ListedStage(env, cache, st, simSlot, warmupStart);
    var listed := SlotOrphans(env, CanonicalImport(env, st, simSlot).1, simSlot, warmupStart + 1).value;
    StageKeeps(env, cache, simSlot, warmupStart, listed);
    VotedLost(env, cache, v, simSlot, warmupStart + 1, b);
    ListedAreImported(env, cache, simSlot, warmupStart, listed, v, b);
    ImportsHave(listed.blocks, b);
    var f := VoteImports(env, v.st, v.attestations, simSlot, warmupStart + 1);
    var g := VoteImports(CacheEnv(env, cache), v.st, v.attestations, simSlot, warmupStart + 1);
    if f.Some? {
      ImportsHave(f.value.blocks, b);
    }
    if g.Some? {
      ImportsHave(g.value.blocks, b);
    }
  }
}
