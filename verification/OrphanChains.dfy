/** What resolveOrphanChain returns, on every input. */
module OrphanChains {
  import opened Core
  import opened Blocks
  import opened PlanSpec

  /** A block the archive holds and the canonical chain does not. */
  ghost predicate Orphan(env: Env, b: Block) {
    b.root != ZERO_ROOT && env.archive(b.root) == Some(b) && !Canonical(env.era, b)
  }

  /** The root names an orphan of this slot. */
  ghost predicate OrphanAt(env: Env, s: uint64, r: Root) {
    env.archive(r).Some? && env.archive(r).value.slot == s && Orphan(env, env.archive(r).value)
  }

  /** Newest first: each block's parent is the next one. */
  ghost predicate LinkedUp(chain: seq<Block>) {
    forall i :: 0 <= i < |chain| - 1 ==> chain[i].parentRoot == chain[i + 1].root
  }

  /** The blocks collected so far by a walk that is about to look at `current`. */
  ghost predicate Climbing(env: Env, st: PlanState, start: Root, chain: seq<Block>, current: Root, seen: set<Root>,
                           evalSlot: uint64)
  {
    && LinkedUp(chain)
    && (forall b :: b in chain ==> Orphan(env, b) && b.slot <= evalSlot && b.root !in st.imported)
    && (forall i, j :: 0 <= i < j < |chain| ==> chain[i].root != chain[j].root)
    && (forall r :: r in seen <==> exists i :: 0 <= i < |chain| && chain[i].root == r)
    && (if chain == [] then current == start else chain[0].root == start && chain[|chain| - 1].parentRoot == current)
  }

  /** Why a walk stopped before `current`. */
  ghost predicate Stops(env: Env, st: PlanState, current: Root, chain: seq<Block>, evalSlot: uint64) {
    || current == ZERO_ROOT
    || RootKnown(env, st, current)
    || current in st.missing
    || (exists i :: 0 <= i < |chain| && chain[i].root == current)
    || (env.archive(current).Some?
      && (env.archive(current).value.slot > evalSlot || Canonical(env.era, env.archive(current).value)))
  }

  /** What a walk may change: it shows more canonical slots, and records missing and found roots and listed orphans. */
  ghost predicate Grows(env: Env, st: PlanState, st': PlanState, chain: seq<Block>) {
    && st'.imported == st.imported && st'.scheduled == st.scheduled && st'.ignored == st.ignored
    && st.visible <= st'.visible && (forall s :: s in st'.visible && s !in st.visible ==> env.era(s).Present?)
    && st.missing <= st'.missing && (forall r :: r in st'.missing && r !in st.missing ==> env.archive(r).None?)
    && st.fetched <= st'.fetched && (forall r :: r in st'.fetched && r !in st.fetched ==> env.archive(r).Some?)
    && (forall s, r :: r in OrphansAt(st', s) && r !in OrphansAt(st, s) ==>
      exists b :: b in chain && b.root == r && b.slot == s)
  }

  lemma GrowsTransitive(env: Env, a: PlanState, b: PlanState, c: PlanState, chain: seq<Block>, longer: seq<Block>)
    requires Grows(env, a, b, chain) && Grows(env, b, c, longer)
    requires forall x :: x in chain ==> x in longer
    ensures Grows(env, a, c, longer)
  {
  }

  /** The state after one more block of a walk. */
  ghost function Climbed(st: PlanState, v: PlanState, info: Block): PlanState {
    v.(orphans := AppendOrphan(v.orphans, info.slot, info.root))
  }

  /** The walk takes the block `current` names. */
  ghost predicate Climbs(env: Env, st: PlanState, current: Root, seen: set<Root>, evalSlot: uint64) {
    && current != ZERO_ROOT && !RootKnown(env, st, current) && current !in st.missing && current !in seen
    && env.archive(current).Some? && env.archive(current).value.slot <= evalSlot
    && (var v := Judge(env, st.(fetched := st.fetched + {current}), env.archive(current).value);
      v.Some? && !v.value.canonical)
  }

  ghost function StateAfter(env: Env, st: PlanState, current: Root, seen: set<Root>, evalSlot: uint64): PlanState
    requires Climbs(env, st, current, seen, evalSlot)
  {
    Climbed(st, Judge(env, st.(fetched := st.fetched + {current}), env.archive(current).value).value.st,
      env.archive(current).value)
  }

  lemma ClimbStep(env: Env, st: PlanState, start: Root, chain: seq<Block>, current: Root, seen: set<Root>,
                  evalSlot: uint64)
    requires ValidEnv(env) && Climbing(env, st, start, chain, current, seen, evalSlot)
    requires Climbs(env, st, current, seen, evalSlot)
    ensures var info := env.archive(current).value; var st2 := StateAfter(env, st, current, seen, evalSlot);
      Climbing(env, st2, start, chain + [info], info.parentRoot, seen + {current}, evalSlot)
  {
    var info := env.archive(current).value;
    var longer := chain + [info];
    assert info.root == current && st.imported == StateAfter(env, st, current, seen, evalSlot).imported;
    assert forall r :: r in seen + {current} <==> exists i :: 0 <= i < |longer| && longer[i].root == r by {
      assert longer[|chain|].root == current;
      forall r | r in seen
        ensures exists i :: 0 <= i < |longer| && longer[i].root == r
      {
        var i :| 0 <= i < |chain| && chain[i].root == r;
        assert longer[i].root == r;
      }
    }
  }

  lemma ClimbGrows(env: Env, st: PlanState, chain: seq<Block>, current: Root, seen: set<Root>, evalSlot: uint64)
    requires ValidEnv(env) && Climbs(env, st, current, seen, evalSlot)
    ensures var info := env.archive(current).value; var st2 := StateAfter(env, st, current, seen, evalSlot);
      Grows(env, st, st2, chain + [info]) && st2.truncations == st.truncations
  {
    var info := env.archive(current).value;
    assert info in chain + [info];
  }

  /** A walk that does not take `current` ends there, with a reason. */
  lemma HaltStep(env: Env, st: PlanState, start: Root, chain: seq<Block>, current: Root, seen: set<Root>,
                 evalSlot: uint64, fuel: nat, w: Walk)
    requires ValidEnv(env) && Climbing(env, st, start, chain, current, seen, evalSlot)
    requires WalkUp(env, st, current, seen, chain, evalSlot, fuel) == Some(w)
    requires fuel == 0 || !Climbs(env, st, current, seen, evalSlot)
    ensures w.chain == chain && (w.truncated <==> fuel == 0)
    ensures Grows(env, st, w.st, chain) && w.st.truncations == st.truncations
    ensures w.truncated || Stops(env, w.st, current, chain, evalSlot)
    ensures Climbing(env, w.st, start, chain, current, seen, evalSlot)
  {
    hide AppendOrphan, LinkedUp, Orphan;
  }

  lemma {:induction false} WalkUpShape(env: Env, st: PlanState, start: Root, current: Root, seen: set<Root>,
                                       chain: seq<Block>, evalSlot: uint64, fuel: nat, w: Walk)
    returns (next: Root, all: set<Root>)
    requires ValidEnv(env) && Climbing(env, st, start, chain, current, seen, evalSlot)
    requires WalkUp(env, st, current, seen, chain, evalSlot, fuel) == Some(w)
    ensures |w.chain| <= |chain| + fuel
    ensures w.truncated <==> |w.chain| == |chain| + fuel
    ensures forall b :: b in chain ==> b in w.chain
    ensures Grows(env, st, w.st, w.chain) && w.st.truncations == st.truncations
    ensures Climbing(env, w.st, start, w.chain, next, all, evalSlot)
    ensures w.truncated || Stops(env, w.st, next, w.chain, evalSlot)
    decreases fuel
  {
    hide Grows, Climbing, Stops, AppendOrphan, ValidEnv, RootKnown;
    if fuel == 0 || !Climbs(env, st, current, seen, evalSlot) {
      HaltStep(env, st, start, chain, current, seen, evalSlot, fuel, w);
      next, all := current, seen;
    } else {
      ClimbStep(env, st, start, chain, current, seen, evalSlot);
      ClimbGrows(env, st, chain, current, seen, evalSlot);
      var info, st2 := env.archive(current).value, StateAfter(env, st, current, seen, evalSlot);
      next, all := WalkUpShape(env, st2, start, info.parentRoot, seen + {current}, chain + [info], evalSlot, fuel - 1,
        w);
      GrowsTransitive(env, st, st2, w.st, chain + [info], w.chain);
    }
  }

  /** Oldest first: each block's parent is the one before it. */
  ghost predicate LinkedDown(blocks: seq<Block>) {
    forall i :: 0 <= i < |blocks| - 1 ==> blocks[i + 1].parentRoot == blocks[i].root
  }

  /** Everything resolveOrphanChain promises about the chain it returns for `root`. */
  ghost predicate OrphanChain(env: Env, st: PlanState, root: Root, evalSlot: uint64, blocks: seq<Block>) {
    && |blocks| <= MAX_ORPHAN_WALK
    && LinkedDown(blocks)
    && (forall i, j :: 0 <= i < j < |blocks| ==> blocks[i].root != blocks[j].root)
    && (forall b :: b in blocks ==> Orphan(env, b) && b.slot <= evalSlot && !RootKnown(env, st, b.root))
    && (blocks != [] ==> blocks[|blocks| - 1].root == root)
  }

  /** The parent of the oldest block of a chain that was not cut is not another orphan that could be imported at
      evalSlot. */
  ghost predicate RootedChain(env: Env, st: PlanState, evalSlot: uint64, blocks: seq<Block>) {
    blocks != [] ==> Stops(env, st, blocks[0].parentRoot, blocks, evalSlot)
  }

  lemma OrphanNotShown(env: Env, visible: set<uint64>, b: Block)
    requires ValidEnv(env) && Orphan(env, b)
    ensures !RootShown(env.era, visible, b.root)
  {
  }

  /** The shape of a walk, oldest block first. */
  lemma ReversedShape(env: Env, st: PlanState, st': PlanState, root: Root, evalSlot: uint64, chain: seq<Block>,
                      next: Root, all: set<Root>)
    requires ValidEnv(env) && Climbing(env, st', root, chain, next, all, evalSlot) && st'.imported == st.imported
    requires |chain| <= MAX_ORPHAN_WALK
    ensures OrphanChain(env, st, root, evalSlot, Reversed(chain))
  {
    ReversedMembers(chain);
    forall b | b in Reversed(chain)
      ensures Orphan(env, b) && b.slot <= evalSlot && !RootKnown(env, st, b.root)
    {
      OrphanNotShown(env, st.visible, b);
    }
    hide Orphan, RootKnown, ValidEnv;
  }

  lemma ReversedRooted(env: Env, st: PlanState, root: Root, evalSlot: uint64, chain: seq<Block>, next: Root,
                       all: set<Root>)
    requires Climbing(env, st, root, chain, next, all, evalSlot) && Stops(env, st, next, chain, evalSlot)
    ensures RootedChain(env, st, evalSlot, Reversed(chain))
  {
    hide Orphan, RootKnown, Canonical;
    var blocks := Reversed(chain);
    if blocks != [] {
      assert blocks[0].parentRoot == next;
      if i :| 0 <= i < |chain| && chain[i].root == next {
        assert blocks[|chain| - 1 - i].root == next;
      }
    }
  }

  /** A parent-linked path of distinct orphans ending in the requested root; a walk is counted as cut exactly when it
      has 16 blocks. */
  lemma ResolvedChain(env: Env, st: PlanState, root: Root, evalSlot: uint64, f: Found)
    requires ValidEnv(env) && ResolveChain(env, st, root, evalSlot) == Some(f)
    ensures OrphanChain(env, st, root, evalSlot, f.blocks)
    ensures f.st.truncations == st.truncations + (if |f.blocks| == MAX_ORPHAN_WALK then 1 else 0)
    ensures f.st.truncations == st.truncations ==> RootedChain(env, f.st, evalSlot, f.blocks)
    ensures Grows(env, st, f.st, f.blocks)
  {
    var w := WalkUp(env, st, root, {}, [], evalSlot, MAX_ORPHAN_WALK).value;
    assert Climbing(env, st, root, [], root, {}, evalSlot);
    hide WalkUp, ValidEnv, OrphanChain, RootedChain, Climbing, Stops;
    var next, all := WalkUpShape(env, st, root, root, {}, [], evalSlot, MAX_ORPHAN_WALK, w);
    assert w.st.imported == st.imported;
    hide Grows;
    ReversedMembers(w.chain);
    GrowsAlike(env, st, w.st, f.st, w.chain, f.blocks);
    ReversedShape(env, st, w.st, root, evalSlot, w.chain, next, all);
    if !w.truncated {
      ReversedRooted(env, w.st, root, evalSlot, w.chain, next, all);
    }
  }

  lemma GrowsAlike(env: Env, st: PlanState, a: PlanState, b: PlanState, chain: seq<Block>, blocks: seq<Block>)
    requires Grows(env, st, a, chain) && b == a.(truncations := b.truncations)
    requires forall x :: x in chain ==> x in blocks
    ensures Grows(env, st, b, blocks)
  {
    forall s, r | r in OrphansAt(b, s) && r !in OrphansAt(st, s)
      ensures exists x :: x in blocks && x.root == r && x.slot == s
    {
      assert r in OrphansAt(a, s);
    }
  }

  lemma ReversedMembers(chain: seq<Block>)
    ensures forall b :: b in Reversed(chain) <==> b in chain
  {
    forall b | b in chain
      ensures b in Reversed(chain)
    {
      var i :| 0 <= i < |chain| && chain[i] == b;
      assert Reversed(chain)[|chain| - 1 - i] == b;
    }
  }
}
