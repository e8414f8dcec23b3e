/** In a BuildPlan run no block comes before its parent. */
module ParentsFirst {
  import opened Core
  import opened Blocks
  import opened Sorting
  import opened Sorts
  import opened AttPlan
  import opened PlanSpec
  import opened OrphanChains
  import opened PlanSteps
  import opened PlanRuns

  /** A block of the era files or of the archive. */
  ghost predicate InWorld(env: Env, b: Block) {
    env.era(b.slot) == Present(b) || env.archive(b.root) == Some(b)
  }

  /** The consensus rule on block headers (process_block_header, phase0 beacon chain): a block is newer than its
      parent. */
  ghost predicate ParentsOlder(env: Env) {
    forall b, p :: InWorld(env, b) && InWorld(env, p) && b.parentRoot == p.root ==> p.slot < b.slot
  }

  /** From `lo` on, the canonical chain contains the parents of its blocks. */
  ghost predicate CanonicalLinked(env: Env, lo: int) {
    forall s: uint64 :: lo <= s && env.era(s).Present? ==> LinkedAbove(env, lo, env.era(s).block.parentRoot)
  }

  ghost predicate LinkedAbove(env: Env, lo: int, parent: Root) {
    env.archive(parent).Some? && lo <= env.archive(parent).value.slot ==> Canonical(env.era, env.archive(parent).value)
  }

  ghost function BlockOf(env: Env, x: BlockImport): Block
    requires Genuine(env, x)
  {
    if x.canonical then env.era(x.slot).block else env.archive(x.root).value
  }

  ghost predicate AllGenuine(env: Env, imports: seq<BlockImport>) {
    forall x :: x in imports ==> Genuine(env, x)
  }

  /** Wherever a block and its parent are both imported, the parent comes first. */
  ghost predicate ParentsLead(env: Env, imports: seq<BlockImport>)
    requires AllGenuine(env, imports)
  {
    forall i, j ::
      0 <= i < |imports| && 0 <= j < |imports| && BlockOf(env, imports[i]).parentRoot == imports[j].root ==> j < i
  }

  /** No step of a plan that starts at `from` imports this root as an orphan. */
  ghost predicate Barred(env: Env, from: uint64, r: Root) {
    r == ZERO_ROOT || env.archive(r).None? || env.archive(r).value.slot < from
      || Canonical(env.era, env.archive(r).value)
  }

  ghost predicate Settled(env: Env, st: PlanState, from: uint64, r: Root) {
    r in st.imported || Barred(env, from, r)
  }

  // ----- which blocks may come before their parents

  /** The index handed to the planner lists the root at the slot of its block and nowhere else. */
  ghost predicate Indexed(env: Env, r: Root) {
    && env.archive(r).Some? && r in ListedAt(env.preload, env.archive(r).value.slot)
    && (forall s :: r in ListedAt(env.preload, s) ==> s == env.archive(r).value.slot)
  }

  /** A listed orphan whose parent is another orphan of the plan that is not itself indexed. */
  ghost predicate Waits(env: Env, from: uint64, r: Root) {
    && env.archive(r).Some? && r in ListedAt(env.preload, env.archive(r).value.slot)
    && !Barred(env, from, env.archive(r).value.parentRoot) && !Indexed(env, env.archive(r).value.parentRoot)
  }

  /** A block whose parent may come later: it waits, or a walk was cut at it. */
  ghost predicate Loose(env: Env, from: uint64, cut: set<Root>, r: Root) {
    r in cut || Waits(env, from, r)
  }

  /** Only loose orphans come before their parents, and only before parents that are orphans. */
  ghost predicate LeadExcept(env: Env, from: uint64, cut: set<Root>, imports: seq<BlockImport>)
    requires AllGenuine(env, imports)
  {
    forall i, j :: 0 <= i <= j < |imports| && BlockOf(env, imports[i]).parentRoot == imports[j].root ==>
      Excepted(env, from, cut, imports[i], imports[j])
  }

  ghost predicate Excepted(env: Env, from: uint64, cut: set<Root>, x: BlockImport, parent: BlockImport) {
    !x.canonical && !parent.canonical && Loose(env, from, cut, x.root)
  }

  // ----- appending to the import order

  /** Orphans in slot order, none imported before. */
  ghost predicate FreshOrphans(env: Env, st: PlanState, from: uint64, imports: seq<BlockImport>) {
    && AllGenuine(env, imports)
    && (forall x :: x in imports ==> !x.canonical && from <= x.slot && x.root !in st.imported)
    && (forall i, j :: 0 <= i < j < |imports| ==> imports[i].slot <= imports[j].slot)
  }

  lemma GenuineInWorld(env: Env, x: BlockImport)
    requires ValidEnv(env) && Genuine(env, x)
    ensures InWorld(env, BlockOf(env, x)) && BlockOf(env, x).root == x.root && BlockOf(env, x).slot == x.slot
  {
  }

  lemma NotTheParent(env: Env, x: BlockImport, y: BlockImport)
    requires ValidEnv(env) && ParentsOlder(env) && Genuine(env, x) && Genuine(env, y) && x.slot <= y.slot
    ensures BlockOf(env, x).parentRoot != y.root
  {
    GenuineInWorld(env, x);
    GenuineInWorld(env, y);
  }

  /** An import whose parent is dealt with, or that may go without. */
  ghost predicate ImportSettled(env: Env, st: PlanState, from: uint64, cut: set<Root>, x: BlockImport)
    requires Genuine(env, x)
  {
    Settled(env, st, from, BlockOf(env, x).parentRoot) || (!x.canonical && Loose(env, from, cut, x.root))
  }

  /** An import order in which only loose blocks come before their parents, and all other parents are dealt with. */
  ghost predicate LeadsTo(env: Env, st: PlanState, from: uint64, cut: set<Root>, all: seq<BlockImport>) {
    && AllGenuine(env, all) && LeadExcept(env, from, cut, all)
    && (forall x :: x in all ==> ImportSettled(env, st, from, cut, x))
  }

  lemma ExceptJoin(env: Env, from: uint64, cut: set<Root>, all: seq<BlockImport>, more: seq<BlockImport>)
    requires AllGenuine(env, all) && AllGenuine(env, more) && LeadExcept(env, from, cut, all)
    requires forall x, y :: x in all && y in more && BlockOf(env, x).parentRoot == y.root ==>
      Excepted(env, from, cut, x, y)
    requires forall i, j :: 0 <= i <= j < |more| ==> BlockOf(env, more[i]).parentRoot != more[j].root
    ensures AllGenuine(env, all + more) && LeadExcept(env, from, cut, all + more)
  {
    hide Excepted, Genuine;
    var joined := all + more;
    assert AllGenuine(env, joined);
    forall i, j | 0 <= i <= j < |joined| && BlockOf(env, joined[i]).parentRoot == joined[j].root
      ensures Excepted(env, from, cut, joined[i], joined[j])
    {
      if i < |all| && j >= |all| {
        assert all[i] in all && more[j - |all|] in more;
      }
    }
  }

  lemma AppendOrphans(env: Env, st: PlanState, from: uint64, cut: set<Root>, all: seq<BlockImport>,
                      more: seq<BlockImport>)
    requires ValidEnv(env) && ParentsOlder(env) && LeadsTo(env, st, from, cut, all)
    requires FreshOrphans(env, st, from, more)
    ensures AllGenuine(env, all + more) && LeadExcept(env, from, cut, all + more)
  {
    hide Loose;
    forall x, y | x in all && y in more && BlockOf(env, x).parentRoot == y.root
      ensures Excepted(env, from, cut, x, y)
    {
      assert !Settled(env, st, from, y.root);
      assert ImportSettled(env, st, from, cut, x);
    }
    forall i, j | 0 <= i <= j < |more|
      ensures BlockOf(env, more[i]).parentRoot != more[j].root
    {
      NotTheParent(env, more[i], more[j]);
    }
    ExceptJoin(env, from, cut, all, more);
  }

  /** The parents of canonical blocks are canonical, or below the plan. */
  lemma CanonicalSettled(env: Env, st: PlanState, from: uint64, simSlot: uint64, first: seq<BlockImport>)
    requires ValidEnv(env) && CanonicalLinked(env, from) && from <= simSlot
    requires first == if env.era(simSlot).Present? then [BlockImport(simSlot, env.era(simSlot).block.root, true)]
      else []
    ensures AllGenuine(env, first) && forall x :: x in first ==> Settled(env, st, from, BlockOf(env, x).parentRoot)
  {
    if env.era(simSlot).Present? {
      assert LinkedAbove(env, from, env.era(simSlot).block.parentRoot);
    }
  }

  /** The canonical block of a slot joins the order. */
  lemma AppendCanonical(env: Env, st: PlanState, st': PlanState, from: uint64, cut: set<Root>, all: seq<BlockImport>,
                        first: seq<BlockImport>, simSlot: uint64)
    requires ValidEnv(env) && ParentsOlder(env) && CanonicalLinked(env, from) && LeadsTo(env, st, from, cut, all)
    requires from <= simSlot && st.imported <= st'.imported && forall x :: x in all ==> x.slot < simSlot
    requires first == if env.era(simSlot).Present? then [BlockImport(simSlot, env.era(simSlot).block.root, true)]
      else []
    ensures LeadsTo(env, st', from, cut, all + first)
  {
    hide Loose, CanonicalLinked;
    CanonicalSettled(env, st', from, simSlot, first);
    forall x, y | x in all && y in first
      ensures BlockOf(env, x).parentRoot != y.root
    {
      NotTheParent(env, x, y);
    }
    if first != [] {
      NotTheParent(env, first[0], first[0]);
    }
    ExceptJoin(env, from, cut, all, first);
    forall x | x in all + first
      ensures ImportSettled(env, st', from, cut, x)
    {
      if x in all {
        assert ImportSettled(env, st, from, cut, x);
      }
    }
  }

  // ----- placing chains settles parents

  /** Parents of everything scheduled are settled, or the block may go without, and scheduled blocks wait for a later
      slot or are imported. */
  ghost predicate Tidy(env: Env, st: PlanState, from: uint64, next: int, cut: set<Root>) {
    && (forall r :: r in st.scheduled ==> env.archive(r).Some? && RootSettled(env, st, from, cut, env.archive(r).value))
    && (forall r :: r in st.scheduled ==> r in st.imported || env.archive(r).value.slot >= next)
  }

  ghost predicate RootSettled(env: Env, st: PlanState, from: uint64, cut: set<Root>, b: Block) {
    Settled(env, st, from, b.parentRoot) || Loose(env, from, cut, b.root)
  }

  lemma TidyGrows(env: Env, st: PlanState, st': PlanState, from: uint64, next: int, next': int, cut: set<Root>)
    requires Tidy(env, st, from, next, cut) && st'.scheduled == st.scheduled && st.imported <= st'.imported
    requires forall r :: r in st'.scheduled ==> r in st'.imported || env.archive(r).value.slot >= next'
    ensures Tidy(env, st', from, next', cut)
  {
  }

  lemma TidyMore(env: Env, st: PlanState, from: uint64, next: int, cut: set<Root>, more: set<Root>)
    requires Tidy(env, st, from, next, cut) && cut <= more
    ensures Tidy(env, st, from, next, more)
  {
  }

  ghost predicate Handled(st: PlanState, r: Root) {
    r in st.imported || r in st.scheduled || r in st.ignored
  }

  ghost predicate InfosSettled(env: Env, st: PlanState, from: uint64, cut: set<Root>, infos: seq<Block>) {
    forall b :: b in infos ==> RootSettled(env, st, from, cut, b)
  }

  lemma InfosMore(env: Env, st: PlanState, st': PlanState, from: uint64, cut: set<Root>, more: set<Root>,
                  infos: seq<Block>)
    requires InfosSettled(env, st, from, cut, infos) && cut <= more && st.imported <= st'.imported
    ensures InfosSettled(env, st', from, more, infos)
  {
  }

  /** The next block of a chain may be taken: its parent is settled or not needed, or the block is past the plan
      anyway. */
  ghost predicate Ready(env: Env, st: PlanState, from: uint64, to: uint64, cut: set<Root>, b: Block) {
    RootSettled(env, st, from, cut, b) || b.slot >= to
  }

  /** What placing keeps. */
  ghost predicate PlacedTidy(env: Env, p: Placing, from: uint64, next: int, cut: set<Root>) {
    Tidy(env, p.st, from, next, cut) && InfosSettled(env, p.st, from, cut, p.infos)
  }

  /** What placing changes of the marks: nothing is unmarked, and only blocks outside the plan are newly ignored. */
  ghost predicate Marks(env: Env, st: PlanState, st': PlanState, from: uint64, to: uint64) {
    && st.imported <= st'.imported && st'.orphans == st.orphans
    && (forall r :: Handled(st, r) ==> Handled(st', r))
    && (forall r :: r in st'.ignored ==> r in st.ignored || Outside(env, from, to, r))
  }

  ghost predicate Outside(env: Env, from: uint64, to: uint64, r: Root) {
    env.archive(r).Some? && !(from <= env.archive(r).value.slot < to)
  }

  lemma PlaceBlockSettles(env: Env, p: Placing, b: Block, simSlot: uint64, from: uint64, to: uint64, cut: set<Root>)
    requires ValidEnv(env) && Orphan(env, b) && b.slot <= simSlot + 1 && simSlot < to
    requires Ready(env, p.st, from, to, cut, b) && PlacedTidy(env, p, from, simSlot + 1, cut)
    ensures var q := PlaceBlock(env, p, b, simSlot, from, to);
      && PlacedTidy(env, q, from, simSlot + 1, cut) && Marks(env, p.st, q.st, from, to) && Handled(q.st, b.root)
      && (b.root in q.st.imported || b.slot < from || b.slot >= to || b.slot >= simSlot + 1)
  {
    hide Loose;
    OrphanNotShown(env, p.st.visible, b);
  }

  lemma MarksAgain(env: Env, a: PlanState, b: PlanState, c: PlanState, from: uint64, to: uint64)
    requires Marks(env, a, b, from, to) && Marks(env, b, c, from, to)
    ensures Marks(env, a, c, from, to)
  {
  }

  lemma {:induction false} PlaceChainSettles(env: Env, p: Placing, chain: seq<Block>, simSlot: uint64, from: uint64,
                                             to: uint64, cut: set<Root>)
    requires ValidEnv(env) && ParentsOlder(env) && simSlot < to && PlacedTidy(env, p, from, simSlot + 1, cut)
    requires LinkedDown(chain) && forall b :: b in chain ==> Orphan(env, b) && b.slot <= simSlot + 1
    requires chain != [] ==> Ready(env, p.st, from, to, cut, chain[0])
    ensures var q := PlaceChain(env, p, chain, simSlot, from, to);
      && PlacedTidy(env, q, from, simSlot + 1, cut) && Marks(env, p.st, q.st, from, to)
      && (forall b :: b in chain ==> Handled(q.st, b.root))
    decreases |chain|
  {
    if chain != [] {
      hide PlacedTidy, PlaceBlock, Loose, Handled;
      var q := PlaceBlock(env, p, chain[0], simSlot, from, to);
      PlaceBlockSettles(env, p, chain[0], simSlot, from, to, cut);
      if |chain| > 1 {
        assert chain[1].parentRoot == chain[0].root && InWorld(env, chain[0]) && InWorld(env, chain[1]);
        assert chain[0].slot < chain[1].slot <= simSlot + 1;
        assert Ready(env, q.st, from, to, cut, chain[1]);
        assert LinkedDown(chain[1..]);
      }
      PlaceChainSettles(env, q, chain[1..], simSlot, from, to, cut);
      MarksAgain(env, p.st, q.st, PlaceChain(env, q, chain[1..], simSlot, from, to).st, from, to);
      assert forall b :: b in chain ==> b == chain[0] || b in chain[1..];
    }
  }

  lemma {:induction false} ChainAscends(env: Env, chain: seq<Block>, i: nat)
    requires ValidEnv(env) && ParentsOlder(env) && LinkedDown(chain) && i < |chain|
    requires forall b :: b in chain ==> Orphan(env, b)
    ensures chain[0].slot <= chain[i].slot
  {
    if i > 0 {
      ChainAscends(env, chain, i - 1);
      assert chain[i] in chain && chain[i - 1] in chain;
      assert InWorld(env, chain[i]) && InWorld(env, chain[i - 1]) && chain[i].parentRoot == chain[i - 1].root;
    }
  }

  /** A walk that was not cut stopped at a block that is settled. */
  lemma RootedIsReady(env: Env, st: PlanState, from: uint64, evalSlot: uint64, chain: seq<Block>)
    requires ValidEnv(env) && ParentsOlder(env) && StateOk(env, st)
    requires LinkedDown(chain) && chain != [] && forall b :: b in chain ==> Orphan(env, b) && b.slot <= evalSlot
    requires RootedChain(env, st, evalSlot, chain)
    ensures Settled(env, st, from, chain[0].parentRoot)
  {
    var b, r := chain[0], chain[0].parentRoot;
    assert b in chain && InWorld(env, b);
    if env.archive(r).Some? && r != ZERO_ROOT && r !in st.imported {
      var parent := env.archive(r).value;
      assert InWorld(env, parent) && parent.root == r;
      assert parent.slot < b.slot;
      forall i | 0 <= i < |chain|
        ensures chain[i].root != r
      {
        ChainAscends(env, chain, i);
        assert Orphan(env, chain[i]);
      }
    }
  }

  // ----- the orphan index

  /** An orphan of the slots [from, to) that the index promises: it is imported when its slot comes, if not before. */
  ghost predicate Promised(env: Env, from: uint64, to: int, r: Root) {
    Indexed(env, r) && Orphan(env, env.archive(r).value) && from <= env.archive(r).value.slot < to
  }

  /** The lists hold the index and orphans dealt with at their own slots; nothing promised is ignored, and what was
      promised for the slots before `next` is imported. */
  ghost predicate IndexOk(env: Env, st: PlanState, from: uint64, to: uint64, next: int) {
    && (forall s, r :: r in ListedAt(env.preload, s) ==> r in OrphansAt(st, s))
    && (forall s, r :: r in OrphansAt(st, s) ==>
      r in ListedAt(env.preload, s) || (Handled(st, r) && OrphanAt(env, s, r)))
    && (forall r :: r in st.ignored ==> !Promised(env, from, to, r))
    && (forall r :: Promised(env, from, next, r) ==> r in st.imported)
  }

  /** A walk only adds to the lists. */
  lemma {:induction false} WalkLists(env: Env, st: PlanState, current: Root, seen: set<Root>, chain: seq<Block>,
                                     evalSlot: uint64, fuel: nat, w: Walk)
    requires WalkUp(env, st, current, seen, chain, evalSlot, fuel) == Some(w)
    ensures forall s, r :: r in OrphansAt(st, s) ==> r in OrphansAt(w.st, s)
    decreases fuel
  {
    if fuel > 0 && Climbs(env, st, current, seen, evalSlot) {
      var info, next := env.archive(current).value, StateAfter(env, st, current, seen, evalSlot);
      assert forall s, r :: r in OrphansAt(st, s) ==> r in OrphansAt(next, s);
      WalkLists(env, next, info.parentRoot, seen + {current}, chain + [info], evalSlot, fuel - 1, w);
    }
  }

  lemma ResolveLists(env: Env, st: PlanState, root: Root, evalSlot: uint64, f: Found)
    requires ResolveChain(env, st, root, evalSlot) == Some(f)
    ensures forall s, r :: r in OrphansAt(st, s) ==> r in OrphansAt(f.st, s)
  {
    hide WalkUp;
    var w := WalkUp(env, st, root, {}, [], evalSlot, MAX_ORPHAN_WALK).value;
    WalkLists(env, st, root, {}, [], evalSlot, MAX_ORPHAN_WALK, w);
    assert forall s :: OrphansAt(f.st, s) == OrphansAt(w.st, s);
  }

  /** The orphans that a walk lists are dealt with when its chain is placed. */
  lemma IndexAfterChain(env: Env, st: PlanState, walked: PlanState, chain: seq<Block>, st': PlanState, from: uint64,
                        to: uint64, next: int)
    requires IndexOk(env, st, from, to, next) && Grows(env, st, walked, chain) && Marks(env, walked, st', from, to)
    requires forall s, r :: r in OrphansAt(st, s) ==> r in OrphansAt(walked, s)
    requires forall b :: b in chain ==> Orphan(env, b) && Handled(st', b.root)
    ensures IndexOk(env, st', from, to, next)
  {
    hide Indexed;
    assert forall s :: OrphansAt(st', s) == OrphansAt(walked, s);
    forall s, r | r in OrphansAt(st', s)
      ensures r in ListedAt(env.preload, s) || (Handled(st', r) && OrphanAt(env, s, r))
    {
      if r in OrphansAt(st, s) {
        assert Handled(st, r) ==> Handled(walked, r);
      } else {
        var b :| b in chain && b.root == r && b.slot == s;
      }
    }
  }

  lemma HandledMore(env: Env, st: PlanState, st': PlanState)
    requires st.imported <= st'.imported && st.scheduled <= st'.scheduled && st.ignored <= st'.ignored
    requires st'.orphans == st.orphans
    ensures forall r :: Handled(st, r) ==> Handled(st', r)
    ensures forall s :: OrphansAt(st', s) == OrphansAt(st, s)
  {
  }

  /** A search at a slot ignores nothing that is promised. */
  lemma SearchSpares(env: Env, st: PlanState, slot: uint64, from: uint64, to: uint64, next: int, f: Found)
    requires ValidEnv(env) && StateOk(env, st) && IndexOk(env, st, from, to, next)
    requires OrphanInfos(env, st, slot) == Some(f)
    ensures IndexOk(env, f.st, from, to, next)
    ensures forall r :: r in OrphansAt(st, slot) && OrphanAt(env, slot, r) && r !in st.ignored ==>
      env.archive(r).value in f.blocks
  {
    hide GatherOrphans;
    var g := GatherOrphans(env, st, slot, OrphansAt(st, slot), {}, []).value;
    GatherTakes(env, st, slot, OrphansAt(st, slot), {}, [], g);
    SortKeepsMembers(g.blocks);
    InfosShape(env, st, slot, f);
    HandledMore(env, st, f.st);
    forall r | r in f.st.ignored
      ensures !Promised(env, from, to, r)
    {
      if r !in st.ignored {
        assert r in OrphansAt(st, slot) && !OrphanAt(env, slot, r);
      }
    }
  }

  lemma {:induction false} ImportTakes(env: Env, st: PlanState, infos: seq<Block>, minSlot: uint64, out: seq<Block>,
                                       f: Found)
    requires ValidEnv(env) && f == ImportOrphans(env, st, infos, minSlot, out)
    requires forall b :: b in infos ==> Orphan(env, b)
    ensures st.imported <= f.st.imported && f.st.scheduled == st.scheduled
    ensures forall b :: b in infos && minSlot <= b.slot ==> b.root in f.st.imported || b.root in f.st.scheduled
    ensures forall r :: r in f.st.ignored ==>
      r in st.ignored || (env.archive(r).Some? && env.archive(r).value.slot < minSlot)
    ensures st.ignored <= f.st.ignored
    decreases |infos|
  {
    if infos != [] {
      var info, rest := infos[0], infos[1..];
      OrphanNotShown(env, st.visible, info);
      assert forall b :: b in infos <==> b == info || b in rest;
      if info.slot < minSlot {
        ImportTakes(env, st.(ignored := st.ignored + {info.root}), rest, minSlot, out, f);
      } else if info.root in st.imported || info.root in st.scheduled {
        ImportTakes(env, st, rest, minSlot, out, f);
      } else {
        ImportTakes(env, st.(imported := st.imported + {info.root}), rest, minSlot, out + [info], f);
      }
    }
  }

  /** Importing the listed orphans ignores nothing that is promised. */
  lemma ImportSpares(env: Env, st: PlanState, st': PlanState, from: uint64, to: uint64, next: int)
    requires IndexOk(env, st, from, to, next) && st'.orphans == st.orphans
    requires st.imported <= st'.imported && st'.scheduled == st.scheduled && st.ignored <= st'.ignored
    requires forall r :: r in st'.ignored ==>
      r in st.ignored || (env.archive(r).Some? && env.archive(r).value.slot < from)
    ensures IndexOk(env, st', from, to, next)
  {
    hide Indexed;
    HandledMore(env, st, st');
  }

  /** Every orphan imported from a slot's list is a root of the index. */
  lemma ListedAreIndexed(env: Env, st: PlanState, slot: uint64, from: uint64, to: uint64, f: Found)
    requires ValidEnv(env) && StateOk(env, st) && IndexOk(env, st, from, to, slot)
    requires SlotOrphans(env, st, slot, from) == Some(f)
    ensures forall b :: b in f.blocks ==> b.slot == slot && Orphan(env, b) && b.root in ListedAt(env.preload, slot)
    ensures f.st.truncations == st.truncations && f.st.scheduled == st.scheduled && f.st.orphans == st.orphans
  {
    hide SlotOrphans, Promised, Orphan;
    SlotOrphansShape(env, st, slot, from, f);
    forall b | b in f.blocks
      ensures b.root in ListedAt(env.preload, slot)
    {
      assert b.root in OrphansAt(st, slot) && !Handled(st, b.root);
    }
  }

  /** The orphans listed at a slot: what is promised for it is imported or waits for the deferred blocks, and every
      import is a root of the index. */
  lemma ListedStep(env: Env, st: PlanState, slot: uint64, from: uint64, to: uint64, f: Found)
    requires ValidEnv(env) && StateOk(env, st) && IndexOk(env, st, from, to, slot) && from <= slot < to
    requires SlotOrphans(env, st, slot, from) == Some(f)
    ensures IndexOk(env, f.st, from, to, slot) && f.st.scheduled == st.scheduled && st.imported <= f.st.imported
    ensures f.st.truncations == st.truncations
    ensures forall r :: Promised(env, from, slot + 1, r) ==> r in f.st.imported || r in f.st.scheduled
    ensures forall b :: b in f.blocks ==> b.slot == slot && Orphan(env, b) && b.root in ListedAt(env.preload, slot)
  {
    hide Promised, IndexOk, OrphanInfos, ImportOrphans, Orphan;
    ListedAreIndexed(env, st, slot, from, to, f);
    var g := OrphanInfos(env, st, slot).value;
    SearchSpares(env, st, slot, from, to, slot, g);
    InfosShape(env, st, slot, g);
    ImportTakes(env, g.st, g.blocks, from, [], f);
    ImportSpares(env, g.st, f.st, from, to, slot);
    forall r | Promised(env, from, slot + 1, r)
      ensures r in f.st.imported || r in f.st.scheduled
    {
      PromisedIsArchived(env, from, slot + 1, r);
      PromisedIsListed(env, st, from, to, slot, r);
      if env.archive(r).value.slot == slot {
        OrphanIsItsRoot(env, slot, r);
        assert env.archive(r).value in g.blocks;
      }
    }
  }

  lemma OrphanIsItsRoot(env: Env, slot: uint64, r: Root)
    requires ValidEnv(env) && OrphanAt(env, slot, r)
    ensures env.archive(r).value.root == r && env.archive(r).value.slot == slot
  {
  }

  lemma PromisedIsArchived(env: Env, from: uint64, to: int, r: Root)
    requires Promised(env, from, to, r)
    ensures env.archive(r).Some? && env.archive(r).value.slot < to
  {
  }

  lemma PromisedIsListed(env: Env, st: PlanState, from: uint64, to: uint64, slot: uint64, r: Root)
    requires IndexOk(env, st, from, to, slot) && Promised(env, from, slot + 1, r) && slot < to
    ensures env.archive(r).Some? && r !in st.ignored && (env.archive(r).value.slot < slot ==> r in st.imported)
    ensures env.archive(r).value.slot == slot ==> r in OrphansAt(st, slot) && OrphanAt(env, slot, r)
  {
    assert Promised(env, from, to, r);
    if env.archive(r).value.slot < slot {
      assert Promised(env, from, slot, r);
    }
  }

  /** A listed orphan waits, or its parent is dealt with. */
  lemma ListedSettled(env: Env, st: PlanState, slot: uint64, from: uint64, to: uint64, cut: set<Root>,
                      infos: seq<Block>)
    requires ValidEnv(env) && ParentsOlder(env) && IndexOk(env, st, from, to, slot)
    requires forall b :: b in infos ==> b.slot == slot && Orphan(env, b) && b.root in ListedAt(env.preload, slot)
    ensures InfosSettled(env, st, from, cut, infos)
  {
    hide Indexed;
    forall b | b in infos
      ensures RootSettled(env, st, from, cut, b)
    {
      var r := b.parentRoot;
      if !Barred(env, from, r) && Indexed(env, r) {
        assert InWorld(env, b) && InWorld(env, env.archive(r).value);
        assert Promised(env, from, slot, r);
      }
    }
  }

  // ----- placing the roots of an iteration

  /** Resolving and placing one root keeps everything tidy; a cut walk makes one more block loose. */
  lemma PlaceOneTidy(env: Env, p: Placing, root: Root, simSlot: uint64, from: uint64, to: uint64, f: Found,
                     cut: set<Root>)
    returns (more: set<Root>)
    requires ValidEnv(env) && ParentsOlder(env) && simSlot < to && StateOk(env, p.st)
    requires PlacedTidy(env, p, from, simSlot + 1, cut) && IndexOk(env, p.st, from, to, simSlot + 1)
    requires ResolveChain(env, p.st, root, SaturatingAdd(simSlot, 1)) == Some(f)
    ensures var q := PlaceChain(env, p.(st := f.st), f.blocks, simSlot, from, to);
      && StateOk(env, q.st) && PlacedTidy(env, q, from, simSlot + 1, more) && IndexOk(env, q.st, from, to, simSlot + 1)
      && p.st.imported <= q.st.imported
      && cut <= more && |more| - |cut| <= q.st.truncations - p.st.truncations
  {
    hide Loose, IndexOk, ResolveChain, Grows, RootedChain, OrphanChain;
    ResolveLists(env, p.st, root, SaturatingAdd(simSlot, 1), f);
    ResolvedChain(env, p.st, root, SaturatingAdd(simSlot, 1), f);
    WalkKeeps(env, p.st, root, SaturatingAdd(simSlot, 1), f);
    more := cut;
    if f.st.truncations != p.st.truncations {
      more := cut + {f.blocks[0].root};
      CutIsLoose(env, from, more, f.blocks[0].root);
    } else if f.blocks != [] {
      RootedIsReady(env, f.st, from, SaturatingAdd(simSlot, 1), f.blocks);
    }
    var p1 := p.(st := f.st);
    TidyMore(env, p.st, from, simSlot + 1, cut, more);
    TidyGrows(env, p.st, f.st, from, simSlot + 1, simSlot + 1, more);
    InfosMore(env, p.st, f.st, from, cut, more, p.infos);
    PlaceChainQuiet(env, p1, f.blocks, simSlot, from, to);
    PlaceChainSettles(env, p1, f.blocks, simSlot, from, to, more);
    IndexAfterChain(env, p.st, f.st, f.blocks, PlaceChain(env, p1, f.blocks, simSlot, from, to).st, from, to,
      simSlot + 1);
  }

  lemma CutIsLoose(env: Env, from: uint64, cut: set<Root>, r: Root)
    requires r in cut
    ensures Loose(env, from, cut, r)
  {
  }

  /** What a resolved walk is, in the terms needed here. */
  lemma WalkKeeps(env: Env, st: PlanState, root: Root, evalSlot: uint64, f: Found)
    requires ValidEnv(env) && StateOk(env, st) && ResolveChain(env, st, root, evalSlot) == Some(f)
    ensures StateOk(env, f.st) && f.st.imported == st.imported && f.st.scheduled == st.scheduled
    ensures LinkedDown(f.blocks) && forall b :: b in f.blocks ==> Orphan(env, b) && b.slot <= evalSlot
    ensures f.st.truncations == st.truncations + (if |f.blocks| == MAX_ORPHAN_WALK then 1 else 0)
  {
    hide ResolveChain;
    ResolvedChain(env, st, root, evalSlot, f);
  }

  lemma {:induction false} PlaceRootsTidy(env: Env, p: Placing, roots: seq<Root>, simSlot: uint64, from: uint64,
                                          to: uint64, q: Placing, cut: set<Root>)
    returns (more: set<Root>)
    requires ValidEnv(env) && ParentsOlder(env) && simSlot < to && StateOk(env, p.st)
    requires PlacedTidy(env, p, from, simSlot + 1, cut) && IndexOk(env, p.st, from, to, simSlot + 1)
    requires PlaceRoots(env, p, roots, simSlot, SaturatingAdd(simSlot, 1), from, to) == Some(q)
    ensures PlacedTidy(env, q, from, simSlot + 1, more) && IndexOk(env, q.st, from, to, simSlot + 1)
    ensures p.st.imported <= q.st.imported
    ensures cut <= more && |more| - |cut| <= q.st.truncations - p.st.truncations
    decreases |roots|
  {
    more := cut;
    if roots != [] {
      hide PlacedTidy, IndexOk, StateOk, ParentsOlder, ResolveChain, PlaceChain;
      if !Fresh(env, p.st, roots[0]) {
        more := PlaceRootsTidy(env, p, roots[1..], simSlot, from, to, q, cut);
      } else {
        var f := ResolveChain(env, p.st, roots[0], SaturatingAdd(simSlot, 1)).value;
        var p2 := PlaceChain(env, p.(st := f.st), f.blocks, simSlot, from, to);
        var once := PlaceOneTidy(env, p, roots[0], simSlot, from, to, f, cut);
        more := PlaceRootsTidy(env, p2, roots[1..], simSlot, from, to, q, once);
      }
    }
  }

  /** Placing neither cuts walks nor touches what is shown, missing or listed. */
  lemma {:induction false} PlaceChainQuiet(env: Env, p: Placing, chain: seq<Block>, simSlot: uint64, from: uint64,
                                           to: uint64)
    ensures var q := PlaceChain(env, p, chain, simSlot, from, to);
      q.st.truncations == p.st.truncations && q.st.visible == p.st.visible && q.st.missing == p.st.missing
        && q.st.orphans == p.st.orphans
    decreases |chain|
  {
    if chain != [] {
      PlaceChainQuiet(env, PlaceBlock(env, p, chain[0], simSlot, from, to), chain[1..], simSlot, from, to);
    }
  }

  // ----- one iteration

  /** Looking at the sources neither imports nor ignores anything promised. */
  lemma {:induction false} SourcesSpare(env: Env, st: PlanState, sources: seq<Source>, roots: set<Root>, from: uint64,
                                        to: uint64, next: int, rs: Roots)
    requires ValidEnv(env) && StateOk(env, st) && IndexOk(env, st, from, to, next)
    requires SourceRoots(env, st, sources, roots) == Some(rs)
    ensures StateOk(env, rs.st) && IndexOk(env, rs.st, from, to, next)
    ensures rs.st.imported == st.imported && rs.st.scheduled == st.scheduled && rs.st.truncations == st.truncations
    decreases |sources|
  {
    if sources != [] {
      hide IndexOk, OrphanInfos;
      var g := OrphanInfos(env, st, sources[0].slot).value;
      InfosShape(env, st, sources[0].slot, g);
      SearchSpares(env, st, sources[0].slot, from, to, next, g);
      var f := SourceInfos(env, st, sources[0].slot).value;
      SourcesSpare(env, f.st, sources[1..],
        roots + FreshRoots(env, f.st, Attestations(f.blocks), sources[0].maxAttestationSlot), from, to, next, rs);
    }
  }

  lemma SourceImportsTidy(env: Env, st: PlanState, sources: seq<Source>, simSlot: uint64, from: uint64, to: uint64,
                          pending: map<uint64, seq<Block>>, q: Placing, cut: set<Root>)
    returns (more: set<Root>)
    requires ValidEnv(env) && ParentsOlder(env) && simSlot < to && StateOk(env, st)
    requires Tidy(env, st, from, simSlot + 1, cut) && IndexOk(env, st, from, to, simSlot + 1)
    requires SourceImports(env, st, sources, simSlot, SaturatingAdd(simSlot, 1), from, to, pending) == Some(q)
    ensures PlacedTidy(env, q, from, simSlot + 1, more) && IndexOk(env, q.st, from, to, simSlot + 1)
    ensures SortedBlocks(q.infos) && st.imported <= q.st.imported
    ensures cut <= more && |more| - |cut| <= q.st.truncations - st.truncations
  {
    more := cut;
    hide IndexOk, SourceRoots, PlaceRoots, ParentsOlder, PlacedTidy, SortedRoots, StateOk;
    PlacingStarts(env, st, pending, from, simSlot + 1, cut);
    if env.mode == GreedyLookahead {
      var rs := SourceRoots(env, st, sources, {}).value;
      SourcesSpare(env, st, sources, {}, from, to, simSlot + 1, rs);
      TidyGrows(env, st, rs.st, from, simSlot + 1, simSlot + 1, cut);
      PlacingStarts(env, rs.st, pending, from, simSlot + 1, cut);
      var p := PlaceRoots(env, Placing([], pending, rs.st), SortedRoots(rs.roots), simSlot, SaturatingAdd(simSlot, 1),
        from, to).value;
      more := PlaceRootsTidy(env, Placing([], pending, rs.st), SortedRoots(rs.roots), simSlot, from, to, p, cut);
      SettledSorted(env, p, from, simSlot + 1, more);
    }
  }

  lemma PlacingStarts(env: Env, st: PlanState, pending: map<uint64, seq<Block>>, from: uint64, next: int,
                      cut: set<Root>)
    requires Tidy(env, st, from, next, cut)
    ensures PlacedTidy(env, Placing([], pending, st), from, next, cut)
  {
  }

  lemma SettledSorted(env: Env, p: Placing, from: uint64, next: int, cut: set<Root>)
    requires PlacedTidy(env, p, from, next, cut)
    ensures PlacedTidy(env, p.(infos := SortBlocks(p.infos)), from, next, cut)
  {
    SortKeepsMembers(p.infos);
  }

  /** Importing the deferred blocks of the slot leaves only later blocks scheduled. */
  lemma DeferredTidy(env: Env, p: Planning, st: PlanState, simSlot: uint64, from: uint64, deferred: Found,
                     cut: set<Root>)
    requires Tidy(env, st, from, simSlot, cut) && st.scheduled == p.st.scheduled && p.st.imported <= st.imported
    requires forall r :: r in p.st.scheduled ==> ScheduledOk(env, p, from, simSlot, r)
    requires forall k :: 0 <= k < |p.out| ==> forall x :: x in p.out[k].imports ==> x.root in p.st.imported
    requires forall k, b :: b in PendingAt(p.pending, k) ==> b.slot == k
    requires deferred.st == st.(imported := deferred.st.imported) && st.imported <= deferred.st.imported
    requires forall r :: r in deferred.st.imported <==>
      r in st.imported || exists b :: b in PendingAt(p.pending, simSlot) && b.root == r
    requires forall r :: env.archive(r).Some? ==> env.archive(r).value.root == r
    ensures Tidy(env, deferred.st, from, simSlot + 1, cut)
  {
    forall r | r in st.scheduled
      ensures r in deferred.st.imported || env.archive(r).value.slot >= simSlot + 1
    {
      assert ScheduledOk(env, p, from, simSlot, r);
    }
    TidyGrows(env, st, deferred.st, from, simSlot, simSlot + 1, cut);
  }

  lemma DeferredTidyNow(env: Env, p: Planning, st: PlanState, from: uint64, to: uint64, simSlot: uint64,
                        deferred: Found, cut: set<Root>)
    requires ValidEnv(env) && Running(env, p, from, to, simSlot) && simSlot < to
    requires Tidy(env, st, from, simSlot, cut) && st.scheduled == p.st.scheduled && p.st.imported <= st.imported
    requires deferred.st == st.(imported := deferred.st.imported) && st.imported <= deferred.st.imported
    requires forall r :: r in deferred.st.imported <==>
      r in st.imported || exists b :: b in PendingAt(p.pending, simSlot) && b.root == r
    ensures Tidy(env, deferred.st, from, simSlot + 1, cut)
  {
    forall k, x | 0 <= k < |p.out| && x in p.out[k].imports
      ensures x.root in p.st.imported
    {
      ImportIsEmitted(p.out, k, x);
    }
    DeferredTidy(env, p, st, simSlot, from, deferred, cut);
  }

  /** What was promised for the slot is imported once its deferred blocks are. */
  lemma DeferredKeepsPromise(env: Env, st: PlanState, st': PlanState, from: uint64, to: uint64, simSlot: uint64,
                             cut: set<Root>)
    requires IndexOk(env, st, from, to, simSlot) && st' == st.(imported := st'.imported) && st.imported <= st'.imported
    requires forall r :: Promised(env, from, simSlot + 1, r) ==> r in st.imported || r in st.scheduled
    requires Tidy(env, st', from, simSlot + 1, cut)
    ensures IndexOk(env, st', from, to, simSlot + 1)
  {
    hide Promised, RootSettled;
    HandledMore(env, st, st');
    forall r | Promised(env, from, simSlot + 1, r)
      ensures r in st'.imported
    {
      PromisedIsArchived(env, from, simSlot + 1, r);
    }
  }

  /** What the loop keeps besides PlanRuns.Running. */
  ghost predicate Leading(env: Env, p: Planning, from: uint64, to: uint64, simSlot: int, cut: set<Root>) {
    && Tidy(env, p.st, from, simSlot, cut) && IndexOk(env, p.st, from, to, simSlot)
    && LeadsTo(env, p.st, from, cut, Emitted(p.out))
  }

  ghost predicate SlotsAscend(infos: seq<Block>) {
    forall i, j :: 0 <= i < j < |infos| ==> infos[i].slot <= infos[j].slot
  }

  lemma SortedImports(env: Env, st: PlanState, from: uint64, simSlot: uint64, infos: seq<Block>)
    requires SlotsAscend(infos) && from <= simSlot && OrphanPart(env, OrphanImports(infos), from, simSlot)
    requires forall x :: x in OrphanImports(infos) ==> x.root !in st.imported
    ensures FreshOrphans(env, st, from, OrphanImports(infos))
  {
  }

  lemma BlocksOfImports(env: Env, infos: seq<Block>)
    requires forall b :: b in infos ==> env.archive(b.root) == Some(b) && Orphan(env, b)
    ensures forall x :: x in OrphanImports(infos) ==>
      !x.canonical && Genuine(env, x) && BlockOf(env, x) in infos && BlockOf(env, x).root == x.root
  {
    forall x | x in OrphanImports(infos)
      ensures !x.canonical && Genuine(env, x) && BlockOf(env, x) in infos && BlockOf(env, x).root == x.root
    {
      var i :| 0 <= i < |infos| && OrphanImports(infos)[i] == x;
      assert infos[i] in infos;
    }
  }

  lemma DeferredSettled(env: Env, st: PlanState, from: uint64, to: uint64, pending: map<uint64, seq<Block>>,
                        simSlot: uint64, cut: set<Root>)
    requires ValidEnv(env) && Tidy(env, st, from, simSlot, cut) && PendingOk(env, st, pending, simSlot, to)
    ensures var infos := SortBlocks(PendingAt(pending, simSlot));
      && SortedBlocks(infos) && InfosSettled(env, st, from, cut, infos)
      && (forall b :: b in infos ==> Orphan(env, b))
  {
    SortKeepsMembers(PendingAt(pending, simSlot));
  }

  /** The order stays what it is when more is imported or more walks are cut. */
  lemma LeadsMore(env: Env, st: PlanState, st': PlanState, from: uint64, cut: set<Root>, more: set<Root>,
                  all: seq<BlockImport>)
    requires LeadsTo(env, st, from, cut, all) && st.imported <= st'.imported && cut <= more
    ensures LeadsTo(env, st', from, more, all)
  {
    hide Waits, Barred, Genuine;
    forall x | x in all
      ensures ImportSettled(env, st', from, more, x)
    {
      assert ImportSettled(env, st, from, cut, x);
    }
  }

  /** Orphans with settled parents join the order behind everything settled so far. */
  lemma JoinInfos(env: Env, st: PlanState, st': PlanState, from: uint64, simSlot: uint64, cut: set<Root>,
                  all: seq<BlockImport>, infos: seq<Block>)
    requires ValidEnv(env) && ParentsOlder(env) && LeadsTo(env, st, from, cut, all) && from <= simSlot
    requires SlotsAscend(infos) && OrphanPart(env, OrphanImports(infos), from, simSlot)
    requires forall b :: b in infos ==> Orphan(env, b)
    requires Batch(st.imported, OrphanImports(infos), st'.imported) && InfosSettled(env, st', from, cut, infos)
    ensures LeadsTo(env, st', from, cut, all + OrphanImports(infos))
  {
    hide Loose, Barred, ParentsOlder, Orphan, DistinctImports;
    SortedImports(env, st, from, simSlot, infos);
    AppendOrphans(env, st, from, cut, all, OrphanImports(infos));
    OrphansArchived(env, infos);
    BlocksOfImports(env, infos);
    forall x | x in all + OrphanImports(infos)
      ensures ImportSettled(env, st', from, cut, x)
    {
      if x in all {
        assert ImportSettled(env, st, from, cut, x);
      } else {
        assert RootSettled(env, st', from, cut, BlockOf(env, x));
      }
    }
  }

  lemma OrphansArchived(env: Env, infos: seq<Block>)
    requires forall b :: b in infos ==> Orphan(env, b)
    ensures forall b :: b in infos ==> env.archive(b.root) == Some(b)
  {
  }

  lemma SortedAscend(infos: seq<Block>)
    requires SortedBlocks(infos)
    ensures SlotsAscend(infos)
  {
    forall i, j | 0 <= i < j < |infos|
      ensures infos[i].slot <= infos[j].slot
    {
      assert !BlockBefore(infos[j], infos[i]);
    }
  }

  lemma SameSlotAscends(infos: seq<Block>, slot: uint64)
    requires forall b :: b in infos ==> b.slot == slot
    ensures SlotsAscend(infos)
  {
    assert forall i :: 0 <= i < |infos| ==> infos[i] in infos;
  }

  lemma MoreImported(env: Env, st: PlanState, st': PlanState, from: uint64, to: uint64, next: int)
    requires IndexOk(env, st, from, to, next) && st' == st.(imported := st'.imported) && st.imported <= st'.imported
    ensures IndexOk(env, st', from, to, next)
  {
    hide Promised;
    HandledMore(env, st, st');
  }

  // ----- an iteration step by step

  /** The canonical block and the listed orphans of the slot join the order. */
  lemma LeadUpToListed(env: Env, p: Planning, simSlot: uint64, from: uint64, to: uint64, first: seq<BlockImport>,
                       st1: PlanState, listed: Found, cut: set<Root>)
    requires ValidEnv(env) && ParentsOlder(env) && CanonicalLinked(env, from)
    requires Running(env, p, from, to, simSlot) && simSlot < to && Leading(env, p, from, to, simSlot, cut)
    requires (first, st1) == CanonicalImport(env, p.st, simSlot)
    requires SlotOrphans(env, st1, simSlot, from) == Some(listed)
    ensures StateOk(env, listed.st) && PendingOk(env, listed.st, p.pending, simSlot, to)
    ensures LeadsTo(env, listed.st, from, cut, Emitted(p.out) + first + OrphanImports(listed.blocks))
    ensures Tidy(env, listed.st, from, simSlot, cut) && IndexOk(env, listed.st, from, to, simSlot)
    ensures listed.st.scheduled == p.st.scheduled && p.st.imported <= listed.st.imported
    ensures listed.st.truncations == p.st.truncations
    ensures forall r :: Promised(env, from, simSlot + 1, r) ==> r in listed.st.imported || r in listed.st.scheduled
  {
    CanonicalStep(env, p, from, to, simSlot, first, st1);
    EmittedBefore(env, p, from, to, simSlot);
    hide CanonicalImport, SlotOrphans, LeadsTo, IndexOk, Loose, CanonicalLinked, ParentsOlder, Running, OrphanPart,
      Batch,
      PendingOk, Promised, SlotsAscend, InfosSettled, Emitted;
    AppendCanonical(env, p.st, st1, from, cut, Emitted(p.out), first, simSlot);
    TidyGrows(env, p.st, st1, from, simSlot, simSlot, cut);
    MoreImported(env, p.st, st1, from, to, simSlot);
    ListedStep(env, st1, simSlot, from, to, listed);
    ListedPart(env, st1, p.pending, simSlot, from, to, listed);
    ListedSettled(env, st1, simSlot, from, to, cut, listed.blocks);
    InfosMore(env, st1, listed.st, from, cut, cut, listed.blocks);
    SameSlotAscends(listed.blocks, simSlot);
    JoinInfos(env, st1, listed.st, from, simSlot, cut, Emitted(p.out) + first, listed.blocks);
    TidyGrows(env, st1, listed.st, from, simSlot, simSlot, cut);
  }

  lemma EmittedBefore(env: Env, p: Planning, from: uint64, to: uint64, simSlot: uint64)
    requires Running(env, p, from, to, simSlot)
    ensures from <= simSlot && forall x :: x in Emitted(p.out) ==> x.slot < simSlot
  {
  }

  /** The deferred blocks of the slot join the order. */
  lemma LeadUpToDeferred(env: Env, p: Planning, simSlot: uint64, from: uint64, to: uint64, st: PlanState,
                         deferred: Found, all: seq<BlockImport>, cut: set<Root>)
    requires ValidEnv(env) && ParentsOlder(env) && Running(env, p, from, to, simSlot) && simSlot < to
    requires StateOk(env, st) && PendingOk(env, st, p.pending, simSlot, to)
    requires LeadsTo(env, st, from, cut, all) && Tidy(env, st, from, simSlot, cut)
    requires IndexOk(env, st, from, to, simSlot)
    requires st.scheduled == p.st.scheduled && p.st.imported <= st.imported
    requires forall r :: Promised(env, from, simSlot + 1, r) ==> r in st.imported || r in st.scheduled
    requires deferred == ImportPending(st, SortBlocks(PendingAt(p.pending, simSlot)), [])
    ensures StateOk(env, deferred.st) && PendingOk(env, deferred.st, Undeferred(p.pending, simSlot), simSlot + 1, to)
    ensures LeadsTo(env, deferred.st, from, cut, all + OrphanImports(deferred.blocks))
    ensures Tidy(env, deferred.st, from, simSlot + 1, cut) && IndexOk(env, deferred.st, from, to, simSlot + 1)
    ensures deferred.st.truncations == st.truncations
  {
    EmittedBefore(env, p, from, to, simSlot);
    hide LeadsTo, IndexOk, Loose, ParentsOlder, Running, OrphanPart, Batch, PendingOk, Promised, SlotsAscend,
      InfosSettled,
      Emitted, ImportPending, Tidy;
    DeferredPart(env, st, p.pending, simSlot, from, to, deferred);
    DeferredStep(env, st, p.pending, to, simSlot, deferred);
    DeferredTidyNow(env, p, st, from, to, simSlot, deferred, cut);
    DeferredKeepsPromise(env, st, deferred.st, from, to, simSlot, cut);
    DeferredSettled(env, st, from, to, p.pending, simSlot, cut);
    SortedAscend(deferred.blocks);
    InfosMore(env, st, deferred.st, from, cut, cut, deferred.blocks);
    JoinInfos(env, st, deferred.st, from, simSlot, cut, all, deferred.blocks);
  }

  /** The orphans voted for by the sources join the order. */
  lemma LeadUpToPlaced(env: Env, st: PlanState, sources: seq<Source>, pending: map<uint64, seq<Block>>, simSlot: uint64,
                       from: uint64, to: uint64, placed: Placing, all: seq<BlockImport>, cut: set<Root>)
    returns (more: set<Root>)
    requires ValidEnv(env) && ParentsOlder(env) && from <= simSlot < to && StateOk(env, st)
    requires PendingOk(env, st, pending, simSlot + 1, to) && LeadsTo(env, st, from, cut, all)
    requires Tidy(env, st, from, simSlot + 1, cut) && IndexOk(env, st, from, to, simSlot + 1)
    requires SourceImports(env, st, sources, simSlot, SaturatingAdd(simSlot, 1), from, to, pending) == Some(placed)
    ensures LeadsTo(env, placed.st, from, more, all + OrphanImports(placed.infos))
    ensures Tidy(env, placed.st, from, simSlot + 1, more) && IndexOk(env, placed.st, from, to, simSlot + 1)
    ensures cut <= more && |more| - |cut| <= placed.st.truncations - st.truncations
  {
    hide LeadsTo, IndexOk, Loose, ParentsOlder, Batch, PendingOk, SlotsAscend, InfosSettled, SourceImports, Tidy;
    PlacedPart(env, st, sources, pending, simSlot, from, to, placed);
    more := SourceImportsTidy(env, st, sources, simSlot, from, to, pending, placed, cut);
    LeadsMore(env, st, st, from, cut, more, all);
    SortedAscend(placed.infos);
    PlacedOrphans(env, placed.infos, from, simSlot);
    JoinInfos(env, st, placed.st, from, simSlot, more, all, placed.infos);
  }

  lemma PlacedOrphans(env: Env, infos: seq<Block>, lo: int, hi: int)
    requires OrphanPart(env, OrphanImports(infos), lo, hi)
    requires forall r :: env.archive(r).Some? ==> env.archive(r).value.root == r
    ensures forall b :: b in infos ==> env.archive(b.root).Some? && Orphan(env, env.archive(b.root).value)
  {
    forall b | b in infos
      ensures env.archive(b.root).Some? && Orphan(env, env.archive(b.root).value)
    {
      var i :| 0 <= i < |infos| && infos[i] == b;
      assert OrphanImports(infos)[i] in OrphanImports(infos);
    }
  }

  /** One iteration of the plan: only loose orphans come before their parents, and each cut walk makes one more block
      loose. */
  lemma StepLeads(env: Env, p: Planning, blocks: set<uint64>, simSlot: uint64, from: uint64, to: uint64, q: Planning,
                  cut: set<Root>)
    returns (more: set<Root>)
    requires ValidEnv(env) && ParentsOlder(env) && CanonicalLinked(env, from)
    requires Running(env, p, from, to, simSlot) && simSlot < to && Leading(env, p, from, to, simSlot, cut)
    requires PlanSlot(env, p, blocks, simSlot, from, to) == Some(q)
    ensures Leading(env, q, from, to, simSlot + 1, more)
    ensures cut <= more && |more| - |cut| <= q.st.truncations - p.st.truncations
  {
    EmittedBefore(env, p, from, to, simSlot);
    var first, st1, listed, deferred, sources, placed := IterationOf(env, p, blocks, simSlot, from, to, q);
    hide LeadsTo, IndexOk, Loose, ParentsOlder, CanonicalLinked, Running, PendingOk, Promised, Tidy, Emitted, StateOk,
      PlanSlot,
      SlotOrphans, SourceImports, ImportPending, CanonicalImport;
    LeadUpToListed(env, p, simSlot, from, to, first, st1, listed, cut);
    var all := Emitted(p.out) + first + OrphanImports(listed.blocks);
    LeadUpToDeferred(env, p, simSlot, from, to, listed.st, deferred, all, cut);
    more := LeadUpToPlaced(env, deferred.st, sources, Undeferred(p.pending, simSlot), simSlot, from, to, placed,
                           all + OrphanImports(deferred.blocks), cut);
    StepEmits(p, q, first, OrphanImports(listed.blocks), OrphanImports(deferred.blocks), OrphanImports(placed.infos));
  }

  lemma StepEmits(p: Planning, q: Planning, first: seq<BlockImport>, listed: seq<BlockImport>,
                  deferred: seq<BlockImport>, placed: seq<BlockImport>)
    requires |q.out| == |p.out| + 1 && q.out[..|p.out|] == p.out
    requires q.out[|p.out|].imports == first + listed + deferred + placed
    ensures Emitted(q.out) == Emitted(p.out) + first + listed + deferred + placed
  {
    assert q.out == p.out + [q.out[|p.out|]];
    EmittedAppend(p.out, q.out[|p.out|]);
    assert Emitted(p.out) + (first + listed + deferred + placed) == Emitted(p.out) + first + listed + deferred + placed;
  }

  // ----- the loop

  lemma {:induction false} SlotsLead(env: Env, p: Planning, blocks: set<uint64>, simSlot: uint64, from: uint64,
                                     to: uint64, q: Planning, cut: set<Root>)
    returns (more: set<Root>)
    requires ValidEnv(env) && ParentsOlder(env) && CanonicalLinked(env, from)
    requires Running(env, p, from, to, simSlot) && Leading(env, p, from, to, simSlot, cut)
    requires PlanSlots(env, p, blocks, simSlot, from, to) == Some(q)
    ensures Leading(env, q, from, to, to, more)
    ensures cut <= more && |more| - |cut| <= q.st.truncations - p.st.truncations
    decreases (to as int) - (simSlot as int)
  {
    hide PlanSlot, Running, Leading, ParentsOlder, CanonicalLinked;
    RunningWithin(env, p, from, to, simSlot);
    more := cut;
    if simSlot < to {
      var r := NextSlot(env, p, blocks, simSlot, from, to, q);
      PlanSlotKeeps(env, p, blocks, simSlot, from, to, r);
      var once := StepLeads(env, p, blocks, simSlot, from, to, r, cut);
      more := SlotsLead(env, r, blocks, simSlot + 1, from, to, q, once);
    }
  }

  lemma StartLeads(env: Env, from: uint64, to: uint64)
    ensures Leading(env, PlanStart(env, from, to), from, to, from, {})
  {
    var st := PlanStart(env, from, to).st;
    forall s, r
      ensures r in ListedAt(env.preload, s) <==> r in OrphansAt(st, s)
    {
      if s in env.preload {
        SameMembers(SortRootList(env.preload[s]), env.preload[s]);
      }
    }
  }

  lemma PlanLeads(env: Env, from: uint64, to: uint64, p: Planning) returns (cut: set<Root>)
    requires ValidEnv(env) && ParentsOlder(env) && CanonicalLinked(env, from)
    requires BuildPlan(env, from, to) == Some(p)
    ensures |cut| <= p.st.truncations
    ensures AllGenuine(env, Emitted(p.out)) && LeadExcept(env, from, cut, Emitted(p.out))
  {
    hide Running, PlanSlots, ParentsOlder, CanonicalLinked, IndexOk, Tidy, LeadExcept;
    StartRuns(env, from, to);
    StartLeads(env, from, to);
    cut := SlotsLead(env, PlanStart(env, from, to), PlanVisible(env, from, to), from, from, to, p, {});
  }

  /** Whatever the index lists and however many walks are cut: only an orphan that the index lists without its parent,
      or one of at most as many blocks as walks were cut, is imported before its parent, and then the parent is an
      orphan too. */
  lemma PlanParentsLead(env: Env, from: uint64, to: uint64, p: Planning)
    requires ValidEnv(env) && ParentsOlder(env) && CanonicalLinked(env, from)
    requires BuildPlan(env, from, to) == Some(p)
    ensures AllGenuine(env, Emitted(p.out))
    ensures exists cut: set<Root> :: |cut| <= p.st.truncations && LeadExcept(env, from, cut, Emitted(p.out))
  {
    hide BuildPlan, ParentsOlder, CanonicalLinked, LeadExcept, AllGenuine;
    var cut := PlanLeads(env, from, to, p);
  }

  /** The index names the parents of its orphans: each listed orphan's parent is canonical, below the plan, unknown to
      the archive, or listed itself at its slot. */
  ghost predicate IndexClosed(env: Env, from: uint64) {
    forall r :: !Waits(env, from, r)
  }

  /** With such an index, and as long as no walk is cut, no block of a plan comes before its parent. */
  lemma ClosedIndexLeads(env: Env, from: uint64, to: uint64, p: Planning)
    requires ValidEnv(env) && ParentsOlder(env) && CanonicalLinked(env, from) && IndexClosed(env, from)
    requires BuildPlan(env, from, to) == Some(p) && p.st.truncations == 0
    ensures AllGenuine(env, Emitted(p.out)) && ParentsLead(env, Emitted(p.out))
  {
    hide BuildPlan, ParentsOlder, CanonicalLinked, AllGenuine, Waits;
    var cut := PlanLeads(env, from, to, p);
    assert cut == {};
  }

  /** Without an index, and as long as no walk is cut, no block of a plan comes before its parent. */
  lemma ParentsComeFirst(env: Env, from: uint64, to: uint64, p: Planning)
    requires ValidEnv(env) && ParentsOlder(env) && CanonicalLinked(env, from) && env.preload == map[]
    requires BuildPlan(env, from, to) == Some(p) && p.st.truncations == 0
    ensures AllGenuine(env, Emitted(p.out)) && ParentsLead(env, Emitted(p.out))
  {
    hide BuildPlan, ParentsOlder, CanonicalLinked, AllGenuine, ParentsLead;
    ClosedIndexLeads(env, from, to, p);
  }
}
