/** Guarantees of a whole BuildPlan run. */
module PlanRuns {
  import opened Core
  import opened SlotRanges
  import opened Blocks
  import opened Sorting
  import opened PlanSpec
  import opened OrphanChains
  import opened PlanSteps

  /** The imports of a plan in the order in which an engine executes them. */
  ghost function Emitted(out: seq<PlanEntry>): seq<BlockImport> {
    if out == [] then [] else Emitted(out[..|out| - 1]) + out[|out| - 1].imports
  }

  ghost predicate DistinctImports(imports: seq<BlockImport>) {
    forall i, j :: 0 <= i < j < |imports| ==> imports[i].root != imports[j].root
  }

  /** An import names a real block: the era block of its slot, or an archived orphan of that slot. */
  ghost predicate Genuine(env: Env, x: BlockImport) {
    if x.canonical then env.era(x.slot).Present? && env.era(x.slot).block.root == x.root
    else env.archive(x.root).Some? && env.archive(x.root).value.slot == x.slot && Orphan(env, env.archive(x.root).value)
  }

  /** The shape of one entry: its canonical block, if the slot has one, then orphans between `from` and the slot. */
  ghost predicate EntryOk(env: Env, e: PlanEntry, from: uint64, simSlot: int) {
    && e.simSlot == simSlot
    && (forall x :: x in e.imports ==> from <= x.slot <= simSlot && Genuine(env, x))
    && (env.era(simSlot).Present? ==>
      e.imports != [] && e.imports[0] == BlockImport(simSlot, env.era(simSlot).block.root, true))
    && (forall i :: 0 <= i < |e.imports| && e.imports[i].canonical ==> i == 0 && env.era(simSlot).Present?)
  }

  /** A scheduled root still waits under its slot, or was emitted in the entry of its own slot. */
  ghost predicate ScheduledOk(env: Env, p: Planning, from: uint64, simSlot: int, r: Root) {
    && env.archive(r).Some?
    && (var b := env.archive(r).value;
        || b in PendingAt(p.pending, b.slot)
        || (from <= b.slot < simSlot && b.slot - from < |p.out|
          && BlockImport(b.slot, r, false) in p.out[b.slot - from].imports))
  }

  /** The invariant of BuildPlan's loop, before the iteration for `simSlot`. */
  ghost predicate Running(env: Env, p: Planning, from: uint64, to: uint64, simSlot: int) {
    && from <= simSlot <= to
    && StateOk(env, p.st)
    && (forall s: uint64 :: from <= s < to && env.era(s).Present? ==> s in p.st.visible)
    && |p.out| == simSlot - from
    && (forall k :: 0 <= k < |p.out| ==> EntryOk(env, p.out[k], from, from + k))
    && DistinctImports(Emitted(p.out))
    && (forall x :: x in Emitted(p.out) ==> x.root in p.st.imported && Genuine(env, x) && x.slot < simSlot)
    && PendingOk(env, p.st, p.pending, simSlot, to)
    && (forall r :: r in p.st.scheduled ==> ScheduledOk(env, p, from, simSlot, r))
  }

  // ----- batches of imports

  /** New imports: pairwise distinct, none already imported. */
  ghost predicate Batch(before: set<Root>, imports: seq<BlockImport>, after: set<Root>) {
    && DistinctImports(imports)
    && before <= after
    && (forall x :: x in imports ==> x.root !in before && x.root in after)
  }

  lemma BatchJoin(a: set<Root>, l: seq<BlockImport>, b: set<Root>, m: seq<BlockImport>, c: set<Root>)
    requires Batch(a, l, b) && Batch(b, m, c)
    ensures Batch(a, l + m, c)
  {
    forall i, j | 0 <= i < j < |l + m|
      ensures (l + m)[i].root != (l + m)[j].root
    {
      if i < |l| <= j {
        assert l[i] in l && m[j - |l|] in m;
      }
    }
  }

  lemma OrphanBatch(env: Env, st: PlanState, st': PlanState, blocks: seq<Block>, lo: int, hi: int)
    requires NewImports(env, st, st', blocks, lo, hi)
    ensures Batch(st.imported, OrphanImports(blocks), st'.imported)
    ensures forall x :: x in OrphanImports(blocks) ==> !x.canonical && lo <= x.slot <= hi && Genuine(env, x)
  {
    var imports := OrphanImports(blocks);
    forall x | x in imports
      ensures x.root !in st.imported && x.root in st'.imported && !x.canonical && lo <= x.slot <= hi && Genuine(env, x)
    {
      var i :| 0 <= i < |imports| && imports[i] == x;
      assert blocks[i] in blocks;
    }
  }

  // ----- one iteration

  lemma CanonicalStep(env: Env, p: Planning, from: uint64, to: uint64, simSlot: uint64, first: seq<BlockImport>,
                      st1: PlanState)
    requires ValidEnv(env) && Running(env, p, from, to, simSlot) && simSlot < to
    requires (first, st1) == CanonicalImport(env, p.st, simSlot)
    ensures StateOk(env, st1) && st1 == p.st.(imported := st1.imported) && p.st.imported <= st1.imported
    ensures first == if env.era(simSlot).Present? then [BlockImport(simSlot, env.era(simSlot).block.root, true)] else []
    ensures forall r :: r in st1.imported ==>
      r in p.st.imported || (env.era(simSlot).Present? && r == env.era(simSlot).block.root)
    ensures forall x :: x in first ==> x.root in st1.imported
    ensures forall x, y :: x in Emitted(p.out) && y in first ==> x.root != y.root
    ensures PendingOk(env, st1, p.pending, simSlot, to)
  {
    if env.era(simSlot).Present? {
      var c := env.era(simSlot).block;
      forall x | x in Emitted(p.out)
        ensures x.root != c.root
      {
        assert Genuine(env, x) && x.slot < simSlot;
      }
      forall k, b | k in p.pending && b in p.pending[k]
        ensures b.root != c.root
      {
        OrphanNotShown(env, {simSlot}, b);
      }
    }
  }

  /** None of the blocks deferred to a slot was imported by the steps before. */
  lemma StillWaiting(env: Env, st1: PlanState, listed: Found, pending: map<uint64, seq<Block>>, from: uint64,
                     to: uint64, simSlot: uint64)
    requires PendingOk(env, st1, pending, simSlot, to)
    requires NewImports(env, st1, listed.st, listed.blocks, from, simSlot) && listed.st.scheduled == st1.scheduled
    ensures PendingOk(env, listed.st, pending, simSlot, to)
  {
    forall k, b | k in pending && b in pending[k]
      ensures b.root !in listed.st.imported
    {
    }
  }

  /** The deferred blocks of the slot are exactly the ones imported. */
  lemma DeferredStep(env: Env, st: PlanState, pending: map<uint64, seq<Block>>, to: uint64, simSlot: uint64,
                     deferred: Found)
    requires ValidEnv(env) && simSlot < to && PendingOk(env, st, pending, simSlot, to) && StateOk(env, st)
    requires deferred == ImportPending(st, SortBlocks(PendingAt(pending, simSlot)), [])
    ensures deferred.blocks == SortBlocks(PendingAt(pending, simSlot))
    ensures StateOk(env, deferred.st) && deferred.st == st.(imported := deferred.st.imported)
    ensures forall r :: r in deferred.st.imported <==>
      r in st.imported || exists b :: b in PendingAt(pending, simSlot) && b.root == r
    ensures Batch(st.imported, OrphanImports(deferred.blocks), deferred.st.imported)
    ensures forall x :: x in OrphanImports(deferred.blocks) ==> !x.canonical && x.slot == simSlot && Genuine(env, x)
  {
    var waiting := PendingAt(pending, simSlot);
    WaitingShape(env, st, pending, to, simSlot);
    hide PendingOk, PendingAt, Orphan, ValidEnv, Genuine, Batch, StateOk, SortBlocks, ImportPending;
    WaitingImported(st, waiting, deferred);
    forall b | b in deferred.blocks
      ensures b.root !in st.imported && Orphan(env, b) && b.slot == simSlot
    {
      assert b in waiting;
    }
    DeferredImports(env, st, deferred, simSlot);
    StateStays(env, st, deferred.st);
  }

  lemma WaitingShape(env: Env, st: PlanState, pending: map<uint64, seq<Block>>, to: uint64, simSlot: uint64)
    requires PendingOk(env, st, pending, simSlot, to)
    ensures var waiting := PendingAt(pending, simSlot);
      DistinctRoots(waiting)
      && forall b :: b in waiting ==> b.slot == simSlot && Orphan(env, b) && b.root !in st.imported
  {
    hide Orphan;
  }

  /** Distinct blocks, none of them imported: all are, in order. */
  lemma WaitingImported(st: PlanState, waiting: seq<Block>, deferred: Found)
    requires DistinctRoots(waiting) && forall b :: b in waiting ==> b.root !in st.imported
    requires deferred == ImportPending(st, SortBlocks(waiting), [])
    ensures deferred.blocks == SortBlocks(waiting) && DistinctRoots(deferred.blocks)
    ensures forall b :: b in deferred.blocks <==> b in waiting
    ensures deferred.st == st.(imported := deferred.st.imported)
    ensures forall r :: r in deferred.st.imported <==> r in st.imported || exists b :: b in waiting && b.root == r
    ensures forall r :: r in deferred.st.imported <==>
      r in st.imported || exists b :: b in deferred.blocks && b.root == r
  {
    hide ImportPending, SortBlocks, DistinctRoots;
    SortKeepsMembers(waiting);
    SortKeepsDistinct(waiting);
    ImportPendingAll(st, SortBlocks(waiting), [], deferred);
    assert [] + SortBlocks(waiting) == SortBlocks(waiting);
  }

  lemma DeferredMembers(waiting: seq<Block>, simSlot: uint64)
    requires forall b :: b in waiting ==> b.slot == simSlot
    ensures forall b :: b in waiting ==> BlockImport(simSlot, b.root, false) in OrphanImports(SortBlocks(waiting))
  {
    SortKeepsMembers(waiting);
    var sorted := SortBlocks(waiting);
    forall b | b in waiting
      ensures BlockImport(simSlot, b.root, false) in OrphanImports(sorted)
    {
      var i :| 0 <= i < |sorted| && sorted[i] == b;
      assert OrphanImports(sorted)[i] == BlockImport(simSlot, b.root, false);
    }
  }

  /** The blocks deferred to later slots keep waiting. */
  lemma RestWaits(env: Env, st: PlanState, pending: map<uint64, seq<Block>>, to: uint64, simSlot: uint64,
                  st': PlanState)
    requires PendingOk(env, st, pending, simSlot, to) && st'.scheduled == st.scheduled
    requires forall r :: r in st'.imported ==>
      r in st.imported || exists b :: b in PendingAt(pending, simSlot) && b.root == r
    ensures PendingOk(env, st', Undeferred(pending, simSlot), simSlot + 1, to)
  {
    var rest := Undeferred(pending, simSlot);
    forall k: uint64, b: Block | k in rest && b in rest[k]
      ensures b.root !in st'.imported
    {
      forall c | c in PendingAt(pending, simSlot)
        ensures c.root != b.root
      {
        assert c.slot == simSlot && b.slot == k && env.archive(c.root) == Some(c) && env.archive(b.root) == Some(b);
      }
    }
  }

  lemma DeferredImports(env: Env, st: PlanState, deferred: Found, simSlot: uint64)
    requires DistinctRoots(deferred.blocks)
    requires forall b :: b in deferred.blocks ==> b.root !in st.imported && Orphan(env, b) && b.slot == simSlot
    requires forall r :: r in deferred.st.imported <==>
      r in st.imported || exists b :: b in deferred.blocks && b.root == r
    ensures Batch(st.imported, OrphanImports(deferred.blocks), deferred.st.imported)
    ensures forall x :: x in OrphanImports(deferred.blocks) ==> !x.canonical && x.slot == simSlot && Genuine(env, x)
  {
    var imports := OrphanImports(deferred.blocks);
    forall x | x in imports
      ensures x.root !in st.imported && x.root in deferred.st.imported && !x.canonical && x.slot == simSlot
      ensures Genuine(env, x)
    {
      var i :| 0 <= i < |imports| && imports[i] == x;
      assert deferred.blocks[i] in deferred.blocks;
    }
  }

  // ----- the loop

  lemma EmittedAppend(out: seq<PlanEntry>, e: PlanEntry)
    ensures Emitted(out + [e]) == Emitted(out) + e.imports
  {
    assert (out + [e])[..|out|] == out;
  }

  /** The parts of an iteration, named. */
  ghost predicate Iteration(env: Env, p: Planning, q: Planning, simSlot: uint64, from: uint64, to: uint64,
                            first: seq<BlockImport>, st1: PlanState, listed: Found, deferred: Found,
                            sources: seq<Source>, placed: Placing)
  {
    && (first, st1) == CanonicalImport(env, p.st, simSlot)
    && SlotOrphans(env, st1, simSlot, from) == Some(listed)
    && deferred == ImportPending(listed.st, SortBlocks(PendingAt(p.pending, simSlot)), [])
    && SourceImports(env, deferred.st, sources, simSlot, SaturatingAdd(simSlot, 1), from, to,
      Undeferred(p.pending, simSlot)) == Some(placed)
    && |q.out| == |p.out| + 1 && q.out[..|p.out|] == p.out
    && q.out[|p.out|].simSlot == simSlot
    && q.out[|p.out|].imports
      == first + OrphanImports(listed.blocks) + OrphanImports(deferred.blocks) + OrphanImports(placed.infos)
    && q.pending == placed.pending && q.st == placed.st
  }

  lemma IterationOf(env: Env, p: Planning, blocks: set<uint64>, simSlot: uint64, from: uint64, to: uint64, q: Planning)
    returns (first: seq<BlockImport>, st1: PlanState, listed: Found, deferred: Found, sources: seq<Source>,
      placed: Placing)
    requires PlanSlot(env, p, blocks, simSlot, from, to) == Some(q)
    ensures Iteration(env, p, q, simSlot, from, to, first, st1, listed, deferred, sources, placed)
  {
    var r := CanonicalImport(env, p.st, simSlot);
    first, st1 := r.0, r.1;
    listed := SlotOrphans(env, st1, simSlot, from).value;
    deferred := ImportPending(listed.st, SortBlocks(PendingAt(p.pending, simSlot)), []);
    var evalSlot := SaturatingAdd(simSlot, 1);
    sources := Sources(blocks, simSlot, env.mode, env.cap, evalSlot);
    placed := SourceImports(env, deferred.st, sources, simSlot, evalSlot, from, to,
      Undeferred(p.pending, simSlot)).value;
  }

  lemma EntryShape(env: Env, from: uint64, simSlot: uint64, e: PlanEntry, first: seq<BlockImport>,
                   rest: seq<BlockImport>)
    requires ValidEnv(env) && from <= simSlot && e.simSlot == simSlot && e.imports == first + rest
    requires first == if env.era(simSlot).Present? then [BlockImport(simSlot, env.era(simSlot).block.root, true)]
      else []
    requires forall x :: x in rest ==> !x.canonical && from <= x.slot <= simSlot && Genuine(env, x)
    ensures EntryOk(env, e, from, simSlot)
  {
    assert forall i :: |first| <= i < |e.imports| ==> e.imports[i] in rest;
  }

  lemma EmittedStep(env: Env, p: Planning, q: Planning, from: uint64, simSlot: uint64, first: seq<BlockImport>,
                    rest: seq<BlockImport>, st1: PlanState)
    requires DistinctImports(Emitted(p.out))
    requires forall x :: x in Emitted(p.out) ==> x.root in p.st.imported && Genuine(env, x) && x.slot < simSlot
    requires p.st.imported <= st1.imported && Batch(st1.imported, rest, q.st.imported)
    requires |first| <= 1 && forall x :: x in first ==> x.root in st1.imported
    requires forall x, y :: x in Emitted(p.out) && y in first ==> x.root != y.root
    requires |q.out| == |p.out| + 1 && q.out[..|p.out|] == p.out && q.out[|p.out|].imports == first + rest
    requires EntryOk(env, q.out[|p.out|], from, simSlot)
    ensures DistinctImports(Emitted(q.out))
    ensures forall x :: x in Emitted(q.out) ==> x.root in q.st.imported && Genuine(env, x) && x.slot < simSlot + 1
  {
    assert q.out == p.out + [q.out[|p.out|]];
    EmittedAppend(p.out, q.out[|p.out|]);
    var before := Emitted(p.out);
    assert Emitted(q.out) == before + first + rest;
    DistinctJoin(before, first);
    forall x, y | x in before + first && y in rest
      ensures x.root != y.root
    {
    }
    DistinctJoin(before + first, rest);
    forall x | x in Emitted(q.out)
      ensures x.root in q.st.imported && Genuine(env, x) && x.slot < simSlot + 1
    {
      assert x in before || x in q.out[|p.out|].imports;
      assert x in before || x in first || x in rest;
    }
  }

  lemma DistinctJoin(a: seq<BlockImport>, b: seq<BlockImport>)
    requires DistinctImports(a) && DistinctImports(b)
    requires forall x, y :: x in a && y in b ==> x.root != y.root
    ensures DistinctImports(a + b)
  {
    forall i, j | 0 <= i < j < |a + b|
      ensures (a + b)[i].root != (a + b)[j].root
    {
      if i < |a| <= j {
        assert a[i] in a && b[j - |a|] in b;
      }
    }
  }

  lemma ScheduledStep(env: Env, p: Planning, q: Planning, from: uint64, to: uint64, simSlot: uint64, st: PlanState,
                      placed: Placing, d: seq<BlockImport>)
    requires |p.out| == simSlot - from && from <= simSlot
    requires forall r :: r in p.st.scheduled ==> ScheduledOk(env, p, from, simSlot, r)
    requires st.scheduled == p.st.scheduled
    requires Placed(env, st, Undeferred(p.pending, simSlot), placed, simSlot, from, to)
    requires q.pending == placed.pending && q.st == placed.st
    requires |q.out| == |p.out| + 1 && q.out[..|p.out|] == p.out && forall x :: x in d ==> x in q.out[|p.out|].imports
    requires forall b :: b in PendingAt(p.pending, simSlot) ==> BlockImport(simSlot, b.root, false) in d
    requires forall r :: env.archive(r).Some? ==> env.archive(r).value.root == r
    ensures forall r :: r in q.st.scheduled ==> ScheduledOk(env, q, from, simSlot + 1, r)
  {
    forall r | r in q.st.scheduled
      ensures ScheduledOk(env, q, from, simSlot + 1, r)
    {
      if r in p.st.scheduled {
        assert ScheduledOk(env, p, from, simSlot, r);
        var b := env.archive(r).value;
        if b in PendingAt(p.pending, b.slot) {
          if b.slot == simSlot {
            assert BlockImport(b.slot, r, false) in d;
          } else {
            assert b in PendingAt(Undeferred(p.pending, simSlot), b.slot);
          }
        } else {
          assert q.out[b.slot - from] == q.out[..|p.out|][b.slot - from];
        }
      }
    }
  }

  /** Orphans of an entry, all within [lo, hi]. */
  ghost predicate OrphanPart(env: Env, imports: seq<BlockImport>, lo: int, hi: int) {
    forall x :: x in imports ==> !x.canonical && lo <= x.slot <= hi && Genuine(env, x)
  }

  lemma ListedPart(env: Env, st1: PlanState, pending: map<uint64, seq<Block>>, simSlot: uint64, from: uint64,
                   to: uint64, listed: Found)
    requires ValidEnv(env) && from <= simSlot < to && StateOk(env, st1) && PendingOk(env, st1, pending, simSlot, to)
    requires SlotOrphans(env, st1, simSlot, from) == Some(listed)
    ensures StateOk(env, listed.st) && st1.visible <= listed.st.visible && listed.st.scheduled == st1.scheduled
    ensures PendingOk(env, listed.st, pending, simSlot, to)
    ensures Batch(st1.imported, OrphanImports(listed.blocks), listed.st.imported)
    ensures OrphanPart(env, OrphanImports(listed.blocks), from, simSlot)
  {
    SlotOrphansShape(env, st1, simSlot, from, listed);
    StillWaiting(env, st1, listed, pending, from, to, simSlot);
    OrphanBatch(env, st1, listed.st, listed.blocks, from, simSlot);
  }

  lemma DeferredPart(env: Env, st: PlanState, pending: map<uint64, seq<Block>>, simSlot: uint64, from: uint64,
                     to: uint64, deferred: Found)
    requires ValidEnv(env) && from <= simSlot < to && StateOk(env, st) && PendingOk(env, st, pending, simSlot, to)
    requires deferred == ImportPending(st, SortBlocks(PendingAt(pending, simSlot)), [])
    ensures StateOk(env, deferred.st) && st.visible <= deferred.st.visible && deferred.st.scheduled == st.scheduled
    ensures PendingOk(env, deferred.st, Undeferred(pending, simSlot), simSlot + 1, to)
    ensures Batch(st.imported, OrphanImports(deferred.blocks), deferred.st.imported)
    ensures OrphanPart(env, OrphanImports(deferred.blocks), from, simSlot)
    ensures forall b :: b in PendingAt(pending, simSlot) ==>
      BlockImport(simSlot, b.root, false) in OrphanImports(deferred.blocks)
  {
    DeferredStep(env, st, pending, to, simSlot, deferred);
    DeferredMembers(PendingAt(pending, simSlot), simSlot);
    RestWaits(env, st, pending, to, simSlot, deferred.st);
  }

  lemma PlacedPart(env: Env, st: PlanState, sources: seq<Source>, pending: map<uint64, seq<Block>>, simSlot: uint64,
                   from: uint64, to: uint64, placed: Placing)
    requires ValidEnv(env) && from <= simSlot < to && StateOk(env, st) && PendingOk(env, st, pending, simSlot + 1, to)
    requires SourceImports(env, st, sources, simSlot, SaturatingAdd(simSlot, 1), from, to, pending) == Some(placed)
    ensures Placed(env, st, pending, placed, simSlot, from, to)
    ensures Batch(st.imported, OrphanImports(placed.infos), placed.st.imported)
    ensures OrphanPart(env, OrphanImports(placed.infos), from, simSlot)
  {
    SourceImportsShape(env, st, sources, simSlot, SaturatingAdd(simSlot, 1), from, to, pending, placed);
    OrphanBatch(env, st, placed.st, placed.infos, from, simSlot);
  }

  /** What an iteration adds after the canonical block. */
  lemma IterationRest(env: Env, pending: map<uint64, seq<Block>>, simSlot: uint64, from: uint64, to: uint64,
                      first: seq<BlockImport>, st1: PlanState, listed: Found, deferred: Found, sources: seq<Source>,
                      placed: Placing)
    returns (rest: seq<BlockImport>)
    requires ValidEnv(env) && from <= simSlot < to && StateOk(env, st1) && PendingOk(env, st1, pending, simSlot, to)
    requires SlotOrphans(env, st1, simSlot, from) == Some(listed)
    requires deferred == ImportPending(listed.st, SortBlocks(PendingAt(pending, simSlot)), [])
    requires SourceImports(env, deferred.st, sources, simSlot, SaturatingAdd(simSlot, 1), from, to,
      Undeferred(pending, simSlot)) == Some(placed)
    ensures first + OrphanImports(listed.blocks) + OrphanImports(deferred.blocks) + OrphanImports(placed.infos)
      == first + rest
    ensures st1.visible <= placed.st.visible && deferred.st.scheduled == st1.scheduled
    ensures Batch(st1.imported, rest, placed.st.imported)
    ensures OrphanPart(env, rest, from, simSlot)
    ensures Placed(env, deferred.st, Undeferred(pending, simSlot), placed, simSlot, from, to)
    ensures forall b :: b in PendingAt(pending, simSlot) ==> BlockImport(simSlot, b.root, false) in rest
  {
    ListedPart(env, st1, pending, simSlot, from, to, listed);
    DeferredPart(env, listed.st, pending, simSlot, from, to, deferred);
    PlacedPart(env, deferred.st, sources, Undeferred(pending, simSlot), simSlot, from, to, placed);
    rest := JoinRest(env, first, st1.imported, OrphanImports(listed.blocks), listed.st.imported,
      OrphanImports(deferred.blocks), deferred.st.imported,
                     OrphanImports(placed.infos), placed.st.imported, from, simSlot);
  }

  lemma JoinRest(env: Env, first: seq<BlockImport>, a: set<Root>, l: seq<BlockImport>, b: set<Root>,
                 d: seq<BlockImport>, c: set<Root>, n: seq<BlockImport>, e: set<Root>, from: int, simSlot: int)
    returns (rest: seq<BlockImport>)
    requires Batch(a, l, b) && Batch(b, d, c) && Batch(c, n, e) && from <= simSlot
    requires OrphanPart(env, l, from, simSlot) && OrphanPart(env, d, from, simSlot) && OrphanPart(env, n, from, simSlot)
    ensures first + l + d + n == first + rest && Batch(a, rest, e)
    ensures OrphanPart(env, rest, from, simSlot)
    ensures forall x :: x in d ==> x in rest
  {
    rest := l + d + n;
    BatchJoin(a, l, b, d, c);
    BatchJoin(a, l + d, c, n, e);
    assert first + l + d + n == first + rest;
  }

  /** One iteration keeps the invariant. */
  lemma PlanSlotKeeps(env: Env, p: Planning, blocks: set<uint64>, simSlot: uint64, from: uint64, to: uint64,
                      q: Planning)
    requires ValidEnv(env) && Running(env, p, from, to, simSlot) && simSlot < to
    requires PlanSlot(env, p, blocks, simSlot, from, to) == Some(q)
    ensures Running(env, q, from, to, simSlot + 1)
  {
    var first, st1, listed, deferred, sources, placed := IterationOf(env, p, blocks, simSlot, from, to, q);
    CanonicalStep(env, p, from, to, simSlot, first, st1);
    var rest := IterationRest(env, p.pending, simSlot, from, to, first, st1, listed, deferred, sources, placed);
    StepTogether(env, p, q, simSlot, from, to, first, st1, rest, deferred.st, placed);
  }

  lemma StepTogether(env: Env, p: Planning, q: Planning, simSlot: uint64, from: uint64, to: uint64,
                     first: seq<BlockImport>, st1: PlanState, rest: seq<BlockImport>, st: PlanState, placed: Placing)
    requires ValidEnv(env) && Running(env, p, from, to, simSlot) && simSlot < to
    requires p.st.imported <= st1.imported && p.st.visible <= st1.visible <= placed.st.visible
    requires st.scheduled == p.st.scheduled
    requires first == if env.era(simSlot).Present? then [BlockImport(simSlot, env.era(simSlot).block.root, true)]
      else []
    requires forall x :: x in first ==> x.root in st1.imported
    requires forall x, y :: x in Emitted(p.out) && y in first ==> x.root != y.root
    requires |q.out| == |p.out| + 1 && q.out[..|p.out|] == p.out && q.out[|p.out|].simSlot == simSlot
    requires q.out[|p.out|].imports == first + rest
    requires q.pending == placed.pending && q.st == placed.st
    requires Batch(st1.imported, rest, placed.st.imported) && OrphanPart(env, rest, from, simSlot)
    requires Placed(env, st, Undeferred(p.pending, simSlot), placed, simSlot, from, to)
    requires forall b :: b in PendingAt(p.pending, simSlot) ==> BlockImport(simSlot, b.root, false) in rest
    ensures Running(env, q, from, to, simSlot + 1)
  {
    hide Emitted, EntryOk, ScheduledOk, Genuine, Batch, DistinctImports;
    EntryShape(env, from, simSlot, q.out[|p.out|], first, rest);
    EmittedStep(env, p, q, from, simSlot, first, rest, st1);
    ScheduledStep(env, p, q, from, to, simSlot, st, placed, rest);
    EntriesStep(env, p, q, from, simSlot);
  }

  lemma EntriesStep(env: Env, p: Planning, q: Planning, from: uint64, simSlot: uint64)
    requires from <= simSlot && |p.out| == simSlot - from && |q.out| == |p.out| + 1 && q.out[..|p.out|] == p.out
    requires forall k :: 0 <= k < |p.out| ==> EntryOk(env, p.out[k], from, from + k)
    requires EntryOk(env, q.out[|p.out|], from, simSlot)
    ensures forall k :: 0 <= k < |q.out| ==> EntryOk(env, q.out[k], from, from + k)
  {
    forall k | 0 <= k < |q.out|
      ensures EntryOk(env, q.out[k], from, from + k)
    {
      if k < |p.out| {
        assert q.out[k] == q.out[..|p.out|][k];
        assert EntryOk(env, p.out[k], from, from + k);
      }
    }
  }

  /** The next iteration of a run, and the rest of the run from there. */
  lemma NextSlot(env: Env, p: Planning, blocks: set<uint64>, simSlot: uint64, from: uint64, to: uint64, q: Planning)
    returns (r: Planning)
    requires simSlot < to && PlanSlots(env, p, blocks, simSlot, from, to) == Some(q)
    ensures PlanSlot(env, p, blocks, simSlot, from, to) == Some(r)
    ensures PlanSlots(env, r, blocks, simSlot + 1, from, to) == Some(q)
  {
    r := PlanSlot(env, p, blocks, simSlot, from, to).value;
  }

  lemma RunningWithin(env: Env, p: Planning, from: uint64, to: uint64, simSlot: int)
    requires Running(env, p, from, to, simSlot)
    ensures from <= simSlot <= to
  {
  }

  lemma {:induction false} PlanSlotsKeep(env: Env, p: Planning, blocks: set<uint64>, simSlot: uint64, from: uint64,
                                         to: uint64, q: Planning)
    requires ValidEnv(env) && Running(env, p, from, to, simSlot)
    requires PlanSlots(env, p, blocks, simSlot, from, to) == Some(q)
    ensures Running(env, q, from, to, to)
    decreases (to as int) - (simSlot as int)
  {
    hide PlanSlot, Running;
    RunningWithin(env, p, from, to, simSlot);
    if simSlot < to {
      var r := NextSlot(env, p, blocks, simSlot, from, to, q);
      PlanSlotKeeps(env, p, blocks, simSlot, from, to, r);
      PlanSlotsKeep(env, r, blocks, simSlot + 1, from, to, q);
    }
  }

  lemma StartRuns(env: Env, from: uint64, to: uint64)
    requires ValidEnv(env) && from <= to
    ensures Running(env, PlanStart(env, from, to), from, to, from)
  {
    forall s: uint64 | from <= s < to && env.era(s).Present?
      ensures s in PlanVisible(env, from, to)
    {
      assert In(SlotRange(LoadStart(from), SaturatingAdd(to, env.cap)), s);
    }
  }

  /** Over a whole run no root is emitted twice, and every import is a real block no older than the plan and no newer
      than its entry. */
  lemma PlanEmitsOnce(env: Env, from: uint64, to: uint64, p: Planning)
    requires ValidEnv(env) && BuildPlan(env, from, to) == Some(p)
    ensures |p.out| == to - from
    ensures DistinctImports(Emitted(p.out))
    ensures forall k :: 0 <= k < |p.out| ==> EntryOk(env, p.out[k], from, from + k)
    ensures Running(env, p, from, to, to)
  {
    StartRuns(env, from, to);
    PlanSlotsKeep(env, PlanStart(env, from, to), PlanVisible(env, from, to), from, from, to, p);
  }

  lemma ImportIsEmitted(out: seq<PlanEntry>, k: nat, x: BlockImport)
    requires k < |out| && x in out[k].imports
    ensures x in Emitted(out)
  {
    if k < |out| - 1 {
      ImportIsEmitted(out[..|out| - 1], k, x);
    }
  }

  ghost predicate OnlyAt(imports: seq<BlockImport>, root: Root, i: int) {
    && 0 <= i < |imports| && imports[i].root == root
    && (forall j :: 0 <= j < |imports| && j != i ==> imports[j].root != root)
  }

  /** Each canonical block of [from, to) is the first import of its own slot's entry and is emitted nowhere else. */
  lemma CanonicalEmittedOnce(env: Env, from: uint64, to: uint64, p: Planning, s: uint64)
    requires ValidEnv(env) && BuildPlan(env, from, to) == Some(p)
    requires from <= s < to && env.era(s).Present?
    ensures s - from < |p.out| && p.out[s - from].imports != []
    ensures p.out[s - from].imports[0] == BlockImport(s, env.era(s).block.root, true)
    ensures exists i :: OnlyAt(Emitted(p.out), env.era(s).block.root, i)
  {
    PlanEmitsOnce(env, from, to, p);
    assert EntryOk(env, p.out[s - from], from, from + (s - from));
    var x := p.out[s - from].imports[0];
    ImportIsEmitted(p.out, s - from, x);
    var i :| 0 <= i < |Emitted(p.out)| && Emitted(p.out)[i] == x;
    assert OnlyAt(Emitted(p.out), env.era(s).block.root, i);
  }

  /** Nothing is lost: no block is left waiting, and every scheduled orphan was emitted in the entry of its own slot. */
  lemma NothingLost(env: Env, from: uint64, to: uint64, p: Planning)
    requires ValidEnv(env) && BuildPlan(env, from, to) == Some(p)
    ensures p.pending == map[] && |p.out| == to - from
    ensures forall r :: r in p.st.scheduled ==>
      && env.archive(r).Some?
      && from <= env.archive(r).value.slot < to
      && BlockImport(env.archive(r).value.slot, r, false) in p.out[env.archive(r).value.slot - from].imports
  {
    hide BuildPlan, EntryOk, DistinctImports, StateOk, Genuine, Orphan, ValidEnv;
    PlanEmitsOnce(env, from, to, p);
    assert p.pending.Keys == {};
    forall r | r in p.st.scheduled
      ensures env.archive(r).Some? && from <= env.archive(r).value.slot < to
        && BlockImport(env.archive(r).value.slot, r, false) in p.out[env.archive(r).value.slot - from].imports
    {
      assert ScheduledOk(env, p, from, to, r);
    }
  }
}
