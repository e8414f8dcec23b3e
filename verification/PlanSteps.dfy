/** What each part of one BuildPlan iteration takes, imports and defers. */
module PlanSteps {
  import opened Core
  import opened Blocks
  import opened Sorting
  import opened AttPlan
  import opened PlanSpec
  import opened OrphanChains

  /** Only canonical slots are shown and only absent blocks are marked missing. */
  ghost predicate StateOk(env: Env, st: PlanState) {
    && (forall s :: s in st.visible ==> env.era(s).Present?)
    && (forall r :: r in st.missing ==> env.archive(r).None?)
  }

  /** Imports do not matter for that. */
  lemma StateStays(env: Env, st: PlanState, st': PlanState)
    requires StateOk(env, st) && st' == st.(imported := st'.imported)
    ensures StateOk(env, st')
  {
  }

  /** A lookup may change what is shown, missing, ignored, found or listed, but neither imports nor schedules. */
  ghost predicate Steady(env: Env, st: PlanState, st': PlanState) {
    && StateOk(env, st')
    && st'.imported == st.imported && st'.scheduled == st.scheduled
    && st.visible <= st'.visible
    && st.ignored <= st'.ignored
  }

  // ----- orphans listed at a slot

  ghost predicate Gathered(env: Env, slot: uint64, seen: set<Root>, infos: seq<Block>) {
    && (forall b :: b in infos ==> Orphan(env, b) && b.slot == slot && b.root in seen)
    && DistinctRoots(infos)
  }

  lemma {:induction false} GatherShape(env: Env, st: PlanState, slot: uint64, roots: seq<Root>, seen: set<Root>,
                                       infos: seq<Block>, f: Found)
    requires ValidEnv(env) && StateOk(env, st) && Gathered(env, slot, seen, infos)
    requires GatherOrphans(env, st, slot, roots, seen, infos) == Some(f)
    ensures Steady(env, st, f.st) && f.st.orphans == st.orphans && f.st.truncations == st.truncations
    ensures exists all :: Gathered(env, slot, all, f.blocks)
    ensures forall b :: b in f.blocks ==> b in infos || (b.root in roots && b.root !in st.ignored)
    decreases |roots|
  {
    if roots != [] {
      var root, rest := roots[0], roots[1..];
      if root == ZERO_ROOT || root in seen || root in st.missing || root in st.ignored {
        GatherShape(env, st, slot, rest, seen, infos, f);
      } else if env.archive(root).None? {
        GatherShape(env, st.(missing := st.missing + {root}), slot, rest, seen + {root}, infos, f);
      } else {
        var info, st1 := env.archive(root).value, st.(fetched := st.fetched + {root});
        if info.slot != slot {
          GatherShape(env, st1.(ignored := st1.ignored + {root}), slot, rest, seen + {root}, infos, f);
        } else {
          var v := Judge(env, st1, info).value;
          if v.canonical {
            GatherShape(env, v.st.(ignored := v.st.ignored + {root}), slot, rest, seen + {root}, infos, f);
          } else {
            GatherShape(env, v.st, slot, rest, seen + {root}, infos + [info], f);
          }
        }
      }
    }
  }

  /** The root names a block of another slot. */
  ghost predicate Elsewhere(env: Env, slot: uint64, r: Root) {
    r != ZERO_ROOT && env.archive(r).Some? && env.archive(r).value.slot != slot
  }

  /** The search of a slot's list takes every orphan of the slot that was not ignored before, ignores
      none, and ignores every block of another slot. */
  lemma {:induction false} GatherTakes(env: Env, st: PlanState, slot: uint64, roots: seq<Root>, seen: set<Root>,
                                       infos: seq<Block>, f: Found)
    requires ValidEnv(env) && StateOk(env, st) && GatherOrphans(env, st, slot, roots, seen, infos) == Some(f)
    requires forall r :: r in seen && OrphanAt(env, slot, r) ==> env.archive(r).value in infos
    requires forall r :: r in seen && Elsewhere(env, slot, r) ==> r in st.ignored
    ensures forall b :: b in infos ==> b in f.blocks
    ensures forall r :: r in roots && OrphanAt(env, slot, r) && r !in st.ignored ==> env.archive(r).value in f.blocks
    ensures forall r :: r in f.st.ignored ==> r in st.ignored || (r in roots && !OrphanAt(env, slot, r))
    ensures forall r :: r in roots && Elsewhere(env, slot, r) ==> r in f.st.ignored
    ensures st.ignored <= f.st.ignored
    decreases |roots|
  {
    if roots != [] {
      var root, rest := roots[0], roots[1..];
      assert forall r :: r in roots <==> r == root || r in rest;
      if root == ZERO_ROOT || root in seen || root in st.missing || root in st.ignored {
        GatherTakes(env, st, slot, rest, seen, infos, f);
      } else if env.archive(root).None? {
        GatherTakes(env, st.(missing := st.missing + {root}), slot, rest, seen + {root}, infos, f);
      } else {
        var info, st1 := env.archive(root).value, st.(fetched := st.fetched + {root});
        if info.slot != slot {
          GatherTakes(env, st1.(ignored := st1.ignored + {root}), slot, rest, seen + {root}, infos, f);
        } else {
          var v := Judge(env, st1, info).value;
          if v.canonical {
            GatherTakes(env, v.st.(ignored := v.st.ignored + {root}), slot, rest, seen + {root}, infos, f);
          } else {
            assert info in infos + [info];
            GatherTakes(env, v.st, slot, rest, seen + {root}, infos + [info], f);
          }
        }
      }
    }
  }

  /** A readable slot's list can always be searched. */
  lemma {:induction false} GatherReads(env: Env, st: PlanState, slot: uint64, roots: seq<Root>, seen: set<Root>,
                                       infos: seq<Block>)
    requires !env.era(slot).Unreadable?
    ensures GatherOrphans(env, st, slot, roots, seen, infos).Some?
    decreases |roots|
  {
    if roots != [] {
      var root, rest := roots[0], roots[1..];
      if root == ZERO_ROOT || root in seen || root in st.missing || root in st.ignored {
        GatherReads(env, st, slot, rest, seen, infos);
      } else if env.archive(root).None? {
        GatherReads(env, st.(missing := st.missing + {root}), slot, rest, seen + {root}, infos);
      } else {
        var info, st1 := env.archive(root).value, st.(fetched := st.fetched + {root});
        if info.slot != slot {
          GatherReads(env, st1.(ignored := st1.ignored + {root}), slot, rest, seen + {root}, infos);
        } else {
          var v := Judge(env, st1, info).value;
          if v.canonical {
            GatherReads(env, v.st.(ignored := v.st.ignored + {root}), slot, rest, seen + {root}, infos);
          } else {
            GatherReads(env, v.st, slot, rest, seen + {root}, infos + [info]);
          }
        }
      }
    }
  }

  lemma InfosShape(env: Env, st: PlanState, slot: uint64, f: Found)
    requires ValidEnv(env) && StateOk(env, st) && OrphanInfos(env, st, slot) == Some(f)
    ensures Steady(env, st, f.st) && f.st.orphans == st.orphans && f.st.truncations == st.truncations
    ensures DistinctRoots(f.blocks)
    ensures forall b :: b in f.blocks ==>
      Orphan(env, b) && b.slot == slot && b.root in OrphansAt(st, slot) && b.root !in st.ignored
  {
    var g := GatherOrphans(env, st, slot, OrphansAt(st, slot), {}, []).value;
    GatherShape(env, st, slot, OrphansAt(st, slot), {}, [], g);
    SortKeepsMembers(g.blocks);
    SortKeepsDistinct(g.blocks);
  }

  /** The blocks one step adds to the imports: distinct orphans, none imported or scheduled before. */
  ghost predicate NewImports(env: Env, st: PlanState, st': PlanState, blocks: seq<Block>, lo: int, hi: int) {
    && DistinctRoots(blocks)
    && (forall b :: b in blocks ==>
      Orphan(env, b) && lo <= b.slot <= hi && b.root !in st.imported && b.root !in st.scheduled)
    && (forall r :: r in st'.imported <==> r in st.imported || exists b :: b in blocks && b.root == r)
  }

  lemma {:induction false} ImportShape(env: Env, st0: PlanState, st: PlanState, infos: seq<Block>, minSlot: uint64,
                                       out: seq<Block>, f: Found, slot: uint64)
    requires ValidEnv(env) && StateOk(env, st) && NewImports(env, st0, st, out, minSlot, slot)
    requires st.scheduled == st0.scheduled && st0.visible <= st.visible && st0.ignored <= st.ignored
    requires forall b :: b in infos ==> Orphan(env, b) && b.slot == slot
    requires f == ImportOrphans(env, st, infos, minSlot, out)
    ensures StateOk(env, f.st) && NewImports(env, st0, f.st, f.blocks, minSlot, slot)
    ensures f.st.scheduled == st0.scheduled && st0.visible <= f.st.visible && st0.ignored <= f.st.ignored
    ensures f.st.orphans == st.orphans && f.st.truncations == st.truncations
    decreases |infos|
  {
    if infos != [] {
      var info, rest := infos[0], infos[1..];
      if info.slot < minSlot {
        ImportShape(env, st0, st.(ignored := st.ignored + {info.root}), rest, minSlot, out, f, slot);
      } else if RootKnown(env, st, info.root) || info.root in st.scheduled {
        ImportShape(env, st0, st, rest, minSlot, out, f, slot);
      } else {
        AddImport(env, st0, st, out, info, minSlot, slot);
        ImportShape(env, st0, st.(imported := st.imported + {info.root}), rest, minSlot, out + [info], f, slot);
      }
    }
  }

  lemma AddImport(env: Env, st0: PlanState, st: PlanState, out: seq<Block>, info: Block, lo: int, hi: int)
    requires NewImports(env, st0, st, out, lo, hi)
    requires Orphan(env, info) && lo <= info.slot <= hi && info.root !in st.imported && info.root !in st0.scheduled
    ensures NewImports(env, st0, st.(imported := st.imported + {info.root}), out + [info], lo, hi)
  {
    var longer := out + [info];
    assert longer[|out|] == info;
    forall r | r in st.imported + {info.root}
      ensures r in st0.imported || exists b :: b in longer && b.root == r
    {
      if r != info.root && r !in st0.imported {
        var b :| b in out && b.root == r;
        assert b in longer;
      }
    }
  }

  lemma SlotOrphansShape(env: Env, st: PlanState, slot: uint64, minSlot: uint64, f: Found)
    requires ValidEnv(env) && StateOk(env, st) && SlotOrphans(env, st, slot, minSlot) == Some(f)
    ensures StateOk(env, f.st) && NewImports(env, st, f.st, f.blocks, minSlot, slot)
    ensures f.st.scheduled == st.scheduled && st.visible <= f.st.visible && st.ignored <= f.st.ignored
    ensures f.st.orphans == st.orphans && f.st.truncations == st.truncations
    ensures forall b :: b in f.blocks ==> b.slot == slot && b.root in OrphansAt(st, slot) && b.root !in st.ignored
  {
    var g := OrphanInfos(env, st, slot).value;
    InfosShape(env, st, slot, g);
    ImportShape(env, st, g.st, g.blocks, minSlot, [], f, slot);
    ImportedAreListed(env, g.st, g.blocks, minSlot, [], f);
  }

  lemma {:induction false} ImportedAreListed(env: Env, st: PlanState, infos: seq<Block>, minSlot: uint64,
                                             out: seq<Block>, f: Found)
    requires f == ImportOrphans(env, st, infos, minSlot, out)
    ensures forall b :: b in f.blocks ==> b in infos || b in out
    decreases |infos|
  {
    if infos != [] {
      var info, rest := infos[0], infos[1..];
      if info.slot < minSlot {
        ImportedAreListed(env, st.(ignored := st.ignored + {info.root}), rest, minSlot, out, f);
      } else if RootKnown(env, st, info.root) || info.root in st.scheduled {
        ImportedAreListed(env, st, rest, minSlot, out, f);
      } else {
        ImportedAreListed(env, st.(imported := st.imported + {info.root}), rest, minSlot, out + [info], f);
      }
    }
  }

  // ----- roots voted for by the sources

  lemma {:induction false} AttestationsExact(infos: seq<Block>)
    ensures forall att :: att in Attestations(infos) <==> exists b :: b in infos && att in b.attestations
  {
    if infos != [] {
      AttestationsExact(infos[1..]);
      assert forall b :: b in infos <==> b == infos[0] || b in infos[1..];
    }
  }

  lemma {:induction false} SourceRootsSteady(env: Env, st: PlanState, sources: seq<Source>, roots: set<Root>, rs: Roots)
    requires ValidEnv(env) && StateOk(env, st) && SourceRoots(env, st, sources, roots) == Some(rs)
    ensures Steady(env, st, rs.st) && rs.st.orphans == st.orphans && rs.st.truncations == st.truncations
    decreases |sources|
  {
    if sources != [] {
      var g := OrphanInfos(env, st, sources[0].slot).value;
      InfosShape(env, st, sources[0].slot, g);
      var f := SourceInfos(env, st, sources[0].slot).value;
      assert f.st == g.st;
      SourceRootsSteady(env, f.st, sources[1..],
        roots + FreshRoots(env, f.st, Attestations(f.blocks), sources[0].maxAttestationSlot), rs);
    }
  }

  // ----- deferred blocks

  /** Every deferred block waits under its own slot in [lo, to), scheduled and not yet imported. */
  ghost predicate PendingOk(env: Env, st: PlanState, pending: map<uint64, seq<Block>>, lo: int, to: int) {
    && (forall k :: k in pending ==> lo <= k < to && pending[k] != [] && DistinctRoots(pending[k]))
    && (forall k, b :: k in pending && b in pending[k] ==>
          b.slot == k && Orphan(env, b) && b.root in st.scheduled && b.root !in st.imported)
  }

  /** When none of the deferred blocks has been imported meanwhile, all of them are, in order. */
  lemma {:induction false} ImportPendingAll(st: PlanState, infos: seq<Block>, out: seq<Block>, f: Found)
    requires f == ImportPending(st, infos, out)
    requires DistinctRoots(infos) && forall b :: b in infos ==> b.root !in st.imported
    ensures f.blocks == out + infos
    ensures f.st == st.(imported := f.st.imported)
    ensures forall r :: r in f.st.imported <==> r in st.imported || exists b :: b in infos && b.root == r
    decreases |infos|
  {
    if infos != [] {
      var st1 := st.(imported := st.imported + {infos[0].root});
      ImportPendingAll(st1, infos[1..], out + [infos[0]], f);
      assert infos == [infos[0]] + infos[1..];
      assert out + [infos[0]] + infos[1..] == out + infos;
    }
  }

  // ----- placing resolved chains

  /** What the root loop of one iteration has done since `st0` and `pending0`. */
  ghost predicate Placed(env: Env, st0: PlanState, pending0: map<uint64, seq<Block>>, p: Placing, simSlot: int,
                         minSlot: int, to: int)
  {
    && StateOk(env, p.st)
    && NewImports(env, st0, p.st, p.infos, minSlot, simSlot)
    && st0.visible <= p.st.visible && st0.scheduled <= p.st.scheduled && st0.ignored <= p.st.ignored
    && PendingOk(env, p.st, p.pending, simSlot + 1, to)
    && (forall k, b :: b in PendingAt(pending0, k) ==> b in PendingAt(p.pending, k))
    && (forall r :: r in p.st.scheduled && r !in st0.scheduled ==>
          env.archive(r).Some? && env.archive(r).value in PendingAt(p.pending, env.archive(r).value.slot))
  }

  lemma DeferStep(env: Env, st: PlanState, pending: map<uint64, seq<Block>>, info: Block, lo: int, to: int)
    requires PendingOk(env, st, pending, lo, to) && lo <= info.slot < to
    requires Orphan(env, info) && info.root !in st.imported && info.root !in st.scheduled
    ensures PendingOk(env, st.(scheduled := st.scheduled + {info.root}),
      pending[info.slot := PendingAt(pending, info.slot) + [info]], lo, to)
  {
    var list := PendingAt(pending, info.slot);
    forall b | b in list
      ensures b.root != info.root
    {
    }
    assert DistinctRoots(list + [info]);
  }

  lemma PlacedIgnore(env: Env, st0: PlanState, pending0: map<uint64, seq<Block>>, p: Placing, r: Root, simSlot: int,
                     minSlot: int, to: int)
    requires Placed(env, st0, pending0, p, simSlot, minSlot, to)
    ensures Placed(env, st0, pending0, p.(st := p.st.(ignored := p.st.ignored + {r})), simSlot, minSlot, to)
  {
  }

  lemma PlacedImport(env: Env, st0: PlanState, pending0: map<uint64, seq<Block>>, p: Placing, info: Block,
                     simSlot: uint64, minSlot: uint64, to: uint64)
    requires ValidEnv(env) && Placed(env, st0, pending0, p, simSlot, minSlot, to) && Orphan(env, info)
    requires minSlot <= info.slot <= simSlot && info.root !in p.st.imported && info.root !in p.st.scheduled
    ensures Placed(env, st0, pending0,
      p.(st := p.st.(imported := p.st.imported + {info.root}), infos := p.infos + [info]), simSlot, minSlot, to)
  {
    AddImport(env, st0, p.st, p.infos, info, minSlot, simSlot);
  }

  lemma PlacedDefer(env: Env, st0: PlanState, pending0: map<uint64, seq<Block>>, p: Placing, info: Block,
                    simSlot: uint64, minSlot: uint64, to: uint64)
    requires ValidEnv(env) && Placed(env, st0, pending0, p, simSlot, minSlot, to) && Orphan(env, info)
    requires simSlot < info.slot < to && info.root !in p.st.imported && info.root !in p.st.scheduled
    ensures Placed(env, st0, pending0, p.(st := p.st.(scheduled := p.st.scheduled + {info.root}),
                                          pending := p.pending[info.slot := PendingAt(p.pending, info.slot) + [info]]),
                                            simSlot, minSlot, to)
  {
    DeferStep(env, p.st, p.pending, info, simSlot + 1, to);
  }

  lemma PlaceBlockStep(env: Env, st0: PlanState, pending0: map<uint64, seq<Block>>, p: Placing, info: Block,
                       simSlot: uint64, minSlot: uint64, to: uint64)
    requires ValidEnv(env) && Placed(env, st0, pending0, p, simSlot, minSlot, to) && simSlot < to
    requires Orphan(env, info)
    ensures Placed(env, st0, pending0, PlaceBlock(env, p, info, simSlot, minSlot, to), simSlot, minSlot, to)
    ensures PlaceBlock(env, p, info, simSlot, minSlot, to).st.truncations == p.st.truncations
  {
    hide Placed, Orphan, PendingAt;
    PlacedIgnore(env, st0, pending0, p, info.root, simSlot, minSlot, to);
    if info.slot < minSlot || RootKnown(env, p.st, info.root) || info.root in p.st.scheduled || info.slot >= to {
    } else if info.slot <= simSlot {
      PlacedImport(env, st0, pending0, p, info, simSlot, minSlot, to);
    } else {
      PlacedDefer(env, st0, pending0, p, info, simSlot, minSlot, to);
    }
  }

  lemma {:induction false} PlaceChainShape(env: Env, st0: PlanState, pending0: map<uint64, seq<Block>>, p: Placing,
                                           chain: seq<Block>, simSlot: uint64, minSlot: uint64, to: uint64)
    requires ValidEnv(env) && Placed(env, st0, pending0, p, simSlot, minSlot, to) && simSlot < to
    requires forall b :: b in chain ==> Orphan(env, b)
    ensures Placed(env, st0, pending0, PlaceChain(env, p, chain, simSlot, minSlot, to), simSlot, minSlot, to)
    ensures PlaceChain(env, p, chain, simSlot, minSlot, to).st.truncations == p.st.truncations
    decreases |chain|
  {
    if chain != [] {
      PlaceBlockStep(env, st0, pending0, p, chain[0], simSlot, minSlot, to);
      PlaceChainShape(env, st0, pending0, PlaceBlock(env, p, chain[0], simSlot, minSlot, to), chain[1..], simSlot,
        minSlot, to);
    }
  }

  lemma PlacedAfterWalk(env: Env, st0: PlanState, pending0: map<uint64, seq<Block>>, p: Placing, st': PlanState,
                        chain: seq<Block>, simSlot: int, minSlot: int, to: int)
    requires Placed(env, st0, pending0, p, simSlot, minSlot, to) && Grows(env, p.st, st', chain)
    ensures Placed(env, st0, pending0, p.(st := st'), simSlot, minSlot, to)
  {
  }

  lemma {:induction false} PlaceRootsShape(env: Env, st0: PlanState, pending0: map<uint64, seq<Block>>, p: Placing,
                                           roots: seq<Root>, simSlot: uint64, evalSlot: uint64, minSlot: uint64,
                                           to: uint64, q: Placing)
    requires ValidEnv(env) && Placed(env, st0, pending0, p, simSlot, minSlot, to) && simSlot < to
    requires PlaceRoots(env, p, roots, simSlot, evalSlot, minSlot, to) == Some(q)
    ensures Placed(env, st0, pending0, q, simSlot, minSlot, to) && q.st.truncations >= p.st.truncations
    decreases |roots|
  {
    if roots != [] {
      if !Fresh(env, p.st, roots[0]) {
        PlaceRootsShape(env, st0, pending0, p, roots[1..], simSlot, evalSlot, minSlot, to, q);
      } else {
        var f := ResolveChain(env, p.st, roots[0], evalSlot).value;
        ResolvedChain(env, p.st, roots[0], evalSlot, f);
        PlacedAfterWalk(env, st0, pending0, p, f.st, f.blocks, simSlot, minSlot, to);
        PlaceChainShape(env, st0, pending0, p.(st := f.st), f.blocks, simSlot, minSlot, to);
        PlaceRootsShape(env, st0, pending0, PlaceChain(env, p.(st := f.st), f.blocks, simSlot, minSlot, to), roots[1..],
                        simSlot, evalSlot, minSlot, to, q);
      }
    }
  }

  lemma SourceImportsShape(env: Env, st: PlanState, sources: seq<Source>, simSlot: uint64, evalSlot: uint64,
                           minSlot: uint64, to: uint64, pending: map<uint64, seq<Block>>, q: Placing)
    requires ValidEnv(env) && StateOk(env, st) && simSlot < to && PendingOk(env, st, pending, simSlot + 1, to)
    requires SourceImports(env, st, sources, simSlot, evalSlot, minSlot, to, pending) == Some(q)
    ensures Placed(env, st, pending, q, simSlot, minSlot, to) && q.st.truncations >= st.truncations
  {
    if env.mode == GreedyLookahead {
      var rs := SourceRoots(env, st, sources, {}).value;
      SourceRootsSteady(env, st, sources, {}, rs);
      var start := Placing([], pending, rs.st);
      PlacedStart(env, st, rs.st, pending, simSlot, minSlot, to);
      var p := PlaceRoots(env, start, SortedRoots(rs.roots), simSlot, evalSlot, minSlot, to).value;
      PlaceRootsShape(env, st, pending, start, SortedRoots(rs.roots), simSlot, evalSlot, minSlot, to, p);
      PlacedSorted(env, st, pending, p, simSlot, minSlot, to);
    } else {
      PlacedStart(env, st, st, pending, simSlot, minSlot, to);
    }
  }

  lemma PlacedStart(env: Env, st: PlanState, st': PlanState, pending: map<uint64, seq<Block>>, simSlot: int,
                    minSlot: int, to: int)
    requires Steady(env, st, st') && PendingOk(env, st, pending, simSlot + 1, to)
    ensures Placed(env, st, pending, Placing([], pending, st'), simSlot, minSlot, to)
  {
  }

  lemma PlacedSorted(env: Env, st: PlanState, pending: map<uint64, seq<Block>>, p: Placing, simSlot: int, minSlot: int,
                     to: int)
    requires Placed(env, st, pending, p, simSlot, minSlot, to)
    ensures Placed(env, st, pending, p.(infos := SortBlocks(p.infos)), simSlot, minSlot, to)
  {
    SortKeepsMembers(p.infos);
    SortKeepsDistinct(p.infos);
  }
}
