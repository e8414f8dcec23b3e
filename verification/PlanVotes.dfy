/** What the votes at an entry's sources bring into a plan, and where its orphans come from. */
module PlanVotes {
  import opened Core
  import opened Blocks
  import opened PlanSpec
  import opened OrphanChains
  import opened CacheExact
  import opened ListedOrphans
  import opened PlanTour
  import opened PlanFollows
  import opened PlanMeaning

  /** The orphan is imported by an entry no later than `hi`. */
  ghost predicate EmittedBy(out: seq<PlanEntry>, from: uint64, hi: int, b: Block) {
    exists k :: 0 <= k < |out| && from + k <= hi && BlockImport(b.slot, b.root, false) in out[k].imports
  }

  lemma EmittedLater(out: seq<PlanEntry>, from: uint64, hi: int, later: int, b: Block)
    requires EmittedBy(out, from, hi, b) && hi <= later
    ensures EmittedBy(out, from, later, b)
  {
  }

  lemma ImportOf(infos: seq<Block>, b: Block)
    requires b in infos
    ensures BlockImport(b.slot, b.root, false) in OrphanImports(infos)
  {
    var i :| 0 <= i < |infos| && infos[i] == b;
    assert OrphanImports(infos)[i] == BlockImport(b.slot, b.root, false);
  }

  lemma BlockOfImport(infos: seq<Block>, x: BlockImport) returns (b: Block)
    requires x in OrphanImports(infos)
    ensures b in infos && x == BlockImport(b.slot, b.root, false)
  {
    var i :| 0 <= i < |OrphanImports(infos)| && OrphanImports(infos)[i] == x;
    b := infos[i];
  }

  /** An entry imports exactly the orphans that it makes known. */
  lemma EntryMakesKnown(env: Env, from: uint64, simSlot: uint64, e: PlanEntry, b: Block)
    requires World(env) && from <= simSlot < MAX_UINT64 && EntryMeans(env, from, simSlot, e) && IsBlock(env, b)
    requires b.root in TourAt(env, from, simSlot + 1).known && b.root !in TourAt(env, from, simSlot).known
    ensures BlockImport(b.slot, b.root, false) in e.imports
  {
    hide World, BySlotAndRoot, TourAt, OrphanImports, Due, Listed;
    var t := TourAt(env, from, simSlot);
    var listed, due, walked :| EntryParts(env, from, simSlot, listed, due, walked, e.imports);
    if b.root in Due(env, t, simSlot) {
      ImportOf(due, b);
    } else if b.root in Listed(env, from, simSlot) {
      ListedNotPassed(env, from, simSlot, t, b);
      ImportOf(listed, b);
    } else {
      ImportOf(walked, b);
    }
  }

  lemma ListedNotPassed(env: Env, from: uint64, simSlot: uint64, t: Tour, b: Block)
    requires b.root in Listed(env, from, simSlot) && b.root !in Due(env, t, simSlot)
    ensures b.root !in t.passed
  {
  }

  lemma DueIsNew(env: Env, from: uint64, simSlot: uint64, t: Tour)
    requires TourOk(env, from, simSlot, t)
    ensures forall r :: r in Due(env, t, simSlot) ==> r !in t.known
  {
    hide OnWalk, ListedBefore;
    forall r | r in t.known
      ensures r !in Due(env, t, simSlot)
    {
      assert KnownOk(env, from, simSlot, t, r);
      assert r in t.passed ==> PassedOk(env, from, simSlot, t, r);
    }
  }

  lemma ImportedIsKnown(env: Env, from: uint64, simSlot: uint64, e: PlanEntry, x: BlockImport)
    requires World(env) && from <= simSlot < MAX_UINT64 && EntryMeans(env, from, simSlot, e)
    requires x in e.imports && !x.canonical
    ensures x.root in TourAt(env, from, simSlot + 1).known && x.root !in TourAt(env, from, simSlot).known
  {
    hide World, BySlotAndRoot, TourAt, OrphanImports, Due, Listed, TourOk;
    EntryGrows(env, from, simSlot);
    var t := TourAt(env, from, simSlot);
    TourAtOk(env, from, simSlot);
    DueIsNew(env, from, simSlot, t);
    var listed, due, walked :| EntryParts(env, from, simSlot, listed, due, walked, e.imports);
    if x in OrphanImports(listed) {
      var b := BlockOfImport(listed, x);
    } else if x in OrphanImports(due) {
      var b := BlockOfImport(due, x);
    } else {
      assert x in OrphanImports(walked);
      var b := BlockOfImport(walked, x);
    }
  }

  /** What is known before an entry, checkpoints aside, earlier entries have imported. */
  lemma {:induction false} KnownIsEmitted(env: Env, from: uint64, out: seq<PlanEntry>, simSlot: uint64, b: Block)
    requires World(env) && from + |out| <= MAX_UINT64 && EntriesMean(env, from, out, 0)
    requires from <= simSlot <= from + |out| && IsBlock(env, b)
    requires b.root in TourAt(env, from, simSlot).known && b.root !in env.checkpoints
    ensures EmittedBy(out, from, simSlot - 1, b)
    decreases simSlot - from
  {
    hide World, EntryMeans;
    if simSlot > from {
      var before: uint64 := simSlot - 1;
      if b.root in TourAt(env, from, before).known {
        hide TourAt;
        KnownIsEmitted(env, from, out, before, b);
        EmittedLater(out, from, before - 1, simSlot - 1, b);
      } else {
        hide TourAt;
        assert EntryMeans(env, from, before, out[before - from]);
        EntryMakesKnown(env, from, before, out[before - from], b);
      }
    }
  }

  /** What is known or due after an entry, checkpoints aside, is imported by that entry or by that of its own slot. */
  lemma SettledIsEmitted(env: Env, from: uint64, out: seq<PlanEntry>, simSlot: uint64, b: Block)
    requires World(env) && from + |out| <= MAX_UINT64 && EntriesMean(env, from, out, 0)
    requires from <= simSlot < from + |out| && IsBlock(env, b) && from <= b.slot < from + |out|
    requires var t := TourAt(env, from, simSlot + 1); b.root in t.known || b.root in t.passed
    requires b.root !in env.checkpoints
    ensures EmittedBy(out, from, if b.slot <= simSlot then simSlot else b.slot, b)
  {
    hide World, EntriesMean, TourAt, EmittedBy, TourOk;
    var t := TourAt(env, from, simSlot + 1);
    TourAtOk(env, from, simSlot + 1);
    if b.root in t.known {
      KnownIsEmitted(env, from, out, simSlot + 1, b);
      EmittedLater(out, from, simSlot, if b.slot <= simSlot then simSlot else b.slot, b);
    } else {
      PassedIsDue(env, from, simSlot, t, b);
      DueIsKnown(env, from, simSlot + 1, b);
      KnownIsEmitted(env, from, out, simSlot + 2, b);
    }
  }

  lemma PassedIsDue(env: Env, from: uint64, simSlot: uint64, t: Tour, b: Block)
    requires simSlot < MAX_UINT64 && TourOk(env, from, simSlot + 1, t) && b.root in t.passed && b.root !in t.known
    requires IsBlock(env, b) && from <= b.slot
    ensures b.slot == simSlot + 1 && b.root in Due(env, t, simSlot + 1)
  {
    assert PassedOk(env, from, simSlot + 1, t, b.root);
    hide OnWalk, Misplaced;
  }

  lemma DueIsKnown(env: Env, from: uint64, simSlot: uint64, b: Block)
    requires World(env) && from <= simSlot < MAX_UINT64 && b.root in Due(env, TourAt(env, from, simSlot), simSlot)
    ensures b.root in TourAt(env, from, simSlot + 1).known
  {
    hide TourAt, World, Due, Listed;
    EntryGrows(env, from, simSlot);
  }

  lemma PlanHasMeaning(env: Env, from: uint64, to: uint64, p: Planning)
    requires World(env) && BuildPlan(env, from, to) == Some(p)
    ensures from <= to && |p.out| == to - from && EntriesMean(env, from, p.out, 0)
  {
    hide World, BuildPlan, EntryMeans, PlanAskable, WalkBlocked;
    PlanIsMeant(env, from, to);
    AskedOrdered(env, from, to);
  }

  lemma EntryOf(env: Env, from: uint64, out: seq<PlanEntry>, k: nat)
    requires from + |out| <= MAX_UINT64 && EntriesMean(env, from, out, 0) && k < |out|
    ensures EntryMeans(env, from, from + k, out[k])
  {
  }

  /** A root that votes at an existing source name, unless a list names it at a wrong slot: the orphans on the way up
      from it, as far as they belong to the plan, are all imported, at the latest with the entry or at their own slot.
      The way may break off only at a listed orphan, and where a walk was cut. */
  lemma VotedAreEmitted(env: Env, from: uint64, to: uint64, p: Planning, simSlot: uint64, q: Root, i: nat)
    requires World(env) && BuildPlan(env, from, to) == Some(p) && from <= simSlot < to
    requires VotedFor(env, from, simSlot, q) && !Misplaced(env, from, simSlot + 1, q)
    requires i < |WayUp(env, simSlot, q)| && from <= WayUp(env, simSlot, q)[i].slot < to
    requires forall j :: 0 <= j < i ==> !Breaks(env, from, simSlot, WayUp(env, simSlot, q)[j].root)
    ensures var b := WayUp(env, simSlot, q)[i];
      EmittedBy(p.out, from, if b.slot <= simSlot then simSlot else b.slot, b)
  {
    hide World, BuildPlan, VotedFor, Misplaced, EntriesMean, TourAt, Breaks;
    var b := WayUp(env, simSlot, q)[i];
    PlanHasMeaning(env, from, to, p);
    WayUpSettled(env, from, simSlot, q, i);
    WayUpBlock(env, simSlot, q, b);
    hide WayUp;
    SettledIsEmitted(env, from, p.out, simSlot, b);
  }

  lemma WayUpBlock(env: Env, simSlot: uint64, q: Root, b: Block)
    requires World(env) && b in WayUp(env, simSlot, q)
    ensures IsBlock(env, b) && Orphan(env, b) && b.root !in env.checkpoints
  {
    AncestryShape(env, env.checkpoints, q, SaturatingAdd(simSlot, 1), MAX_ORPHAN_WALK);
  }

  /** Without an orphan index and without a cut walk, that is the whole way up. */
  lemma AllVotedAreEmitted(env: Env, from: uint64, to: uint64, p: Planning, simSlot: uint64, q: Root, b: Block)
    requires World(env) && BuildPlan(env, from, to) == Some(p) && from <= simSlot < to
    requires env.preload == map[] && p.st.truncations == 0
    requires VotedFor(env, from, simSlot, q) && b in WayUp(env, simSlot, q) && from <= b.slot < to
    ensures EmittedBy(p.out, from, if b.slot <= simSlot then simSlot else b.slot, b)
  {
    hide World, BuildPlan, VotedFor, WayUp, TourAt, EmittedBy;
    CutsCounted(env, from, to, p);
    NothingCut(env, from, to, simSlot);
    assert forall r :: !Breaks(env, from, simSlot, r);
    hide Breaks;
    var i :| 0 <= i < |WayUp(env, simSlot, q)| && WayUp(env, simSlot, q)[i] == b;
    VotedAreEmitted(env, from, to, p, simSlot, q, i);
  }

  /** Cuts stay on record. */
  lemma NothingCut(env: Env, from: uint64, to: uint64, simSlot: uint64)
    requires World(env) && from <= simSlot < to && |TourAt(env, from, to).cut| == 0
    ensures TourAt(env, from, simSlot + 1).cut == {}
  {
    hide World, TourAt;
    CutsStay(env, from, simSlot + 1, to);
  }

  lemma {:induction false} CutsStay(env: Env, from: uint64, simSlot: uint64, to: uint64)
    requires World(env) && from <= simSlot <= to
    ensures TourAt(env, from, simSlot).cut <= TourAt(env, from, to).cut
    decreases (to as int) - (simSlot as int)
  {
    hide World, TourAt;
    if simSlot < to {
      EntryGrows(env, from, simSlot);
      CutsStay(env, from, simSlot + 1, to);
    }
  }

  /** Conversely, an orphan that an entry imports was listed at its slot, or lies on the way up from a root that votes
      at a source of this entry or an earlier one name. */
  lemma EmittedWasVotedFor(env: Env, from: uint64, to: uint64, p: Planning, k: nat, x: BlockImport)
    requires World(env) && BuildPlan(env, from, to) == Some(p) && k < |p.out|
    requires x in p.out[k].imports && !x.canonical
    ensures from + k < to
    ensures ListedBefore(env, from, from + k + 1, x.root) || OnWalk(env, from, from + k + 1, x.root)
  {
    hide World, BuildPlan, EntryMeans, TourAt, OnWalk, ListedBefore, EntriesMean, TourOk;
    PlanHasMeaning(env, from, to, p);
    var simSlot: uint64 := from + k;
    EntryOf(env, from, p.out, k);
    ImportedIsKnown(env, from, simSlot, p.out[k], x);
    TourAtOk(env, from, simSlot);
    TourAtOk(env, from, simSlot + 1);
    KnownComesFrom(env, from, simSlot, TourAt(env, from, simSlot), TourAt(env, from, simSlot + 1), x.root);
  }

  lemma KnownComesFrom(env: Env, from: uint64, simSlot: uint64, t: Tour, t': Tour, r: Root)
    requires TourOk(env, from, simSlot, t) && TourOk(env, from, simSlot + 1, t')
    requires r in t'.known && r !in t.known
    ensures ListedBefore(env, from, simSlot + 1, r) || OnWalk(env, from, simSlot + 1, r)
  {
    hide ListedBefore, OnWalk;
    assert KnownOk(env, from, simSlot + 1, t', r);
    if r in t'.passed {
      assert PassedOk(env, from, simSlot + 1, t', r);
    }
  }
}
