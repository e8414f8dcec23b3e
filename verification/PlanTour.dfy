/** The walks of a plan, entry after entry, over the era files, the archive and the orphan index alone. */
module PlanTour {
  import opened Core
  import opened Blocks
  import opened Sorting
  import opened AttPlan
  import opened PlanSpec
  import opened OrphanChains
  import opened PlanSteps
  import opened WarmCache
  import opened CacheExact
  import opened SourceAgreement
  import opened ListedOrphans

  // ----- the lists that are looked at, and the roots that votes name

  /** The list of slot `t` is looked at before entry `simSlot` of a plan from `from` on. */
  ghost predicate Browsed(env: Env, from: uint64, simSlot: int, t: uint64) {
    || from <= t < simSlot
    || (env.mode == GreedyLookahead && exists e: uint64 :: from <= e < simSlot && SourceSlot(env, e, t))
  }

  /** A list looked at before entry `simSlot` names the root, and its block sits at another slot. */
  ghost predicate Misplaced(env: Env, from: uint64, simSlot: int, r: Root) {
    exists t :: Browsed(env, from, simSlot, t) && WronglyListed(env, t, r)
  }

  ghost predicate WronglyListed(env: Env, t: uint64, r: Root) {
    r in ListedAt(env.preload, t) && Elsewhere(env, t, r)
  }

  /** The orphans listed at a slot that no list before has misplaced. */
  ghost function Listed(env: Env, from: uint64, simSlot: uint64): set<Root> {
    set r | r in ListedAt(env.preload, simSlot) && OrphanAt(env, simSlot, r) && !Misplaced(env, from, simSlot, r)
  }

  /** A list names the root wrongly, before the list of source `s` is looked at in entry `simSlot`. */
  ghost predicate MisplacedBefore(env: Env, from: uint64, simSlot: uint64, s: uint64, r: Root) {
    || Misplaced(env, from, simSlot, r)
    || WronglyListed(env, simSlot, r)
    || (exists t: uint64 :: SourceSlot(env, simSlot, t) && t < s && WronglyListed(env, t, r))
  }

  /** A block at source `s` of entry `simSlot`: the canonical one, or an orphan that is listed there. */
  ghost predicate ShowsAt(env: Env, from: uint64, simSlot: uint64, s: uint64, b: Block) {
    || env.era(s) == Present(b)
    || (env.archive(b.root) == Some(b) && b.root in ListedAt(env.preload, s) && OrphanAt(env, s, b.root)
        && !MisplacedBefore(env, from, simSlot, s, b.root))
  }

  ghost predicate NamedAt(env: Env, from: uint64, simSlot: uint64, s: uint64, r: Root) {
    exists b, att :: ShowsAt(env, from, simSlot, s, b) && att in b.attestations && att.slot <= simSlot + 1
      && Names(att, r)
  }

  /** In greedy mode: a vote for at most the next slot, in a block at a source of the entry, names the root. */
  ghost predicate VotedFor(env: Env, from: uint64, simSlot: uint64, r: Root) {
    env.mode == GreedyLookahead && exists s :: SourceSlot(env, simSlot, s) && NamedAt(env, from, simSlot, s, r)
  }

  ghost function VotedRoots(env: Env, from: uint64, simSlot: uint64): set<Root> {
    set r: Root | 0 <= r < ROOTS && VotedFor(env, from, simSlot, r)
  }

  // ----- the tour

  /** The roots of the blocks imported so far, of those that walks went over, and of those at which one was cut. */
  datatype Tour = Tour(known: set<Root>, passed: set<Root>, cut: set<Root>)

  ghost function RootsOf(blocks: seq<Block>): set<Root> {
    set b | b in blocks :: b.root
  }

  /** The walk from a root in entry `simSlot`: up to 16 orphans no newer than the next slot, until something known. */
  ghost function Path(env: Env, t: Tour, simSlot: uint64, r: Root): seq<Block> {
    Ancestry(env, t.known, r, SaturatingAdd(simSlot, 1), MAX_ORPHAN_WALK)
  }

  /** Walks over the root's block, and lists that name it wrongly, spare it a walk. */
  ghost predicate Spared(env: Env, from: uint64, t: Tour, simSlot: uint64, r: Root) {
    r in t.passed || Misplaced(env, from, simSlot + 1, r)
  }

  ghost function CutAt(path: seq<Block>): set<Root> {
    if |path| == MAX_ORPHAN_WALK then {path[|path| - 1].root} else {}
  }

  /** One walk: its blocks from `from` up to the slot are imported. */
  ghost function Visit(env: Env, from: uint64, t: Tour, simSlot: uint64, r: Root): Tour {
    if Spared(env, from, t, simSlot, r) then t
    else
      var path := Path(env, t, simSlot, r);
      Tour(t.known + (set b | b in path && from <= b.slot <= simSlot :: b.root), t.passed + RootsOf(path),
           t.cut + CutAt(path))
  }

  ghost function VisitAll(env: Env, from: uint64, t: Tour, simSlot: uint64, roots: seq<Root>): Tour
    decreases |roots|
  {
    if roots == [] then t else VisitAll(env, from, Visit(env, from, t, simSlot, roots[0]), simSlot, roots[1..])
  }

  /** None of the walks meets a slot that cannot be read. */
  ghost predicate Clear(env: Env, from: uint64, t: Tour, simSlot: uint64, roots: seq<Root>)
    decreases |roots|
  {
    roots == [] ||
      ((Spared(env, from, t, simSlot, roots[0]) || Legible(env, Path(env, t, simSlot, roots[0])))
        && Clear(env, from, Visit(env, from, t, simSlot, roots[0]), simSlot, roots[1..]))
  }

  /** The blocks that walks went over one slot early. */
  ghost function Due(env: Env, t: Tour, simSlot: uint64): set<Root> {
    set r | r in t.passed && OrphanAt(env, simSlot, r)
  }

  /** Before the walks of an entry: its listed orphans and the blocks due are imported. */
  ghost function Entered(env: Env, from: uint64, t: Tour, simSlot: uint64): Tour {
    t.(known := t.known + Listed(env, from, simSlot) + Due(env, t, simSlot))
  }

  ghost function Toured(env: Env, from: uint64, t: Tour, simSlot: uint64): Tour {
    VisitAll(env, from, Entered(env, from, t, simSlot), simSlot, SortedRoots(VotedRoots(env, from, simSlot)))
  }

  /** The tour before entry `simSlot`. */
  ghost function TourAt(env: Env, from: uint64, simSlot: uint64): Tour
    requires from <= simSlot
    decreases simSlot - from
  {
    if simSlot == from then Tour(env.checkpoints, {}, {})
    else Toured(env, from, TourAt(env, from, simSlot - 1), simSlot - 1)
  }

  /** The walks of one entry are clear. */
  ghost predicate EntryClear(env: Env, from: uint64, simSlot: uint64)
    requires from <= simSlot
  {
    Clear(env, from, Entered(env, from, TourAt(env, from, simSlot), simSlot), simSlot,
          SortedRoots(VotedRoots(env, from, simSlot)))
  }

  // ----- what every tour keeps

  /** The block of the root lies on the walk from a root voted for in an entry before `hi`. */
  ghost predicate OnWalk(env: Env, from: uint64, hi: int, r: Root) {
    exists e: uint64, q :: from <= e < hi && VotedFor(env, from, e, q) && OnWalkFrom(env, e, q, r)
  }

  ghost predicate OnWalkFrom(env: Env, e: uint64, q: Root, r: Root) {
    exists b :: b in Ancestry(env, env.checkpoints, q, SaturatingAdd(e, 1), MAX_ORPHAN_WALK) && b.root == r
  }

  ghost predicate ListedBefore(env: Env, from: uint64, hi: int, r: Root) {
    exists s: uint64 :: from <= s < hi && r in Listed(env, from, s)
  }

  ghost predicate OrphanRoot(env: Env, r: Root) {
    env.archive(r).Some? && Orphan(env, env.archive(r).value)
  }

  /** Imported, or no walk takes it. */
  ghost predicate Settled(env: Env, t: Tour, r: Root) {
    Shut(env, r) || r in t.known || r in t.passed
  }

  ghost predicate KnownOk(env: Env, from: uint64, hi: int, t: Tour, r: Root) {
    || r in env.checkpoints
    || (OrphanRoot(env, r) && from <= env.archive(r).value.slot < hi
        && (r in t.passed || ListedBefore(env, from, hi, r)))
  }

  ghost predicate PassedOk(env: Env, from: uint64, hi: int, t: Tour, r: Root) {
    && OrphanRoot(env, r) && r !in env.checkpoints && env.archive(r).value.slot <= hi && OnWalk(env, from, hi, r)
    && (from <= env.archive(r).value.slot < hi ==> r in t.known)
    && (r in t.cut || Settled(env, t, env.archive(r).value.parentRoot))
  }

  /** Before entry `hi`: what is known was listed or walked over, and of what was walked over, all that has come up is
      known, and the parents are settled unless the walk was cut there. */
  ghost predicate TourOk(env: Env, from: uint64, hi: int, t: Tour) {
    && env.checkpoints <= t.known && t.cut <= t.passed
    && (forall r :: r in t.known ==> KnownOk(env, from, hi, t, r))
    && (forall r :: r in t.passed ==> PassedOk(env, from, hi, t, r))
  }

  ghost predicate TourGrows(t: Tour, t': Tour) {
    t.known <= t'.known && t.passed <= t'.passed && t.cut <= t'.cut
  }

  lemma OnWalkLater(env: Env, from: uint64, hi: int, later: int, r: Root)
    requires OnWalk(env, from, hi, r) && hi <= later
    ensures OnWalk(env, from, later, r)
  {
  }

  lemma ListedLater(env: Env, from: uint64, hi: int, later: int, r: Root)
    requires ListedBefore(env, from, hi, r) && hi <= later
    ensures ListedBefore(env, from, later, r)
  {
  }

  lemma StartOk(env: Env, from: uint64)
    ensures TourOk(env, from, from, Tour(env.checkpoints, {}, {}))
  {
  }

  /** Known blocks stay so. */
  lemma KnownStays(env: Env, from: uint64, hi: int, t: Tour, later: int, t': Tour, r: Root)
    requires KnownOk(env, from, hi, t, r) && hi <= later && t.passed <= t'.passed
    ensures KnownOk(env, from, later, t', r)
  {
    if ListedBefore(env, from, hi, r) {
      ListedLater(env, from, hi, later, r);
    }
  }

  lemma PassedStays(env: Env, from: uint64, hi: int, t: Tour, later: int, t': Tour, r: Root)
    requires PassedOk(env, from, hi, t, r) && hi <= later && TourGrows(t, t')
    requires forall x :: x in t.passed && OrphanRoot(env, x) && hi <= env.archive(x).value.slot < later ==>
      x in t'.known
    requires r in t.passed
    ensures PassedOk(env, from, later, t', r)
  {
    OnWalkLater(env, from, hi, later, r);
  }

  lemma EnteredOk(env: Env, from: uint64, simSlot: uint64, t: Tour)
    requires TourOk(env, from, simSlot, t) && from <= simSlot
    ensures TourOk(env, from, simSlot + 1, Entered(env, from, t, simSlot))
    ensures TourGrows(t, Entered(env, from, t, simSlot))
  {
    hide KnownOk, PassedOk;
    var t' := Entered(env, from, t, simSlot);
    forall r | r in t'.known
      ensures KnownOk(env, from, simSlot + 1, t', r)
    {
      if r in t.known {
        KnownStays(env, from, simSlot, t, simSlot + 1, t', r);
      } else {
        EnteredKnown(env, from, simSlot, t, r);
      }
    }
    forall r | r in t'.passed
      ensures PassedOk(env, from, simSlot + 1, t', r)
    {
      PassedStays(env, from, simSlot, t, simSlot + 1, t', r);
    }
  }

  lemma EnteredKnown(env: Env, from: uint64, simSlot: uint64, t: Tour, r: Root)
    requires from <= simSlot && (r in Listed(env, from, simSlot) || r in Due(env, t, simSlot))
    ensures KnownOk(env, from, simSlot + 1, Entered(env, from, t, simSlot), r)
  {
  }

  // ----- one walk

  /** Consecutive blocks of a walk are child and parent, and a walk that is not cut ends where none goes on. */
  lemma {:induction false} AncestryLinked(env: Env, known: set<Root>, current: Root, evalSlot: uint64, fuel: nat)
    requires World(env)
    ensures var a := Ancestry(env, known, current, evalSlot, fuel);
      && |a| <= fuel && LinkedUp(a)
      && (a != [] && |a| < fuel ==> Halts(env, known, a[|a| - 1].parentRoot, evalSlot))
    decreases fuel
  {
    hide Halts, World;
    AncestryStep(env, known, current, evalSlot, fuel);
    if fuel > 0 && !Halts(env, known, current, evalSlot) {
      var parent := env.archive(current).value.parentRoot;
      AncestryLinked(env, known, parent, evalSlot, fuel - 1);
      AncestryStep(env, known, parent, evalSlot, fuel - 1);
      assert Ancestry(env, known, parent, evalSlot, fuel - 1) != [] ==>
        Ancestry(env, known, parent, evalSlot, fuel - 1)[0].root == parent by {
        AncestryShape(env, known, parent, evalSlot, fuel - 1);
        RootsAreTheirBlocks(env);
      }
    }
  }

  /** The more is known, the sooner a walk ends. */
  lemma {:induction false} AncestryPrefix(env: Env, known: set<Root>, more: set<Root>, current: Root, evalSlot: uint64,
                                          fuel: nat)
    requires known <= more
    ensures Ancestry(env, more, current, evalSlot, fuel) <= Ancestry(env, known, current, evalSlot, fuel)
    decreases fuel
  {
    if fuel > 0 && !Halts(env, more, current, evalSlot) {
      AncestryPrefix(env, known, more, env.archive(current).value.parentRoot, evalSlot, fuel - 1);
    }
  }

  /** What the blocks of a walk are. */
  lemma PathShape(env: Env, from: uint64, t: Tour, simSlot: uint64, q: Root, b: Block)
    requires World(env) && simSlot < MAX_UINT64 && env.checkpoints <= t.known && b in Path(env, t, simSlot, q)
    ensures env.archive(b.root) == Some(b) && Orphan(env, b) && b.slot <= simSlot + 1
    ensures b.root !in t.known && OnWalkFrom(env, simSlot, q, b.root)
  {
    AncestryShape(env, t.known, q, SaturatingAdd(simSlot, 1), MAX_ORPHAN_WALK);
    AncestryPrefix(env, env.checkpoints, t.known, q, SaturatingAdd(simSlot, 1), MAX_ORPHAN_WALK);
  }

  /** The parent of a block of a walk is the next block, or settled, or the walk was cut there. */
  lemma PathParents(env: Env, from: uint64, t: Tour, simSlot: uint64, q: Root, b: Block)
    requires World(env) && simSlot < MAX_UINT64 && b in Path(env, t, simSlot, q)
    ensures b.root in CutAt(Path(env, t, simSlot, q)) || Shut(env, b.parentRoot) || b.parentRoot in t.known
      || b.parentRoot in RootsOf(Path(env, t, simSlot, q))
  {
    var path := Path(env, t, simSlot, q);
    AncestryShape(env, t.known, q, SaturatingAdd(simSlot, 1), MAX_ORPHAN_WALK);
    AncestryLinked(env, t.known, q, SaturatingAdd(simSlot, 1), MAX_ORPHAN_WALK);
    hide Ancestry, World, Halts;
    var i :| 0 <= i < |path| && path[i] == b;
    if i < |path| - 1 {
      assert path[i].parentRoot == path[i + 1].root && path[i + 1] in path;
    } else if |path| < MAX_ORPHAN_WALK {
      NoneAbove(env, t.known, b, simSlot);
    }
  }

  lemma NoneAbove(env: Env, known: set<Root>, b: Block, simSlot: uint64)
    requires World(env) && simSlot < MAX_UINT64 && Orphan(env, b) && b.slot <= simSlot + 1
    requires Halts(env, known, b.parentRoot, SaturatingAdd(simSlot, 1))
    ensures Shut(env, b.parentRoot) || b.parentRoot in known
  {
    if env.archive(b.parentRoot).Some? {
      WorldIsValid(env);
      ParentOlder(env, b);
    }
  }

  /** A walk keeps the tour. */
  lemma VisitOk(env: Env, from: uint64, simSlot: uint64, t: Tour, q: Root)
    requires World(env) && simSlot < MAX_UINT64 && from <= simSlot && TourOk(env, from, simSlot + 1, t)
    requires VotedFor(env, from, simSlot, q)
    ensures TourOk(env, from, simSlot + 1, Visit(env, from, t, simSlot, q))
    ensures TourGrows(t, Visit(env, from, t, simSlot, q))
  {
    hide World, KnownOk, PassedOk, Path, Spared, VotedFor;
    var t' := Visit(env, from, t, simSlot, q);
    if !Spared(env, from, t, simSlot, q) {
      var path := Path(env, t, simSlot, q);
      forall r | r in t'.passed
        ensures PassedOk(env, from, simSlot + 1, t', r)
      {
        if r in t.passed {
          PassedStays(env, from, simSlot + 1, t, simSlot + 1, t', r);
        } else {
          var b :| b in path && b.root == r;
          NewlyPassed(env, from, simSlot, t, q, b);
        }
      }
      forall r | r in t'.known
        ensures KnownOk(env, from, simSlot + 1, t', r)
      {
        if r in t.known {
          KnownStays(env, from, simSlot + 1, t, simSlot + 1, t', r);
        } else {
          var b :| b in path && b.root == r && from <= b.slot <= simSlot;
          PathShape(env, from, t, simSlot, q, b);
          assert r in t'.passed;
          PassedIsKnownOk(env, from, simSlot, t', b);
        }
      }
      assert CutAt(path) <= RootsOf(path);
    }
  }

  lemma PassedIsKnownOk(env: Env, from: uint64, simSlot: uint64, t: Tour, b: Block)
    requires env.archive(b.root) == Some(b) && Orphan(env, b) && from <= b.slot <= simSlot && b.root in t.passed
    ensures KnownOk(env, from, simSlot + 1, t, b.root)
  {
  }

  lemma NewlyPassed(env: Env, from: uint64, simSlot: uint64, t: Tour, q: Root, b: Block)
    requires World(env) && simSlot < MAX_UINT64 && from <= simSlot && env.checkpoints <= t.known
    requires VotedFor(env, from, simSlot, q) && !Spared(env, from, t, simSlot, q) && b in Path(env, t, simSlot, q)
    ensures PassedOk(env, from, simSlot + 1, Visit(env, from, t, simSlot, q), b.root)
  {
    PathShape(env, from, t, simSlot, q, b);
    PathParents(env, from, t, simSlot, q, b);
    hide Path, VotedFor, OnWalkFrom;
    assert OnWalk(env, from, simSlot + 1, b.root);
  }

  // ----- whole tours

  lemma {:induction false} VisitAllOk(env: Env, from: uint64, simSlot: uint64, t: Tour, roots: seq<Root>)
    requires World(env) && simSlot < MAX_UINT64 && from <= simSlot && TourOk(env, from, simSlot + 1, t)
    requires forall q :: q in roots ==> VotedFor(env, from, simSlot, q)
    ensures TourOk(env, from, simSlot + 1, VisitAll(env, from, t, simSlot, roots))
    ensures TourGrows(t, VisitAll(env, from, t, simSlot, roots))
    ensures forall q :: q in roots ==>
      Misplaced(env, from, simSlot + 1, q) || VisitedIn(env, simSlot, VisitAll(env, from, t, simSlot, roots), q)
    decreases |roots|
  {
    hide World, TourOk, VotedFor, Visit, Misplaced;
    if roots != [] {
      assert roots[0] in roots;
      VisitOk(env, from, simSlot, t, roots[0]);
      VisitReaches(env, from, simSlot, t, roots[0]);
      var t1 := Visit(env, from, t, simSlot, roots[0]);
      VisitAllOk(env, from, simSlot, t1, roots[1..]);
      assert forall q :: q in roots <==> q == roots[0] || q in roots[1..];
    }
  }

  /** The root was walked from or over, or no walk of the entry takes it. */
  ghost predicate VisitedIn(env: Env, simSlot: uint64, t: Tour, r: Root) {
    r in t.passed || Halts(env, t.known, r, SaturatingAdd(simSlot, 1))
  }

  lemma VisitReaches(env: Env, from: uint64, simSlot: uint64, t: Tour, q: Root)
    requires World(env)
    ensures Misplaced(env, from, simSlot + 1, q) || VisitedIn(env, simSlot, Visit(env, from, t, simSlot, q), q)
  {
    hide Misplaced;
    var path := Path(env, t, simSlot, q);
    AncestryStep(env, t.known, q, SaturatingAdd(simSlot, 1), MAX_ORPHAN_WALK);
    if !Spared(env, from, t, simSlot, q) && path != [] {
      assert path[0] in path;
      RootsAreTheirBlocks(env);
    }
  }

  lemma VotedRootsAre(env: Env, from: uint64, simSlot: uint64)
    ensures forall q :: q in SortedRoots(VotedRoots(env, from, simSlot)) <==> VotedFor(env, from, simSlot, q)
  {
  }

  lemma {:induction false} TourAtOk(env: Env, from: uint64, simSlot: uint64)
    requires World(env) && from <= simSlot
    ensures TourOk(env, from, simSlot, TourAt(env, from, simSlot))
    decreases simSlot - from
  {
    hide World, TourOk, Entered, VotedFor, VotedRoots;
    if simSlot == from {
      StartOk(env, from);
    } else {
      var before: uint64 := simSlot - 1;
      TourAtOk(env, from, before);
      EnteredOk(env, from, before, TourAt(env, from, before));
      VotedRootsAre(env, from, before);
      VisitAllOk(env, from, before, Entered(env, from, TourAt(env, from, before), before),
                 SortedRoots(VotedRoots(env, from, before)));
    }
  }

  /** One entry only adds. */
  lemma EntryGrows(env: Env, from: uint64, simSlot: uint64)
    requires World(env) && from <= simSlot < MAX_UINT64
    ensures TourGrows(TourAt(env, from, simSlot), TourAt(env, from, simSlot + 1))
    ensures TourGrows(Entered(env, from, TourAt(env, from, simSlot), simSlot), TourAt(env, from, simSlot + 1))
    ensures forall q :: VotedFor(env, from, simSlot, q) ==>
      Misplaced(env, from, simSlot + 1, q) || VisitedIn(env, simSlot, TourAt(env, from, simSlot + 1), q)
  {
    hide World, TourOk, Entered, VotedFor, VotedRoots, Misplaced, VisitedIn;
    var t := TourAt(env, from, simSlot);
    TourAtOk(env, from, simSlot);
    EnteredOk(env, from, simSlot, t);
    VotedRootsAre(env, from, simSlot);
    VisitAllOk(env, from, simSlot, Entered(env, from, t, simSlot), SortedRoots(VotedRoots(env, from, simSlot)));
    assert TourAt(env, from, simSlot + 1) == Toured(env, from, t, simSlot);
  }

  /** Every block on the way up from a root voted for, up to 16 orphans, is known or due after the entry, unless a newer
      one on the way was listed or a walk was cut there. */
  lemma {:induction false} WayUpSettled(env: Env, from: uint64, simSlot: uint64, q: Root, i: nat)
    requires World(env) && from <= simSlot < MAX_UINT64 && VotedFor(env, from, simSlot, q)
    requires !Misplaced(env, from, simSlot + 1, q)
    requires i < |WayUp(env, simSlot, q)|
    requires forall j :: 0 <= j < i ==> !Breaks(env, from, simSlot, WayUp(env, simSlot, q)[j].root)
    ensures var t := TourAt(env, from, simSlot + 1); var r := WayUp(env, simSlot, q)[i].root;
      r in t.known || r in t.passed
    decreases i
  {
    hide World, TourOk, VotedFor, Misplaced, TourAt, WayUp, Orphan, Breaks;
    var a, t := WayUp(env, simSlot, q), TourAt(env, from, simSlot + 1);
    WayUpShape(env, simSlot, q, i);
    if i == 0 {
      EntryGrows(env, from, simSlot);
      VisitedSettled(env, simSlot, t, a[0]);
    } else {
      WayUpSettled(env, from, simSlot, q, i - 1);
      TourAtOk(env, from, simSlot + 1);
      WayUpShape(env, simSlot, q, i - 1);
      assert !Breaks(env, from, simSlot, a[i - 1].root);
      Unbroken(env, from, simSlot, a[i - 1].root);
      ParentSettled(env, from, simSlot, t, a[i - 1]);
      OrphanNotShut(env, a[i]);
    }
  }

  lemma WayUpShape(env: Env, simSlot: uint64, q: Root, i: nat)
    requires World(env) && simSlot < MAX_UINT64 && i < |WayUp(env, simSlot, q)|
    ensures var a := WayUp(env, simSlot, q);
      && env.archive(a[i].root) == Some(a[i]) && Orphan(env, a[i]) && a[i].root !in env.checkpoints
      && a[i].slot <= simSlot + 1
      && (if i == 0 then a[i].root == q else a[i - 1].parentRoot == a[i].root)
  {
    AncestryShape(env, env.checkpoints, q, SaturatingAdd(simSlot, 1), MAX_ORPHAN_WALK);
    AncestryLinked(env, env.checkpoints, q, SaturatingAdd(simSlot, 1), MAX_ORPHAN_WALK);
    RootsAreTheirBlocks(env);
    hide Ancestry, World;
    assert WayUp(env, simSlot, q)[i] in WayUp(env, simSlot, q);
  }

  lemma VisitedSettled(env: Env, simSlot: uint64, t: Tour, b: Block)
    requires VisitedIn(env, simSlot, t, b.root) && simSlot < MAX_UINT64
    requires env.archive(b.root) == Some(b) && Orphan(env, b) && b.slot <= simSlot + 1
    ensures b.root in t.known || b.root in t.passed
  {
  }

  lemma Unbroken(env: Env, from: uint64, simSlot: uint64, r: Root)
    requires from <= simSlot < MAX_UINT64 && !Breaks(env, from, simSlot, r)
    ensures !ListedBefore(env, from, simSlot + 1, r) && r !in TourAt(env, from, simSlot + 1).cut
  {
  }

  lemma OrphanNotShut(env: Env, b: Block)
    requires env.archive(b.root) == Some(b) && Orphan(env, b)
    ensures !Shut(env, b.root)
  {
  }

  ghost function WayUp(env: Env, simSlot: uint64, q: Root): seq<Block> {
    Ancestry(env, env.checkpoints, q, SaturatingAdd(simSlot, 1), MAX_ORPHAN_WALK)
  }

  /** The way up may break off at this block: it was listed, or a walk was cut there. */
  ghost predicate Breaks(env: Env, from: uint64, simSlot: uint64, r: Root)
    requires from <= simSlot < MAX_UINT64
  {
    ListedBefore(env, from, simSlot + 1, r) || r in TourAt(env, from, simSlot + 1).cut
  }

  lemma ParentSettled(env: Env, from: uint64, simSlot: uint64, t: Tour, b: Block)
    requires TourOk(env, from, simSlot + 1, t) && env.archive(b.root) == Some(b) && b.root !in env.checkpoints
    requires (b.root in t.known || b.root in t.passed) && b.root !in t.cut
    requires !ListedBefore(env, from, simSlot + 1, b.root)
    ensures Settled(env, t, b.parentRoot)
  {
    if b.root in t.known {
      assert KnownOk(env, from, simSlot + 1, t, b.root);
    }
    assert PassedOk(env, from, simSlot + 1, t, b.root);
  }
}
