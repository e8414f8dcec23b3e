/** When the instruction of a slot imports no block before its parent. */
module SlotParents {
  import opened Core
  import opened Blocks
  import opened CanonicalIndex
  import opened Sorting
  import opened AttPlan
  import opened PlanSpec
  import opened OrphanChains
  import opened PlanSteps
  import opened PlanRuns
  import opened ParentsFirst
  import opened SlotRuns
  import opened CacheExact

  /** The three parts of an instruction's imports: its canonical block, the listed orphans, the orphans voted for. */
  datatype Parts = Parts(first: seq<BlockImport>, listed: seq<Block>, votes: Votes, voted: seq<Block>)

  ghost function SlotParts(env: Env, simSlot: uint64, warmupStart: uint64): Option<Parts>
    requires warmupStart < simSlot
  {
    var (first, st1) := CanonicalImport(env, SlotStart(env, simSlot, warmupStart), simSlot);
    match SlotOrphans(env, st1, simSlot, warmupStart + 1)
    case None => None
    case Some(listed) =>
      match SlotVotes(env, listed.st, simSlot)
      case None => None
      case Some(votes) =>
        match VoteImports(env, votes.st, votes.attestations, simSlot, warmupStart + 1)
        case None => None
        case Some(f) => Some(Parts(first, listed.blocks, votes, f.blocks))
  }

  lemma Assembled(env: Env, simSlot: uint64, warmupStart: uint64, r: SlotInstruction)
    requires BuildSlot(env, simSlot, warmupStart) == Some(r)
    ensures warmupStart < simSlot && SlotParts(env, simSlot, warmupStart).Some?
    ensures var p := SlotParts(env, simSlot, warmupStart).value;
      r.imports == p.first + OrphanImports(p.listed) + OrphanImports(p.voted)
  {
    hide SlotOrphans, SlotVotes, VoteImports, SlotStart, CanonicalImport;
  }

  /** A listed orphan waits for a parent that only the votes bring in. */
  ghost predicate ListedWaits(listed: seq<Block>, voted: seq<Block>) {
    exists x, y :: x in listed && y in voted && x.parentRoot == y.root
  }

  ghost predicate PartsOk(env: Env, p: Parts, simSlot: uint64, minSlot: uint64) {
    && p.first == (if env.era(simSlot).Present? then [BlockImport(simSlot, env.era(simSlot).block.root, true)] else [])
    && (forall b :: b in p.listed ==> Orphan(env, b) && b.slot == simSlot)
    && (forall b :: b in p.voted ==> Orphan(env, b) && minSlot <= b.slot <= simSlot)
    && SortedBlocks(p.voted)
  }

  lemma PartsShape(env: Env, simSlot: uint64, warmupStart: uint64, p: Parts)
    requires ValidEnv(env) && warmupStart < simSlot && SlotParts(env, simSlot, warmupStart) == Some(p)
    ensures PartsOk(env, p, simSlot, warmupStart + 1)
  {
    hide SlotStart, CanonicalImport, SlotOrphans, SlotVotes, VoteImports, StateOk, ValidEnv;
    var (first, st1) := CanonicalImport(env, SlotStart(env, simSlot, warmupStart), simSlot);
    FirstShown(env, simSlot, warmupStart, first, st1);
    var listed := SlotOrphans(env, st1, simSlot, warmupStart + 1).value;
    ListedShape(env, st1, simSlot, warmupStart + 1, listed);
    var f := VoteImports(env, p.votes.st, p.votes.attestations, simSlot, warmupStart + 1).value;
    VotedShape(env, p.votes.st, p.votes.attestations, simSlot, warmupStart + 1, f);
    VotedSorted(env, p.votes.st, p.votes.attestations, simSlot, warmupStart + 1, f);
  }

  lemma ListedShape(env: Env, st: PlanState, simSlot: uint64, minSlot: uint64, f: Found)
    requires ValidEnv(env) && StateOk(env, st) && SlotOrphans(env, st, simSlot, minSlot) == Some(f)
    ensures forall b :: b in f.blocks ==> Orphan(env, b) && b.slot == simSlot
  {
    SlotOrphansShape(env, st, simSlot, minSlot, f);
  }

  lemma VotedSorted(env: Env, st: PlanState, atts: seq<Attestation>, simSlot: uint64, minSlot: uint64, f: Found)
    requires VoteImports(env, st, atts, simSlot, minSlot) == Some(f)
    ensures SortedBlocks(f.blocks)
  {
  }

  /** Imports of orphans are genuine and stand for their blocks. */
  lemma ImportsOf(env: Env, infos: seq<Block>)
    requires ValidEnv(env) && forall b :: b in infos ==> Orphan(env, b)
    ensures AllGenuine(env, OrphanImports(infos))
    ensures forall i :: 0 <= i < |infos| ==>
      Genuine(env, OrphanImports(infos)[i]) && BlockOf(env, OrphanImports(infos)[i]) == infos[i]
  {
    var imports := OrphanImports(infos);
    forall i | 0 <= i < |infos|
      ensures Genuine(env, imports[i]) && BlockOf(env, imports[i]) == infos[i]
    {
      assert infos[i] in infos && env.archive(infos[i].root) == Some(infos[i]);
    }
    forall x | x in imports
      ensures Genuine(env, x)
    {
      var i :| 0 <= i < |imports| && imports[i] == x;
    }
  }

  /** A block at or before the slot of another is not its child, so the canonical block and the listed orphans lead. */
  lemma SameSlotLeads(env: Env, p: Parts, simSlot: uint64, minSlot: uint64)
    requires ValidEnv(env) && ParentsOlder(env) && PartsOk(env, p, simSlot, minSlot)
    ensures AllGenuine(env, p.first + OrphanImports(p.listed))
    ensures forall x :: x in p.first + OrphanImports(p.listed) ==> x.slot == simSlot
    ensures ParentsLead(env, p.first + OrphanImports(p.listed))
  {
    ImportsOf(env, p.listed);
    var all := p.first + OrphanImports(p.listed);
    forall x | x in all
      ensures Genuine(env, x) && x.slot == simSlot
    {
      if x in OrphanImports(p.listed) {
        var i :| 0 <= i < |p.listed| && OrphanImports(p.listed)[i] == x;
        assert p.listed[i] in p.listed;
      }
    }
    forall i, j | 0 <= i < |all| && 0 <= j < |all|
      ensures BlockOf(env, all[i]).parentRoot != all[j].root
    {
      NotTheParent(env, all[i], all[j]);
    }
  }

  lemma VotedLead(env: Env, p: Parts, simSlot: uint64, minSlot: uint64)
    requires ValidEnv(env) && ParentsOlder(env) && PartsOk(env, p, simSlot, minSlot)
    ensures AllGenuine(env, OrphanImports(p.voted))
    ensures forall i, j :: 0 <= i <= j < |p.voted| ==>
      BlockOf(env, OrphanImports(p.voted)[i]).parentRoot != OrphanImports(p.voted)[j].root
  {
    ImportsOf(env, p.voted);
    var voted := OrphanImports(p.voted);
    forall i, j | 0 <= i <= j < |p.voted|
      ensures BlockOf(env, voted[i]).parentRoot != voted[j].root
    {
      if i < j {
        assert !BlockBefore(p.voted[j], p.voted[i]);
      }
      NotTheParent(env, voted[i], voted[j]);
    }
  }

  /** The canonical block never waits for an orphan. */
  lemma FirstWaitsForNone(env: Env, p: Parts, simSlot: uint64, minSlot: uint64, x: BlockImport, y: Block)
    requires ValidEnv(env) && CanonicalLinked(env, minSlot) && PartsOk(env, p, simSlot, minSlot)
    requires minSlot <= simSlot && x in p.first && y in p.voted
    ensures Genuine(env, x) && BlockOf(env, x).parentRoot != y.root
  {
    assert env.archive(y.root) == Some(y);
    assert LinkedAbove(env, minSlot, env.era(simSlot).block.parentRoot);
  }

  lemma LeadJoin(env: Env, all: seq<BlockImport>, more: seq<BlockImport>)
    requires AllGenuine(env, all) && AllGenuine(env, more) && ParentsLead(env, all)
    requires forall x, y :: x in all && y in more ==> BlockOf(env, x).parentRoot != y.root
    requires forall i, j :: 0 <= i <= j < |more| ==> BlockOf(env, more[i]).parentRoot != more[j].root
    ensures AllGenuine(env, all + more) && ParentsLead(env, all + more)
  {
    var joined := all + more;
    assert AllGenuine(env, joined);
    forall i, j | 0 <= i <= j < |joined|
      ensures BlockOf(env, joined[i]).parentRoot != joined[j].root
    {
      if i < |all| && j >= |all| {
        assert all[i] in all && more[j - |all|] in more;
      }
    }
  }

  lemma JoinedLead(env: Env, p: Parts, simSlot: uint64, minSlot: uint64)
    requires ValidEnv(env) && ParentsOlder(env) && CanonicalLinked(env, minSlot) && minSlot <= simSlot
    requires PartsOk(env, p, simSlot, minSlot)
    requires !ListedWaits(p.listed, p.voted)
    ensures AllGenuine(env, p.first + OrphanImports(p.listed) + OrphanImports(p.voted))
    ensures ParentsLead(env, p.first + OrphanImports(p.listed) + OrphanImports(p.voted))
  {
    hide ParentsOlder, CanonicalLinked, ValidEnv;
    SameSlotLeads(env, p, simSlot, minSlot);
    VotedLead(env, p, simSlot, minSlot);
    ImportsOf(env, p.listed);
    var all, voted := p.first + OrphanImports(p.listed), OrphanImports(p.voted);
    forall x, y | x in all && y in voted
      ensures BlockOf(env, x).parentRoot != y.root
    {
      var j :| 0 <= j < |p.voted| && voted[j] == y;
      assert p.voted[j] in p.voted;
      if x in p.first {
        FirstWaitsForNone(env, p, simSlot, minSlot, x, p.voted[j]);
      } else {
        var i :| 0 <= i < |p.listed| && OrphanImports(p.listed)[i] == x;
        assert p.listed[i] in p.listed;
      }
    }
    LeadJoin(env, all, voted);
  }

  /** One block before its parent is enough. */
  lemma OneBreaks(env: Env, imports: seq<BlockImport>, i: nat, j: nat)
    requires AllGenuine(env, imports) && i < j < |imports| && Genuine(env, imports[i])
    requires BlockOf(env, imports[i]).parentRoot == imports[j].root
    ensures !ParentsLead(env, imports)
  {
  }

  lemma WaitingBreaks(env: Env, p: Parts, simSlot: uint64, minSlot: uint64)
    requires ValidEnv(env) && PartsOk(env, p, simSlot, minSlot) && ListedWaits(p.listed, p.voted)
    requires AllGenuine(env, p.first + OrphanImports(p.listed) + OrphanImports(p.voted))
    ensures !ParentsLead(env, p.first + OrphanImports(p.listed) + OrphanImports(p.voted))
  {
    hide ParentsLead, Orphan, ValidEnv, AllGenuine, Genuine, BlockOf, SortedBlocks;
    var x, y :| x in p.listed && y in p.voted && x.parentRoot == y.root;
    var i :| 0 <= i < |p.listed| && p.listed[i] == x;
    var j :| 0 <= j < |p.voted| && p.voted[j] == y;
    ImportsOf(env, p.listed);
    var imports := p.first + OrphanImports(p.listed) + OrphanImports(p.voted);
    JoinedAt(p.first, OrphanImports(p.listed), OrphanImports(p.voted), i, j);
    OneBreaks(env, imports, |p.first| + i, |p.first| + |p.listed| + j);
  }

  lemma JoinedAt<T>(a: seq<T>, b: seq<T>, c: seq<T>, i: nat, j: nat)
    requires i < |b| && j < |c|
    ensures (a + b + c)[|a| + i] == b[i] && (a + b + c)[|a| + |b| + j] == c[j]
  {
  }

  /** An instruction imports no block before its parent, cut walks or not, if and only if no listed orphan waits for a
      parent that only the votes of the slot bring in. */
  lemma SlotParentsLead(env: Env, simSlot: uint64, warmupStart: uint64, r: SlotInstruction)
    requires ValidEnv(env) && ParentsOlder(env) && CanonicalLinked(env, warmupStart + 1)
    requires BuildSlot(env, simSlot, warmupStart) == Some(r)
    ensures warmupStart < simSlot && SlotParts(env, simSlot, warmupStart).Some? && AllGenuine(env, r.imports)
    ensures var p := SlotParts(env, simSlot, warmupStart).value;
      ParentsLead(env, r.imports) <==> !ListedWaits(p.listed, p.voted)
  {
    hide BuildSlot, SlotParts, ListedWaits, PartsOk, ParentsLead, ParentsOlder, CanonicalLinked;
    Assembled(env, simSlot, warmupStart, r);
    SlotEmitsOnce(env, simSlot, warmupStart, r);
    var p := SlotParts(env, simSlot, warmupStart).value;
    PartsShape(env, simSlot, warmupStart, p);
    if ListedWaits(p.listed, p.voted) {
      WaitingBreaks(env, p, simSlot, warmupStart + 1);
    } else {
      JoinedLead(env, p, simSlot, warmupStart + 1);
    }
  }

  /** Without a preloaded orphan index parents always come first. */
  lemma UnlistedParentsLead(env: Env, simSlot: uint64, warmupStart: uint64, r: SlotInstruction)
    requires ValidEnv(env) && ParentsOlder(env) && CanonicalLinked(env, warmupStart + 1) && env.preload == map[]
    requires BuildSlot(env, simSlot, warmupStart) == Some(r)
    ensures AllGenuine(env, r.imports) && ParentsLead(env, r.imports)
  {
    hide BuildSlot, ParentsLead, ParentsOlder, CanonicalLinked, SlotVotes, VoteImports, SlotStart, CanonicalImport;
    SlotParentsLead(env, simSlot, warmupStart, r);
    NothingListed(env, simSlot, warmupStart);
  }

  lemma FirstIsIn(infos: seq<Block>)
    requires infos != []
    ensures infos[0] in infos
  {
  }

  lemma NothingListed(env: Env, simSlot: uint64, warmupStart: uint64)
    requires ValidEnv(env) && warmupStart < simSlot && env.preload == map[]
    ensures SlotParts(env, simSlot, warmupStart).Some? ==> SlotParts(env, simSlot, warmupStart).value.listed == []
  {
    hide SlotVotes, VoteImports, SlotOrphans;
    var p := SlotParts(env, simSlot, warmupStart);
    if p.Some? {
      var (first, st1) := CanonicalImport(env, SlotStart(env, simSlot, warmupStart), simSlot);
      FirstShown(env, simSlot, warmupStart, first, st1);
      var listed := SlotOrphans(env, st1, simSlot, warmupStart + 1).value;
      SlotOrphansShape(env, st1, simSlot, warmupStart + 1, listed);
      assert OrphansAt(st1, simSlot) == [];
      if listed.blocks != [] {
        FirstIsIn(listed.blocks);
      }
    }
  }

  /** In terms of the votes: a listed orphan waits exactly when its parent lies, in the window, on the walk from a fresh
      voted root at the slot. */
  lemma ListedWaitsWhen(env: Env, simSlot: uint64, warmupStart: uint64, p: Parts)
    requires World(env) && warmupStart < simSlot && SlotParts(env, simSlot, warmupStart) == Some(p)
    ensures ListedWaits(p.listed, p.voted) <==>
      exists x, y: Block :: x in p.listed && x.parentRoot == y.root
        && InGrove(env, p.votes.st.imported, FreshRoots(env, p.votes.st, p.votes.attestations, None), simSlot,
          warmupStart + 1, y)
  {
    hide SlotOrphans, SlotVotes, VoteImports, SlotStart, CanonicalImport, InGrove, FreshRoots, World, StateOk;
    WorldIsValid(env);
    VoteStateOk(env, simSlot, warmupStart, p);
    VotesBringGrove(env, p.votes.st, p.votes.attestations, simSlot, warmupStart + 1);
  }

  lemma VoteStateOk(env: Env, simSlot: uint64, warmupStart: uint64, p: Parts)
    requires ValidEnv(env) && warmupStart < simSlot && SlotParts(env, simSlot, warmupStart) == Some(p)
    ensures StateOk(env, p.votes.st) && p.votes.st.scheduled == {}
  {
    hide SlotOrphans, SlotVotes, VoteImports, SlotStart, CanonicalImport, StateOk, ValidEnv;
    var (first, st1) := CanonicalImport(env, SlotStart(env, simSlot, warmupStart), simSlot);
    FirstShown(env, simSlot, warmupStart, first, st1);
    var listed := SlotOrphans(env, st1, simSlot, warmupStart + 1).value;
    NothingScheduled(env, simSlot, warmupStart);
    SlotOrphansShape(env, st1, simSlot, warmupStart + 1, listed);
    VotesAreSteady(env, listed.st, simSlot, p.votes);
  }

  lemma NothingScheduled(env: Env, simSlot: uint64, warmupStart: uint64)
    requires warmupStart < simSlot
    ensures CanonicalImport(env, SlotStart(env, simSlot, warmupStart), simSlot).1.scheduled == {}
  {
  }

  lemma VotesAreSteady(env: Env, st: PlanState, simSlot: uint64, v: Votes)
    requires ValidEnv(env) && StateOk(env, st) && SlotVotes(env, st, simSlot) == Some(v)
    ensures StateOk(env, v.st) && v.st.scheduled == st.scheduled
  {
    if env.mode != FirstSeenGossip {
      var evalSlot := SaturatingAdd(simSlot, 1);
      var blocks := st.visible * Window(evalSlot, SlotLoadEnd(env, simSlot));
      VotesSteady(env, st, Sources(blocks, simSlot, env.mode, SlotCap(env), evalSlot), {}, [], v);
    }
  }
}
