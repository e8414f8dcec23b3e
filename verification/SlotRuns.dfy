/** Guarantees of a single-slot instruction. */
module SlotRuns {
  import opened Core
  import opened SlotRanges
  import opened Blocks
  import opened CanonicalIndex
  import opened Sorting
  import opened AttPlan
  import opened PlanSpec
  import opened OrphanChains
  import opened PlanSteps
  import opened PlanRuns

  /** What the vote loop has taken since `st0`: distinct orphans of the window, each marked, none imported before. */
  ghost predicate Taken(env: Env, st0: PlanState, f: Found, lo: int, hi: int) {
    && f.st.imported == st0.imported
    && DistinctRoots(f.blocks)
    && (forall b :: b in f.blocks ==>
      Orphan(env, b) && lo <= b.slot <= hi && b.root !in st0.imported && b.root in f.st.scheduled)
  }

  lemma TakeOne(env: Env, st0: PlanState, f: Found, info: Block, lo: int, hi: int)
    requires Taken(env, st0, f, lo, hi) && Orphan(env, info) && lo <= info.slot <= hi
    requires info.root !in f.st.imported && info.root !in f.st.scheduled
    ensures Taken(env, st0, Found(f.blocks + [info], f.st.(scheduled := f.st.scheduled + {info.root})), lo, hi)
  {
    forall b | b in f.blocks
      ensures b.root != info.root
    {
    }
  }

  lemma {:induction false} TakeChainShape(env: Env, st0: PlanState, f: Found, chain: seq<Block>, simSlot: uint64,
                                          minSlot: uint64)
    requires Taken(env, st0, f, minSlot, simSlot) && forall b :: b in chain ==> Orphan(env, b)
    ensures Taken(env, st0, TakeChain(env, f, chain, simSlot, minSlot), minSlot, simSlot)
    decreases |chain|
  {
    if chain != [] {
      var info, rest := chain[0], chain[1..];
      if info.slot < minSlot {
        TakeChainShape(env, st0, f.(st := f.st.(ignored := f.st.ignored + {info.root})), rest, simSlot, minSlot);
      } else if info.slot > simSlot || RootKnown(env, f.st, info.root) || info.root in f.st.scheduled {
        TakeChainShape(env, st0, f, rest, simSlot, minSlot);
      } else {
        TakeOne(env, st0, f, info, minSlot, simSlot);
        TakeChainShape(env, st0, Found(f.blocks + [info], f.st.(scheduled := f.st.scheduled + {info.root})), rest,
          simSlot, minSlot);
      }
    }
  }

  lemma TakenAfterWalk(env: Env, st0: PlanState, f: Found, st': PlanState, chain: seq<Block>, lo: int, hi: int)
    requires Taken(env, st0, f, lo, hi) && Grows(env, f.st, st', chain)
    ensures Taken(env, st0, f.(st := st'), lo, hi)
  {
  }

  lemma {:induction false} TakeRootsShape(env: Env, st0: PlanState, f: Found, roots: seq<Root>, simSlot: uint64,
                                          minSlot: uint64, g: Found)
    requires ValidEnv(env) && Taken(env, st0, f, minSlot, simSlot)
    requires TakeRoots(env, f, roots, simSlot, minSlot) == Some(g)
    ensures Taken(env, st0, g, minSlot, simSlot)
    decreases |roots|
  {
    if roots != [] {
      if !Fresh(env, f.st, roots[0]) {
        TakeRootsShape(env, st0, f, roots[1..], simSlot, minSlot, g);
      } else {
        var c := ResolveChain(env, f.st, roots[0], simSlot).value;
        ResolvedChain(env, f.st, roots[0], simSlot, c);
        TakenAfterWalk(env, st0, f, c.st, c.blocks, minSlot, simSlot);
        if c.blocks == [] {
          TakeRootsShape(env, st0, f.(st := c.st), roots[1..], simSlot, minSlot, g);
        } else {
          var tip := c.blocks[|c.blocks| - 1];
          if tip.root != roots[0] || tip.slot != simSlot {
            TakeRootsShape(env, st0, f.(st := c.st.(ignored := c.st.ignored + {roots[0]})), roots[1..], simSlot,
              minSlot, g);
          } else {
            TakeChainShape(env, st0, f.(st := c.st), c.blocks, simSlot, minSlot);
            TakeRootsShape(env, st0, TakeChain(env, f.(st := c.st), c.blocks, simSlot, minSlot), roots[1..], simSlot,
              minSlot, g);
          }
        }
      }
    }
  }

  lemma VotedShape(env: Env, st: PlanState, atts: seq<Attestation>, simSlot: uint64, minSlot: uint64, f: Found)
    requires ValidEnv(env) && VoteImports(env, st, atts, simSlot, minSlot) == Some(f)
    ensures DistinctRoots(f.blocks)
    ensures forall b :: b in f.blocks ==> Orphan(env, b) && minSlot <= b.slot <= simSlot && b.root !in st.imported
  {
    var roots := SortedRoots(FreshRoots(env, st, atts, None));
    var g := TakeRoots(env, Found([], st), roots, simSlot, minSlot).value;
    TakeRootsShape(env, st, Found([], st), roots, simSlot, minSlot, g);
    SortKeepsMembers(g.blocks);
    SortKeepsDistinct(g.blocks);
  }

  lemma {:induction false} VotesSteady(env: Env, st: PlanState, sources: seq<Source>, seen: set<Root>,
                                       out: seq<Attestation>, v: Votes)
    requires ValidEnv(env) && StateOk(env, st) && SourceVotes(env, st, sources, seen, out) == Some(v)
    ensures StateOk(env, v.st) && v.st.imported == st.imported && v.st.scheduled == st.scheduled
    decreases |sources|
  {
    if sources != [] {
      var g := OrphanInfos(env, st, sources[0].slot).value;
      InfosShape(env, st, sources[0].slot, g);
      var f := SourceInfos(env, st, sources[0].slot).value;
      var next := Dedup(Attestations(f.blocks), sources[0].maxAttestationSlot, seen, out);
      VotesSteady(env, f.st, sources[1..], next.1, next.0, v);
    }
  }

  /** Every root of an instruction is imported once; every import is a real block of the window; the canonical block of
      the slot, if there is one, comes first, and nothing else is imported as canonical. */
  ghost predicate InstructionOk(env: Env, r: SlotInstruction, simSlot: uint64, minSlot: uint64) {
    && DistinctImports(r.imports)
    && (forall x :: x in r.imports ==> minSlot <= x.slot <= simSlot && Genuine(env, x))
    && (env.era(simSlot).Present? ==>
      r.imports != [] && r.imports[0] == BlockImport(simSlot, env.era(simSlot).block.root, true))
    && (forall i :: 0 <= i < |r.imports| && r.imports[i].canonical ==> i == 0 && env.era(simSlot).Present?)
  }

  lemma JoinImports(env: Env, first: seq<BlockImport>, listed: seq<BlockImport>, voted: seq<BlockImport>, a: set<Root>,
                    b: set<Root>, c: set<Root>, simSlot: uint64, minSlot: uint64)
    requires first == if env.era(simSlot).Present? then [BlockImport(simSlot, env.era(simSlot).block.root, true)]
      else []
    requires minSlot <= simSlot && (forall x :: x in first ==> x.root in a) && Batch(a, listed, b) && Batch(b, voted, c)
    requires OrphanPart(env, listed, minSlot, simSlot) && OrphanPart(env, voted, minSlot, simSlot)
    ensures DistinctImports(first + listed + voted)
    ensures forall x :: x in first + listed + voted ==> minSlot <= x.slot <= simSlot && Genuine(env, x)
    ensures forall i :: 0 <= i < |first + listed + voted| && (first + listed + voted)[i].canonical ==>
      i == 0 && env.era(simSlot).Present?
  {
    BatchJoin(a, listed, b, voted, c);
    var rest := listed + voted;
    assert first + listed + voted == first + rest;
    forall x, y | x in first && y in rest
      ensures x.root != y.root
    {
    }
    DistinctJoin(first, rest);
    assert forall i :: |first| <= i < |first + rest| ==> (first + rest)[i] in rest;
  }

  lemma VotedBatch(env: Env, st: PlanState, blocks: seq<Block>, lo: int, hi: int) returns (after: set<Root>)
    requires DistinctRoots(blocks) && forall b :: b in blocks ==>
      Orphan(env, b) && lo <= b.slot <= hi && b.root !in st.imported
    requires forall r :: env.archive(r).Some? ==> env.archive(r).value.root == r
    ensures Batch(st.imported, OrphanImports(blocks), after) && OrphanPart(env, OrphanImports(blocks), lo, hi)
  {
    after := st.imported + set b | b in blocks :: b.root;
    var imports := OrphanImports(blocks);
    forall x | x in imports
      ensures x.root !in st.imported && x.root in after && !x.canonical && lo <= x.slot <= hi && Genuine(env, x)
    {
      var i :| 0 <= i < |imports| && imports[i] == x;
      assert blocks[i] in blocks;
    }
  }

  lemma ListedBatch(env: Env, st1: PlanState, simSlot: uint64, minSlot: uint64, listed: Found)
    requires ValidEnv(env) && StateOk(env, st1) && SlotOrphans(env, st1, simSlot, minSlot) == Some(listed)
    ensures StateOk(env, listed.st) && Batch(st1.imported, OrphanImports(listed.blocks), listed.st.imported)
    ensures OrphanPart(env, OrphanImports(listed.blocks), minSlot, simSlot)
  {
    SlotOrphansShape(env, st1, simSlot, minSlot, listed);
    OrphanBatch(env, st1, listed.st, listed.blocks, minSlot, simSlot);
  }

  lemma VotedPart(env: Env, st: PlanState, simSlot: uint64, minSlot: uint64, votes: Votes, f: Found)
    returns (after: set<Root>)
    requires ValidEnv(env) && StateOk(env, st) && SlotVotes(env, st, simSlot) == Some(votes)
    requires VoteImports(env, votes.st, votes.attestations, simSlot, minSlot) == Some(f)
    ensures Batch(st.imported, OrphanImports(f.blocks), after)
    ensures OrphanPart(env, OrphanImports(f.blocks), minSlot, simSlot)
  {
    hide SlotVotes, VoteImports, StateOk;
    VotesKeepImports(env, st, simSlot, votes);
    VotedShape(env, votes.st, votes.attestations, simSlot, minSlot, f);
    after := VotedBatch(env, st, f.blocks, minSlot, simSlot);
  }

  /** A slot's instruction never repeats a root and never leaves its window, in every mode. */
  lemma SlotEmitsOnce(env: Env, simSlot: uint64, warmupStart: uint64, r: SlotInstruction)
    requires ValidEnv(env) && BuildSlot(env, simSlot, warmupStart) == Some(r)
    ensures warmupStart < simSlot && InstructionOk(env, r, simSlot, warmupStart + 1)
  {
    hide SlotStart, CanonicalImport, SlotOrphans, SlotVotes, VoteImports, OrphanImports, Batch, OrphanPart,
      DistinctImports, Genuine, StateOk, ValidEnv;
    var st := SlotStart(env, simSlot, warmupStart);
    var minSlot: uint64 := warmupStart + 1;
    var (first, st1) := CanonicalImport(env, st, simSlot);
    FirstShown(env, simSlot, warmupStart, first, st1);
    var listed := SlotOrphans(env, st1, simSlot, minSlot).value;
    ListedBatch(env, st1, simSlot, minSlot, listed);
    var votes := SlotVotes(env, listed.st, simSlot).value;
    var f := VoteImports(env, votes.st, votes.attestations, simSlot, minSlot).value;
    var after := VotedPart(env, listed.st, simSlot, minSlot, votes, f);
    JoinImports(env, first, OrphanImports(listed.blocks), OrphanImports(f.blocks), st1.imported, listed.st.imported,
      after, simSlot, minSlot);
  }

  lemma VotesKeepImports(env: Env, st: PlanState, simSlot: uint64, v: Votes)
    requires ValidEnv(env) && StateOk(env, st) && SlotVotes(env, st, simSlot) == Some(v)
    ensures v.st.imported == st.imported
  {
    if env.mode != FirstSeenGossip {
      var evalSlot := SaturatingAdd(simSlot, 1);
      var blocks := st.visible * Window(evalSlot, SlotLoadEnd(env, simSlot));
      VotesSteady(env, st, Sources(blocks, simSlot, env.mode, SlotCap(env), evalSlot), {}, [], v);
    }
  }

  lemma FirstShown(env: Env, simSlot: uint64, warmupStart: uint64, first: seq<BlockImport>, st1: PlanState)
    requires ValidEnv(env) && warmupStart < simSlot
    requires (first, st1) == CanonicalImport(env, SlotStart(env, simSlot, warmupStart), simSlot)
    ensures StateOk(env, st1) && forall x :: x in first ==> x.root in st1.imported
    ensures first == if env.era(simSlot).Present? then [BlockImport(simSlot, env.era(simSlot).block.root, true)] else []
  {
    assert simSlot <= SlotLoadEnd(env, simSlot);
    assert In(SlotRange(warmupStart + 1, SlotLoadEnd(env, simSlot)), simSlot);
  }

  // ----- the votes of a slot

  ghost predicate VotesOnce(seen: set<Root>, votes: seq<Attestation>) {
    && (forall i, j :: 0 <= i < j < |votes| ==> votes[i].root != votes[j].root)
    && (forall r :: r in seen <==> exists v :: v in votes && v.root == r)
  }

  lemma OneMoreVote(seen: set<Root>, votes: seq<Attestation>, att: Attestation)
    requires VotesOnce(seen, votes) && att.root !in seen
    ensures VotesOnce(seen + {att.root}, votes + [att])
  {
    var more := votes + [att];
    forall i | 0 <= i < |votes|
      ensures votes[i].root != att.root
    {
      assert votes[i] in votes;
    }
    forall r
      ensures r in seen + {att.root} <==> exists v :: v in more && v.root == r
    {
      if r == att.root {
        assert more[|votes|] == att && att in more;
      } else if r in seen {
        var v :| v in votes && v.root == r;
        assert v in more;
      }
    }
  }

  /** Exact repeats and votes past the bound are dropped, and nothing else. */
  lemma {:induction false} DedupShape(atts: seq<Attestation>, max: Option<uint64>, seen: set<Root>,
                                      out: seq<Attestation>)
    requires VotesOnce(seen, out)
    ensures var (votes, all) := Dedup(atts, max, seen, out);
      && VotesOnce(all, votes) && seen <= all
      && (forall v :: v in votes ==> v in out || (v in atts && WithinMax(v, max)))
      && (forall att :: att in atts && WithinMax(att, max) ==> att.root in all)
    decreases |atts|
  {
    if atts != [] {
      if !WithinMax(atts[0], max) || atts[0].root in seen {
        DedupShape(atts[1..], max, seen, out);
      } else {
        OneMoreVote(seen, out, atts[0]);
        DedupShape(atts[1..], max, seen + {atts[0].root}, out + [atts[0]]);
      }
    }
  }

  /** An orphan that the index lists at the slot of the source, that nothing made the planner ignore, and that no
      earlier source lists at a wrong slot. */
  ghost predicate ProperlyListed(env: Env, st: PlanState, sources: seq<Source>, i: nat, r: Root)
    requires i < |sources|
  {
    && r in OrphansAt(st, sources[i].slot) && OrphanAt(env, sources[i].slot, r) && r !in st.ignored
    && (forall j :: 0 <= j < i && sources[j].slot != sources[i].slot ==> r !in OrphansAt(st, sources[j].slot))
  }

  /** The blocks at a source slot: the canonical one, and the orphans properly listed there. */
  ghost predicate AtSource(env: Env, st: PlanState, sources: seq<Source>, i: nat, b: Block)
    requires i < |sources|
  {
    || env.era(sources[i].slot) == Present(b)
    || (env.archive(b.root) == Some(b) && ProperlyListed(env, st, sources, i, b.root))
  }

  /** A vote that a block at the source holds, up to the bound of the source. */
  ghost predicate VoteAtSource(env: Env, st: PlanState, sources: seq<Source>, i: nat, att: Attestation)
    requires i < |sources|
  {
    WithinMax(att, sources[i].maxAttestationSlot) && exists b ::
      AtSource(env, st, sources, i, b) && att in b.attestations
  }

  ghost predicate SourcesShown(env: Env, st: PlanState, sources: seq<Source>) {
    forall i :: 0 <= i < |sources| ==> sources[i].slot in st.visible
  }

  /** What the first source shows: exactly the blocks there. What is properly listed at the later ones stays so. */
  lemma SourceShowsAll(env: Env, st: PlanState, sources: seq<Source>, f: Found)
    requires ValidEnv(env) && StateOk(env, st) && sources != [] && SourcesShown(env, st, sources)
    requires SourceInfos(env, st, sources[0].slot) == Some(f)
    ensures StateOk(env, f.st) && SourcesShown(env, f.st, sources[1..])
    ensures forall b :: b in f.blocks <==> AtSource(env, st, sources, 0, b)
    ensures forall i, r :: 0 < i < |sources| ==>
      (ProperlyListed(env, st, sources, i, r) <==> ProperlyListed(env, f.st, sources[1..], i - 1, r))
  {
    var slot := sources[0].slot;
    var g := GatherOrphans(env, st, slot, OrphansAt(st, slot), {}, []).value;
    GatherTakes(env, st, slot, OrphansAt(st, slot), {}, [], g);
    SortKeepsMembers(g.blocks);
    InfosShape(env, st, slot, OrphanInfos(env, st, slot).value);
    assert sources[0] == sources[0] && slot in st.visible;
    OthersStay(env, st, sources, f.st);
  }

  lemma OthersStay(env: Env, st: PlanState, sources: seq<Source>, st': PlanState)
    requires ValidEnv(env) && sources != [] && st'.orphans == st.orphans && st.ignored <= st'.ignored
    requires forall r :: r in st'.ignored ==>
      r in st.ignored || (r in OrphansAt(st, sources[0].slot) && !OrphanAt(env, sources[0].slot, r))
    requires forall r :: r in OrphansAt(st, sources[0].slot) && Elsewhere(env, sources[0].slot, r) ==> r in st'.ignored
    ensures forall i, r :: 0 < i < |sources| ==>
      (ProperlyListed(env, st, sources, i, r) <==> ProperlyListed(env, st', sources[1..], i - 1, r))
  {
    var rest := sources[1..];
    assert forall s :: OrphansAt(st', s) == OrphansAt(st, s);
    forall i, r | 0 < i < |sources|
      ensures ProperlyListed(env, st, sources, i, r) <==> ProperlyListed(env, st', rest, i - 1, r)
    {
      assert rest[i - 1] == sources[i];
      if ProperlyListed(env, st, sources, i, r) {
        forall j | 0 <= j < i - 1 && rest[j].slot != rest[i - 1].slot
          ensures r !in OrphansAt(st', rest[j].slot)
        {
          assert rest[j] == sources[j + 1];
        }
      }
      if ProperlyListed(env, st', rest, i - 1, r) {
        forall j | 0 <= j < i && sources[j].slot != sources[i].slot
          ensures r !in OrphansAt(st, sources[j].slot)
        {
          if j > 0 {
            assert rest[j - 1] == sources[j];
          } else {
            assert Elsewhere(env, sources[0].slot, r);
          }
        }
      }
    }
  }

  /** The votes at a later source are those at a source of the rest. */
  lemma LaterVotes(env: Env, st: PlanState, sources: seq<Source>, st': PlanState, i: nat, att: Attestation)
    requires 0 < i < |sources|
    requires forall r :: ProperlyListed(env, st, sources, i, r) <==> ProperlyListed(env, st', sources[1..], i - 1, r)
    ensures VoteAtSource(env, st, sources, i, att) <==> VoteAtSource(env, st', sources[1..], i - 1, att)
  {
    hide ProperlyListed;
    assert sources[1..][i - 1] == sources[i];
    assert forall b :: AtSource(env, st, sources, i, b) <==> AtSource(env, st', sources[1..], i - 1, b);
  }

  lemma FirstVotes(env: Env, st: PlanState, sources: seq<Source>, f: Found, att: Attestation)
    requires sources != [] && forall b :: b in f.blocks <==> AtSource(env, st, sources, 0, b)
    ensures VoteAtSource(env, st, sources, 0, att) <==>
      att in Attestations(f.blocks) && WithinMax(att, sources[0].maxAttestationSlot)
  {
    hide AtSource;
    AttestationsExact(f.blocks);
  }

  /** The votes collected are exactly those at the sources, without repeats. */
  ghost predicate VotesExact(env: Env, st: PlanState, sources: seq<Source>, all: set<Root>, votes: seq<Attestation>,
                             out: seq<Attestation>)
  {
    && (forall i, att :: 0 <= i < |sources| && VoteAtSource(env, st, sources, i, att) ==> att.root in all)
    && (forall v :: v in votes ==> v in out || exists i :: 0 <= i < |sources| && VoteAtSource(env, st, sources, i, v))
  }

  lemma VotesJoin(env: Env, st: PlanState, sources: seq<Source>, f: Found, all: set<Root>, votes: seq<Attestation>,
                  seen: set<Root>, mid: seq<Attestation>, out: seq<Attestation>)
    requires sources != [] && seen <= all && VotesExact(env, f.st, sources[1..], all, votes, mid)
    requires forall b :: b in f.blocks <==> AtSource(env, st, sources, 0, b)
    requires forall i, r :: 0 < i < |sources| ==>
      (ProperlyListed(env, st, sources, i, r) <==> ProperlyListed(env, f.st, sources[1..], i - 1, r))
    requires forall v :: v in mid ==>
      v in out || (v in Attestations(f.blocks) && WithinMax(v, sources[0].maxAttestationSlot))
    requires forall att :: att in Attestations(f.blocks) && WithinMax(att, sources[0].maxAttestationSlot) ==>
      att.root in seen
    ensures VotesExact(env, st, sources, all, votes, out)
  {
    hide AtSource, ProperlyListed, VoteAtSource;
    var rest := sources[1..];
    forall i, att | 0 <= i < |sources| && VoteAtSource(env, st, sources, i, att)
      ensures att.root in all
    {
      if i == 0 {
        FirstVotes(env, st, sources, f, att);
      } else {
        LaterVotes(env, st, sources, f.st, i, att);
        assert VoteAtSource(env, f.st, rest, i - 1, att);
      }
    }
    forall v | v in votes && v !in out
      ensures exists i :: 0 <= i < |sources| && VoteAtSource(env, st, sources, i, v)
    {
      if v in mid {
        FirstVotes(env, st, sources, f, v);
      } else {
        var k :| 0 <= k < |rest| && VoteAtSource(env, f.st, rest, k, v);
        LaterVotes(env, st, sources, f.st, k + 1, v);
        assert VoteAtSource(env, st, sources, k + 1, v);
      }
    }
  }

  lemma {:induction false} SourceVotesShape(env: Env, st: PlanState, sources: seq<Source>, seen: set<Root>,
                                            out: seq<Attestation>, v: Votes)
    returns (all: set<Root>)
    requires ValidEnv(env) && StateOk(env, st) && VotesOnce(seen, out) && SourcesShown(env, st, sources)
    requires SourceVotes(env, st, sources, seen, out) == Some(v)
    ensures VotesOnce(all, v.attestations) && seen <= all
    ensures VotesExact(env, st, sources, all, v.attestations, out)
    decreases |sources|
  {
    all := seen;
    if sources != [] {
      hide VotesOnce, Attestations, SourceInfos, ProperlyListed, AtSource, Dedup, VotesExact;
      var f := SourceInfos(env, st, sources[0].slot).value;
      var next := Dedup(Attestations(f.blocks), sources[0].maxAttestationSlot, seen, out);
      DedupShape(Attestations(f.blocks), sources[0].maxAttestationSlot, seen, out);
      SourceShowsAll(env, st, sources, f);
      all := SourceVotesShape(env, f.st, sources[1..], next.1, next.0, v);
      VotesJoin(env, st, sources, f, all, v.attestations, next.1, next.0, out);
    }
  }

  /** The sources of a slot. */
  ghost function SlotSources(env: Env, st: PlanState, simSlot: uint64): seq<Source> {
    var evalSlot := SaturatingAdd(simSlot, 1);
    Sources(st.visible * Window(evalSlot, SlotLoadEnd(env, simSlot)), simSlot, env.mode, SlotCap(env), evalSlot)
  }

  lemma {:induction false} ExistingShown(blocks: set<uint64>, lo: int, hi: int)
    requires 0 <= lo && hi <= MAX_UINT64
    ensures forall i :: 0 <= i < |Existing(blocks, lo, hi)| ==> Existing(blocks, lo, hi)[i] in blocks
    decreases hi + 1 - lo
  {
    if lo <= hi {
      ExistingShown(blocks, lo + 1, hi);
    }
  }

  lemma SourcesAreShown(env: Env, st: PlanState, simSlot: uint64)
    ensures SourcesShown(env, st, SlotSources(env, st, simSlot))
  {
    var blocks := st.visible * Window(SaturatingAdd(simSlot, 1), SlotLoadEnd(env, simSlot));
    if simSlot + SlotCap(env) <= MAX_UINT64 {
      ExistingShown(blocks, simSlot + 1, simSlot + SlotCap(env));
    }
  }

  /** In the modes that read votes from source blocks, the votes of a slot never repeat, and they are exactly those of
      the canonical blocks at its sources and of the orphans properly listed there, up to the bound of each source. */
  lemma SlotVotesOnce(env: Env, st: PlanState, simSlot: uint64, v: Votes) returns (all: set<Root>)
    requires ValidEnv(env) && StateOk(env, st) && env.mode != FirstSeenGossip && SlotVotes(env, st, simSlot) == Some(v)
    ensures VotesOnce(all, v.attestations)
    ensures VotesExact(env, st, SlotSources(env, st, simSlot), all, v.attestations, [])
  {
    SourcesAreShown(env, st, simSlot);
    all := SourceVotesShape(env, st, SlotSources(env, st, simSlot), {}, [], v);
  }
}
