/** In which order the votes of the sources are served, and which of several equal ones stays. */
module VoteOrder {
  import opened Core
  import opened Blocks
  import opened Sorting
  import opened Sorts
  import opened PlanSpec
  import opened PlanSteps
  import opened SlotRuns
  import opened ListedOrphans

  /** The votes up to the bound without those whose root an earlier one of them has. */
  ghost function FirstCasts(atts: seq<Attestation>, max: Option<uint64>): seq<Attestation> {
    if atts == [] then []
    else
      var before, last := atts[..|atts| - 1], atts[|atts| - 1];
      if WithinMax(last, max) && forall a :: a in before && WithinMax(a, max) ==> a.root != last.root
        then FirstCasts(before, max) + [last]
      else FirstCasts(before, max)
  }

  /** The roots of the votes up to the bound. */
  ghost function CastRoots(atts: seq<Attestation>, max: Option<uint64>): set<Root> {
    set a | a in atts && WithinMax(a, max) :: a.root
  }

  lemma OneMoreCast(pre: seq<Attestation>, a: Attestation, max: Option<uint64>)
    ensures WithinMax(a, max) && a.root !in CastRoots(pre, max) ==>
      && FirstCasts(pre + [a], max) == FirstCasts(pre, max) + [a]
      && CastRoots(pre + [a], max) == CastRoots(pre, max) + {a.root}
    ensures !(WithinMax(a, max) && a.root !in CastRoots(pre, max)) ==>
      FirstCasts(pre + [a], max) == FirstCasts(pre, max) && CastRoots(pre + [a], max) == CastRoots(pre, max)
  {
    assert (pre + [a])[..|pre|] == pre;
    assert forall x :: x in pre + [a] <==> x in pre || x == a;
  }

  lemma {:induction false} DedupCasts(pre: seq<Attestation>, atts: seq<Attestation>, max: Option<uint64>)
    ensures Dedup(atts, max, CastRoots(pre, max), FirstCasts(pre, max))
      == (FirstCasts(pre + atts, max), CastRoots(pre + atts, max))
    decreases |atts|
  {
    hide FirstCasts, CastRoots;
    if atts == [] {
      assert pre + atts == pre;
    } else {
      OneMoreCast(pre, atts[0], max);
      DedupCasts(pre + [atts[0]], atts[1..], max);
      assert pre + [atts[0]] + atts[1..] == pre + atts;
    }
  }

  /** The blocks that the sources show, source after source. */
  ghost function ShownBlocks(env: Env, st: PlanState, sources: seq<Source>): seq<Block>
    decreases |sources|
  {
    if sources == [] || SourceInfos(env, st, sources[0].slot).None? then []
    else
      var f := SourceInfos(env, st, sources[0].slot).value;
      f.blocks + ShownBlocks(env, f.st, sources[1..])
  }

  lemma {:induction false} AttestationsJoin(a: seq<Block>, b: seq<Block>)
    ensures Attestations(a + b) == Attestations(a) + Attestations(b)
  {
    if a == [] {
      assert a + b == b;
    } else {
      var rest := a[1..] + b;
      assert a + b == [a[0]] + rest;
      assert ([a[0]] + rest)[1..] == rest;
      AttestationsJoin(a[1..], b);
      assert Attestations(a + b) == a[0].attestations + Attestations(rest);
      hide Attestations;
      assert a[0].attestations + (Attestations(a[1..]) + Attestations(b))
          == a[0].attestations + Attestations(a[1..]) + Attestations(b);
    }
  }

  /** All votes of a list of blocks, block after block. */
  ghost function AllVotes(blocks: seq<Block>): seq<Attestation> {
    if blocks == [] then [] else AllVotes(blocks[..|blocks| - 1]) + blocks[|blocks| - 1].attestations
  }

  lemma {:induction false} AllVotesAre(blocks: seq<Block>)
    ensures AllVotes(blocks) == Attestations(blocks)
  {
    if blocks != [] {
      var before, last := blocks[..|blocks| - 1], blocks[|blocks| - 1];
      AllVotesAre(before);
      AttestationsJoin(before, [last]);
      assert before + [last] == blocks;
      OnlyAttestations(last);
    }
  }

  lemma OnlyAttestations(b: Block)
    ensures Attestations([b]) == b.attestations
  {
    assert Attestations([b]) == b.attestations + Attestations([]);
  }

  /** The votes served are the first casts of the blocks shown. */
  lemma {:induction false} SourceVotesAreFirst(env: Env, st: PlanState, sources: seq<Source>, pre: seq<Attestation>,
                                               max: Option<uint64>, v: Votes)
    requires forall i :: 0 <= i < |sources| ==> sources[i].maxAttestationSlot == max
    requires SourceVotes(env, st, sources, CastRoots(pre, max), FirstCasts(pre, max)) == Some(v)
    ensures v.attestations == FirstCasts(pre + Attestations(ShownBlocks(env, st, sources)), max)
    decreases |sources|
  {
    hide SourceInfos, Dedup, Attestations, FirstCasts, CastRoots;
    if sources == [] {
      assert Attestations([]) == [] by { NoAttestations(); }
      assert pre + [] == pre;
    } else {
      var f := SourceInfos(env, st, sources[0].slot).value;
      var atts, rest := Attestations(f.blocks), ShownBlocks(env, f.st, sources[1..]);
      DedupCasts(pre, atts, max);
      SourceVotesAreFirst(env, f.st, sources[1..], pre + atts, max, v);
      AttestationsJoin(f.blocks, rest);
      assert pre + atts + Attestations(rest) == pre + (atts + Attestations(rest));
    }
  }

  lemma NoAttestations()
    ensures Attestations([]) == []
  {
  }

  /** Ascending slots; at one slot the canonical block, then orphans by root. */
  ghost predicate SourceOrder(env: Env, blocks: seq<Block>) {
    forall i, j :: 0 <= i < j < |blocks| ==> ShownBefore(env, blocks[i], blocks[j])
  }

  ghost predicate ShownBefore(env: Env, a: Block, b: Block) {
    || a.slot < b.slot
    || (a.slot == b.slot && Canonical(env.era, a) && !Canonical(env.era, b))
    || (a.slot == b.slot && !Canonical(env.era, a) && !Canonical(env.era, b) && a.root < b.root)
  }

  /** A list in this order has one arrangement. */
  lemma OneOrder(env: Env, a: seq<Block>, b: seq<Block>)
    requires SourceOrder(env, a) && SourceOrder(env, b) && forall x :: x in a <==> x in b
    ensures a == b
  {
    var before := (x: Block, y: Block) => ShownBefore(env, x, y);
    assert Ascends(a, before) && Ascends(b, before);
    AscendingUnique(a, b, before);
  }

  lemma SlotInOrder(env: Env, canonical: Block, orphans: seq<Block>, slot: uint64)
    requires canonical.slot == slot && env.era(slot) == Present(canonical) && Ascends(orphans, BlockBefore)
    requires forall b :: b in orphans ==> b.slot == slot && !Canonical(env.era, b)
    ensures SourceOrder(env, [canonical] + orphans)
  {
    assert Canonical(env.era, canonical);
    hide Canonical;
    var all := [canonical] + orphans;
    forall i, j | 0 <= i < j < |all|
      ensures ShownBefore(env, all[i], all[j])
    {
      assert all[j] == orphans[j - 1] && orphans[j - 1] in orphans;
      if i > 0 {
        assert all[i] == orphans[i - 1] && orphans[i - 1] in orphans;
      }
    }
  }

  lemma FirstInOrder(env: Env, st: PlanState, sources: seq<Source>, f: Found)
    requires ValidEnv(env) && StateOk(env, st) && sources != [] && SourcesShown(env, st, sources)
    requires SourceInfos(env, st, sources[0].slot) == Some(f)
    ensures SourceOrder(env, f.blocks) && forall b :: b in f.blocks ==> b.slot == sources[0].slot
  {
    hide OrphanInfos, SourceOrder, Ascends, DistinctRoots, Searched;
    var slot := sources[0].slot;
    assert sources[0] == sources[0] && slot in st.visible;
    var g := InfosExact(env, st, slot);
    SlotInOrder(env, env.era(slot).block, g.blocks, slot);
    assert ShownAt(env.era, g.st.visible, slot) == Some(env.era(slot).block) by {
      StillShown(env, st, g.st, slot);
    }
    assert f.blocks == [env.era(slot).block] + g.blocks;
  }

  lemma StillShown(env: Env, st: PlanState, st': PlanState, slot: uint64)
    requires Searched(env, st, st', slot) && slot in st.visible
    ensures slot in st'.visible
  {
  }

  lemma OrderJoin(env: Env, a: seq<Block>, b: seq<Block>)
    requires SourceOrder(env, a) && SourceOrder(env, b)
    requires forall x, y :: x in a && y in b ==> x.slot < y.slot
    ensures SourceOrder(env, a + b)
  {
    forall i, j | 0 <= i < j < |a + b|
      ensures ShownBefore(env, (a + b)[i], (a + b)[j])
    {
      if i < |a| <= j {
        assert a[i] in a && b[j - |a|] in b;
      }
    }
  }

  /** The blocks shown are those at the sources, in order. */
  lemma {:induction false} ShownExactly(env: Env, st: PlanState, sources: seq<Source>)
    requires ValidEnv(env) && StateOk(env, st) && SourcesShown(env, st, sources)
    requires forall i, j :: 0 <= i < j < |sources| ==> sources[i].slot < sources[j].slot
    ensures var shown := ShownBlocks(env, st, sources);
      && SourceOrder(env, shown)
      && (forall b :: b in shown <==> exists i :: 0 <= i < |sources| && AtSource(env, st, sources, i, b))
      && (forall b :: b in shown ==> sources != [] && sources[0].slot <= b.slot)
    decreases |sources|
  {
    hide SourceInfos, StateOk, AtSource, ShownBefore, SourcesShown;
    if sources != [] {
      var f := SourceShown(env, st, sources);
      FirstInOrder(env, st, sources, f);
      StateShown(env, st, sources, f);
      var rest, shown := sources[1..], ShownBlocks(env, f.st, sources[1..]);
      ShownExactly(env, f.st, rest);
      assert rest != [] ==> rest[0] == sources[1];
      OrderJoin(env, f.blocks, shown);
      forall b
        ensures b in f.blocks + shown <==> exists i :: 0 <= i < |sources| && AtSource(env, st, sources, i, b)
      {
        AtSourceSplit(env, st, sources, f, b);
      }
    }
  }

  lemma StateShown(env: Env, st: PlanState, sources: seq<Source>, f: Found)
    requires ValidEnv(env) && StateOk(env, st) && sources != [] && SourcesShown(env, st, sources)
    requires SourceInfos(env, st, sources[0].slot) == Some(f)
    ensures StateOk(env, f.st)
  {
    SourceShowsAll(env, st, sources, f);
  }

  lemma AtSourceSplit(env: Env, st: PlanState, sources: seq<Source>, f: Found, b: Block)
    requires ValidEnv(env) && StateOk(env, st) && sources != [] && SourcesShown(env, st, sources)
    requires SourceInfos(env, st, sources[0].slot) == Some(f)
    ensures (exists i :: 0 <= i < |sources| && AtSource(env, st, sources, i, b))
      <==> b in f.blocks || exists i :: 0 <= i < |sources[1..]| && AtSource(env, f.st, sources[1..], i, b)
  {
    SourceShowsAll(env, st, sources, f);
    hide SourceInfos, StateOk, ValidEnv, SourcesShown, ProperlyListed;
    var rest := sources[1..];
    if i :| 0 <= i < |sources| && AtSource(env, st, sources, i, b) {
      if i > 0 {
        assert rest[i - 1] == sources[i];
        assert AtSource(env, f.st, rest, i - 1, b);
      }
    }
    if i :| 0 <= i < |rest| && AtSource(env, f.st, rest, i, b) {
      assert rest[i] == sources[i + 1];
      assert AtSource(env, st, sources, i + 1, b);
    }
    if b in f.blocks {
      assert AtSource(env, st, sources, 0, b);
    }
  }
}
