/** The repository chooses attestation sources twice, in the reference planner and in the replay planner; here they
    meet. */
module SourceAgreement {
  import opened Core
  import opened Blocks
  import opened Sorts
  import opened AttPlan
  import opened PlanSpec

  ghost predicate AscendingSlots(s: seq<uint64>) {
    forall i, j :: 0 <= i < j < |s| ==> s[i] < s[j]
  }

  ghost predicate HasSource(sources: seq<Source>, s: uint64) {
    exists i :: 0 <= i < |sources| && sources[i].slot == s
  }

  lemma HasMember(found: seq<uint64>)
    ensures found != [] ==> exists s :: s in found
  {
    if found != [] {
      assert found[0] in found;
    }
  }

  lemma {:induction false} ExistingExact(blocks: set<uint64>, lo: int, hi: int)
    requires 0 <= lo && hi <= MAX_UINT64
    ensures AscendingSlots(Existing(blocks, lo, hi))
    ensures forall s :: s in Existing(blocks, lo, hi) <==> s in blocks && lo <= s <= hi
    decreases hi + 1 - lo
  {
    if lo <= hi {
      ExistingExact(blocks, lo + 1, hi);
      Prepend(lo, Existing(blocks, lo + 1, hi));
    }
  }

  lemma Prepend(x: uint64, rest: seq<uint64>)
    requires AscendingSlots(rest) && forall s :: s in rest ==> x < s
    ensures AscendingSlots([x] + rest)
  {
    forall i, j | 0 <= i < j < |rest| + 1
      ensures ([x] + rest)[i] < ([x] + rest)[j]
    {
      assert rest[j - 1] in rest;
    }
  }

  /** The greedy list is exactly the existing slots of (simSlot, simSlot + cap] in ascending order, each bounded by
      evalSlot; a window past MaxUint64 yields nothing. */
  lemma GreedyIsWindow(blocks: set<uint64>, simSlot: uint64, cap: uint64, evalSlot: uint64)
    ensures var sources := Sources(blocks, simSlot, GreedyLookahead, cap, evalSlot);
      && (forall i, j :: 0 <= i < j < |sources| ==> sources[i].slot < sources[j].slot)
      && (forall s: uint64 :: HasSource(sources, s)
            <==> simSlot + cap <= MAX_UINT64 && simSlot < s <= simSlot + cap && s in blocks)
      && (forall i :: 0 <= i < |sources| ==> sources[i].maxAttestationSlot == Some(evalSlot))
  {
    if simSlot + cap <= MAX_UINT64 {
      var found := Existing(blocks, simSlot + 1, simSlot + cap);
      ExistingExact(blocks, simSlot + 1, simSlot + cap);
      SameSlots(found, Sources(blocks, simSlot, GreedyLookahead, cap, evalSlot));
    }
  }

  lemma SameSlots(found: seq<uint64>, sources: seq<Source>)
    requires |sources| == |found| && forall i :: 0 <= i < |found| ==> sources[i].slot == found[i]
    ensures forall s: uint64 :: HasSource(sources, s) <==> s in found
  {
    forall s: uint64 | s in found
      ensures HasSource(sources, s)
    {
      var i :| 0 <= i < |found| && found[i] == s;
      assert sources[i].slot == s;
    }
  }

  lemma FirstExisting(blocks: set<uint64>, lo: int, hi: int, r: Option<uint64>)
    requires 0 <= lo && hi <= MAX_UINT64 && FirstIn(blocks, lo, hi, r)
    ensures r == if Existing(blocks, lo, hi) == [] then None else Some(Existing(blocks, lo, hi)[0])
  {
    var found := Existing(blocks, lo, hi);
    ExistingExact(blocks, lo, hi);
    if r.Some? {
      assert r.value in found && found[0] in found;
      var k :| 0 <= k < |found| && found[k] == r.value;
      assert found[0] <= found[k];
    } else {
      HasMember(found);
    }
  }

  /** In all four modes the reference planner's one source is the replay planner's first. */
  lemma FirstSourceAgrees(blocks: set<uint64>, simSlot: uint64, mode: Mode, cap: uint64, evalSlot: uint64,
                          r: Option<uint64>)
    requires IsSource(blocks, simSlot, mode, cap, r)
    ensures var sources := Sources(blocks, simSlot, mode, cap, evalSlot);
      r == if sources == [] then None else Some(sources[0].slot)
  {
    match mode {
      case StrictKMinus1 =>
        if simSlot < MAX_UINT64 {
          FirstExisting(blocks, simSlot + 1, simSlot + 1, r);
          OneSlot(blocks, simSlot + 1);
        }
      case NextNonMissed =>
        if simSlot + cap <= MAX_UINT64 {
          FirstExisting(blocks, simSlot + 1, simSlot + cap, r);
        }
      case GreedyLookahead =>
        if simSlot + cap <= MAX_UINT64 {
          FirstExisting(blocks, simSlot + 1, simSlot + cap, r);
        }
      case FirstSeenGossip =>
    }
  }

  // ----- what the list of sources promises, in every mode

  /** The slots whose votes a mode takes. */
  ghost predicate Chosen(blocks: set<uint64>, simSlot: uint64, mode: Mode, cap: uint64, s: uint64) {
    match mode
    case NextNonMissed => simSlot + cap <= MAX_UINT64 && FirstIn(blocks, simSlot + 1, simSlot + cap, Some(s))
    case StrictKMinus1 => FirstIn(blocks, simSlot + 1, simSlot + 1, Some(s))
    case GreedyLookahead => simSlot + cap <= MAX_UINT64 && simSlot < s <= simSlot + cap && s in blocks
    case FirstSeenGossip => false
    case Unsupported(_) => false
  }

  /** The bound on the votes taken from a source. */
  function VoteBound(mode: Mode, evalSlot: uint64): Option<uint64> {
    if mode == GreedyLookahead then Some(evalSlot) else None
  }

  /** Exactly the chosen slots, ascending, each with the bound of the mode; at most one of them where the mode does not
      look further. */
  ghost predicate SourcesOk(blocks: set<uint64>, simSlot: uint64, mode: Mode, cap: uint64, evalSlot: uint64,
                            sources: seq<Source>)
  {
    && (forall i, j :: 0 <= i < j < |sources| ==> sources[i].slot < sources[j].slot)
    && (forall s: uint64 :: HasSource(sources, s) <==> Chosen(blocks, simSlot, mode, cap, s))
    && (forall i :: 0 <= i < |sources| ==> sources[i].maxAttestationSlot == VoteBound(mode, evalSlot))
    && (mode != GreedyLookahead ==> |sources| <= 1)
  }

  lemma ChosenAhead(blocks: set<uint64>, simSlot: uint64, mode: Mode, cap: uint64, s: uint64)
    requires Chosen(blocks, simSlot, mode, cap, s)
    ensures s in blocks && simSlot < s
  {
  }

  lemma OneSource(sources: seq<Source>)
    requires |sources| <= 1
    ensures forall s: uint64 :: HasSource(sources, s) <==> sources != [] && s == sources[0].slot
  {
    if sources != [] {
      assert HasSource(sources, sources[0].slot);
    }
  }

  lemma FirstChosen(blocks: set<uint64>, lo: int, hi: int)
    requires 0 <= lo && hi <= MAX_UINT64
    ensures var found := Existing(blocks, lo, hi);
      forall s: uint64 :: FirstIn(blocks, lo, hi, Some(s)) <==> found != [] && s == found[0]
  {
    var found := Existing(blocks, lo, hi);
    ExistingExact(blocks, lo, hi);
    if found == [] {
      forall s: uint64
        ensures !FirstIn(blocks, lo, hi, Some(s))
      {
        assert s !in found;
      }
    } else {
      assert found[0] in found;
      forall s: uint64 | lo <= s < found[0]
        ensures s !in blocks
      {
        assert s !in found;
      }
      forall s: uint64 | FirstIn(blocks, lo, hi, Some(s))
        ensures s == found[0]
      {
        FirstExisting(blocks, lo, hi, Some(s));
      }
    }
  }

  /** A list of at most one source, found first in a window. */
  lemma OneIsPromised(blocks: set<uint64>, simSlot: uint64, mode: Mode, cap: uint64, evalSlot: uint64, hi: int,
                      sources: seq<Source>)
    requires (mode == NextNonMissed && hi == simSlot + cap) || (mode == StrictKMinus1 && hi == simSlot + 1)
    requires hi <= MAX_UINT64
    requires var found := Existing(blocks, simSlot + 1, hi);
      sources == if found == [] then [] else [Source(found[0], None)]
    ensures SourcesOk(blocks, simSlot, mode, cap, evalSlot, sources)
  {
    hide Existing;
    OneSource(sources);
    FirstChosen(blocks, simSlot + 1, hi);
    hide FirstIn;
  }

  lemma NoneIsPromised(blocks: set<uint64>, simSlot: uint64, mode: Mode, cap: uint64, evalSlot: uint64)
    requires forall s: uint64 :: !Chosen(blocks, simSlot, mode, cap, s)
    ensures SourcesOk(blocks, simSlot, mode, cap, evalSlot, [])
  {
    hide Chosen;
    OneSource([]);
  }

  lemma SourcesArePromised(blocks: set<uint64>, simSlot: uint64, mode: Mode, cap: uint64, evalSlot: uint64)
    ensures SourcesOk(blocks, simSlot, mode, cap, evalSlot, Sources(blocks, simSlot, mode, cap, evalSlot))
  {
    var sources := Sources(blocks, simSlot, mode, cap, evalSlot);
    if mode == GreedyLookahead {
      GreedyIsWindow(blocks, simSlot, cap, evalSlot);
    } else {
      hide SourcesOk, Existing;
      if mode == NextNonMissed && simSlot + cap <= MAX_UINT64 {
        OneIsPromised(blocks, simSlot, mode, cap, evalSlot, simSlot + cap, sources);
      } else if mode == StrictKMinus1 && simSlot < MAX_UINT64 {
        OneSlot(blocks, simSlot + 1);
        OneIsPromised(blocks, simSlot, mode, cap, evalSlot, simSlot + 1, sources);
      } else {
        NoneIsPromised(blocks, simSlot, mode, cap, evalSlot);
      }
    }
  }

  /** The promise leaves one list. */
  lemma PromisedSourcesUnique(blocks: set<uint64>, simSlot: uint64, mode: Mode, cap: uint64, evalSlot: uint64,
                              a: seq<Source>, b: seq<Source>)
    requires SourcesOk(blocks, simSlot, mode, cap, evalSlot, a) && SourcesOk(blocks, simSlot, mode, cap, evalSlot, b)
    ensures a == b
  {
    forall x | x in a
      ensures x in b
    {
      SourceElsewhere(blocks, simSlot, mode, cap, evalSlot, a, b, x);
    }
    forall x | x in b
      ensures x in a
    {
      SourceElsewhere(blocks, simSlot, mode, cap, evalSlot, b, a, x);
    }
    AscendingUnique(a, b, SourceBefore);
  }

  predicate SourceBefore(a: Source, b: Source) {
    a.slot < b.slot
  }

  lemma SourceElsewhere(blocks: set<uint64>, simSlot: uint64, mode: Mode, cap: uint64, evalSlot: uint64,
                        a: seq<Source>, b: seq<Source>, x: Source)
    requires SourcesOk(blocks, simSlot, mode, cap, evalSlot, a) && SourcesOk(blocks, simSlot, mode, cap, evalSlot, b)
    requires x in a
    ensures x in b
  {
    hide Chosen;
    var i :| 0 <= i < |a| && a[i] == x;
    assert HasSource(a, x.slot);
    assert HasSource(b, x.slot);
    var j :| 0 <= j < |b| && b[j].slot == x.slot;
    assert b[j] == x;
  }

  // ----- sources over the era files

  /** The slots with a canonical block. */
  ghost function EraSlots(era: Era): set<uint64> {
    set s: uint64 | 0 <= s <= MAX_UINT64 && era(s).Present?
  }

  /** A slot whose blocks' votes count for `simSlot`. */
  ghost predicate SourceSlot(env: Env, simSlot: uint64, s: uint64) {
    Chosen(EraSlots(env.era), simSlot, env.mode, env.cap, s)
  }

  lemma SourceSlotAhead(env: Env, simSlot: uint64, s: uint64)
    requires SourceSlot(env, simSlot, s)
    ensures simSlot < s && env.era(s).Present?
  {
  }

  /** Only the window of the mode matters. */
  lemma SameChoice(a: set<uint64>, b: set<uint64>, simSlot: uint64, mode: Mode, cap: uint64, s: uint64)
    requires forall t: uint64 :: simSlot < t <= simSlot + (if mode == StrictKMinus1 then 1 else cap) ==>
      (t in a <==> t in b)
    requires Chosen(a, simSlot, mode, cap, s)
    ensures Chosen(b, simSlot, mode, cap, s)
  {
  }

  /** The planner's list of sources promises the same over the era files as over the slots it has looked up. */
  lemma EraSources(env: Env, blocks: set<uint64>, simSlot: uint64, cap: uint64, evalSlot: uint64)
    requires env.mode == StrictKMinus1 || cap == env.cap
    requires forall s: uint64 :: simSlot < s <= simSlot + (if env.mode == StrictKMinus1 then 1 else cap) ==>
      (s in blocks <==> env.era(s).Present?)
    ensures SourcesOk(EraSlots(env.era), simSlot, env.mode, env.cap, evalSlot,
                      Sources(blocks, simSlot, env.mode, cap, evalSlot))
  {
    SourcesArePromised(blocks, simSlot, env.mode, cap, evalSlot);
    forall s: uint64
      ensures SourceSlot(env, simSlot, s) <==> Chosen(blocks, simSlot, env.mode, cap, s)
    {
      if SourceSlot(env, simSlot, s) {
        SameChoice(EraSlots(env.era), blocks, simSlot, env.mode, cap, s);
      }
      if Chosen(blocks, simSlot, env.mode, cap, s) {
        SameChoice(blocks, EraSlots(env.era), simSlot, env.mode, cap, s);
      }
    }
  }

  lemma OneSlot(blocks: set<uint64>, s: uint64)
    ensures Existing(blocks, s, s) == if s in blocks then [s] else []
  {
    assert Existing(blocks, s + 1, s) == [];
  }
}
