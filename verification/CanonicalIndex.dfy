/** The shared index of canonical blocks: what has been read from the era files, by slot and by root. */
module CanonicalIndex {
  import opened Core
  import opened SlotRanges
  import opened Blocks

  ghost function Window(from: uint64, to: uint64): set<uint64> {
    Span(SlotRange(from, to))
  }

  /** The slots of a set that hold a canonical block. */
  ghost function PresentIn(era: Era, slots: set<uint64>): set<uint64> {
    set s | s in slots && era(s).Present?
  }

  /** The two maps index exactly the era blocks of `slots`. */
  ghost predicate Holds(era: Era, slots: set<uint64>, bySlot: map<uint64, Block>, byRoot: map<Root, Block>) {
    && bySlot.Keys == slots
    && (forall s :: s in slots ==> era(s) == Present(bySlot[s]) && bySlot[s].root in byRoot)
    && (forall r :: r in byRoot ==>
      byRoot[r].root == r && byRoot[r].slot in slots && era(byRoot[r].slot) == Present(byRoot[r]))
  }

  /** The two maps hold exactly the era blocks of the loaded slots, and every loaded slot was readable. */
  ghost predicate Agrees(era: Era, loaded: set<uint64>, bySlot: map<uint64, Block>, byRoot: map<Root, Block>) {
    && (forall s :: s in loaded ==> !era(s).Unreadable?)
    && Holds(era, PresentIn(era, loaded), bySlot, byRoot)
  }

  /** The blocks a successful load of `gap` returns, in some order. */
  ghost predicate BlocksOf(era: Era, gap: SlotRange, infos: seq<Block>) {
    && (forall s: uint64 :: In(gap, s) ==> !era(s).Unreadable?)
    && (forall b :: b in infos ==> In(gap, b.slot) && era(b.slot) == Present(b))
    && (forall s: uint64 :: In(gap, s) && era(s).Present? ==> era(s).block in infos)
  }

  function StoreBySlot(m: map<uint64, Block>, infos: seq<Block>): map<uint64, Block>
    decreases |infos|
  {
    if infos == [] then m else StoreBySlot(m[infos[0].slot := infos[0]], infos[1..])
  }

  function StoreByRoot(m: map<Root, Block>, infos: seq<Block>): map<Root, Block>
    decreases |infos|
  {
    if infos == [] then m else StoreByRoot(m[infos[0].root := infos[0]], infos[1..])
  }

  ghost function SlotsOf(infos: seq<Block>): set<uint64> {
    set b | b in infos :: b.slot
  }

  lemma StoreOne(era: Era, slots: set<uint64>, bySlot: map<uint64, Block>, byRoot: map<Root, Block>, b: Block)
    requires Holds(era, slots, bySlot, byRoot) && era(b.slot) == Present(b)
    ensures Holds(era, slots + {b.slot}, bySlot[b.slot := b], byRoot[b.root := b])
  {
  }

  lemma {:induction false} StoreHolds(era: Era, slots: set<uint64>, bySlot: map<uint64, Block>,
                                      byRoot: map<Root, Block>, infos: seq<Block>)
    requires Holds(era, slots, bySlot, byRoot)
    requires forall b :: b in infos ==> era(b.slot) == Present(b)
    ensures Holds(era, slots + SlotsOf(infos), StoreBySlot(bySlot, infos), StoreByRoot(byRoot, infos))
    decreases |infos|
  {
    SlotsOfHead(slots, infos);
    if infos != [] {
      StoreOne(era, slots, bySlot, byRoot, infos[0]);
      StoreHolds(era, slots + {infos[0].slot}, bySlot[infos[0].slot := infos[0]], byRoot[infos[0].root := infos[0]],
        infos[1..]);
    }
  }

  lemma SlotsOfHead(slots: set<uint64>, infos: seq<Block>)
    ensures infos == [] ==> slots + SlotsOf(infos) == slots
    ensures infos != [] ==> slots + {infos[0].slot} + SlotsOf(infos[1..]) == slots + SlotsOf(infos)
  {
    if infos != [] {
      assert infos == [infos[0]] + infos[1..];
    }
  }

  /** Publishing the blocks of a gap extends the agreement to the gap's slots. */
  lemma StoreAgrees(era: Era, loaded: set<uint64>, bySlot: map<uint64, Block>, byRoot: map<Root, Block>, gap: SlotRange,
                    infos: seq<Block>)
    requires ValidEra(era) && Agrees(era, loaded, bySlot, byRoot) && BlocksOf(era, gap, infos)
    ensures Agrees(era, loaded + Span(gap), StoreBySlot(bySlot, infos), StoreByRoot(byRoot, infos))
  {
    StoreHolds(era, PresentIn(era, loaded), bySlot, byRoot, infos);
    PresentInGap(era, loaded, gap, infos);
  }

  lemma PresentInGap(era: Era, loaded: set<uint64>, gap: SlotRange, infos: seq<Block>)
    requires ValidEra(era) && BlocksOf(era, gap, infos)
    ensures PresentIn(era, loaded) + SlotsOf(infos) == PresentIn(era, loaded + Span(gap))
  {
    forall s | s in Span(gap) && era(s).Present?
      ensures s in SlotsOf(infos)
    {
      assert era(s).block in infos;
    }
  }

  /** Two canonical blocks with one root are one block, so a root lookup is a search of the loaded slots. */
  lemma RootLookup(era: Era, loaded: set<uint64>, bySlot: map<uint64, Block>, byRoot: map<Root, Block>, root: Root,
                   s: uint64)
    requires ValidEra(era) && Agrees(era, loaded, bySlot, byRoot)
    requires s in loaded && era(s).Present? && era(s).block.root == root
    ensures root in byRoot && byRoot[root].slot == s
  {
    assert s in PresentIn(era, loaded);
  }

  ghost function CopiedSlots(all: set<uint64>, rest: set<uint64>, from: uint64, to: uint64): set<uint64> {
    (all - rest) * Window(from, to)
  }

  lemma CopiedStep(all: set<uint64>, rest: set<uint64>, slot: uint64, from: uint64, to: uint64)
    requires slot in rest && rest <= all
    ensures from <= slot <= to ==>
      CopiedSlots(all, rest - {slot}, from, to) == CopiedSlots(all, rest, from, to) + {slot}
    ensures !(from <= slot <= to) ==> CopiedSlots(all, rest - {slot}, from, to) == CopiedSlots(all, rest, from, to)
  {
  }

  lemma HoldsNothing(era: Era)
    ensures Holds(era, {}, map[], map[])
  {
  }

  lemma CopiedEnds(all: set<uint64>, from: uint64, to: uint64)
    ensures CopiedSlots(all, all, from, to) == {} && CopiedSlots(all, {}, from, to) == all * Window(from, to)
  {
    assert all - {} == all;
  }

  lemma PresentWindow(era: Era, slots: set<uint64>, from: uint64, to: uint64)
    ensures PresentIn(era, slots) * Window(from, to) == PresentIn(era, slots * Window(from, to))
  {
  }

  /** Copies the blocks of a window out of an index, in any order. */
  method CopyWindow(ghost era: Era, bySlot: map<uint64, Block>, ghost byRoot: map<Root, Block>, from: uint64,
                    to: uint64)
    returns (slots: map<uint64, Block>, roots: map<Root, Block>)
    requires ValidEra(era) && Holds(era, bySlot.Keys, bySlot, byRoot)
    ensures Holds(era, bySlot.Keys * Window(from, to), slots, roots)
  {
    hide Holds, CopiedSlots;
    slots, roots := map[], map[];
    var rest := bySlot.Keys;
    HoldsNothing(era);
    CopiedEnds(bySlot.Keys, from, to);
    while rest != {}
      invariant rest <= bySlot.Keys
      invariant Holds(era, CopiedSlots(bySlot.Keys, rest, from, to), slots, roots)
      decreases rest
    {
      var slot :| slot in rest;
      CopiedStep(bySlot.Keys, rest, slot, from, to);
      if from <= slot <= to {
        var info := bySlot[slot];
        BlockAt(era, bySlot, byRoot, slot);
        StoreOne(era, CopiedSlots(bySlot.Keys, rest, from, to), slots, roots, info);
        slots := slots[slot := info];
        roots := roots[info.root := info];
      }
      rest := rest - {slot};
    }
  }

  lemma BlockAt(era: Era, bySlot: map<uint64, Block>, byRoot: map<Root, Block>, slot: uint64)
    requires ValidEra(era) && Holds(era, bySlot.Keys, bySlot, byRoot) && slot in bySlot
    ensures bySlot[slot].slot == slot && era(slot) == Present(bySlot[slot])
  {
  }

  /** How many claims a caller owns. */
  function Claims(own: Option<SlotRange>): nat {
    if own.Some? then 1 else 0
  }

  lemma GapIsProper(ranges: seq<SlotRange>, gap: SlotRange)
    requires Ordered(ranges) && gap in ranges
    ensures gap.from <= gap.to
  {
  }

  /** What the three demands mean for the caller. */
  lemma DemandMeans(loaded: seq<SlotRange>, loading: seq<SlotRange>, from: uint64, to: uint64)
    ensures IsDemand(loaded, loading, from, to, Satisfied) ==> Window(from, to) <= Slots(loaded)
    ensures forall slot :: IsDemand(loaded, loading, from, to, Wait(slot)) ==> loading != []
    ensures forall gap :: IsDemand(loaded, loading, from, to, Load(gap)) ==>
      from <= gap.from && gap.to <= to && MaximalGap(loaded, loading, to, gap)
  {
  }

  /** Loading the gap leaves strictly fewer slots of the request open. */
  lemma GapCloses(loaded: seq<SlotRange>, from: uint64, to: uint64, gap: SlotRange)
    requires FirstUncovered(loaded, from, to, gap.from) && gap.from <= gap.to <= to
    ensures Span(gap) <= Window(from, to)
    ensures Window(from, to) - (Slots(loaded) + Span(gap)) < Window(from, to) - Slots(loaded)
  {
    assert In(gap, gap.from);
    assert gap.from in Window(from, to) - Slots(loaded);
  }

  class CanonicalBlockIndex {
    const era: Era
    var loaded: seq<SlotRange>
    var loading: seq<SlotRange>
    var bySlot: map<uint64, Block>
    var byRoot: map<Root, Block>

    /** How many steps the other callers will still take; in a schedule of finitely many calls there is such a
        number. */
    var others: nat

    ghost predicate Sound()
      reads this
    {
      && ValidEra(era)
      && Tracked(loaded, loading)
      && Agrees(era, Slots(loaded), bySlot, byRoot)
    }

    /** The state in which a caller that owns at most the claim `own` finds the index: every other claim belongs to
        another caller, who has yet to release it. */
    ghost predicate Shared(own: Option<SlotRange>)
      reads this
    {
      && Sound()
      && (own.Some? ==> own.value in loading)
      && |loading| <= others + Claims(own)
    }

    ghost predicate Valid()
      reads this
    {
      Shared(None)
    }

    constructor (era: Era, others: nat)
      requires ValidEra(era)
      ensures Valid() && this.era == era && this.others == others && Slots(loaded) == {}
    {
      this.era, this.others := era, others;
      loaded, loading, bySlot, byRoot := [], [], map[], map[];
    }

    // ----- what other callers do meanwhile

    /** One step of another caller: it claims a gap that it needs, releases a claim with or without its blocks, or
        leaves the index as it is. A caller that took all its other steps has to release its claim. */
    method OthersStep(own: Option<SlotRange>)
      requires Shared(own) && others > 0
      modifies this
      ensures Shared(own) && others == old(others) - 1 && Slots(old(loaded)) <= Slots(loaded)
    {
      hide Slots, Agrees, Tracked;
      var claim: bool, k: nat := *, *;
      if claim && |loading| + 2 <= others + Claims(own) {
        ClaimForOther();
      } else if k < |loading| && Some(loading[k]) != own {
        var infos := LoadRangeForOther(loading[k]);
        Release(loading[k], infos);
      } else if |loading| == others + Claims(own) {
        var gap := ClaimOfOther(own);
        var infos := LoadRangeForOther(gap);
        Release(gap, infos);
      }
      others := others - 1;
    }

    /** Any caller may need any range. */
    method ClaimForOther()
      requires Sound()
      modifies this`loading
      ensures Sound() && |loading| <= |old(loading)| + 1 && forall g :: g in old(loading) ==> g in loading
    {
      var from: uint64, to: uint64 := *, *;
      if from <= to {
        var demand := NextGap(loaded, loading, from, to);
        if demand.Load? {
          ClaimTracked(loaded, loading, demand.gap);
          loading := InsertSlotRange(loading, demand.gap);
        }
      }
    }

    method LoadRangeForOther(gap: SlotRange) returns (infos: Option<seq<Block>>)
      requires Sound() && gap in loading
      ensures infos.Some? ==> BlocksOf(era, gap, infos.value)
    {
      infos := LoadRange(gap);
    }

    /** A claim that is not the caller's own: the lists are never longer than the others can account for. */
    function ClaimOfOther(own: Option<SlotRange>): (r: SlotRange)
      requires Shared(own) && |loading| > Claims(own)
      reads this
      ensures r in loading && Some(r) != own
    {
      if Some(loading[0]) != own then loading[0] else loading[1]
    }

    /** Other callers take as many steps as they like. */
    method Others(own: Option<SlotRange>)
      requires Shared(own)
      modifies this
      ensures Shared(own) && others <= old(others) && Slots(old(loaded)) <= Slots(loaded)
      ensures others == old(others) ==> loaded == old(loaded) && loading == old(loading)
    {
      hide Slots, Agrees, Tracked;
      var more: bool := *;
      while more && others > 0
        invariant Shared(own) && others <= old(others) && Slots(old(loaded)) <= Slots(loaded)
        invariant others == old(others) ==> loaded == old(loaded) && loading == old(loading)
        decreases others
      {
        OthersStep(own);
        more := *;
      }
    }

    // ----- a call

    /** Loads every slot of [from, to] that is not loaded yet, in chunks, while other callers do the same; returns for
        every schedule of theirs, and fails exactly when a slot of the request is unreadable. A lone caller loads
        nothing else. */
    method EnsureRange(from: uint64, to: uint64) returns (ok: bool)
      requires Valid()
      modifies this
      ensures Valid() && others <= old(others)
      ensures ok <==> forall s: uint64 :: from <= s <= to ==> !era(s).Unreadable?
      ensures ok ==> Window(from, to) <= Slots(loaded)
      ensures Slots(old(loaded)) <= Slots(loaded)
      ensures old(others) == 0 ==> Slots(loaded) <= Slots(old(loaded)) + Window(from, to)
    {
      if from > to {
        assert Window(from, to) == {};
        return true;
      }
      hide Slots, Window, Agrees, Tracked;
      while true
        invariant Valid() && others <= old(others)
        invariant Slots(old(loaded)) <= Slots(loaded)
        invariant old(others) == 0 ==> Slots(loaded) <= Slots(old(loaded)) + Window(from, to)
        decreases others, Window(from, to) - Slots(loaded)
      {
        DemandMeans(loaded, loading, from, to);
        var demand := NextDemand(from, to);
        match demand {
          case Satisfied =>
            SatisfiedIsReadable(from, to);
            return true;
          case Wait(slot) =>
            // The claim that holds the slot is another caller's, who has yet to release it.
            OthersStep(None);
          case Load(gap) =>
            GapCloses(loaded, from, to, gap);
            var loadedOk := ClaimAndLoad(from, to, gap);
            if !loadedOk {
              return false;
            }
            Others(None);
        }
      }
    }

    /** The first critical section asks for the next gap. */
    method NextDemand(from: uint64, to: uint64) returns (demand: Demand)
      requires Sound() && from <= to
      ensures IsDemand(loaded, loading, from, to, demand)
    {
      demand := NextGap(loaded, loading, from, to);
    }

    lemma SatisfiedIsReadable(from: uint64, to: uint64)
      requires Valid() && Window(from, to) <= Slots(loaded)
      ensures forall s: uint64 :: from <= s <= to ==> !era(s).Unreadable?
    {
      forall s: uint64 | from <= s <= to
        ensures !era(s).Unreadable?
      {
        assert s in Window(from, to);
      }
    }

    /** The claim, the load without the lock, and the release. */
    method ClaimAndLoad(from: uint64, to: uint64, gap: SlotRange) returns (ok: bool)
      requires Valid() && from <= gap.from && gap.to <= to && MaximalGap(loaded, loading, to, gap)
      modifies this
      ensures Valid() && others <= old(others) && Slots(old(loaded)) <= Slots(loaded)
      ensures others == old(others) && ok ==> Slots(loaded) == Slots(old(loaded)) + Span(gap)
      ensures old(others) == 0 ==> Slots(loaded) <= Slots(old(loaded)) + Span(gap)
      ensures !ok ==> exists s: uint64 :: from <= s <= to && era(s).Unreadable?
    {
      hide Slots, Agrees, Tracked;
      ClaimTracked(loaded, loading, gap);
      loading := InsertSlotRange(loading, gap);
      Others(Some(gap));
      var infos := LoadRange(gap);
      Others(Some(gap));
      Release(gap, infos);
      ok := infos.Some?;
    }

    /** The second critical section: the claim goes, and after a successful load its blocks are stored. */
    method Release(gap: SlotRange, infos: Option<seq<Block>>)
      requires Sound() && gap in loading
      requires infos.Some? ==> BlocksOf(era, gap, infos.value)
      modifies this`loading, this`loaded, this`bySlot, this`byRoot
      ensures Sound() && |loading| == |old(loading)| - 1 && forall g :: g in loading <==> g in old(loading) && g != gap
      ensures Slots(loaded) == if infos.Some? then Slots(old(loaded)) + Span(gap) else Slots(old(loaded))
    {
      ghost var before := loaded;
      var rest := RemoveSlotRange(loading, gap);
      if infos.Some? {
        GapIsProper(loading, gap);
        StoreAgrees(era, Slots(loaded), bySlot, byRoot, gap, infos.value);
        AddAll(infos.value);
        loaded := AddSlotRange(loaded, gap);
      }
      ReleaseTracked(before, loaded, loading, gap);
      loading := rest;
    }

    /** Puts the blocks into both maps. */
    method AddAll(infos: seq<Block>)
      modifies this`bySlot, this`byRoot
      ensures bySlot == StoreBySlot(old(bySlot), infos) && byRoot == StoreByRoot(old(byRoot), infos)
    {
      for k := 0 to |infos|
        invariant StoreBySlot(bySlot, infos[k..]) == StoreBySlot(old(bySlot), infos)
        invariant StoreByRoot(byRoot, infos[k..]) == StoreByRoot(old(byRoot), infos)
      {
        bySlot := bySlot[infos[k].slot := infos[k]];
        byRoot := byRoot[infos[k].root := infos[k]];
        assert infos[k..][1..] == infos[k + 1..];
      }
    }

    /** Reads the slots of a range in order and stops at the first failure. */
    method LoadRange(r: SlotRange) returns (infos: Option<seq<Block>>)
      requires ValidEra(era) && r.from <= r.to
      ensures infos.None? ==> exists s: uint64 :: In(r, s) && era(s).Unreadable?
      ensures infos.Some? ==> BlocksOf(era, r, infos.value)
    {
      var found: seq<Block> := [];
      var slot := r.from;
      while true
        invariant In(r, slot)
        invariant forall s: uint64 :: r.from <= s < slot ==> !era(s).Unreadable?
        invariant forall b :: b in found ==> r.from <= b.slot < slot && era(b.slot) == Present(b)
        invariant forall s: uint64 :: r.from <= s < slot && era(s).Present? ==> era(s).block in found
        decreases r.to - slot
      {
        match era(slot) {
          case Unreadable => return None;
          case Missed =>
          case Present(block) => found := found + [block];
        }
        if slot == r.to || slot == MAX_UINT64 {
          return Some(found);
        }
        slot := slot + 1;
      }
    }

    /** A copy of the loaded blocks of a window. */
    method SnapshotRange(from: uint64, to: uint64) returns (slots: map<uint64, Block>, roots: map<Root, Block>)
      requires Valid()
      ensures Holds(era, PresentIn(era, Slots(loaded) * Window(from, to)), slots, roots)
    {
      PresentWindow(era, Slots(loaded), from, to);
      slots, roots := CopyWindow(era, bySlot, byRoot, from, to);
    }

    /** Loads one slot on its own and looks it up: the index read of a block outside every window. */
    method CanonicalInfoAtSlot(slot: uint64) returns (r: Option<Option<Block>>)
      requires Valid()
      modifies this
      ensures Valid() && Slots(old(loaded)) <= Slots(loaded)
      ensures r == match era(slot) case Unreadable => None case Missed => Some(None)
        case Present(block) => Some(Some(block))
    {
      var ok := EnsureRange(slot, slot);
      if !ok {
        return None;
      }
      assert slot in Window(slot, slot);
      Others(None);
      return Some(InfoBySlot(slot));
    }

    function InfoBySlot(slot: uint64): (r: Option<Block>)
      requires Valid()
      reads this
      ensures slot in Slots(loaded) ==> r == (if era(slot).Present? then Some(era(slot).block) else None)
      ensures slot !in Slots(loaded) ==> r.None?
    {
      if slot in bySlot then Some(bySlot[slot]) else None
    }

    function InfoByRoot(root: Root): (r: Option<Block>)
      requires Valid()
      reads this
      ensures r.Some? <==> exists s :: s in Slots(loaded) && era(s).Present? && era(s).block.root == root
      ensures r.Some? ==> r.value.root == root && r.value.slot in Slots(loaded) && era(r.value.slot) == Present(r.value)
    {
      assert forall s :: s in Slots(loaded) && era(s).Present? && era(s).block.root == root ==> root in byRoot by {
        forall s | s in Slots(loaded) && era(s).Present? && era(s).block.root == root
          ensures root in byRoot
        {
          RootLookup(era, Slots(loaded), bySlot, byRoot, root, s);
        }
      }
      if root in byRoot then Some(byRoot[root]) else None
    }
  }
}
