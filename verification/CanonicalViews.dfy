/** The two ways the planner looks at the canonical chain: a private copy of a window, and a window on the shared
    index. */
module CanonicalViews {
  import opened Core
  import opened SlotRanges
  import opened Blocks
  import opened CanonicalIndex
  import opened PlanSpec

  lemma ShownIsIndexed(era: Era, slots: set<uint64>, bySlot: map<uint64, Block>, byRoot: map<Root, Block>, root: Root)
    requires Holds(era, slots, bySlot, byRoot)
    ensures root in byRoot <==> RootShown(era, slots, root)
  {
    if root in byRoot {
      assert byRoot[root].slot in slots;
    }
    if s :| s in slots && era(s).Present? && era(s).block.root == root {
      assert era(s) == Present(bySlot[s]);
    }
  }

  /** Go's canonicalBlockMap: a copy of a window that grows with what the planner finds. */
  class CanonicalBlockMap {
    const era: Era
    var bySlot: map<uint64, Block>
    var byRoot: map<Root, Block>

    ghost predicate Valid()
      reads this
    {
      ValidEra(era) && Holds(era, bySlot.Keys, bySlot, byRoot)
    }

    ghost function Visible(): set<uint64>
      reads this
    {
      bySlot.Keys
    }

    constructor (era: Era, bySlot: map<uint64, Block>, byRoot: map<Root, Block>)
      requires ValidEra(era) && Holds(era, bySlot.Keys, bySlot, byRoot)
      ensures Valid() && this.era == era && Visible() == bySlot.Keys
    {
      this.era, this.bySlot, this.byRoot := era, bySlot, byRoot;
    }

    function InfoBySlot(slot: uint64): (r: Option<Block>)
      requires Valid()
      reads this
      ensures r == ShownAt(era, Visible(), slot)
    {
      if slot in bySlot then Some(bySlot[slot]) else None
    }

    predicate RootKnown(root: Root)
      requires Valid()
      reads this
      ensures RootKnown(root) <==> RootShown(era, Visible(), root)
    {
      ShownIsIndexed(era, bySlot.Keys, bySlot, byRoot, root);
      root in byRoot
    }

    method Add(info: Block)
      requires Valid() && era(info.slot) == Present(info)
      modifies this
      ensures Valid() && Visible() == old(Visible()) + {info.slot}
    {
      StoreOne(era, bySlot.Keys, bySlot, byRoot, info);
      bySlot := bySlot[info.slot := info];
      byRoot := byRoot[info.root := info];
    }
  }

  lemma ShownEither(era: Era, a: set<uint64>, b: set<uint64>, root: Root)
    ensures RootShown(era, a + b, root) <==> RootShown(era, a, root) || RootShown(era, b, root)
  {
    if s :| s in a && era(s).Present? && era(s).block.root == root {
      assert s in a + b;
    }
    if s :| s in b && era(s).Present? && era(s).block.root == root {
      assert s in a + b;
    }
  }

  /** In a loaded window a root is shown exactly when the index finds it there. */
  lemma ShownIsFound(era: Era, loaded: seq<SlotRange>, from: uint64, to: uint64, root: Root, found: Option<Block>)
    requires ValidEra(era) && Window(from, to) <= Slots(loaded)
    requires found.Some? <==> exists s :: s in Slots(loaded) && era(s).Present? && era(s).block.root == root
    requires found.Some? ==> found.value.root == root && era(found.value.slot) == Present(found.value)
    ensures RootShown(era, PresentIn(era, Window(from, to)), root) <==> found.Some? && from <= found.value.slot <= to
  {
    hide Slots;
    if found.Some? && from <= found.value.slot <= to {
      assert found.value.slot in PresentIn(era, Window(from, to));
    }
  }

  /** Go's canonicalBlockView: a window on the shared index, and the blocks found outside it. */
  class CanonicalBlockView {
    const index: CanonicalBlockIndex
    const from: uint64
    const to: uint64
    var extraBySlot: map<uint64, Block>
    var extraByRoot: map<Root, Block>

    /** The window was loaded before the view was opened. */
    ghost predicate Valid()
      reads this, index
    {
      && index.Valid()
      && Window(from, to) <= Slots(index.loaded)
      && Holds(index.era, extraBySlot.Keys, extraBySlot, extraByRoot)
    }

    /** What a view shows depends on its window and on what was added, not on what else the index has loaded. */
    ghost function Visible(): set<uint64>
      reads this
    {
      PresentIn(index.era, Window(from, to)) + extraBySlot.Keys
    }

    constructor (index: CanonicalBlockIndex, from: uint64, to: uint64)
      requires index.Valid() && Window(from, to) <= Slots(index.loaded)
      ensures Valid() && this.index == index && Visible() == PresentIn(index.era, Window(from, to))
    {
      this.index, this.from, this.to := index, from, to;
      extraBySlot, extraByRoot := map[], map[];
    }

    function InfoBySlot(slot: uint64): (r: Option<Block>)
      requires Valid()
      reads this, index
      ensures r == ShownAt(index.era, Visible(), slot)
    {
      if from <= slot <= to && index.InfoBySlot(slot).Some? then index.InfoBySlot(slot)
      else if slot in extraBySlot then Some(extraBySlot[slot])
      else None
    }

    predicate RootKnown(root: Root)
      requires Valid()
      reads this, index
      ensures RootKnown(root) <==> RootShown(index.era, Visible(), root)
    {
      ShownInWindow(root);
      root in extraByRoot || (index.InfoByRoot(root).Some? && from <= index.InfoByRoot(root).value.slot <= to)
    }

    /** A root shown by the view is an added one, or the index finds it at a slot of the window. */
    lemma ShownInWindow(root: Root)
      requires Valid()
      ensures RootShown(index.era, Visible(), root) <==>
        root in extraByRoot || (index.InfoByRoot(root).Some? && from <= index.InfoByRoot(root).value.slot <= to)
    {
      hide Normal, Slots, Holds, Tracked, Window;
      var era := index.era;
      ShownEither(era, PresentIn(era, Window(from, to)), extraBySlot.Keys, root);
      ShownIsIndexed(era, extraBySlot.Keys, extraBySlot, extraByRoot, root);
      ShownIsFound(era, index.loaded, from, to, root, index.InfoByRoot(root));
    }

    method Add(info: Block)
      requires Valid() && index.era(info.slot) == Present(info)
      modifies this
      ensures Valid() && Visible() == old(Visible()) + {info.slot}
    {
      StoreOne(index.era, extraBySlot.Keys, extraBySlot, extraByRoot, info);
      extraBySlot := extraBySlot[info.slot := info];
      extraByRoot := extraByRoot[info.root := info];
    }

    /** Whatever other workers load into the shared index meanwhile, the view stays usable and shows the same blocks. */
    twostate lemma OthersMayLoad()
      requires old(Valid()) && index.Valid()
      requires Slots(old(index.loaded)) <= Slots(index.loaded)
      requires extraBySlot == old(extraBySlot) && extraByRoot == old(extraByRoot)
      ensures Valid() && Visible() == old(Visible())
      ensures forall slot :: InfoBySlot(slot) == old(InfoBySlot(slot))
      ensures forall root :: RootKnown(root) == old(RootKnown(root))
    {
    }
  }

  /** A view and a map of the same window answer alike, before and after the same additions. */
  lemma ViewRefinesMap(v: CanonicalBlockView, m: CanonicalBlockMap)
    requires v.Valid() && m.Valid() && v.index.era == m.era && v.Visible() == m.Visible()
    ensures forall slot :: v.InfoBySlot(slot) == m.InfoBySlot(slot)
    ensures forall root :: v.RootKnown(root) <==> m.RootKnown(root)
  {
  }

  /** Go's interface canonicalBlocks with its two implementations. */
  datatype CanonicalBlocks = AsMap(blocks: CanonicalBlockMap) | AsView(view: CanonicalBlockView) {
    function Repr(): set<object> {
      match this
      case AsMap(m) => {m}
      case AsView(v) => {v}
    }

    ghost predicate Valid(index: CanonicalBlockIndex)
      reads Repr(), index
    {
      match this
      case AsMap(m) => m.Valid() && m.era == index.era
      case AsView(v) => v.index == index && v.Valid()
    }

    ghost function Visible(): set<uint64>
      reads Repr()
    {
      match this
      case AsMap(m) => m.Visible()
      case AsView(v) => v.Visible()
    }

    function InfoBySlot(slot: uint64, index: CanonicalBlockIndex): (r: Option<Block>)
      requires Valid(index)
      reads Repr(), index
      ensures r == ShownAt(index.era, Visible(), slot)
    {
      match this
      case AsMap(m) => m.InfoBySlot(slot)
      case AsView(v) => v.InfoBySlot(slot)
    }

    predicate RootKnown(root: Root, index: CanonicalBlockIndex)
      requires Valid(index)
      reads Repr(), index
      ensures RootKnown(root, index) <==> RootShown(index.era, Visible(), root)
    {
      match this
      case AsMap(m) => m.RootKnown(root)
      case AsView(v) => v.RootKnown(root)
    }

    method Add(info: Block, index: CanonicalBlockIndex)
      requires Valid(index) && index.era(info.slot) == Present(info)
      modifies Repr()
      ensures Valid(index) && Visible() == old(Visible()) + {info.slot}
    {
      match this {
        case AsMap(m) => m.Add(info);
        case AsView(v) => v.Add(info);
      }
    }
  }
}
