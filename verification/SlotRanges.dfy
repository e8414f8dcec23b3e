/** Interval lists of slots: the data structure of the canonical block index. */
module SlotRanges {
  import opened Core

  const LOAD_CHUNK: int := 256

  datatype SlotRange = SlotRange(from: uint64, to: uint64)

  predicate In(r: SlotRange, s: uint64) {
    r.from <= s <= r.to
  }

  ghost predicate Covered(ranges: seq<SlotRange>, s: uint64) {
    exists i :: 0 <= i < |ranges| && In(ranges[i], s)
  }

  /** Sorted and pairwise disjoint. */
  ghost predicate Ordered(ranges: seq<SlotRange>) {
    && (forall i :: 0 <= i < |ranges| ==> ranges[i].from <= ranges[i].to)
    && (forall i, j :: 0 <= i < j < |ranges| ==> ranges[i].to < ranges[j].from)
  }

  /** Sorted, pairwise disjoint and never adjacent: at least one free slot lies between two ranges. */
  ghost predicate Normal(ranges: seq<SlotRange>) {
    && Ordered(ranges)
    && (forall i, j :: 0 <= i < j < |ranges| ==> ranges[i].to + 1 < ranges[j].from)
  }

  ghost predicate Disjoint(r: SlotRange, ranges: seq<SlotRange>) {
    forall s: uint64 :: In(r, s) ==> !Covered(ranges, s)
  }

  /** Go's rangeBefore: neither overlapping nor adjacent, without wrapping at MaxUint64. */
  predicate Before(left: SlotRange, right: SlotRange) {
    left.to != MAX_UINT64 && left.to + 1 < right.from
  }

  ghost function Span(r: SlotRange): set<uint64> {
    set s: uint64 | 0 <= s <= MAX_UINT64 && In(r, s)
  }

  /** The slots a list covers. */
  ghost function Slots(ranges: seq<SlotRange>): set<uint64> {
    set s: uint64 | 0 <= s <= MAX_UINT64 && Covered(ranges, s)
  }

  lemma SlotsAppend(ranges: seq<SlotRange>, r: SlotRange)
    ensures Slots(ranges + [r]) == Slots(ranges) + Span(r)
  {
    var all := ranges + [r];
    assert all[|ranges|] == r;
    forall s | s in Slots(ranges)
      ensures s in Slots(all)
    {
      var i :| 0 <= i < |ranges| && In(ranges[i], s);
      assert In(all[i], s);
    }
    assert forall s: uint64 :: In(r, s) ==> In(all[|ranges|], s);
  }

  method RangeContainingSlot(ranges: seq<SlotRange>, slot: uint64) returns (r: Option<SlotRange>)
    requires Ordered(ranges)
    ensures r.Some? ==> r.value in ranges && In(r.value, slot)
    ensures r.None? ==> !Covered(ranges, slot)
  {
    for i := 0 to |ranges|
      invariant forall k :: 0 <= k < i ==> ranges[k].to < slot
    {
      if slot < ranges[i].from {
        return None;
      }
      if slot <= ranges[i].to {
        return Some(ranges[i]);
      }
    }
    return None;
  }

  /** Adds `next` to a normalised list, merging every range it touches or is adjacent to. */
  method AddSlotRange(ranges: seq<SlotRange>, next: SlotRange) returns (out: seq<SlotRange>)
    requires Normal(ranges) && next.from <= next.to
    ensures out == Union(ranges, next)
    ensures Normal(out)
    ensures Slots(out) == Slots(ranges) + Span(next)
  {
    hide Slots, Span, Merging, Union;
    out := [];
    var merged, inserted := next, false;
    MergingStarts(ranges, next);
    for k := 0 to |ranges|
      invariant Merging(ranges, k, out, merged, inserted)
      invariant Slots(out) + (if inserted then {} else Span(merged)) == Slots(ranges[..k]) + Span(next)
    {
      var current := ranges[k];
      assert ranges[..k + 1] == ranges[..k] + [current];
      SlotsAppend(ranges[..k], current);
      SlotsAppend(out, current);
      if Before(current, merged) {
        KeepBefore(ranges, k, out, merged, inserted);
        out := out + [current];
      } else if Before(merged, current) {
        if !inserted {
          SlotsAppend(out, merged);
          SlotsAppend(out + [merged], current);
          PlaceMerged(ranges, k, out, merged);
          out := out + [merged];
          inserted := true;
        }
        KeepAfter(ranges, k, out, merged);
        out := out + [current];
      } else {
        Absorb(ranges, k, out, merged, inserted);
        merged := Hull(current, merged);
      }
    }
    assert ranges[..|ranges|] == ranges;
    if !inserted {
      SlotsAppend(out, merged);
    }
    MergingEnds(ranges, out, merged, inserted);
    if !inserted {
      out := out + [merged];
    }
    UnionNormal(ranges, next);
    NormalUnique(out, Union(ranges, next));
  }

  /** The reference definition of adding a range: one pass, merging into `next` from the left. */
  function Union(ranges: seq<SlotRange>, next: SlotRange): seq<SlotRange>
    decreases |ranges|
  {
    if ranges == [] then [next]
    else if Before(ranges[0], next) then [ranges[0]] + Union(ranges[1..], next)
    else if Before(next, ranges[0]) then [next] + ranges
    else Union(ranges[1..], Hull(ranges[0], next))
  }

  ghost predicate IsUnion(ranges: seq<SlotRange>, next: SlotRange, out: seq<SlotRange>) {
    && Normal(out) && out != []
    && Slots(out) == Slots(ranges) + Span(next)
    && out[0].from == if ranges != [] && ranges[0].from < next.from then ranges[0].from else next.from
  }

  lemma {:induction false} UnionNormal(ranges: seq<SlotRange>, next: SlotRange)
    requires Normal(ranges) && next.from <= next.to
    ensures IsUnion(ranges, next, Union(ranges, next))
    decreases |ranges|
  {
    if ranges == [] {
      SlotsPrepend(next, []);
      assert [next] + [] == [next];
    } else {
      TailCoverage(ranges);
      if Before(ranges[0], next) {
        UnionNormal(ranges[1..], next);
        UnionBefore(ranges, next, Union(ranges[1..], next));
      } else if Before(next, ranges[0]) {
        SlotsPrepend(next, ranges);
        PrependNormal(next, ranges);
      } else {
        UnionNormal(ranges[1..], Hull(ranges[0], next));
        UnionMerge(ranges, next, Union(ranges[1..], Hull(ranges[0], next)));
      }
    }
  }

  lemma UnionBefore(ranges: seq<SlotRange>, next: SlotRange, rest: seq<SlotRange>)
    requires Normal(ranges) && ranges != [] && next.from <= next.to && Before(ranges[0], next)
    requires IsUnion(ranges[1..], next, rest)
    ensures IsUnion(ranges, next, [ranges[0]] + rest)
  {
    PrependNormal(ranges[0], rest);
    SlotsPrepend(ranges[0], rest);
    SlotsPrepend(ranges[0], ranges[1..]);
    assert [ranges[0]] + ranges[1..] == ranges;
  }

  lemma UnionMerge(ranges: seq<SlotRange>, next: SlotRange, out: seq<SlotRange>)
    requires Normal(ranges) && ranges != [] && next.from <= next.to
    requires !Before(ranges[0], next) && !Before(next, ranges[0])
    requires IsUnion(ranges[1..], Hull(ranges[0], next), out)
    ensures IsUnion(ranges, next, out)
  {
    SlotsPrepend(ranges[0], ranges[1..]);
    assert [ranges[0]] + ranges[1..] == ranges;
    assert Span(Hull(ranges[0], next)) == Span(ranges[0]) + Span(next);
  }

  lemma PrependNormal(r: SlotRange, ranges: seq<SlotRange>)
    requires Normal(ranges) && r.from <= r.to && (ranges != [] ==> Before(r, ranges[0]))
    ensures Normal([r] + ranges)
  {
  }

  lemma SlotsPrepend(r: SlotRange, ranges: seq<SlotRange>)
    ensures Slots([r] + ranges) == Span(r) + Slots(ranges)
  {
    var all := [r] + ranges;
    forall s | s in Slots(ranges)
      ensures s in Slots(all)
    {
      var i :| 0 <= i < |ranges| && In(ranges[i], s);
      assert In(all[i + 1], s);
    }
    forall s | s in Slots(all)
      ensures s in Span(r) || s in Slots(ranges)
    {
      var i :| 0 <= i < |all| && In(all[i], s);
      assert i > 0 ==> In(ranges[i - 1], s);
    }
    assert forall s: uint64 :: In(r, s) ==> In(all[0], s);
  }

  function Hull(a: SlotRange, b: SlotRange): SlotRange {
    SlotRange(if a.from < b.from then a.from else b.from, if a.to > b.to then a.to else b.to)
  }

  /** What holds after `k` ranges of AddSlotRange's loop. */
  ghost predicate Merging(ranges: seq<SlotRange>, k: nat, out: seq<SlotRange>, merged: SlotRange, inserted: bool) {
    && k <= |ranges| && Normal(ranges) && Normal(out)
    && merged.from <= merged.to
    && (forall i, j :: 0 <= i < |out| && k <= j < |ranges| ==> Before(out[i], ranges[j]))
    && (if inserted then forall j :: k <= j < |ranges| ==> Before(merged, ranges[j])
        else forall i :: 0 <= i < |out| ==> Before(out[i], merged))
  }

  lemma AppendNormal(out: seq<SlotRange>, r: SlotRange)
    requires Normal(out) && r.from <= r.to
    requires forall i :: 0 <= i < |out| ==> Before(out[i], r)
    ensures Normal(out + [r])
  {
  }

  lemma MergingStarts(ranges: seq<SlotRange>, next: SlotRange)
    requires Normal(ranges) && next.from <= next.to
    ensures Merging(ranges, 0, [], next, false)
  {
  }

  lemma MergingEnds(ranges: seq<SlotRange>, out: seq<SlotRange>, merged: SlotRange, inserted: bool)
    requires Merging(ranges, |ranges|, out, merged, inserted)
    ensures Normal(if inserted then out else out + [merged])
  {
    if !inserted {
      AppendNormal(out, merged);
    }
  }

  lemma KeepBefore(ranges: seq<SlotRange>, k: nat, out: seq<SlotRange>, merged: SlotRange, inserted: bool)
    requires k < |ranges| && Merging(ranges, k, out, merged, inserted) && Before(ranges[k], merged)
    ensures !inserted && Merging(ranges, k + 1, out + [ranges[k]], merged, inserted)
  {
    AppendNormal(out, ranges[k]);
  }

  lemma PlaceMerged(ranges: seq<SlotRange>, k: nat, out: seq<SlotRange>, merged: SlotRange)
    requires k < |ranges| && Merging(ranges, k, out, merged, false) && Before(merged, ranges[k])
    ensures Merging(ranges, k, out + [merged], merged, true)
  {
    AppendNormal(out, merged);
  }

  lemma KeepAfter(ranges: seq<SlotRange>, k: nat, out: seq<SlotRange>, merged: SlotRange)
    requires k < |ranges| && Merging(ranges, k, out, merged, true)
    ensures Merging(ranges, k + 1, out + [ranges[k]], merged, true)
  {
    AppendNormal(out, ranges[k]);
  }

  lemma Absorb(ranges: seq<SlotRange>, k: nat, out: seq<SlotRange>, merged: SlotRange, inserted: bool)
    requires k < |ranges| && Merging(ranges, k, out, merged, inserted)
    requires !Before(ranges[k], merged) && !Before(merged, ranges[k])
    ensures !inserted && Merging(ranges, k + 1, out, Hull(ranges[k], merged), inserted)
    ensures Span(Hull(ranges[k], merged)) == Span(ranges[k]) + Span(merged)
  {
  }

  /** Inserts a range before the first range that starts later. */
  method InsertSlotRange(ranges: seq<SlotRange>, next: SlotRange) returns (out: seq<SlotRange>)
    ensures out == Inserted(ranges, next)
  {
    out := [];
    var inserted := false;
    for k := 0 to |ranges|
      invariant out + StillToInsert(ranges[k..], next, inserted) == Inserted(ranges, next)
    {
      InsertStep(out, ranges, k, next, inserted);
      if !inserted && next.from < ranges[k].from {
        out := out + [next];
        inserted := true;
      }
      out := out + [ranges[k]];
    }
    if !inserted {
      out := out + [next];
    }
  }

  function StillToInsert(rest: seq<SlotRange>, next: SlotRange, inserted: bool): seq<SlotRange> {
    if inserted then rest else Inserted(rest, next)
  }

  lemma InsertStep(out: seq<SlotRange>, ranges: seq<SlotRange>, k: nat, next: SlotRange, inserted: bool)
    requires k < |ranges|
    ensures inserted || next.from < ranges[k].from ==>
      out + StillToInsert(ranges[k..], next, inserted)
        == (if inserted then out else out + [next]) + [ranges[k]] + ranges[k + 1..]
    ensures !inserted && next.from >= ranges[k].from ==>
      out + StillToInsert(ranges[k..], next, inserted) == out + [ranges[k]] + Inserted(ranges[k + 1..], next)
  {
    assert ranges[k..] == [ranges[k]] + ranges[k + 1..];
    assert !inserted && next.from < ranges[k].from ==> Inserted(ranges[k..], next) == [next] + ranges[k..];
  }

  function Inserted(ranges: seq<SlotRange>, next: SlotRange): seq<SlotRange> {
    if ranges == [] || next.from < ranges[0].from then [next] + ranges
    else [ranges[0]] + Inserted(ranges[1..], next)
  }

  lemma OrderedCons(first: SlotRange, rest: seq<SlotRange>)
    requires first.from <= first.to && Ordered(rest) && forall r :: r in rest ==> first.to < r.from
    ensures Ordered([first] + rest)
  {
  }

  lemma OrderedTail(ranges: seq<SlotRange>)
    requires Ordered(ranges) && ranges != []
    ensures Ordered(ranges[1..]) && ranges == [ranges[0]] + ranges[1..]
    ensures ranges[0].from <= ranges[0].to && forall r :: r in ranges[1..] ==> ranges[0].to < r.from
  {
  }

  /** Inserting a range that overlaps nothing keeps the list sorted and disjoint. */
  lemma {:induction false} InsertedOrdered(ranges: seq<SlotRange>, next: SlotRange)
    requires Ordered(ranges) && next.from <= next.to && Disjoint(next, ranges)
    ensures Ordered(Inserted(ranges, next)) && |Inserted(ranges, next)| == |ranges| + 1
    ensures forall r :: r in Inserted(ranges, next) <==> r in ranges || r == next
    decreases |ranges|
  {
    if ranges != [] {
      hide Disjoint, Ordered;
      Sides(next, ranges);
      OrderedTail(ranges);
      if next.from >= ranges[0].from {
        InsertedOrdered(ranges[1..], next);
        OrderedCons(ranges[0], Inserted(ranges[1..], next));
      } else {
        OrderedCons(next, ranges);
      }
    }
  }

  lemma Sides(next: SlotRange, ranges: seq<SlotRange>)
    requires Ordered(ranges) && ranges != [] && next.from <= next.to && Disjoint(next, ranges)
    ensures ranges[0].to < next.from || next.to < ranges[0].from
    ensures Disjoint(next, ranges[1..])
  {
    if next.from <= ranges[0].to && ranges[0].from <= next.to {
      var s := if next.from < ranges[0].from then ranges[0].from else next.from;
      assert In(ranges[0], s) && In(next, s);
    }
    forall s: uint64 | Covered(ranges[1..], s)
      ensures Covered(ranges, s)
    {
      var i :| 0 <= i < |ranges[1..]| && In(ranges[1..][i], s);
      assert In(ranges[i + 1], s);
    }
  }

  /** Drops every occurrence of `target`. */
  method RemoveSlotRange(ranges: seq<SlotRange>, target: SlotRange) returns (out: seq<SlotRange>)
    ensures out == Without(ranges, target)
  {
    out := [];
    for k := 0 to |ranges|
      invariant out + Without(ranges[k..], target) == Without(ranges, target)
    {
      if ranges[k] != target {
        out := out + [ranges[k]];
      }
    }
  }

  function Without(ranges: seq<SlotRange>, target: SlotRange): seq<SlotRange> {
    if ranges == [] then []
    else (if ranges[0] == target then [] else [ranges[0]]) + Without(ranges[1..], target)
  }

  lemma FirstOrdered(ranges: seq<SlotRange>)
    requires ranges != [] && Ordered(ranges)
    ensures Ordered(ranges[1..]) && ranges[0].from <= ranges[0].to && ranges[0] !in ranges[1..]
    ensures forall r :: r in ranges <==> r == ranges[0] || r in ranges[1..]
    ensures forall r :: r in ranges[1..] ==> ranges[0].to < r.from
  {
    forall r | r in ranges[1..]
      ensures ranges[0].to < r.from
    {
      var k :| 0 <= k < |ranges[1..]| && ranges[1..][k] == r;
      assert ranges[k + 1] == r;
    }
  }

  lemma OrderedFirst(first: SlotRange, rest: seq<SlotRange>)
    requires first.from <= first.to && Ordered(rest) && forall r :: r in rest ==> first.to < r.from
    ensures Ordered([first] + rest)
  {
    assert forall i :: 0 <= i < |rest| ==> rest[i] in rest;
  }

  lemma {:induction false} WithoutOrdered(ranges: seq<SlotRange>, target: SlotRange)
    requires Ordered(ranges)
    ensures Ordered(Without(ranges, target))
    ensures forall r :: r in Without(ranges, target) <==> r in ranges && r != target
    ensures |Without(ranges, target)| == if target in ranges then |ranges| - 1 else |ranges|
  {
    if ranges != [] {
      var rest := Without(ranges[1..], target);
      FirstOrdered(ranges);
      WithoutOrdered(ranges[1..], target);
      assert forall r :: r in rest ==> r in ranges[1..];
      OrderedFirst(ranges[0], rest);
      hide Ordered;
      assert [] + rest == rest;
    }
  }

  // ----- the two lists of the index

  /** The loaded list is normal, and the loading ranges overlap neither each other nor anything loaded. */
  ghost predicate Tracked(loaded: seq<SlotRange>, loading: seq<SlotRange>) {
    && Normal(loaded)
    && Ordered(loading)
    && (forall g :: g in loading ==> Span(g) !! Slots(loaded))
  }

  /** Claiming a gap that overlaps neither list. */
  lemma ClaimTracked(loaded: seq<SlotRange>, loading: seq<SlotRange>, gap: SlotRange)
    requires Tracked(loaded, loading) && gap.from <= gap.to && Disjoint(gap, loaded) && Disjoint(gap, loading)
    ensures Tracked(loaded, Inserted(loading, gap)) && |Inserted(loading, gap)| == |loading| + 1
    ensures gap !in loading && forall g :: g in Inserted(loading, gap) <==> g in loading || g == gap
  {
    InsertedOrdered(loading, gap);
    assert In(gap, gap.from);
  }

  /** Releasing a claimed gap, whose slots may now be loaded. */
  lemma ReleaseTracked(loaded: seq<SlotRange>, loaded': seq<SlotRange>, loading: seq<SlotRange>, gap: SlotRange)
    requires Tracked(loaded, loading) && gap in loading && Normal(loaded')
    requires Slots(loaded') <= Slots(loaded) + Span(gap)
    ensures Tracked(loaded', Without(loading, gap)) && |Without(loading, gap)| == |loading| - 1
    ensures forall g :: g in Without(loading, gap) <==> g in loading && g != gap
  {
    WithoutOrdered(loading, gap);
    forall g | g in Without(loading, gap)
      ensures Span(g) !! Slots(loaded')
    {
      assert forall x: uint64 :: !(In(g, x) && In(gap, x));
    }
  }

  /** What a caller that needs [from, to] has to do next. */
  datatype Demand = Satisfied | Wait(slot: uint64) | Load(gap: SlotRange)

  /** `slot` is the first slot of [from, to] that no loaded range covers. */
  ghost predicate FirstUncovered(loaded: seq<SlotRange>, from: uint64, to: uint64, slot: uint64) {
    && from <= slot <= to
    && !Covered(loaded, slot)
    && (forall s: uint64 :: from <= s < slot ==> Covered(loaded, s))
  }

  /** The longest gap allowed from `gap.from`: it stops at `to`, at the chunk limit, or at a range already taken. */
  ghost predicate MaximalGap(loaded: seq<SlotRange>, loading: seq<SlotRange>, to: uint64, gap: SlotRange) {
    && gap.from <= gap.to <= to
    && gap.to - gap.from < LOAD_CHUNK
    && Disjoint(gap, loaded)
    && Disjoint(gap, loading)
    && (gap.to == to || gap.to - gap.from == LOAD_CHUNK - 1 ||
        (gap.to < MAX_UINT64 && (Covered(loaded, gap.to + 1) || Covered(loading, gap.to + 1))))
  }

  ghost predicate IsDemand(loaded: seq<SlotRange>, loading: seq<SlotRange>, from: uint64, to: uint64, d: Demand) {
    match d
    case Satisfied => forall s: uint64 :: from <= s <= to ==> Covered(loaded, s)
    case Wait(slot) => FirstUncovered(loaded, from, to, slot) && Covered(loading, slot)
    case Load(gap) => FirstUncovered(loaded, from, to, gap.from) && MaximalGap(loaded, loading, to, gap)
  }

  /** The demand is determined by the two lists and the requested range. */
  lemma DemandUnique(loaded: seq<SlotRange>, loading: seq<SlotRange>, from: uint64, to: uint64, d: Demand, e: Demand)
    requires from <= to
    requires IsDemand(loaded, loading, from, to, d) && IsDemand(loaded, loading, from, to, e)
    ensures d == e
  {
    assert d.Load? ==> In(d.gap, d.gap.from);
    assert e.Load? ==> In(e.gap, e.gap.from);
    if d.Load? && e.Load? {
      if d.gap.to < e.gap.to {
        LongerGapMeets(loaded, loading, to, d.gap, e.gap);
      } else if e.gap.to < d.gap.to {
        LongerGapMeets(loaded, loading, to, e.gap, d.gap);
      }
    }
  }

  lemma LongerGapMeets(loaded: seq<SlotRange>, loading: seq<SlotRange>, to: uint64, gap: SlotRange, longer: SlotRange)
    requires MaximalGap(loaded, loading, to, gap)
    requires longer.from == gap.from && gap.to < longer.to <= to && longer.to - longer.from < LOAD_CHUNK
    ensures !Disjoint(longer, loaded) || !Disjoint(longer, loading)
  {
    assert In(longer, gap.to + 1);
  }

  /** There always is a demand: the specification of NextGap can be met. */
  lemma DemandExists(loaded: seq<SlotRange>, loading: seq<SlotRange>, from: uint64, to: uint64) returns (d: Demand)
    requires Ordered(loaded) && Ordered(loading) && from <= to
    ensures IsDemand(loaded, loading, from, to, d)
  {
    var slot := from;
    while slot < to && Covered(loaded, slot)
      invariant from <= slot <= to
      invariant forall s: uint64 :: from <= s < slot ==> Covered(loaded, s)
    {
      slot := slot + 1;
    }
    if Covered(loaded, slot) {
      d := Satisfied;
    } else if Covered(loading, slot) {
      d := Wait(slot);
    } else {
      var end := slot;
      while end < to && end - slot < LOAD_CHUNK - 1 && !Covered(loaded, end + 1) && !Covered(loading, end + 1)
        invariant slot <= end <= to && end - slot < LOAD_CHUNK
        invariant forall s: uint64 :: slot <= s <= end ==> !Covered(loaded, s) && !Covered(loading, s)
      {
        end := end + 1;
      }
      d := Load(SlotRange(slot, end));
    }
  }

  method NextGap(loaded: seq<SlotRange>, loading: seq<SlotRange>, from: uint64, to: uint64) returns (d: Demand)
    requires Normal(loaded) && Ordered(loading) && from <= to
    ensures IsDemand(loaded, loading, from, to, d)
  {
    var slot := from;
    while true
      invariant from <= slot <= to
      invariant forall s: uint64 :: from <= s < slot ==> Covered(loaded, s)
      decreases MAX_UINT64 - slot
    {
      var r := RangeContainingSlot(loaded, slot);
      if r.Some? {
        assert forall s: uint64 :: slot <= s <= r.value.to ==> In(r.value, s) && Covered(loaded, s);
        if r.value.to == MAX_UINT64 {
          return Satisfied;
        }
        slot := r.value.to + 1;
        if slot > to {
          return Satisfied;
        }
      } else {
        var busy := RangeContainingSlot(loading, slot);
        if busy.Some? {
          return Wait(slot);
        }
        var gap := FreeGap(loaded, loading, slot, to);
        return Load(gap);
      }
    }
  }

  /** Bounds the gap at `slot` by the next range of either list and by the chunk size. */
  method FreeGap(loaded: seq<SlotRange>, loading: seq<SlotRange>, slot: uint64, to: uint64) returns (gap: SlotRange)
    requires Ordered(loaded) && Ordered(loading) && slot <= to
    requires !Covered(loaded, slot) && !Covered(loading, slot)
    ensures gap.from == slot && MaximalGap(loaded, loading, to, gap)
  {
    gap := SlotRange(slot, to);
    var all := loaded + loading;
    for k := 0 to |all|
      invariant gap.from == slot && slot <= gap.to <= to
      invariant forall i :: 0 <= i < k ==> all[i].from <= slot || gap.to < all[i].from
      invariant gap.to == to || exists i :: 0 <= i < |all| && all[i].from == gap.to + 1
    {
      if all[k].from > slot && all[k].from - 1 < gap.to {
        gap := SlotRange(slot, all[k].from - 1);
      }
    }
    TakenRanges(loaded, loading, slot, gap);
    var maxTo := CheckedAdd(slot, LOAD_CHUNK - 1);
    if maxTo.Some? && maxTo.value < gap.to {
      gap := SlotRange(slot, maxTo.value);
    }
  }

  /** A gap that starts at a free slot and ends before every later range touches neither list. */
  lemma TakenRanges(loaded: seq<SlotRange>, loading: seq<SlotRange>, slot: uint64, gap: SlotRange)
    requires Ordered(loaded) && Ordered(loading)
    requires !Covered(loaded, slot) && !Covered(loading, slot)
    requires gap.from == slot <= gap.to
    requires forall i :: 0 <= i < |loaded + loading| ==>
      (loaded + loading)[i].from <= slot || gap.to < (loaded + loading)[i].from
    ensures Disjoint(gap, loaded) && Disjoint(gap, loading)
    ensures gap.to < MAX_UINT64 && (exists i :: 0 <= i < |loaded + loading| && (loaded + loading)[i].from == gap.to + 1)
      ==> Covered(loaded, gap.to + 1) || Covered(loading, gap.to + 1)
  {
    var all := loaded + loading;
    assert forall i :: 0 <= i < |loaded| ==> all[i] == loaded[i] && !In(loaded[i], slot);
    assert forall i :: 0 <= i < |loading| ==> all[|loaded| + i] == loading[i] && !In(loading[i], slot);
    if gap.to < MAX_UINT64 && exists i :: 0 <= i < |all| && all[i].from == gap.to + 1 {
      var i :| 0 <= i < |all| && all[i].from == gap.to + 1;
      assert if i < |loaded| then In(loaded[i], gap.to + 1) else In(loading[i - |loaded|], gap.to + 1);
    }
  }

  /** A normalised list is determined by the slots it covers, so AddSlotRange has only one possible result. */
  lemma {:induction false} NormalUnique(a: seq<SlotRange>, b: seq<SlotRange>)
    requires Normal(a) && Normal(b)
    requires Slots(a) == Slots(b)
    ensures a == b
    decreases |a|
  {
    HeadCovered(a);
    HeadCovered(b);
    if |a| > 0 && |b| > 0 {
      HeadsAgree(a, b);
      HeadsAgree(b, a);
      TailsAgree(a, b);
      NormalUnique(a[1..], b[1..]);
      assert a == [a[0]] + a[1..] && b == [b[0]] + b[1..];
    }
  }

  lemma HeadCovered(a: seq<SlotRange>)
    requires Normal(a)
    ensures |a| > 0 ==> a[0].from in Slots(a)
    ensures a == [] ==> Slots(a) == {}
  {
    assert |a| > 0 ==> In(a[0], a[0].from);
  }

  lemma TailCoverage(a: seq<SlotRange>)
    requires Normal(a) && |a| > 0
    ensures Normal(a[1..]) && Slots(a[1..]) == Slots(a) - Span(a[0])
  {
    forall s | s in Slots(a[1..])
      ensures s in Slots(a) && s !in Span(a[0])
    {
      var i :| 0 <= i < |a[1..]| && In(a[1..][i], s);
      assert In(a[i + 1], s);
    }
    forall s | s in Slots(a) && s !in Span(a[0])
      ensures s in Slots(a[1..])
    {
      var i :| 0 <= i < |a| && In(a[i], s);
      assert In(a[1..][i - 1], s);
    }
  }

  lemma TailsAgree(a: seq<SlotRange>, b: seq<SlotRange>)
    requires Normal(a) && Normal(b) && |a| > 0 && |b| > 0
    requires a[0] == b[0] && Slots(a) == Slots(b)
    ensures Normal(a[1..]) && Normal(b[1..]) && Slots(a[1..]) == Slots(b[1..])
  {
    TailCoverage(a);
    TailCoverage(b);
  }

  lemma HeadsAgree(a: seq<SlotRange>, b: seq<SlotRange>)
    requires Normal(a) && Normal(b) && |a| > 0 && |b| > 0
    requires Slots(a) == Slots(b)
    ensures b[0].from <= a[0].from && a[0].to <= b[0].to
  {
    assert In(a[0], a[0].from) && a[0].from in Slots(b);
    assert In(b[0], b[0].from) && b[0].from in Slots(a);
    assert Span(a[0]) <= Slots(a) by {
      assert forall s: uint64 :: In(a[0], s) ==> Covered(a, s);
    }
    if b[0].to < a[0].to {
      AfterHead(a[0], b);
    }
  }

  /** The slot after the first range of a normalised list is free. */
  lemma AfterHead(r: SlotRange, b: seq<SlotRange>)
    requires Normal(b) && |b| > 0
    requires r.from <= b[0].to < r.to
    ensures !(Span(r) <= Slots(b))
  {
    var s := b[0].to + 1;
    assert s in Span(r) && s !in Slots(b);
  }
}
