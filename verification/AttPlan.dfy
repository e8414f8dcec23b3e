/** The reference attestation planner: one representative source block per simulated slot. */
module AttPlan {
  import opened Core

  datatype Mode = NextNonMissed | StrictKMinus1 | GreedyLookahead | FirstSeenGossip | Unsupported(code: int)

  datatype Entry = Entry(simSlot: uint64, sourceBlockSlot: Option<uint64>)

  /** The first existing slot of [lo, hi], if there is one. */
  ghost predicate FirstIn(blocks: set<uint64>, lo: int, hi: int, r: Option<uint64>) {
    match r
    case None => forall s: uint64 :: lo <= s <= hi ==> s !in blocks
    case Some(found) => lo <= found <= hi && found in blocks && forall s: uint64 :: lo <= s < found ==> s !in blocks
  }

  /** What each mode promises for one slot; a window that would pass MaxUint64 has no source. */
  ghost predicate IsSource(blocks: set<uint64>, simSlot: uint64, mode: Mode, cap: uint64, r: Option<uint64>) {
    match mode
    case StrictKMinus1 => FirstIn(blocks, simSlot + 1, simSlot + 1, r)
    case NextNonMissed => if simSlot + cap > MAX_UINT64 then r.None? else FirstIn(blocks, simSlot + 1, simSlot + cap, r)
    case GreedyLookahead =>
      if simSlot + cap > MAX_UINT64 then r.None? else FirstIn(blocks, simSlot + 1, simSlot + cap, r)
    case FirstSeenGossip => r.None?
    case Unsupported(_) => false
  }

  lemma SourceUnique(blocks: set<uint64>, simSlot: uint64, mode: Mode, cap: uint64, r: Option<uint64>,
                     q: Option<uint64>)
    requires IsSource(blocks, simSlot, mode, cap, r) && IsSource(blocks, simSlot, mode, cap, q)
    ensures r == q
  {
  }

  predicate PlanRejects(simStart: uint64, simEnd: uint64, mode: Mode, cap: uint64) {
    || simStart > simEnd
    || ((mode == NextNonMissed || mode == GreedyLookahead) && cap < 1)
    || mode.Unsupported?
  }

  method Plan(blocks: set<uint64>, simStart: uint64, simEnd: uint64, mode: Mode, cap: uint64)
    returns (r: Option<seq<Entry>>)
    ensures r.None? <==> PlanRejects(simStart, simEnd, mode, cap)
    ensures r.Some? ==> |r.value| == simEnd - simStart
    ensures r.Some? ==> forall k :: 0 <= k < |r.value| ==>
      r.value[k].simSlot == simStart + k && IsSource(blocks, simStart + k, mode, cap, r.value[k].sourceBlockSlot)
  {
    if PlanRejects(simStart, simEnd, mode, cap) {
      return None;
    }
    var entries: seq<Entry> := [];
    for simSlot := simStart to simEnd
      invariant |entries| == simSlot - simStart
      invariant forall k :: 0 <= k < |entries| ==>
        entries[k].simSlot == simStart + k && IsSource(blocks, simStart + k, mode, cap, entries[k].sourceBlockSlot)
    {
      var source: Option<uint64> := None;
      match mode {
        case NextNonMissed => source := NextNonMissedSource(blocks, simSlot, cap);
        case GreedyLookahead => source := NextNonMissedSource(blocks, simSlot, cap);
        case StrictKMinus1 => source := StrictKMinus1Source(blocks, simSlot);
        case FirstSeenGossip =>
      }
      entries := entries + [Entry(simSlot, source)];
    }
    return Some(entries);
  }

  /** Scans the window with a slot counter that stops at its end, so it also stops when the end is MaxUint64. */
  method NextNonMissedSource(blocks: set<uint64>, simSlot: uint64, cap: uint64) returns (r: Option<uint64>)
    requires cap >= 1
    ensures simSlot + cap > MAX_UINT64 ==> r.None?
    ensures simSlot + cap <= MAX_UINT64 ==> FirstIn(blocks, simSlot + 1, simSlot + cap, r)
  {
    if cap > MAX_UINT64 - simSlot {
      return None;
    }
    var end := simSlot + cap;
    var slot := simSlot + 1;
    while true
      invariant simSlot + 1 <= slot <= end
      invariant forall s: uint64 :: simSlot + 1 <= s < slot ==> s !in blocks
      decreases end - slot
    {
      if slot in blocks {
        return Some(slot);
      }
      if slot == end {
        return None;
      }
      slot := slot + 1;
    }
  }

  /** A single lookup; the increment wraps at MaxUint64, where Plan never calls it. */
  method StrictKMinus1Source(blocks: set<uint64>, simSlot: uint64) returns (r: Option<uint64>)
    ensures simSlot < MAX_UINT64 ==> FirstIn(blocks, simSlot + 1, simSlot + 1, r)
    ensures simSlot == MAX_UINT64 ==> r == if 0 in blocks then Some(0) else None
  {
    var source := WrappingAdd(simSlot, 1);
    if source !in blocks {
      return None;
    }
    return Some(source);
  }
}
