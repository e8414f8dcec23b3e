/** Splitting an epoch range among workers, and the slots their records must cover. */
module Chunks {
  import opened Core

  const SLOTS_PER_EPOCH: uint64 := 32

  datatype Chunk = Chunk(index: nat, startEpoch: uint64, endEpoch: uint64, warmupStartSlot: uint64, startSlot: uint64,
                         endSlot: uint64)

  function EpochToSlot(epoch: uint64): (r: uint64)
    ensures epoch <= MAX_UINT64 / SLOTS_PER_EPOCH ==> r == epoch * SLOTS_PER_EPOCH
    ensures epoch > MAX_UINT64 / SLOTS_PER_EPOCH ==> r == MAX_UINT64
  {
    if epoch > MAX_UINT64 / SLOTS_PER_EPOCH then MAX_UINT64 else epoch * SLOTS_PER_EPOCH
  }

  function WarmupEpoch(startEpoch: uint64, warmupEpochs: uint64): uint64 {
    if startEpoch > warmupEpochs then startEpoch - warmupEpochs else 0
  }

  /** A chunk's slots follow from its epochs. */
  predicate ChunkOk(c: Chunk, warmupEpochs: uint64) {
    && c.startEpoch <= c.endEpoch
    && c.warmupStartSlot == EpochToSlot(WarmupEpoch(c.startEpoch, warmupEpochs))
    && c.startSlot == EpochToSlot(c.startEpoch) && c.endSlot == EpochToSlot(c.endEpoch)
  }

  /** Each chunk starts where the one before ends. */
  ghost predicate Contiguous(chunks: seq<Chunk>, startEpoch: uint64, endEpoch: uint64) {
    if chunks == [] then startEpoch == endEpoch
    else chunks[0].startEpoch == startEpoch && Contiguous(chunks[1..], chunks[0].endEpoch, endEpoch)
  }

  lemma {:induction false} ContiguousAppend(chunks: seq<Chunk>, startEpoch: uint64, endEpoch: uint64, c: Chunk)
    requires Contiguous(chunks, startEpoch, endEpoch) && c.startEpoch == endEpoch
    ensures Contiguous(chunks + [c], startEpoch, c.endEpoch)
  {
    if chunks != [] {
      assert (chunks + [c])[1..] == chunks[1..] + [c];
      ContiguousAppend(chunks[1..], chunks[0].endEpoch, endEpoch, c);
    } else {
      assert (chunks + [c])[1..] == [];
    }
  }

  /** How many epochs the first i chunks get. */
  function Share(i: nat, base: nat, remainder: nat): nat {
    if i == 0 then 0 else Share(i - 1, base, remainder) + base + if i - 1 < remainder then 1 else 0
  }

  lemma {:induction false} ShareGrows(i: nat, n: nat, base: nat, remainder: nat)
    requires i <= n
    ensures Share(i, base, remainder) <= Share(n, base, remainder)
    decreases n - i
  {
    if i < n {
      ShareGrows(i + 1, n, base, remainder);
    }
  }

  lemma {:induction false} ShareOf(i: nat, base: nat, remainder: nat)
    ensures Share(i, base, remainder) == i * base + if i < remainder then i else remainder
  {
    if i > 0 {
      ShareOf(i - 1, base, remainder);
      assert i * base == (i - 1) * base + base;
    }
  }

  /** The chunks partition the range in order; they all have total / parallel epochs, the first total % parallel of them
      one more. */
  ghost predicate Even(chunks: seq<Chunk>, base: int, remainder: int) {
    forall i :: 0 <= i < |chunks| ==>
      chunks[i].index == i && chunks[i].endEpoch - chunks[i].startEpoch == base + if i < remainder then 1 else 0
  }

  method Split(startEpoch: uint64, endEpoch: uint64, warmupEpochs: uint64, parallel: int) returns (chunks: seq<Chunk>)
    ensures parallel <= 0 || startEpoch >= endEpoch ==> chunks == []
    ensures 0 < parallel && startEpoch < endEpoch ==>
      && |chunks| == parallel
      && Contiguous(chunks, startEpoch, endEpoch)
      && Even(chunks, (endEpoch - startEpoch) / parallel, (endEpoch - startEpoch) % parallel)
    ensures forall i :: 0 <= i < |chunks| ==> ChunkOk(chunks[i], warmupEpochs)
  {
    if parallel <= 0 || startEpoch >= endEpoch {
      return [];
    }
    var total := endEpoch - startEpoch;
    var base, remainder := total / parallel, total % parallel;
    Shares(total, parallel);
    chunks := [];
    var nextStart: uint64 := startEpoch;
    for i := 0 to parallel
      invariant |chunks| == i && nextStart == startEpoch + Share(i, base, remainder)
      invariant Contiguous(chunks, startEpoch, nextStart)
      invariant Even(chunks, base, remainder)
      invariant forall j :: 0 <= j < i ==> ChunkOk(chunks[j], warmupEpochs)
    {
      hide Contiguous, EpochToSlot;
      var size := base;
      if i < remainder {
        size := size + 1;
      }
      ShareGrows(i + 1, parallel, base, remainder);
      var chunkStart := nextStart;
      var chunkEnd: uint64 := chunkStart + size;
      nextStart := chunkEnd;
      var warmupEpoch: uint64 := 0;
      if chunkStart > warmupEpochs {
        warmupEpoch := chunkStart - warmupEpochs;
      }
      var c := Chunk(i, chunkStart, chunkEnd, EpochToSlot(warmupEpoch), EpochToSlot(chunkStart), EpochToSlot(chunkEnd));
      ContiguousAppend(chunks, startEpoch, chunkStart, c);
      chunks := chunks + [c];
    }
  }

  /** The shares of all workers add up. */
  lemma Shares(total: nat, parallel: nat)
    requires parallel > 0
    ensures Share(parallel, total / parallel, total % parallel) == total
  {
    ShareOf(parallel, total / parallel, total % parallel);
  }

  // ----- expected slots

  function Range(lo: int, hi: int): (r: seq<uint64>)
    requires 0 <= lo && hi <= MAX_UINT64 + 1
    decreases hi - lo
  {
    if lo >= hi then [] else [lo] + Range(lo + 1, hi)
  }

  lemma {:induction false} RangeExact(lo: int, hi: int)
    requires 0 <= lo && hi <= MAX_UINT64 + 1
    ensures forall s :: s in Range(lo, hi) <==> lo <= s < hi
    ensures forall i, j :: 0 <= i < j < |Range(lo, hi)| ==> Range(lo, hi)[i] < Range(lo, hi)[j]
    decreases hi - lo
  {
    if lo < hi {
      RangeExact(lo + 1, hi);
      var rest := Range(lo + 1, hi);
      forall i, j | 0 <= i < j < |rest| + 1
        ensures ([lo] + rest)[i] < ([lo] + rest)[j]
      {
        assert rest[j - 1] in rest;
      }
    }
  }

  lemma {:induction false} RangeJoin(lo: int, mid: int, hi: int)
    requires 0 <= lo <= mid <= hi <= MAX_UINT64 + 1
    ensures Range(lo, mid) + Range(mid, hi) == Range(lo, hi)
    decreases mid - lo
  {
    if lo < mid {
      RangeJoin(lo + 1, mid, hi);
      assert [lo] + Range(lo + 1, mid) + Range(mid, hi) == [lo] + (Range(lo + 1, mid) + Range(mid, hi));
    }
  }

  /** The first slot a worker records: the chunk's first slot, but at least the one after the warmup start; the
      increment wraps. */
  function RecordStart(c: Chunk): uint64 {
    if WrappingAdd(c.warmupStartSlot, 1) > c.startSlot then WrappingAdd(c.warmupStartSlot, 1) else c.startSlot
  }

  function Recorded(chunks: seq<Chunk>): seq<uint64> {
    if chunks == [] then [] else Range(RecordStart(chunks[0]), chunks[0].endSlot) + Recorded(chunks[1..])
  }

  lemma {:induction false} RecordedAppend(chunks: seq<Chunk>, c: Chunk)
    ensures Recorded(chunks + [c]) == Recorded(chunks) + Range(RecordStart(c), c.endSlot)
  {
    if chunks == [] {
      assert (chunks + [c])[1..] == [];
    } else {
      assert (chunks + [c])[1..] == chunks[1..] + [c];
      RecordedAppend(chunks[1..], c);
    }
  }

  method FilterActiveChunks(chunks: seq<Chunk>) returns (active: seq<Chunk>)
    ensures active == Active(chunks)
  {
    active := [];
    for i := 0 to |chunks|
      invariant active == Active(chunks[..i])
    {
      assert chunks[..i + 1][..i] == chunks[..i];
      if chunks[i].startEpoch < chunks[i].endEpoch {
        active := active + [chunks[i]];
      }
    }
    assert chunks[..|chunks|] == chunks;
  }

  function Active(chunks: seq<Chunk>): seq<Chunk> {
    if chunks == [] then []
    else
      var c := chunks[|chunks| - 1];
      Active(chunks[..|chunks| - 1]) + if c.startEpoch < c.endEpoch then [c] else []
  }

  method ExpectedSlots(active: seq<Chunk>) returns (expected: seq<uint64>)
    ensures expected == Recorded(active)
  {
    expected := [];
    for i := 0 to |active|
      invariant expected == Recorded(active[..i])
    {
      var c := active[i];
      RecordedAppend(active[..i], c);
      assert active[..i + 1] == active[..i] + [c];
      var recordStart := c.startSlot;
      if WrappingAdd(c.warmupStartSlot, 1) > recordStart {
        recordStart := WrappingAdd(c.warmupStartSlot, 1);
      }
      ghost var before := expected;
      var s := recordStart;
      while s < c.endSlot
        invariant recordStart <= s && expected + Range(s, c.endSlot) == before + Range(recordStart, c.endSlot)
        decreases (c.endSlot as int) - (s as int)
      {
        assert expected + ([s] + Range(s + 1, c.endSlot)) == (expected + [s]) + Range(s + 1, c.endSlot);
        expected := expected + [s];
        s := s + 1;
      }
    }
    assert active[..|active|] == active;
  }

  predicate HasEpochs(c: Chunk) {
    c.startEpoch < c.endEpoch
  }

  /** The chunks at these places, which ascend and are exactly those of the chunks with epochs. */
  ghost predicate Picks(chunks: seq<Chunk>, active: seq<Chunk>, at: seq<nat>) {
    && |at| == |active| && (forall i, j :: 0 <= i < j < |at| ==> at[i] < at[j])
    && (forall k :: 0 <= k < |at| ==> at[k] < |chunks| && active[k] == chunks[at[k]])
    && (forall i: nat :: i < |chunks| && HasEpochs(chunks[i]) ==> i in at)
    && (forall i :: i in at ==> i < |chunks| && HasEpochs(chunks[i]))
  }

  lemma SkipOne(chunks: seq<Chunk>, c: Chunk, active: seq<Chunk>, at: seq<nat>)
    requires Picks(chunks, active, at) && !HasEpochs(c)
    ensures Picks(chunks + [c], active, at)
  {
    hide HasEpochs;
  }

  lemma PickOne(chunks: seq<Chunk>, c: Chunk, active: seq<Chunk>, at: seq<nat>)
    requires Picks(chunks, active, at) && HasEpochs(c)
    ensures Picks(chunks + [c], active + [c], at + [|chunks|])
  {
    hide HasEpochs;
    assert forall i :: i in at + [|chunks|] <==> i in at || i == |chunks|;
  }

  /** The active chunks are exactly the ones with epochs, in the order in which they come. */
  lemma {:induction false} ActivePicks(chunks: seq<Chunk>) returns (at: seq<nat>)
    ensures Picks(chunks, Active(chunks), at)
  {
    at := [];
    if chunks != [] {
      var front, c := chunks[..|chunks| - 1], chunks[|chunks| - 1];
      at := ActivePicks(front);
      assert front + [c] == chunks;
      hide Picks;
      if HasEpochs(c) {
        PickOne(front, c, Active(front), at);
        at := at + [|front|];
      } else {
        SkipOne(front, c, Active(front), at);
        assert Active(front) + [] == Active(front);
      }
    }
  }

  /** A worker records this slot: it lies in the chunk, after the slot where the warmup starts. */
  predicate Records(c: Chunk, s: uint64) {
    c.startSlot <= s < c.endSlot && c.warmupStartSlot < s
  }

  lemma ChunkRecords(c: Chunk, warmupEpochs: uint64, s: uint64)
    requires ChunkOk(c, warmupEpochs)
    ensures s in Range(RecordStart(c), c.endSlot) <==> Records(c, s)
  {
    RangeExact(RecordStart(c), c.endSlot);
  }

  /** The expected slots are exactly those that some chunk records. */
  lemma {:induction false} RecordedExact(chunks: seq<Chunk>, warmupEpochs: uint64, s: uint64)
    requires forall c :: c in chunks ==> ChunkOk(c, warmupEpochs)
    ensures s in Recorded(chunks) <==> exists c :: c in chunks && Records(c, s)
  {
    hide ChunkOk, Records, RecordStart, Range;
    if chunks != [] {
      assert forall c :: c in chunks <==> c == chunks[0] || c in chunks[1..];
      ChunkRecords(chunks[0], warmupEpochs, s);
      RecordedExact(chunks[1..], warmupEpochs, s);
    }
  }

  /** A chunk without epochs records nothing. */
  lemma {:induction false} ActiveRecordsAll(chunks: seq<Chunk>, warmupEpochs: uint64)
    requires forall i :: 0 <= i < |chunks| ==> ChunkOk(chunks[i], warmupEpochs)
    ensures Recorded(Active(chunks)) == Recorded(chunks)
  {
    if chunks != [] {
      var front, c := chunks[..|chunks| - 1], chunks[|chunks| - 1];
      ActiveRecordsAll(front, warmupEpochs);
      assert chunks == front + [c];
      RecordedAppend(front, c);
      if c.startEpoch < c.endEpoch {
        RecordedAppend(Active(front), c);
      } else {
        assert ChunkOk(c, warmupEpochs);
        assert Range(RecordStart(c), c.endSlot) == [];
        assert Recorded(front) + [] == Recorded(front) && Active(front) + [] == Active(front);
      }
    }
  }

  lemma WarmChunkRecordsAll(c: Chunk, warmupEpochs: uint64)
    requires ChunkOk(c, warmupEpochs) && warmupEpochs >= 1 && c.startEpoch >= 1
    requires c.startEpoch <= MAX_UINT64 / SLOTS_PER_EPOCH
    ensures RecordStart(c) == c.startSlot
  {
  }

  lemma {:induction false} WarmRangeRecorded(chunks: seq<Chunk>, startEpoch: uint64, endEpoch: uint64,
                                             warmupEpochs: uint64)
    requires forall i :: 0 <= i < |chunks| ==> ChunkOk(chunks[i], warmupEpochs)
    requires Contiguous(chunks, startEpoch, endEpoch) && warmupEpochs >= 1 && startEpoch >= 1
    requires endEpoch <= MAX_UINT64 / SLOTS_PER_EPOCH
    ensures startEpoch <= endEpoch
    ensures Recorded(chunks) == Range(startEpoch * SLOTS_PER_EPOCH, endEpoch * SLOTS_PER_EPOCH)
  {
    if chunks != [] {
      var c := chunks[0];
      assert ChunkOk(c, warmupEpochs);
      forall i | 0 <= i < |chunks[1..]|
        ensures ChunkOk(chunks[1..][i], warmupEpochs)
      {
        assert chunks[1..][i] == chunks[i + 1];
      }
      WarmRangeRecorded(chunks[1..], c.endEpoch, endEpoch, warmupEpochs);
      WarmChunkRecordsAll(c, warmupEpochs);
      RangeJoin(startEpoch * SLOTS_PER_EPOCH, c.endEpoch * SLOTS_PER_EPOCH, endEpoch * SLOTS_PER_EPOCH);
    }
  }

  /** Every recorded slot lies at or after the first epoch, and past the first slot if the first chunk starts its warmup
      there. */
  lemma {:induction false} RecordedBounds(chunks: seq<Chunk>, startEpoch: uint64, endEpoch: uint64,
                                          warmupEpochs: uint64)
    requires forall i :: 0 <= i < |chunks| ==> ChunkOk(chunks[i], warmupEpochs)
    requires Contiguous(chunks, startEpoch, endEpoch) && endEpoch <= MAX_UINT64 / SLOTS_PER_EPOCH
    ensures startEpoch <= endEpoch
    ensures forall s :: s in Recorded(chunks) ==> s >= startEpoch * SLOTS_PER_EPOCH
  {
    if chunks != [] {
      var c := chunks[0];
      assert ChunkOk(c, warmupEpochs);
      forall i | 0 <= i < |chunks[1..]|
        ensures ChunkOk(chunks[1..][i], warmupEpochs)
      {
        assert chunks[1..][i] == chunks[i + 1];
      }
      RecordedBounds(chunks[1..], c.endEpoch, endEpoch, warmupEpochs);
      RangeExact(RecordStart(c), c.endSlot);
    }
  }

  lemma FirstSlotMissing(chunks: seq<Chunk>, startEpoch: uint64, endEpoch: uint64, warmupEpochs: uint64)
    requires chunks != [] && forall i :: 0 <= i < |chunks| ==> ChunkOk(chunks[i], warmupEpochs)
    requires Contiguous(chunks, startEpoch, endEpoch) && endEpoch <= MAX_UINT64 / SLOTS_PER_EPOCH
    requires chunks[0].startEpoch < chunks[0].endEpoch && (warmupEpochs == 0 || startEpoch == 0)
    ensures startEpoch * SLOTS_PER_EPOCH !in Recorded(chunks)
  {
    var c := chunks[0];
    assert ChunkOk(c, warmupEpochs);
    forall i | 0 <= i < |chunks[1..]|
      ensures ChunkOk(chunks[1..][i], warmupEpochs)
    {
      assert chunks[1..][i] == chunks[i + 1];
    }
    RecordedBounds(chunks[1..], c.endEpoch, endEpoch, warmupEpochs);
    RangeExact(RecordStart(c), c.endSlot);
  }

  /** The expected slots ascend. */
  lemma {:induction false} RecordedAscends(chunks: seq<Chunk>, startEpoch: uint64, endEpoch: uint64,
                                           warmupEpochs: uint64)
    requires forall i :: 0 <= i < |chunks| ==> ChunkOk(chunks[i], warmupEpochs)
    requires Contiguous(chunks, startEpoch, endEpoch) && endEpoch <= MAX_UINT64 / SLOTS_PER_EPOCH
    ensures forall i, j :: 0 <= i < j < |Recorded(chunks)| ==> Recorded(chunks)[i] < Recorded(chunks)[j]
  {
    if chunks != [] {
      var c, rest := chunks[0], Recorded(chunks[1..]);
      assert ChunkOk(c, warmupEpochs);
      forall i | 0 <= i < |chunks[1..]|
        ensures ChunkOk(chunks[1..][i], warmupEpochs)
      {
        assert chunks[1..][i] == chunks[i + 1];
      }
      RecordedAscends(chunks[1..], c.endEpoch, endEpoch, warmupEpochs);
      RecordedBounds(chunks[1..], c.endEpoch, endEpoch, warmupEpochs);
      RangeExact(RecordStart(c), c.endSlot);
      AscendsJoin(Range(RecordStart(c), c.endSlot), rest, c.endSlot);
    }
  }

  lemma AscendsJoin(a: seq<uint64>, b: seq<uint64>, bound: uint64)
    requires forall i, j :: 0 <= i < j < |a| ==> a[i] < a[j]
    requires forall i, j :: 0 <= i < j < |b| ==> b[i] < b[j]
    requires (forall s :: s in a ==> s < bound) && forall s :: s in b ==> bound <= s
    ensures forall i, j :: 0 <= i < j < |a + b| ==> (a + b)[i] < (a + b)[j]
  {
    forall i, j | 0 <= i < j < |a + b|
      ensures (a + b)[i] < (a + b)[j]
    {
      if i < |a| <= j {
        assert a[i] in a && b[j - |a|] in b;
      }
    }
  }

  /** The expected slots are the whole range, each once and in order, exactly when there is a warmup and the range does
      not start at genesis; otherwise at least the first slot of the range is missing. */
  lemma ExpectedIsWholeRange(chunks: seq<Chunk>, startEpoch: uint64, endEpoch: uint64, warmupEpochs: uint64,
                             parallel: int)
    requires 0 < parallel && startEpoch < endEpoch <= MAX_UINT64 / SLOTS_PER_EPOCH
    requires |chunks| == parallel && Contiguous(chunks, startEpoch, endEpoch)
    requires Even(chunks, (endEpoch - startEpoch) / parallel, (endEpoch - startEpoch) % parallel)
    requires forall i :: 0 <= i < |chunks| ==> ChunkOk(chunks[i], warmupEpochs)
    ensures Recorded(Active(chunks)) == Range(startEpoch * SLOTS_PER_EPOCH, endEpoch * SLOTS_PER_EPOCH) <==>
      warmupEpochs >= 1 && startEpoch >= 1
  {
    ActiveRecordsAll(chunks, warmupEpochs);
    if warmupEpochs >= 1 && startEpoch >= 1 {
      WarmRangeRecorded(chunks, startEpoch, endEpoch, warmupEpochs);
    } else {
      FirstChunkActive(endEpoch - startEpoch, parallel);
      assert chunks[0].endEpoch - chunks[0].startEpoch > 0;
      FirstSlotMissing(chunks, startEpoch, endEpoch, warmupEpochs);
      RangeExact(startEpoch * SLOTS_PER_EPOCH, endEpoch * SLOTS_PER_EPOCH);
    }
  }

  lemma FirstChunkActive(total: nat, parallel: nat)
    requires total > 0 && parallel > 0
    ensures total / parallel > 0 || total % parallel > 0
  {
  }
}
