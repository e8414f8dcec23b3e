/** Merging the workers' records: no slot twice, none missing, in order. */
module Merge {
  import opened Core
  import opened Chunks
  import opened Sorts

  /** A parsed record; `text` stands for the fields that the merge only copies. */
  datatype Record = Record(slot: uint64, fastConfirmed: bool, text: string)

  /** A line of a worker file: blank, rejected by the parser, or a record. */
  datatype Line = Blank | Invalid | Parsed(record: Record)

  datatype Stats = Stats(totalSlots: nat, fastConfirmedCount: nat, firstSlot: uint64, lastSlot: uint64)

  function RecordsIn(lines: seq<Line>): seq<Record> {
    if lines == [] then []
    else RecordsIn(lines[..|lines| - 1]) + if lines[|lines| - 1].Parsed? then [lines[|lines| - 1].record] else []
  }

  /** The records of all files in order; a file is None where it cannot be read. */
  function RecordsOf(files: seq<Option<seq<Line>>>): seq<Record> {
    if files == [] then []
    else RecordsOf(files[..|files| - 1]) + if files[|files| - 1].Some? then RecordsIn(files[|files| - 1].value) else []
  }

  /** How often the lines of all files hold this record. */
  ghost function Lines(files: seq<Option<seq<Line>>>, r: Record): nat {
    if files == [] then 0
    else (if files[0].Some? then multiset(files[0].value)[Parsed(r)] else 0) + Lines(files[1..], r)
  }

  lemma {:induction false} RecordsInCounted(lines: seq<Line>, r: Record)
    ensures multiset(RecordsIn(lines))[r] == multiset(lines)[Parsed(r)]
  {
    if lines != [] {
      RecordsInCounted(lines[..|lines| - 1], r);
      assert lines == lines[..|lines| - 1] + [lines[|lines| - 1]];
    }
  }

  lemma {:induction false} LinesAppend(files: seq<Option<seq<Line>>>, f: Option<seq<Line>>, r: Record)
    ensures Lines(files + [f], r) == Lines(files, r) + if f.Some? then multiset(f.value)[Parsed(r)] else 0
  {
    if files == [] {
      assert (files + [f])[1..] == [];
    } else {
      assert (files + [f])[1..] == files[1..] + [f];
      LinesAppend(files[1..], f, r);
    }
  }

  /** A record is read exactly as often as the lines hold it. */
  lemma {:induction false} RecordsCounted(files: seq<Option<seq<Line>>>, r: Record)
    ensures multiset(RecordsOf(files))[r] == Lines(files, r)
  {
    if files != [] {
      var front, f := files[..|files| - 1], files[|files| - 1];
      RecordsCounted(front, r);
      assert front + [f] == files;
      LinesAppend(front, f, r);
      if f.Some? {
        RecordsInCounted(f.value, r);
      }
    }
  }

  ghost predicate DistinctSlots(records: seq<Record>) {
    forall i, j :: 0 <= i < j < |records| ==> records[i].slot != records[j].slot
  }

  ghost predicate Readable(files: seq<Option<seq<Line>>>) {
    forall f :: f in files ==> f.Some? && Invalid !in f.value
  }

  ghost predicate SlotsSeen(records: seq<Record>, seen: set<uint64>) {
    forall s: uint64 :: s in seen <==> exists r :: r in records && r.slot == s
  }

  /** Reads one file after the others; a slot that was seen before is an error. */
  method ReadFile(lines: seq<Line>, records0: seq<Record>, seen0: set<uint64>)
    returns (ok: bool, records: seq<Record>, seen: set<uint64>)
    requires DistinctSlots(records0) && SlotsSeen(records0, seen0)
    ensures ok <==> Invalid !in lines && DistinctSlots(records0 + RecordsIn(lines))
    ensures ok ==> records == records0 + RecordsIn(lines) && SlotsSeen(records, seen)
  {
    records, seen := records0, seen0;
    for k := 0 to |lines|
      invariant Invalid !in lines[..k] && records == records0 + RecordsIn(lines[..k])
      invariant DistinctSlots(records) && SlotsSeen(records, seen)
    {
      hide DistinctSlots, SlotsSeen, RecordsIn;
      ReadStep(records0, lines, k);
      match lines[k] {
        case Blank =>
        case Invalid =>
          return false, records, seen;
        case Parsed(record) =>
          AddRecord(records, record, seen);
          if record.slot in seen {
            DuplicateStays(records0, lines, k + 1);
            return false, records, seen;
          }
          seen := seen + {record.slot};
          records := records + [record];
      }
    }
    assert lines[..|lines|] == lines;
    return true, records, seen;
  }

  lemma ReadStep(before: seq<Record>, lines: seq<Line>, k: nat)
    requires k < |lines|
    ensures Invalid in lines[..k + 1] <==> Invalid in lines[..k] || lines[k] == Invalid
    ensures before + RecordsIn(lines[..k + 1]) == before + RecordsIn(lines[..k]) + if lines[k].Parsed?
      then [lines[k].record] else []
  {
    assert lines[..k + 1][..k] == lines[..k] && lines[..k + 1] == lines[..k] + [lines[k]];
  }

  /** A record with a new slot extends the distinct ones; one with a seen slot does not. */
  lemma AddRecord(records: seq<Record>, record: Record, seen: set<uint64>)
    requires DistinctSlots(records) && SlotsSeen(records, seen)
    ensures DistinctSlots(records + [record]) <==> record.slot !in seen
    ensures SlotsSeen(records + [record], seen + {record.slot})
  {
    var longer := records + [record];
    assert longer[|records|] == record;
    if record.slot in seen {
      var r :| r in records && r.slot == record.slot;
      var i :| 0 <= i < |records| && records[i] == r;
      assert longer[i].slot == longer[|records|].slot;
    } else {
      forall i | 0 <= i < |records|
        ensures records[i].slot != record.slot
      {
        assert records[i] in records;
      }
    }
    forall s: uint64
      ensures s in seen + {record.slot} <==> exists r :: r in longer && r.slot == s
    {
      if s == record.slot {
        assert record in longer;
      } else if s in seen {
        var r :| r in records && r.slot == s;
        assert r in longer;
      }
    }
  }

  lemma {:induction false} PrefixRecords(lines: seq<Line>, k: nat)
    requires k <= |lines|
    ensures RecordsIn(lines[..k]) <= RecordsIn(lines)
    decreases |lines| - k
  {
    if k < |lines| {
      PrefixRecords(lines, k + 1);
      assert lines[..k + 1][..k] == lines[..k];
    } else {
      assert lines[..k] == lines;
    }
  }

  /** A duplicate among the first lines is a duplicate of the whole. */
  lemma DuplicateStays(before: seq<Record>, lines: seq<Line>, k: nat)
    requires k <= |lines| && !DistinctSlots(before + RecordsIn(lines[..k]))
    ensures !DistinctSlots(before + RecordsIn(lines))
  {
    PrefixRecords(lines, k);
    var part, whole := before + RecordsIn(lines[..k]), before + RecordsIn(lines);
    var i, j :| 0 <= i < j < |part| && part[i].slot == part[j].slot;
    assert whole[i] == part[i] && whole[j] == part[j];
  }

  lemma {:induction false} PrefixFiles(files: seq<Option<seq<Line>>>, k: nat)
    requires k <= |files|
    ensures RecordsOf(files[..k]) <= RecordsOf(files)
    decreases |files| - k
  {
    if k < |files| {
      PrefixFiles(files, k + 1);
      assert files[..k + 1][..k] == files[..k];
    } else {
      assert files[..k] == files;
    }
  }

  lemma PrefixDistinct(part: seq<Record>, whole: seq<Record>)
    requires part <= whole && DistinctSlots(whole)
    ensures DistinctSlots(part)
  {
  }

  /** One more file: it has to be there, and its lines valid. */
  lemma OneMoreFile(files: seq<Option<seq<Line>>>, k: nat)
    requires k < |files|
    ensures Readable(files[..k + 1]) <==> Readable(files[..k]) && files[k].Some? && Invalid !in files[k].value
    ensures files[k].Some? ==> RecordsOf(files[..k + 1]) == RecordsOf(files[..k]) + RecordsIn(files[k].value)
  {
    var longer := files[..k + 1];
    assert longer[..k] == files[..k] && longer == files[..k] + [files[k]];
    assert forall f :: f in longer <==> f in files[..k] || f == files[k];
  }

  /** What a prefix of the files cannot have, all files cannot have. */
  lemma PrefixFails(files: seq<Option<seq<Line>>>, k: nat)
    requires k <= |files|
    ensures Readable(files) ==> Readable(files[..k])
    ensures DistinctSlots(RecordsOf(files)) ==> DistinctSlots(RecordsOf(files[..k]))
  {
    PrefixFiles(files, k);
    if DistinctSlots(RecordsOf(files)) {
      PrefixDistinct(RecordsOf(files[..k]), RecordsOf(files));
    }
  }

  /** Reads all files; succeeds exactly when every file and line is readable and no slot occurs twice. */
  method ReadWorkerRecords(files: seq<Option<seq<Line>>>) returns (r: Option<seq<Record>>)
    ensures r.Some? <==> Readable(files) && DistinctSlots(RecordsOf(files))
    ensures r.Some? ==> r.value == RecordsOf(files)
  {
    var records: seq<Record>, seen: set<uint64> := [], {};
    for k := 0 to |files|
      invariant Readable(files[..k]) && records == RecordsOf(files[..k])
      invariant DistinctSlots(records) && SlotsSeen(records, seen)
    {
      hide DistinctSlots, SlotsSeen, RecordsIn, RecordsOf, Readable;
      OneMoreFile(files, k);
      PrefixFails(files, k + 1);
      if files[k].None? {
        return None;
      }
      var ok;
      ok, records, seen := ReadFile(files[k].value, records, seen);
      if !ok {
        return None;
      }
    }
    assert files[..|files|] == files;
    return Some(records);
  }

  // ----- sorting

  ghost predicate AscendingSlots(records: seq<Record>) {
    forall i, j :: 0 <= i < j < |records| ==> records[i].slot < records[j].slot
  }

  predicate SlotBefore(a: Record, b: Record) {
    a.slot < b.slot
  }

  lemma SameSlotSameRecord(records: seq<Record>, a: Record, b: Record)
    requires DistinctSlots(records) && a in records && b in records && a.slot == b.slot
    ensures a == b
  {
  }

  /** Records with distinct slots sort into strictly ascending slots. */
  lemma DistinctSlotsAscend(records: seq<Record>)
    requires DistinctSlots(records)
    ensures AscendingSlots(Sort(records, SlotBefore))
  {
    var r := Sort(records, SlotBefore);
    SortSorts(records, SlotBefore);
    SortKeeps(records, SlotBefore);
    forall i, j | 0 <= i < j < |r|
      ensures r[i].slot < r[j].slot
    {
      assert !SlotBefore(r[j], r[i]) && r[i] != r[j];
      if r[i].slot == r[j].slot {
        SameSlotSameRecord(records, r[i], r[j]);
      }
    }
  }

  /** Records have only one ascending order, so the unstable sort of the source has one result. */
  lemma OrderUnique(a: seq<Record>, b: seq<Record>)
    requires AscendingSlots(a) && AscendingSlots(b) && multiset(a) == multiset(b)
    ensures a == b
  {
    SameMembers(a, b);
    AscendingUnique(a, b, SlotBefore);
  }

  // ----- the merge

  ghost predicate Covers(records: seq<Record>, expected: seq<uint64>) {
    forall s :: s in expected ==> exists r :: r in records && r.slot == s
  }

  /** The records in output order; an error unless every expected slot is there. Nothing is checked when none is
      expected. */
  method MergeRecords(files: seq<Option<seq<Line>>>, expectedSlots: seq<uint64>) returns (r: Option<seq<Record>>)
    ensures r.Some? <==> Readable(files) && DistinctSlots(RecordsOf(files)) && Covers(RecordsOf(files), expectedSlots)
    ensures r.Some? ==> AscendingSlots(r.value) && multiset(r.value) == multiset(RecordsOf(files))
  {
    var read := ReadWorkerRecords(files);
    if read.None? {
      return None;
    }
    var records := Sort(read.value, SlotBefore);
    DistinctSlotsAscend(read.value);
    SameMembers(records, read.value);
    if |expectedSlots| > 0 {
      var missing := MissingSlots(records, expectedSlots);
      if |missing| > 0 {
        assert missing[0] in missing;
        return None;
      }
    }
    return Some(records);
  }

  /** The expected slots without a record, in the order they were expected. */
  method MissingSlots(records: seq<Record>, expectedSlots: seq<uint64>) returns (missing: seq<uint64>)
    ensures forall s :: s in missing <==> s in expectedSlots && !exists r :: r in records && r.slot == s
  {
    var seen: set<uint64> := {};
    for k := 0 to |records|
      invariant forall s: uint64 :: s in seen <==> exists r :: r in records[..k] && r.slot == s
    {
      assert records[..k + 1] == records[..k] + [records[k]];
      assert records[k] in records[..k + 1];
      seen := seen + {records[k].slot};
    }
    assert records[..|records|] == records;
    missing := [];
    for k := 0 to |expectedSlots|
      invariant forall s :: s in missing <==> s in expectedSlots[..k] && s !in seen
    {
      assert expectedSlots[..k + 1] == expectedSlots[..k] + [expectedSlots[k]];
      if expectedSlots[k] !in seen {
        missing := missing + [expectedSlots[k]];
      }
    }
    assert expectedSlots[..|expectedSlots|] == expectedSlots;
  }

  ghost function FastIn(records: seq<Record>): set<uint64> {
    set r | r in records && r.fastConfirmed :: r.slot
  }

  /** The totals of an output: with ascending slots the first and last record bound all slots. */
  method ComputeStats(records: seq<Record>) returns (stats: Stats)
    requires AscendingSlots(records)
    ensures stats.totalSlots == |records| && stats.fastConfirmedCount == |FastIn(records)|
    ensures records == [] ==> stats.firstSlot == 0 && stats.lastSlot == 0
    ensures forall r :: r in records ==> stats.firstSlot <= r.slot <= stats.lastSlot
    ensures records != [] ==>
      exists r, q :: r in records && q in records && r.slot == stats.firstSlot && q.slot == stats.lastSlot
  {
    stats := Stats(|records|, 0, 0, 0);
    if |records| == 0 {
      return;
    }
    stats := stats.(firstSlot := records[0].slot, lastSlot := records[|records| - 1].slot);
    for k := 0 to |records|
      invariant stats == Stats(|records|, |FastIn(records[..k])|, records[0].slot, records[|records| - 1].slot)
    {
      FastNext(records, k);
      if records[k].fastConfirmed {
        stats := stats.(fastConfirmedCount := stats.fastConfirmedCount + 1);
      }
    }
    assert records[..|records|] == records;
    assert records[0] in records && records[|records| - 1] in records;
  }

  lemma FastNext(records: seq<Record>, k: nat)
    requires AscendingSlots(records) && k < |records|
    ensures |FastIn(records[..k + 1])| == |FastIn(records[..k])| + if records[k].fastConfirmed then 1 else 0
  {
    assert records[..k + 1] == records[..k] + [records[k]];
    if records[k].fastConfirmed {
      assert FastIn(records[..k + 1]) == FastIn(records[..k]) + {records[k].slot};
      assert records[k].slot !in FastIn(records[..k]);
    } else {
      assert FastIn(records[..k + 1]) == FastIn(records[..k]);
    }
  }

  // ----- from split to merge

  ghost predicate OnlyAt(records: seq<Record>, s: uint64, i: int) {
    0 <= i < |records| && records[i].slot == s && forall j :: 0 <= j < |records| && j != i ==> records[j].slot != s
  }

  /** With a warmup and a start after genesis, a merge that succeeds has a record for every slot of the range, exactly
      one each. */
  lemma MergedRunIsComplete(chunks: seq<Chunk>, startEpoch: uint64, endEpoch: uint64, warmupEpochs: uint64,
                            parallel: int, records: seq<Record>, output: seq<Record>, s: uint64)
    requires 0 < parallel && startEpoch < endEpoch <= MAX_UINT64 / SLOTS_PER_EPOCH && warmupEpochs >= 1
    requires startEpoch >= 1
    requires |chunks| == parallel && Contiguous(chunks, startEpoch, endEpoch)
    requires Even(chunks, (endEpoch - startEpoch) / parallel, (endEpoch - startEpoch) % parallel)
    requires forall i :: 0 <= i < |chunks| ==> ChunkOk(chunks[i], warmupEpochs)
    requires Covers(records, Recorded(Active(chunks)))
    requires AscendingSlots(output) && multiset(output) == multiset(records)
    requires startEpoch * SLOTS_PER_EPOCH <= s < endEpoch * SLOTS_PER_EPOCH
    ensures exists i :: OnlyAt(output, s, i)
  {
    ExpectedIsWholeRange(chunks, startEpoch, endEpoch, warmupEpochs, parallel);
    RangeExact(startEpoch * SLOTS_PER_EPOCH, endEpoch * SLOTS_PER_EPOCH);
    assert s in Recorded(Active(chunks));
    var r :| r in records && r.slot == s;
    SameMembers(output, records);
    var i :| 0 <= i < |output| && output[i] == r;
    assert OnlyAt(output, s, i);
  }
}
