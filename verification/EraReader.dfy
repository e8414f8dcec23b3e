/** The era file indexer: one pass over the records of a file, and reads through the index. */
module EraReader {
  import opened Core
  import opened RootOrder
  import opened EraFormat

  type Decompress = seq<byte> -> Option<seq<byte>>

  datatype RecordRef = RecordRef(offset: nat, length: nat)

  datatype EraIndex = EraIndex(blocks: map<uint64, RecordRef>, numRecs: nat)

  /** An open file read front to back. */
  class Stream {
    const data: seq<byte>
    var at: nat

    ghost predicate Valid()
      reads this
    {
      at <= |data|
    }

    constructor (data: seq<byte>)
      ensures Valid() && this.data == data && at == 0
    {
      this.data := data;
      at := 0;
    }

    /** Fills a buffer of n bytes or fails, having used up what was left. */
    method ReadFull(n: nat) returns (r: Option<seq<byte>>)
      requires Valid()
      modifies this
      ensures Valid()
      ensures r.Some? <==> old(at) + n <= |data|
      ensures r.Some? ==> r.value == data[old(at)..old(at) + n] && at == old(at) + n
    {
      if n > |data| - at {
        at := |data|;
        return None;
      }
      r := Some(data[at..at + n]);
      at := at + n;
    }

    /** Skips n bytes; `copied` tells how many there were. */
    method Skip(n: nat) returns (copied: nat, ok: bool)
      requires Valid()
      modifies this
      ensures Valid() && at == old(at) + copied
      ensures ok <==> old(at) + n <= |data|
      ensures ok ==> copied == n
    {
      copied, ok := n, true;
      if n > |data| - at {
        copied, ok := |data| - at, false;
      }
      at := at + copied;
    }

    /** readRecordHeader: a file that ends within a header has no more records. */
    method ReadRecordHeader() returns (r: Option<Header>)
      requires Valid()
      modifies this
      ensures Valid()
      ensures r.Some? <==> old(at) + RECORD_HEADER_LEN <= |data|
      ensures r.Some? ==>
        r.value == ParseHeader(data[old(at)..old(at) + RECORD_HEADER_LEN]) && at == old(at) + RECORD_HEADER_LEN
    {
      var header := ReadFull(RECORD_HEADER_LEN);
      if header.None? {
        return None;
      }
      return Some(ParseHeader(header.value));
    }
  }

  /** The slot of a compressed block record. */
  function BlockSlot(decompress: Decompress, compressed: seq<byte>): Option<uint64> {
    match decompress(compressed)
    case None => None
    case Some(ssz) => ExtractSlot(ssz)
  }

  /** The index of the records from `pos` on, added to what was found before. */
  ghost function Walk(data: seq<byte>, decompress: Decompress, pos: nat, index: EraIndex): Option<EraIndex>
    requires pos <= |data|
    decreases |data| - pos
  {
    if pos + RECORD_HEADER_LEN > |data| then Some(index)
    else
      var header := ParseHeader(data[pos..pos + RECORD_HEADER_LEN]);
      var offset := pos + RECORD_HEADER_LEN;
      if offset + header.length > |data| then None
      else if header.recordType != TYPE_COMPRESSED_SIGNED_BEACON_BLOCK then
        Walk(data, decompress, offset + header.length, EraIndex(index.blocks, index.numRecs + 1))
      else
        match BlockSlot(decompress, data[offset..offset + header.length])
        case None => None
        case Some(slot) =>
          Walk(data, decompress, offset + header.length,
            EraIndex(index.blocks[slot := RecordRef(offset, header.length)], index.numRecs + 1))
  }

  /** The index of a file: a version record first, then the walk. */
  ghost function IndexOf(data: seq<byte>, decompress: Decompress): Option<EraIndex> {
    if RECORD_HEADER_LEN > |data| then None
    else
      var version := ParseHeader(data[..RECORD_HEADER_LEN]);
      if version.recordType != TYPE_VERSION || RECORD_HEADER_LEN + version.length > |data| then None
      else Walk(data, decompress, RECORD_HEADER_LEN + version.length, EraIndex(map[], 0))
  }

  /** The branches of one round of the walk. */
  lemma WalkRound(data: seq<byte>, decompress: Decompress, pos: nat, index: EraIndex)
    requires pos <= |data|
    ensures var walk := Walk(data, decompress, pos, index); var offset := pos + RECORD_HEADER_LEN;
      if offset > |data| then walk == Some(index)
      else
        var header := ParseHeader(data[pos..offset]);
        if offset + header.length > |data| then walk == None
        else if header.recordType != TYPE_COMPRESSED_SIGNED_BEACON_BLOCK then
          walk == Walk(data, decompress, offset + header.length, EraIndex(index.blocks, index.numRecs + 1))
        else
          match BlockSlot(decompress, data[offset..offset + header.length])
          case None => walk == None
          case Some(slot) => walk == Walk(data, decompress, offset + header.length,
                                          EraIndex(index.blocks[slot := RecordRef(offset, header.length)],
                                            index.numRecs + 1))
  {
  }

  /** Reads the file once and keeps its own count of the position. */
  method BuildEraIndex(data: seq<byte>, decompress: Decompress) returns (r: Option<EraIndex>)
    ensures r == IndexOf(data, decompress)
  {
    hide Walk, ParseHeader, BlockSlot;
    var file := new Stream(data);
    var pos := 0;
    var version := file.ReadRecordHeader();
    if version.None? {
      return None;
    }
    pos := pos + RECORD_HEADER_LEN;
    if version.value.recordType != TYPE_VERSION {
      return None;
    }
    LengthFits(data[..RECORD_HEADER_LEN]);
    var _, skipped := file.Skip(version.value.length);
    if !skipped {
      return None;
    }
    pos := pos + version.value.length;
    var blocks: map<uint64, RecordRef>, numRecs := map[], 0;
    while true
      invariant file.Valid() && file.data == data && pos == file.at
      invariant IndexOf(data, decompress) == Walk(data, decompress, pos, EraIndex(blocks, numRecs))
      decreases |data| - pos
    {
      hide IndexOf;
      WalkRound(data, decompress, pos, EraIndex(blocks, numRecs));
      var header := file.ReadRecordHeader();
      if header.None? {
        break;
      }
      LengthFits(data[pos..pos + RECORD_HEADER_LEN]);
      pos := pos + RECORD_HEADER_LEN;
      var dataOffset := pos;
      numRecs := numRecs + 1;
      if header.value.recordType == TYPE_COMPRESSED_SIGNED_BEACON_BLOCK {
        var compressed := file.ReadFull(header.value.length);
        if compressed.None? {
          return None;
        }
        pos := pos + header.value.length;
        var slot := BlockSlot(decompress, compressed.value);
        if slot.None? {
          return None;
        }
        blocks := blocks[slot.value := RecordRef(dataOffset, header.value.length)];
      } else {
        var n, ok := file.Skip(header.value.length);
        pos := pos + n;
        if !ok {
          return None;
        }
      }
    }
    return Some(EraIndex(blocks, numRecs));
  }

  lemma LengthFits(header: seq<byte>)
    requires |header| == RECORD_HEADER_LEN
    ensures 0 <= ParseHeader(header).length < 0x1_0000_0000
  {
    LittleEndianBounded(header[2..6]);
    assert Pow256(4) == 0x1_0000_0000;
  }

  // ----- every accepted file

  ghost predicate RefOk(data: seq<byte>, decompress: Decompress, slot: uint64, ref: RecordRef) {
    ref.offset + ref.length <= |data| && BlockSlot(decompress, data[ref.offset..ref.offset + ref.length]) == Some(slot)
  }

  ghost predicate IndexOk(data: seq<byte>, decompress: Decompress, blocks: map<uint64, RecordRef>) {
    forall s :: s in blocks ==> RefOk(data, decompress, s, blocks[s])
  }

  lemma {:induction false} WalkOk(data: seq<byte>, decompress: Decompress, pos: nat, index: EraIndex, r: EraIndex)
    requires pos <= |data| && IndexOk(data, decompress, index.blocks) && Walk(data, decompress, pos, index) == Some(r)
    ensures IndexOk(data, decompress, r.blocks)
    decreases |data| - pos
  {
    if pos + RECORD_HEADER_LEN <= |data| {
      var header := ParseHeader(data[pos..pos + RECORD_HEADER_LEN]);
      var offset := pos + RECORD_HEADER_LEN;
      if header.recordType != TYPE_COMPRESSED_SIGNED_BEACON_BLOCK {
        WalkOk(data, decompress, offset + header.length, EraIndex(index.blocks, index.numRecs + 1), r);
      } else {
        var slot := BlockSlot(decompress, data[offset..offset + header.length]).value;
        WalkOk(data, decompress, offset + header.length,
          EraIndex(index.blocks[slot := RecordRef(offset, header.length)], index.numRecs + 1), r);
      }
    }
  }

  /** Whatever file is accepted: each reference lies within it, and its payload holds a block of exactly that slot. */
  lemma AcceptedFile(data: seq<byte>, decompress: Decompress, r: EraIndex, s: uint64)
    requires IndexOf(data, decompress) == Some(r) && s in r.blocks
    ensures RefOk(data, decompress, s, r.blocks[s])
  {
    var version := ParseHeader(data[..RECORD_HEADER_LEN]);
    WalkOk(data, decompress, RECORD_HEADER_LEN + version.length, EraIndex(map[], 0), r);
  }

  // ----- which files are accepted

  ghost function HeaderAt(data: seq<byte>, at: nat): Header
    requires at + RECORD_HEADER_LEN <= |data|
  {
    ParseHeader(data[at..at + RECORD_HEADER_LEN])
  }

  /** The record at this position, header and payload, lies within the file. */
  ghost predicate Fits(data: seq<byte>, at: nat) {
    at + RECORD_HEADER_LEN <= |data| && 0 <= HeaderAt(data, at).length
      && at + RECORD_HEADER_LEN + HeaderAt(data, at).length <= |data|
  }

  /** Where the records of the rest of a file start: one after the other without a gap; after the last one less than a
      header is left. */
  ghost predicate Layout(data: seq<byte>, starts: seq<nat>) {
    && starts != [] && starts[|starts| - 1] <= |data| < starts[|starts| - 1] + RECORD_HEADER_LEN
    && (forall i :: 0 <= i < |starts| - 1 ==>
          Fits(data, starts[i])
          && starts[i + 1] == starts[i] + RECORD_HEADER_LEN + HeaderAt(data, starts[i]).length)
  }

  ghost predicate IsBlockAt(data: seq<byte>, at: nat) {
    Fits(data, at) && HeaderAt(data, at).recordType == TYPE_COMPRESSED_SIGNED_BEACON_BLOCK
  }

  ghost function RefAt(data: seq<byte>, at: nat): RecordRef
    requires Fits(data, at)
  {
    RecordRef(at + RECORD_HEADER_LEN, HeaderAt(data, at).length)
  }

  /** The slot of the block record at this position; None where there is no block record, or an undecodable one. */
  ghost function SlotAt(data: seq<byte>, decompress: Decompress, at: nat): Option<uint64> {
    if IsBlockAt(data, at) then
      var ref := RefAt(data, at);
      BlockSlot(decompress, data[ref.offset..ref.offset + ref.length])
    else None
  }

  ghost predicate Decodable(data: seq<byte>, decompress: Decompress, starts: seq<nat>) {
    forall i :: 0 <= i < |starts| - 1 && IsBlockAt(data, starts[i]) ==> SlotAt(data, decompress, starts[i]).Some?
  }

  /** Record i holds the last block of this slot. */
  ghost predicate LastAt(data: seq<byte>, decompress: Decompress, starts: seq<nat>, i: nat, s: uint64) {
    && i < |starts| - 1 && SlotAt(data, decompress, starts[i]) == Some(s)
    && (forall j :: i < j < |starts| - 1 ==> SlotAt(data, decompress, starts[j]) != Some(s))
  }

  /** The index adds the records that start there: their number, and for every slot its last block. */
  ghost predicate AddsRecords(data: seq<byte>, decompress: Decompress, starts: seq<nat>, index: EraIndex, r: EraIndex) {
    && r.numRecs == index.numRecs + |starts| - 1
    && (forall i: nat, s :: LastAt(data, decompress, starts, i, s) ==>
          s in r.blocks && Fits(data, starts[i]) && r.blocks[s] == RefAt(data, starts[i]))
    && (forall s: uint64 :: NoBlockOf(data, decompress, starts, s) ==>
          (s in r.blocks <==> s in index.blocks) && (s in r.blocks ==> r.blocks[s] == index.blocks[s]))
  }

  ghost predicate NoBlockOf(data: seq<byte>, decompress: Decompress, starts: seq<nat>, s: uint64) {
    forall i :: 0 <= i < |starts| - 1 ==> SlotAt(data, decompress, starts[i]) != Some(s)
  }

  /** The first record of a layout, and the layout of the rest. */
  lemma LayoutTail(data: seq<byte>, starts: seq<nat>)
    requires Layout(data, starts) && |starts| > 1
    ensures Layout(data, starts[1..]) && Fits(data, starts[0])
    ensures starts[1..][0] == starts[0] + RECORD_HEADER_LEN + HeaderAt(data, starts[0]).length
  {
    var rest := starts[1..];
    forall i | 0 <= i < |rest| - 1
      ensures Fits(data, rest[i]) && rest[i + 1] == rest[i] + RECORD_HEADER_LEN + HeaderAt(data, rest[i]).length
    {
      assert starts[i + 1] == rest[i] && starts[i + 2] == rest[i + 1];
    }
  }

  ghost function OneRecord(data: seq<byte>, decompress: Decompress, at: nat, index: EraIndex): EraIndex
    requires Fits(data, at)
  {
    var slot := SlotAt(data, decompress, at);
    EraIndex(if slot.Some? then index.blocks[slot.value := RefAt(data, at)] else index.blocks, index.numRecs + 1)
  }

  lemma WalkOne(data: seq<byte>, decompress: Decompress, at: nat, index: EraIndex)
    requires at <= |data|
    ensures at + RECORD_HEADER_LEN > |data| ==> Walk(data, decompress, at, index) == Some(index)
    ensures at + RECORD_HEADER_LEN <= |data| && !Fits(data, at) ==> Walk(data, decompress, at, index) == None
    ensures IsBlockAt(data, at) && SlotAt(data, decompress, at).None? ==> Walk(data, decompress, at, index) == None
    ensures Fits(data, at) && (IsBlockAt(data, at) ==> SlotAt(data, decompress, at).Some?) ==>
      Walk(data, decompress, at, index) == Walk(data, decompress, at + RECORD_HEADER_LEN + HeaderAt(data, at).length,
                                                OneRecord(data, decompress, at, index))
  {
    if at + RECORD_HEADER_LEN <= |data| {
      LengthFits(data[at..at + RECORD_HEADER_LEN]);
    }
    WalkRound(data, decompress, at, index);
    hide ParseHeader, Walk, BlockSlot;
  }

  lemma AddsOneMore(data: seq<byte>, decompress: Decompress, starts: seq<nat>, index: EraIndex, r: EraIndex)
    requires Layout(data, starts) && |starts| > 1 && Fits(data, starts[0])
    requires AddsRecords(data, decompress, starts[1..], OneRecord(data, decompress, starts[0], index), r)
    ensures AddsRecords(data, decompress, starts, index, r)
  {
    hide Fits, RefAt, SlotAt, IsBlockAt, Layout;
    var rest := starts[1..];
    assert forall i :: 0 <= i < |rest| ==> rest[i] == starts[i + 1];
    forall i: nat, s | LastAt(data, decompress, starts, i, s)
      ensures s in r.blocks && Fits(data, starts[i]) && r.blocks[s] == RefAt(data, starts[i])
    {
      BlockThere(data, decompress, starts[i]);
      if i > 0 {
        assert LastAt(data, decompress, rest, i - 1, s);
      } else {
        assert NoBlockOf(data, decompress, rest, s);
      }
    }
    forall s: uint64 | NoBlockOf(data, decompress, starts, s)
      ensures (s in r.blocks <==> s in index.blocks) && (s in r.blocks ==> r.blocks[s] == index.blocks[s])
    {
      assert SlotAt(data, decompress, starts[0]) != Some(s);
      assert NoBlockOf(data, decompress, rest, s);
    }
  }

  lemma BlockThere(data: seq<byte>, decompress: Decompress, at: nat)
    requires SlotAt(data, decompress, at).Some?
    ensures IsBlockAt(data, at) && Fits(data, at)
  {
  }

  lemma {:induction false} LayoutWalk(data: seq<byte>, decompress: Decompress, starts: seq<nat>, index: EraIndex)
    requires Layout(data, starts) && Decodable(data, decompress, starts) && starts[0] <= |data|
    ensures var r := Walk(data, decompress, starts[0], index);
      r.Some? && AddsRecords(data, decompress, starts, index, r.value)
    decreases |starts|
  {
    hide Walk, Fits, SlotAt, IsBlockAt, AddsRecords, HeaderAt, RefAt, OneRecord;
    WalkOne(data, decompress, starts[0], index);
    if |starts| == 1 {
      AddsNone(data, decompress, starts, index);
    } else {
      LayoutTail(data, starts);
      var rest := starts[1..];
      assert forall i :: 0 <= i < |rest| ==> rest[i] == starts[i + 1];
      WithinFile(data, starts[0]);
      LayoutWalk(data, decompress, rest, OneRecord(data, decompress, starts[0], index));
      AddsOneMore(data, decompress, starts, index, Walk(data, decompress, starts[0], index).value);
    }
  }

  lemma WithinFile(data: seq<byte>, at: nat)
    requires Fits(data, at)
    ensures at + RECORD_HEADER_LEN + HeaderAt(data, at).length <= |data| && HeaderAt(data, at).length >= 0
  {
  }

  lemma AddsNone(data: seq<byte>, decompress: Decompress, starts: seq<nat>, index: EraIndex)
    requires |starts| == 1
    ensures AddsRecords(data, decompress, starts, index, index)
  {
  }

  lemma {:induction false} WalkLayout(data: seq<byte>, decompress: Decompress, at: nat, index: EraIndex)
    returns (starts: seq<nat>)
    requires at <= |data| && Walk(data, decompress, at, index).Some?
    ensures Layout(data, starts) && Decodable(data, decompress, starts) && starts[0] == at
    decreases |data| - at
  {
    hide Walk, Fits, SlotAt, IsBlockAt, HeaderAt, RefAt, OneRecord;
    WalkOne(data, decompress, at, index);
    if at + RECORD_HEADER_LEN > |data| {
      starts := [at];
    } else {
      WithinFile(data, at);
      var rest := WalkLayout(data, decompress, at + RECORD_HEADER_LEN + HeaderAt(data, at).length,
                             OneRecord(data, decompress, at, index));
      starts := [at] + rest;
      assert forall i :: 0 < i < |starts| ==> starts[i] == rest[i - 1];
      if IsBlockAt(data, at) && SlotAt(data, decompress, at).None? {
        assert false;
      }
    }
  }

  /** A file with a version record first, whole records after it, and blocks that decode. */
  ghost predicate GoodFile(data: seq<byte>, decompress: Decompress, starts: seq<nat>) {
    && Layout(data, starts) && |starts| > 1 && starts[0] == 0 && HeaderAt(data, 0).recordType == TYPE_VERSION
    && Decodable(data, decompress, starts[1..])
  }

  /** A file is accepted exactly when it is such a file; the index counts the records after the first, and refers for
      every slot to its last block and for no other slot to anything. */
  lemma AcceptedExactly(data: seq<byte>, decompress: Decompress)
    ensures IndexOf(data, decompress).Some? <==> exists starts :: GoodFile(data, decompress, starts)
    ensures forall starts :: GoodFile(data, decompress, starts) ==>
      IndexOf(data, decompress).Some?
      && AddsRecords(data, decompress, starts[1..], EraIndex(map[], 0), IndexOf(data, decompress).value)
  {
    forall starts | GoodFile(data, decompress, starts)
      ensures IndexOf(data, decompress).Some?
        && AddsRecords(data, decompress, starts[1..], EraIndex(map[], 0), IndexOf(data, decompress).value)
    {
      GoodIsAccepted(data, decompress, starts);
    }
    if IndexOf(data, decompress).Some? {
      var starts := AcceptedIsGood(data, decompress);
    }
  }

  lemma GoodIsAccepted(data: seq<byte>, decompress: Decompress, starts: seq<nat>)
    requires GoodFile(data, decompress, starts)
    ensures IndexOf(data, decompress).Some?
    ensures AddsRecords(data, decompress, starts[1..], EraIndex(map[], 0), IndexOf(data, decompress).value)
  {
    hide Walk, AddsRecords, ParseHeader, Decodable, SlotAt;
    LayoutTail(data, starts);
    WithinFile(data, 0);
    assert data[0..RECORD_HEADER_LEN] == data[..RECORD_HEADER_LEN];
    LayoutWalk(data, decompress, starts[1..], EraIndex(map[], 0));
  }

  lemma AcceptedIsGood(data: seq<byte>, decompress: Decompress) returns (starts: seq<nat>)
    requires IndexOf(data, decompress).Some?
    ensures GoodFile(data, decompress, starts)
  {
    hide Walk, AddsRecords, ParseHeader, Decodable, SlotAt;
    assert data[0..RECORD_HEADER_LEN] == data[..RECORD_HEADER_LEN];
    LengthFits(data[..RECORD_HEADER_LEN]);
    var rest := WalkLayout(data, decompress, RECORD_HEADER_LEN + HeaderAt(data, 0).length, EraIndex(map[], 0));
    starts := [0] + rest;
    assert starts[1..] == rest && Fits(data, 0);
    assert forall i :: 0 < i < |starts| ==> starts[i] == rest[i - 1];
  }

  // ----- files written as records

  datatype Record = Record(recordType: nat, payload: seq<byte>)

  predicate Writable(rec: Record) {
    rec.recordType < 0x1_0000 && |rec.payload| < 0x1_0000_0000
  }

  function WriteRecord(rec: Record): (r: seq<byte>)
    ensures |r| == RECORD_HEADER_LEN + |rec.payload|
  {
    WriteHeader(rec.recordType, |rec.payload|) + rec.payload
  }

  function WriteRecords(records: seq<Record>): seq<byte> {
    if records == [] then [] else WriteRecord(records[0]) + WriteRecords(records[1..])
  }

  /** The slot of a record: None for records that are not blocks. */
  function SlotOf(decompress: Decompress, rec: Record): Option<uint64> {
    if rec.recordType == TYPE_COMPRESSED_SIGNED_BEACON_BLOCK then BlockSlot(decompress, rec.payload) else None
  }

  predicate Undecodable(decompress: Decompress, rec: Record) {
    rec.recordType == TYPE_COMPRESSED_SIGNED_BEACON_BLOCK && BlockSlot(decompress, rec.payload).None?
  }

  /** Where the payload of record i starts, in a file whose records start at `pos`. */
  function PayloadAt(records: seq<Record>, pos: nat, i: nat): nat
    requires i < |records|
  {
    if i == 0 then pos + RECORD_HEADER_LEN
    else PayloadAt(records[1..], pos + RECORD_HEADER_LEN + |records[0].payload|, i - 1)
  }

  /** The index that the records deserve. */
  ghost function Indexed(decompress: Decompress, records: seq<Record>, pos: nat, index: EraIndex): Option<EraIndex>
    decreases |records|
  {
    if records == [] then Some(index)
    else if Undecodable(decompress, records[0]) then None
    else
      var rec := records[0];
      var slot := SlotOf(decompress, rec);
      var ref := RecordRef(pos + RECORD_HEADER_LEN, |rec.payload|);
      Indexed(decompress, records[1..], pos + RECORD_HEADER_LEN + |rec.payload|,
              EraIndex(if slot.Some? then index.blocks[slot.value := ref] else index.blocks, index.numRecs + 1))
  }

  lemma RecordAt(data: seq<byte>, pre: seq<byte>, rec: Record, rest: seq<byte>)
    requires data == pre + WriteRecord(rec) + rest && Writable(rec)
    ensures var offset := |pre| + RECORD_HEADER_LEN;
      && offset + |rec.payload| <= |data|
      && ParseHeader(data[|pre|..offset]) == Header(rec.recordType, |rec.payload|)
      && data[offset..offset + |rec.payload|] == rec.payload
  {
    HeaderRoundTrip(rec.recordType, |rec.payload|);
    assert data[|pre|..|pre| + RECORD_HEADER_LEN] == WriteHeader(rec.recordType, |rec.payload|);
  }

  lemma Regroup(a: seq<byte>, b: seq<byte>, c: seq<byte>, d: seq<byte>)
    ensures a + (b + c) + d == a + b + (c + d)
    ensures a + (b + c) + d == (a + b) + c + d
  {
  }

  lemma FirstOfRecords(data: seq<byte>, pre: seq<byte>, records: seq<Record>, tail: seq<byte>)
    requires data == pre + WriteRecords(records) + tail && records != []
    ensures data == pre + WriteRecord(records[0]) + (WriteRecords(records[1..]) + tail)
    ensures data == (pre + WriteRecord(records[0])) + WriteRecords(records[1..]) + tail
  {
    hide WriteRecord;
    Regroup(pre, WriteRecord(records[0]), WriteRecords(records[1..]), tail);
  }

  lemma {:induction false} WalkRecords(data: seq<byte>, decompress: Decompress, pre: seq<byte>, records: seq<Record>,
                                       tail: seq<byte>, index: EraIndex)
    requires data == pre + WriteRecords(records) + tail && |tail| < RECORD_HEADER_LEN
    requires forall rec :: rec in records ==> Writable(rec)
    ensures Walk(data, decompress, |pre|, index) == Indexed(decompress, records, |pre|, index)
    decreases |records|
  {
    hide ParseHeader, WriteHeader, BlockSlot;
    WalkRound(data, decompress, |pre|, index);
    if records != [] {
      var rec, rest := records[0], records[1..];
      assert rec in records && forall x :: x in rest ==> x in records;
      FirstOfRecords(data, pre, records, tail);
      RecordAt(data, pre, rec, WriteRecords(rest) + tail);
      if !Undecodable(decompress, rec) {
        var slot := SlotOf(decompress, rec);
        var ref := RecordRef(|pre| + RECORD_HEADER_LEN, |rec.payload|);
        WalkRecords(data, decompress, pre + WriteRecord(rec), rest, tail,
          EraIndex(if slot.Some? then index.blocks[slot.value := ref] else index.blocks, index.numRecs + 1));
      }
    }
  }

  /** Record i is the last block of its slot. */
  ghost predicate LastBlock(decompress: Decompress, records: seq<Record>, i: nat, slot: uint64) {
    && i < |records| && SlotOf(decompress, records[i]) == Some(slot)
    && forall j :: i < j < |records| ==> SlotOf(decompress, records[j]) != Some(slot)
  }

  ghost predicate SlotWritten(decompress: Decompress, records: seq<Record>, slot: uint64) {
    exists i :: 0 <= i < |records| && SlotOf(decompress, records[i]) == Some(slot)
  }

  lemma WrittenTail(decompress: Decompress, records: seq<Record>, slot: uint64)
    requires records != []
    ensures SlotWritten(decompress, records, slot) <==>
      SlotOf(decompress, records[0]) == Some(slot) || SlotWritten(decompress, records[1..], slot)
  {
    if i :| 0 <= i < |records| - 1 && SlotOf(decompress, records[1..][i]) == Some(slot) {
      assert SlotOf(decompress, records[i + 1]) == Some(slot);
    }
    if i :| 1 <= i < |records| && SlotOf(decompress, records[i]) == Some(slot) {
      assert SlotOf(decompress, records[1..][i - 1]) == Some(slot);
    }
  }

  /** The index succeeds exactly when every block record decodes; it holds the slots of the block records and counts all
      records. */
  lemma {:induction false} IndexedSlots(decompress: Decompress, records: seq<Record>, pos: nat, index: EraIndex)
    ensures Indexed(decompress, records, pos, index).Some? <==>
      forall rec :: rec in records ==> !Undecodable(decompress, rec)
    ensures var r := Indexed(decompress, records, pos, index);
      && (r.Some? ==> r.value.numRecs == index.numRecs + |records|)
      && (r.Some? ==> forall s: uint64 :: s in r.value.blocks <==>
        s in index.blocks || SlotWritten(decompress, records, s))
    decreases |records|
  {
    if records != [] {
      var rec := records[0];
      assert records == [rec] + records[1..];
      if !Undecodable(decompress, rec) {
        var slot := SlotOf(decompress, rec);
        var ref := RecordRef(pos + RECORD_HEADER_LEN, |rec.payload|);
        IndexedSlots(decompress, records[1..], pos + RECORD_HEADER_LEN + |rec.payload|,
                     EraIndex(if slot.Some? then index.blocks[slot.value := ref] else index.blocks, index.numRecs + 1));
        forall s: uint64
          ensures SlotWritten(decompress, records, s) <==>
            SlotOf(decompress, rec) == Some(s) || SlotWritten(decompress, records[1..], s)
        {
          WrittenTail(decompress, records, s);
        }
      }
    }
  }

  /** Later blocks of other slots leave an entry alone. */
  lemma {:induction false} IndexedKeeps(decompress: Decompress, records: seq<Record>, pos: nat, index: EraIndex,
                                        slot: uint64, r: EraIndex)
    requires Indexed(decompress, records, pos, index) == Some(r) && slot in index.blocks
    requires forall j :: 0 <= j < |records| ==> SlotOf(decompress, records[j]) != Some(slot)
    ensures slot in r.blocks && r.blocks[slot] == index.blocks[slot]
    decreases |records|
  {
    if records != [] {
      var rec := records[0];
      var s := SlotOf(decompress, rec);
      var ref := RecordRef(pos + RECORD_HEADER_LEN, |rec.payload|);
      IndexedKeeps(decompress, records[1..], pos + RECORD_HEADER_LEN + |rec.payload|,
        EraIndex(if s.Some? then index.blocks[s.value := ref] else index.blocks, index.numRecs + 1), slot, r);
    }
  }

  lemma {:induction false} IndexedLast(decompress: Decompress, records: seq<Record>, pos: nat, index: EraIndex, i: nat,
                                       slot: uint64, r: EraIndex)
    requires Indexed(decompress, records, pos, index) == Some(r) && LastBlock(decompress, records, i, slot)
    ensures slot in r.blocks && r.blocks[slot] == RecordRef(PayloadAt(records, pos, i), |records[i].payload|)
    decreases |records|
  {
    var rec, rest := records[0], records[1..];
    var s := SlotOf(decompress, rec);
    var next := pos + RECORD_HEADER_LEN + |rec.payload|;
    var index2 := EraIndex(if s.Some? then index.blocks[s.value := RecordRef(pos + RECORD_HEADER_LEN, |rec.payload|)]
      else index.blocks, index.numRecs + 1);
    if i == 0 {
      IndexedKeeps(decompress, rest, next, index2, slot, r);
    } else {
      assert LastBlock(decompress, rest, i - 1, slot);
      IndexedLast(decompress, rest, next, index2, i - 1, slot, r);
    }
  }

  lemma {:induction false} PayloadFound(data: seq<byte>, pre: seq<byte>, records: seq<Record>, tail: seq<byte>, i: nat)
    requires data == pre + WriteRecords(records) + tail && i < |records| && forall rec :: rec in records ==>
      Writable(rec)
    ensures var at := PayloadAt(records, |pre|, i);
      at + |records[i].payload| <= |data| && data[at..at + |records[i].payload|] == records[i].payload
    decreases |records|
  {
    hide WriteRecords, Writable, ParseHeader;
    var rec, rest := records[0], records[1..];
    assert rec in records;
    FirstOfRecords(data, pre, records, tail);
    if i == 0 {
      RecordAt(data, pre, rec, WriteRecords(rest) + tail);
    } else {
      assert forall x :: x in rest ==> x in records;
      PayloadFound(data, pre + WriteRecord(rec), rest, tail, i - 1);
    }
  }

  /** A file that starts with a version record, goes on with records, and may end within a header. */
  function WriteFile(version: seq<byte>, records: seq<Record>, tail: seq<byte>): seq<byte> {
    WriteRecord(Record(TYPE_VERSION, version)) + WriteRecords(records) + tail
  }

  /** Round trip: the file is accepted exactly when its block records decode, the index has exactly their slots, and
      reading through it returns the very payload of the last block record of a slot. */
  lemma WrittenFile(version: seq<byte>, records: seq<Record>, tail: seq<byte>, decompress: Decompress)
    requires |version| < 0x1_0000_0000 && (forall rec :: rec in records ==> Writable(rec)) && |tail| < RECORD_HEADER_LEN
    ensures var data := WriteFile(version, records, tail); var r := IndexOf(data, decompress);
      && (r.Some? <==> forall rec :: rec in records ==> !Undecodable(decompress, rec))
      && (r.Some? ==> r.value.numRecs == |records|)
      && (r.Some? ==> forall s: uint64 :: s in r.value.blocks <==> SlotWritten(decompress, records, s))
      && (r.Some? ==> forall i: nat, s :: LastBlock(decompress, records, i, s) ==>
            && s in r.value.blocks
            && ReadRecordDataAt(data, r.value.blocks[s]) == Some(records[i].payload))
  {
    hide Walk, Indexed, WriteRecords, WriteRecord, ParseHeader, Writable, SlotOf, SlotWritten, Undecodable;
    var data := WriteFile(version, records, tail);
    var pre := WriteRecord(Record(TYPE_VERSION, version));
    var start := EraIndex(map[], 0);
    VersionRead(version, records, tail, decompress);
    WalkRecords(data, decompress, pre, records, tail, start);
    IndexedSlots(decompress, records, |pre|, start);
    var r := IndexOf(data, decompress);
    if r.Some? {
      forall i: nat, s | LastBlock(decompress, records, i, s)
        ensures s in r.value.blocks && ReadRecordDataAt(data, r.value.blocks[s]) == Some(records[i].payload)
      {
        IndexedLast(decompress, records, |pre|, start, i, s, r.value);
        PayloadFound(data, pre, records, tail, i);
      }
    }
  }

  lemma VersionRead(version: seq<byte>, records: seq<Record>, tail: seq<byte>, decompress: Decompress)
    requires |version| < 0x1_0000_0000
    ensures var data := WriteFile(version, records, tail); var pre := WriteRecord(Record(TYPE_VERSION, version));
      && data == pre + WriteRecords(records) + tail && |pre| <= |data|
      && IndexOf(data, decompress) == Walk(data, decompress, |pre|, EraIndex(map[], 0))
  {
    hide Walk, WriteRecords, ParseHeader;
    var data := WriteFile(version, records, tail);
    var pre := WriteRecord(Record(TYPE_VERSION, version));
    assert data == [] + pre + (WriteRecords(records) + tail);
    RecordAt(data, [], Record(TYPE_VERSION, version), WriteRecords(records) + tail);
    assert data[..RECORD_HEADER_LEN] == data[0..RECORD_HEADER_LEN];
  }

  /** Reads a payload again; None where the file is too short. */
  function ReadRecordDataAt(data: seq<byte>, ref: RecordRef): Option<seq<byte>> {
    if ref.offset + ref.length <= |data| then Some(data[ref.offset..ref.offset + ref.length]) else None
  }

  // ----- the reader

  /** The era files of the cache directory; None for a file that is not there. */
  type Files = int -> Option<seq<byte>>

  /** The reader's answer for a slot: None for an error, Some(None) for a missed slot. */
  ghost function Answer(files: Files, decompress: Decompress, slot: uint64): Option<Option<seq<byte>>> {
    var file := files(EraNumberForSlot(slot));
    if file.None? then None
    else
      match IndexOf(file.value, decompress)
      case None => None
      case Some(index) =>
        if slot !in index.blocks then Some(None)
        else
          match ReadRecordDataAt(file.value, index.blocks[slot])
          case None => None
          case Some(compressed) => match decompress(compressed) case None => None case Some(ssz) => Some(Some(ssz))
  }

  /** A block that is found always embeds the slot it was asked for, so no read or decompression of an indexed block
      fails. */
  lemma AnswerEmbedsSlot(files: Files, decompress: Decompress, slot: uint64)
    requires files(EraNumberForSlot(slot)).Some? && IndexOf(files(EraNumberForSlot(slot)).value, decompress).Some?
    ensures var r := Answer(files, decompress, slot);
      && r.Some?
      && (r.value.Some? ==> ExtractSlot(r.value.value) == Some(slot))
      && (r.value.Some? <==> slot in IndexOf(files(EraNumberForSlot(slot)).value, decompress).value.blocks)
  {
    var data := files(EraNumberForSlot(slot)).value;
    var index := IndexOf(data, decompress).value;
    if slot in index.blocks {
      AcceptedFile(data, decompress, index, slot);
    }
  }

  /** Indexes each era file on first use and keeps recently read blocks. */
  class Reader {
    const files: Files
    const decompress: Decompress
    var eras: map<int, EraIndex>
    var cache: map<uint64, seq<byte>>

    ghost predicate Valid()
      reads this
    {
      && (forall n :: n in eras ==> files(n).Some? && IndexOf(files(n).value, decompress) == Some(eras[n]))
      && (forall s :: s in cache ==> Answer(files, decompress, s) == Some(Some(cache[s])))
    }

    constructor (files: Files, decompress: Decompress)
      ensures Valid() && this.files == files && this.decompress == decompress
    {
      this.files, this.decompress := files, decompress;
      eras, cache := map[], map[];
    }

    method EnsureEraIndex(eraNumber: int) returns (r: Option<EraIndex>)
      requires Valid()
      modifies this
      ensures Valid() && cache == old(cache)
      ensures r == if files(eraNumber).None? then None else IndexOf(files(eraNumber).value, decompress)
    {
      if eraNumber in eras {
        return Some(eras[eraNumber]);
      }
      var file := files(eraNumber);
      if file.None? {
        return None;
      }
      r := BuildEraIndex(file.value, decompress);
      if r.Some? {
        eras := eras[eraNumber := r.value];
      }
    }

    /** The answer never depends on what was asked before. */
    method RawBlockSSZ(slot: uint64) returns (r: Option<Option<seq<byte>>>)
      requires Valid()
      modifies this
      ensures Valid()
      ensures r == Answer(files, decompress, slot)
    {
      if slot in cache {
        return Some(Some(cache[slot]));
      }
      var index := EnsureEraIndex(EraNumberForSlot(slot));
      if index.None? {
        return None;
      }
      if slot !in index.value.blocks {
        return Some(None);
      }
      var compressed := ReadRecordDataAt(files(EraNumberForSlot(slot)).value, index.value.blocks[slot]);
      if compressed.None? {
        return None;
      }
      var ssz := decompress(compressed.value);
      if ssz.None? {
        return None;
      }
      Keep(slot, ssz.value);
      return Some(Some(ssz.value));
    }

    /** The cache holds 64 blocks and drops one to make room. */
    method Keep(slot: uint64, ssz: seq<byte>)
      requires Valid() && Answer(files, decompress, slot) == Some(Some(ssz))
      modifies this`cache
      ensures Valid()
    {
      if |cache| >= 64 {
        var oldest :| oldest in cache.Keys;
        cache := cache - {oldest};
      }
      cache := cache[slot := ssz];
    }
  }
}
