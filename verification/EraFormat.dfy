/** The e2store record format (nimbus-eth2 docs/e2store.md, General structure) and the slot embedded in a signed
    block. */
module EraFormat {
  import opened Core
  import opened RootOrder

  const TYPE_VERSION: int := 0x3265
  const TYPE_COMPRESSED_SIGNED_BEACON_BLOCK: int := 0x0001
  const RECORD_HEADER_LEN: nat := 8
  const MESSAGE_OFFSET: nat := 100
  const SLOT_SIZE: nat := 8
  const SLOTS_PER_ERA: int := 8192

  datatype Header = Header(recordType: int, length: int)

  /** A little-endian number: the least significant byte comes first. */
  function FromLittleEndian(bytes: seq<byte>): (r: nat) {
    if bytes == [] then 0 else bytes[0] + 256 * FromLittleEndian(bytes[1..])
  }

  function ToLittleEndian(value: nat, n: nat): (r: seq<byte>)
    ensures |r| == n
  {
    if n == 0 then [] else [value % 256] + ToLittleEndian(value / 256, n - 1)
  }

  lemma {:induction false} LittleEndianRoundTrip(value: nat, n: nat)
    requires value < Pow256(n)
    ensures FromLittleEndian(ToLittleEndian(value, n)) == value
  {
    if n > 0 {
      LittleEndianRoundTrip(value / 256, n - 1);
      assert ToLittleEndian(value, n)[1..] == ToLittleEndian(value / 256, n - 1);
    }
  }

  lemma {:induction false} LittleEndianBounded(bytes: seq<byte>)
    ensures FromLittleEndian(bytes) < Pow256(|bytes|)
  {
    if bytes != [] {
      LittleEndianBounded(bytes[1..]);
    }
  }

  /** parseRecordHeader on eight bytes: a two-byte type, a four-byte length, two bytes nobody reads. */
  function ParseHeader(header: seq<byte>): Header
    requires |header| >= RECORD_HEADER_LEN
  {
    Header(FromLittleEndian(header[0..2]), FromLittleEndian(header[2..6]))
  }

  function WriteHeader(recordType: nat, length: nat): (r: seq<byte>)
    ensures |r| == RECORD_HEADER_LEN
  {
    ToLittleEndian(recordType, 2) + ToLittleEndian(length, 4) + [0, 0]
  }

  lemma HeaderRoundTrip(recordType: nat, length: nat)
    requires recordType < 0x1_0000 && length < 0x1_0000_0000
    ensures ParseHeader(WriteHeader(recordType, length)) == Header(recordType, length)
  {
    assert Pow256(2) == 0x1_0000 && Pow256(4) == 0x1_0000_0000;
    LittleEndianRoundTrip(recordType, 2);
    LittleEndianRoundTrip(length, 4);
    var w := WriteHeader(recordType, length);
    assert w[0..2] == ToLittleEndian(recordType, 2) && w[2..6] == ToLittleEndian(length, 4);
  }

  /** extractSlotFromSignedBeaconBlockSSZ: the message starts at offset 100 (SSZ specification, Serialization of
      containers), and its first field is the slot. */
  function ExtractSlot(ssz: seq<byte>): (r: Option<uint64>)
    ensures r.Some? <==> |ssz| >= MESSAGE_OFFSET + SLOT_SIZE && FromLittleEndian(ssz[0..4]) == MESSAGE_OFFSET
  {
    if |ssz| < MESSAGE_OFFSET + SLOT_SIZE then None
    else if FromLittleEndian(ssz[0..4]) != MESSAGE_OFFSET then None
    else
      SlotFits(ssz[100..108]);
      Some(FromLittleEndian(ssz[100..108]))
  }

  lemma SlotFits(bytes: seq<byte>)
    requires |bytes| == SLOT_SIZE
    ensures FromLittleEndian(bytes) <= MAX_UINT64
  {
    LittleEndianBounded(bytes);
    assert Pow256(8) == MAX_UINT64 + 1;
  }

  /** A container with this slot as the first field of a message at offset 100: 96 bytes of signature lie between. */
  lemma SlotRoundTrip(slot: uint64, signature: seq<byte>, rest: seq<byte>)
    requires |signature| == 96
    ensures ExtractSlot(ToLittleEndian(MESSAGE_OFFSET, 4) + signature + ToLittleEndian(slot, 8) + rest) == Some(slot)
  {
    var ssz := ToLittleEndian(MESSAGE_OFFSET, 4) + signature + ToLittleEndian(slot, 8) + rest;
    assert Pow256(4) == 0x1_0000_0000 && Pow256(8) == MAX_UINT64 + 1;
    LittleEndianRoundTrip(MESSAGE_OFFSET, 4);
    LittleEndianRoundTrip(slot, 8);
    assert ssz[0..4] == ToLittleEndian(MESSAGE_OFFSET, 4) && ssz[100..108] == ToLittleEndian(slot, 8);
  }

  /** Era 0 holds only genesis; era n holds the slots of [(n - 1) * 8192, n * 8192). */
  function EraNumberForSlot(slot: uint64): (r: int)
    ensures r >= 1 && (r - 1) * SLOTS_PER_ERA <= slot < r * SLOTS_PER_ERA
  {
    slot / SLOTS_PER_ERA + 1
  }
}
