/** Beacon blocks as the planner sees them, and the era archive as an oracle. */
module Blocks {
  import opened Core

  /** A 32-byte root read as a big-endian number; module RootOrder ties its order to the byte order. */
  type Root = r: int | 0 <= r < ROOTS witness 0
  const ROOTS: int := 0x1_0000000000000000_0000000000000000_0000000000000000_0000000000000000
  const ZERO_ROOT: Root := 0

  datatype Attestation = Attestation(root: Root, slot: uint64, beaconBlockRoot: Root, targetRoot: Root,
                                     indices: seq<uint64>)

  datatype Block = Block(slot: uint64, root: Root, parentRoot: Root, attestations: seq<Attestation>)

  /** What the era reader answers for a slot: no block, a decoded block, or a read or decode failure. */
  datatype EraRead = Missed | Present(block: Block) | Unreadable

  type Era = uint64 -> EraRead

  /** Blocks sit at the slot they embed, and two canonical blocks never share a root. */
  ghost predicate ValidEra(era: Era) {
    && (forall s: uint64 :: era(s).Present? ==> era(s).block.slot == s)
    && (forall s: uint64, t: uint64 :: era(s).Present? && era(t).Present? && era(s).block.root == era(t).block.root ==>
      s == t)
  }
}
