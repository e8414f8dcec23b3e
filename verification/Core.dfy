/** Unsigned 64-bit arithmetic and the option type shared by the whole model. */
module Core {

  datatype Option<+T> = None | Some(value: T)

  const MAX_UINT64: int := 0xFFFF_FFFF_FFFF_FFFF

  type uint64 = x: int | 0 <= x <= 0xFFFF_FFFF_FFFF_FFFF

  /** Go's checkedAdd: None where the sum would wrap. */
  function CheckedAdd(value: uint64, delta: uint64): (r: Option<uint64>)
    ensures r.Some? <==> value + delta <= MAX_UINT64
    ensures r.Some? ==> r.value == value + delta
  {
    if delta > MAX_UINT64 - value then None else Some(value + delta)
  }

  /** Go's saturatingAdd. */
  function SaturatingAdd(value: uint64, delta: uint64): (r: uint64)
    ensures value <= r
    ensures value + delta <= MAX_UINT64 ==> r == value + delta
    ensures value + delta > MAX_UINT64 ==> r == MAX_UINT64
  {
    if delta > MAX_UINT64 - value then MAX_UINT64 else value + delta
  }

  /** Go's wrapping addition on uint64. */
  function WrappingAdd(value: uint64, delta: uint64): uint64 {
    (value + delta) % 0x1_0000_0000_0000_0000
  }
}
