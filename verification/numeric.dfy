/** Fixed-width integer types of Go, stated over Dafny's unbounded integers. */
module Numeric {

  const TWO_TO_THE_63: int := 0x8000_0000_0000_0000
  const TWO_TO_THE_64: int := 0x1_0000_0000_0000_0000
  const MIN_INT64: int := -TWO_TO_THE_63
  const MAX_INT64: int := TWO_TO_THE_63 - 1

  type byte = b: int | 0 <= b < 0x100
  type uint32 = x: int | 0 <= x < 0x1_0000_0000
  type int64 = x: int | -0x8000_0000_0000_0000 <= x < 0x8000_0000_0000_0000
  type uint64 = x: int | 0 <= x < 0x1_0000_0000_0000_0000

  /** Go's conversion `uint64(v)`: the same 64 bits read as unsigned. */
  function ToUint64(v: int64): (u: uint64)
    ensures 0 <= v ==> u == v
    ensures v < 0 ==> TWO_TO_THE_63 <= u && u - v == TWO_TO_THE_64
  {
    if v < 0 then v + TWO_TO_THE_64 else v
  }

  /** Go's conversion `int64(u)`: the same 64 bits read as signed. */
  function FromUint64(u: uint64): (v: int64)
    ensures u < TWO_TO_THE_63 ==> v == u
    ensures TWO_TO_THE_63 <= u ==> v < 0 && u - v == TWO_TO_THE_64
  {
    if u < TWO_TO_THE_63 then u else u - TWO_TO_THE_64
  }

  /** The two conversions are inverse to each other. */
  lemma Uint64RoundTrip(v: int64, u: uint64)
    ensures FromUint64(ToUint64(v)) == v
    ensures ToUint64(FromUint64(u)) == u
  {
  }

  /** Two's-complement wrap-around of an int64 result, as `atomic.AddInt64` does on overflow. */
  function WrapInt64(x: int): (r: int64)
    ensures MIN_INT64 <= x <= MAX_INT64 ==> r == x
    ensures x == MAX_INT64 + 1 ==> r == MIN_INT64
    ensures (x - r) % TWO_TO_THE_64 == 0
  {
    (x + TWO_TO_THE_63) % TWO_TO_THE_64 - TWO_TO_THE_63
  }
}
