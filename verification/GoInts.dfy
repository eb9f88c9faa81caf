/** Go's fixed-width integers: where arithmetic wraps. */
module GoInts {
  const TWO_31 := 0x8000_0000
  const TWO_32 := 0x1_0000_0000
  const TWO_63 := 0x8000_0000_0000_0000
  const TWO_64 := 0x1_0000_0000_0000_0000

  type uint64 = x: int | 0 <= x < TWO_64

  /** An integer as a Go int or int64. */
  function Wrap(x: int): int {
    (x + TWO_63) % TWO_64 - TWO_63
  }

  /** int(x) or int64(x) for a uint64 x */
  function ToInt(x: uint64): int {
    if x < TWO_63 then x else x - TWO_64
  }

  /** An integer as a uint64. */
  function ToUint64(x: int): uint64 {
    x % TWO_64
  }
}
