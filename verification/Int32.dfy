/** Two's-complement 32-bit arithmetic, as Go's `int32` and `atomic.Int32` do it. */
module Int32 {
  const MAX: int := 0x7FFF_FFFF

  /** The value an `int32(x)` conversion keeps. */
  function Wrap(x: int): (r: int)
    ensures -MAX - 1 <= r <= MAX
  {
    if -MAX - 1 <= x <= MAX then x else (x + 0x8000_0000) % 0x1_0000_0000 - 0x8000_0000
  }

  /** `atomic.Int32.Add`. */
  function Add(x: int, y: int): int {
    Wrap(x + y)
  }
}
