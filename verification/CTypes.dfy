/** Unsigned long, 64 bits wide. */
module CTypes {
  const ULONG_MAX: int := 0xffff_ffff_ffff_ffff
  const TWO64: int := 0x1_0000_0000_0000_0000

  /** The value of x in an unsigned long. */
  function ULong(x: int): nat { x % TWO64 }
}
