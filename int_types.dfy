/** The fixed-width C++ integer types the codecs and DCCLMessageVal use, with
    their conversions written out (the model's integers are unbounded). */
module IntTypes {

  const TwoTo32: int := 0x1_0000_0000
  const TwoTo31: int := 0x8000_0000

  /** dccl::uint32 and `unsigned`. */
  type uint32 = x: int | 0 <= x < 0x1_0000_0000

  /** `int` (32 bits). */
  type int32 = x: int | -0x8000_0000 <= x < 0x8000_0000

  /** `long` (64 bits on the LP64 platforms the library targets). */
  type int64 = x: int | -0x8000_0000_0000_0000 <= x < 0x8000_0000_0000_0000

  /** The implicit conversion of a `long` to `unsigned`: reduction modulo 2^32. */
  function ToUnsigned32(x: int64): (r: uint32)
    ensures (r - x) % TwoTo32 == 0
    ensures 0 <= x < TwoTo32 ==> r == x
  {
    x % TwoTo32
  }

  /** The conversion of a `long` to `int`: the two's-complement value of the low 32 bits. */
  function ToInt32(x: int64): (r: int32)
    ensures (r - x) % TwoTo32 == 0
    ensures -TwoTo31 <= x < TwoTo31 ==> r == x
  {
    var m := x % TwoTo32;
    if m < TwoTo31 then m else m - TwoTo32
  }
}
