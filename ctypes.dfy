/** The C integer types that the binding's argument parsing produces and that its native
    calls take, and the two conversions between them that the wrappers perform implicitly. */
module CTypes {

  const TWO_32: int := 0x1_0000_0000

  /** `short`: what the "h" format of the argument parser yields. */
  type Int16 = x: int | -0x8000 <= x < 0x8000

  /** `int`: what the "i" format yields. */
  type Int32 = x: int | -0x8000_0000 <= x < 0x8000_0000

  /** `long long`, `off_t` and `Py_ssize_t` on an LP64 platform: the "L" and "n" formats. */
  type Int64 = x: int | -0x8000_0000_0000_0000 <= x < 0x8000_0000_0000_0000

  /** `uid_t`, `gid_t` and `mode_t`. */
  type Uint32 = x: int | 0 <= x < 0x1_0000_0000

  /** Conversion to a 32-bit unsigned type, as in `(uid_t)uid`: reduction modulo 2^32. */
  function ToUint32(x: int): (r: Uint32)
    ensures (x - r) % TWO_32 == 0
    ensures 0 <= x < TWO_32 ==> r == x
    ensures -TWO_32 <= x < 0 ==> r == x + TWO_32
  {
    x % TWO_32
  }

  /** Conversion of a wider integer to `int` as GCC defines it: the low 32 bits,
      read in two's complement. */
  function ToInt32(x: int): (r: Int32)
    ensures (x - r) % TWO_32 == 0
    ensures -0x8000_0000 <= x < 0x8000_0000 ==> r == x
    ensures r == 0 <==> x % TWO_32 == 0
  {
    var u := x % TWO_32;
    if u < 0x8000_0000 then u else u - TWO_32
  }
}
