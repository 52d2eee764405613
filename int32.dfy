/** Java's 32-bit two's-complement `int`, as far as the move decision needs it:
    the wrap-around of `+` and `-`, and `Math.abs`. */
module Int32 {

  const MIN: int := -0x8000_0000
  const MAX: int := 0x7fff_ffff
  const MODULUS: int := 0x1_0000_0000

  newtype i32 = x: int | -0x8000_0000 <= x < 0x8000_0000

  /** The Java `int` that an exact integer result wraps around to. */
  function Wrap(v: int): (r: i32)
    ensures MIN <= v <= MAX ==> r as int == v
    ensures MAX < v <= MAX + MODULUS ==> r as int == v - MODULUS
    ensures MIN - MODULUS <= v < MIN ==> r as int == v + MODULUS
  {
    ((v - MIN) % MODULUS + MIN) as i32
  }

  /** `Math.abs(int)`: the magnitude, except that the most negative value is its own absolute value. */
  function Abs(v: i32): (r: i32)
    ensures v as int != MIN ==> r as int == (if v < 0 then -(v as int) else v as int)
    ensures v as int == MIN ==> r == v
  {
    if v < 0 then Wrap(-(v as int)) else v
  }
}
