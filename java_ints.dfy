/** Java's fixed-width integers where the map-object code relies on them. */
module JavaInts {

  const INT_MIN: int := -0x8000_0000
  const INT_MAX: int := 0x7fff_ffff
  const SHORT_MIN: int := -0x8000
  const SHORT_MAX: int := 0x7fff

  predicate IsInt(v: int) { INT_MIN <= v <= INT_MAX }

  predicate IsShort(v: int) { SHORT_MIN <= v <= SHORT_MAX }

  /** The value a Java `int` expression takes: two's-complement wrap-around modulo 2^32. */
  function WrapInt(v: int): (r: int)
    ensures IsInt(r)
    ensures IsInt(v) ==> r == v
    ensures (r - v) % 0x1_0000_0000 == 0
  {
    (v - INT_MIN) % 0x1_0000_0000 + INT_MIN
  }

  /** A Java `(short)` cast: keeps the low 16 bits, read as a signed value. */
  function ToShort(v: int): (r: int)
    ensures IsShort(r)
    ensures IsShort(v) ==> r == v
    ensures (r - v) % 0x1_0000 == 0
  {
    (v - SHORT_MIN) % 0x1_0000 + SHORT_MIN
  }
}
