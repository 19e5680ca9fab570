/**
 * The byte types of the two code bases: Java's signed `byte`, with the
 * `(byte)` narrowing cast and the `0xff & b` widening, and Swift's `UInt8`.
 */
module Bytes {

  /** A Java `byte`: two's-complement, -128..127. */
  newtype JByte = x: int | -128 <= x < 128

  /** A Swift `UInt8`: 0..255. */
  newtype UInt8 = x: int | 0 <= x < 256

  /** Java's `(byte) v`: keeps the low eight bits, reinterpreted as signed. */
  function Cast(v: int): (b: JByte)
    ensures (b as int - v) % 256 == 0
  {
    var u := v % 256;
    if u < 128 then u as JByte else (u - 256) as JByte
  }

  /** Java's `0xff & b`: the byte's bits read as an unsigned value. */
  function Unsigned(b: JByte): (u: UInt8)
    ensures Cast(u as int) == b
  {
    ((b as int) % 256) as UInt8
  }

  /** Narrowing a value that fits in eight unsigned bits and widening it back is the identity. */
  lemma UnsignedOfCast(v: int)
    requires 0 <= v < 256
    ensures Unsigned(Cast(v)) as int == v
  {
  }

  /** Comparing a Java byte with `(byte) v` is comparing its unsigned value with `v`. */
  lemma {:induction false} EqualsCast(b: JByte, v: int)
    requires 0 <= v < 256
    ensures (b == Cast(v)) <==> (Unsigned(b) as int == v)
  {
    UnsignedOfCast(v);
  }
}
