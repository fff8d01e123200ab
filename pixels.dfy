/** Packed ARGB pixels, as Android's `Bitmap.getPixels` delivers them: one
    32-bit signed integer per pixel, alpha in the top byte, then red, green
    and blue. */
module Pixels {

  /** Kotlin's `Int`: a 32-bit two's-complement integer. */
  newtype Int32 = x: int | -0x8000_0000 <= x < 0x8000_0000

  /** A channel value: one byte, 0 to 255. */
  type Byte = x: int | 0 <= x < 0x100

  /** Kotlin's `x shr n` on `Int` is an arithmetic shift: it rounds toward
      negative infinity. Dafny's `/` by a positive divisor does the same. */
  function Shr(x: Int32, n: nat): int
    requires n < 32
  {
    x as int / Pow2(n)
  }

  function Pow2(n: nat): (r: nat)
    ensures r >= 1
  {
    if n == 0 then 1 else 2 * Pow2(n - 1)
  }

  /** Kotlin's `x and 0xFF`: the low byte of the two's-complement representation. */
  function LowByte(x: int): (b: Byte)
    ensures (x - b) % 0x100 == 0
  {
    x % 0x100
  }

  /** `pixelValue shr 16 and 0xFF` */
  function Red(p: Int32): Byte { LowByte(Shr(p, 16)) }

  /** `pixelValue shr 8 and 0xFF` */
  function Green(p: Int32): Byte { LowByte(Shr(p, 8)) }

  /** `pixelValue and 0xFF` */
  function Blue(p: Int32): Byte { LowByte(p as int) }

  /** The byte the activity discards. */
  function Alpha(p: Int32): Byte { LowByte(Shr(p, 24)) }

  /** The ARGB packing convention: the 32-bit pattern
      `a << 24 | r << 16 | g << 8 | b`, read as a signed integer. */
  function Pack(a: Byte, r: Byte, g: Byte, b: Byte): Int32 {
    var u := a * 0x100_0000 + r * 0x1_0000 + g * 0x100 + b;
    if u < 0x8000_0000 then u as Int32 else (u - 0x1_0000_0000) as Int32
  }

  lemma Pow2Values()
    ensures Pow2(8) == 0x100 && Pow2(16) == 0x1_0000 && Pow2(24) == 0x100_0000
  {
  }

  /** Extracting a channel from a packed pixel gives the byte packed there,
      whatever the alpha byte (and so whatever the sign of the integer). */
  lemma UnpackPack(a: Byte, r: Byte, g: Byte, b: Byte)
    ensures Red(Pack(a, r, g, b)) == r
    ensures Green(Pack(a, r, g, b)) == g
    ensures Blue(Pack(a, r, g, b)) == b
    ensures Alpha(Pack(a, r, g, b)) == a
  {
    Pow2Values();
    var p := Pack(a, r, g, b);
    // the top byte read as a signed value: a, or a - 256 when it sets the sign bit
    var top := if a < 0x80 then a else a - 0x100;
    assert p as int == top * 0x100_0000 + r * 0x1_0000 + g * 0x100 + b;
    SplitLowByte(p as int, top * 0x1_0000 + r * 0x100 + g, b);
    SplitLowByte(p as int / 0x100, top * 0x100 + r, g);
    SplitLowByte(p as int / 0x1_0000, top, r);
    SplitLowByte(top, if a < 0x80 then 0 else -1, a);
    assert p as int / 0x100_0000 == top;
  }

  /** x is q bytes and a low byte m: its shift by 8 is q and its low byte m. */
  lemma SplitLowByte(x: int, q: int, m: Byte)
    requires x == q * 0x100 + m
    ensures x / 0x100 == q && x % 0x100 == m
  {
  }

  /** Every pixel is the packing of its four extracted bytes: extraction loses nothing. */
  lemma PackUnpack(p: Int32)
    ensures Pack(Alpha(p), Red(p), Green(p), Blue(p)) == p
  {
    Pow2Values();
    var x := p as int;
    var q1, b := x / 0x100, x % 0x100;
    var q2, g := q1 / 0x100, q1 % 0x100;
    var q3, r := q2 / 0x100, q2 % 0x100;
    assert x == q3 * 0x100_0000 + r * 0x1_0000 + g * 0x100 + b;
    assert x / 0x1_0000 == q2;
    assert x / 0x100_0000 == q3;
    assert -0x80 <= q3 < 0x80;
  }
}
