/**
 * The integer core of the engine's value and gradient noise: the
 * coordinate hash, the gradient-table index drawn from it, and the
 * squared-and-shifted hash that value noise scales into [-1, 1).
 *
 * A std::int32_t is kept as its 32-bit two's-complement pattern (bv32),
 * so `*`, `^`, `&`, `|` and `<<` wrap exactly as the hardware does; the
 * signed reading of a pattern is `Signed`.
 */
module Noise {

  type Int32 = bv32

  const PrimeX: Int32 := 501125321
  const PrimeY: Int32 := 1136930381
  const PrimeZ: Int32 := 1720413743


  /** The signed value of a 32-bit pattern. */
  function Signed(h: Int32): (r: int)
    ensures -0x8000_0000 <= r < 0x8000_0000
  {
    var u := h as int;
    if u < 0x8000_0000 then u else u - 0x1_0000_0000
  }

  /** Noise::Hash: xor the three inputs and multiply, wrapping. */
  function Hash(seed: Int32, xPrimed: Int32, yPrimed: Int32): Int32
  {
    (seed ^ xPrimed ^ yPrimed) * 0x27d4eb2d
  }

  /** The table index GradientCoordinate derives from a hash: `hash ^=
   *  hash >> 15` with the arithmetic (sign-copying) shift of a
   *  std::int32_t, then `hash &= 127 << 1`. */
  function GradientIndex(hash: Int32): (r: Int32)
    ensures r & 1 == 0
    ensures r <= 254
    ensures r | 1 == r + 1
  {
    var shifted := if hash & 0x8000_0000 == 0 then hash >> 15 else !((!hash) >> 15);
    (hash ^ shifted) & 254
  }

  /** Both components GradientCoordinate reads lie inside the table, at an
   *  even index and the one after it. */
  lemma GradientIndexInTable(hash: Int32)
    ensures var i := GradientIndex(hash);
            i as int % 2 == 0 && (i | 1) as int == i as int + 1 && (i | 1) as int < |Gradients|
  {
    GradientsLength();
    var i := GradientIndex(hash);
    SmallPattern(i);
    SuccPattern(i);
    EvenPattern(i);
    SmallPattern(i + 1);
  }

  lemma SmallPattern(r: Int32)
    requires r <= 255
    ensures r as int <= 255
  {
  }

  lemma SuccPattern(r: Int32)
    requires r <= 254
    ensures (r + 1) as int == r as int + 1
  {
  }

  lemma EvenPattern(r: Int32)
    requires r <= 255 && r & 1 == 0
    ensures r as int % 2 == 0
  {
    var q := r >> 1;
    assert r == q + q;
    assert q <= 127;
    assert (q + q) as int == q as int + q as int;
  }

  /** The hash ValueCoordinate scales: square, then xor with itself shifted
   *  left by 19, both wrapping. */
  function ValueHash(hash: Int32): Int32
  {
    var sq := hash * hash;
    sq ^ (sq << 19)
  }

  /** The value the final hash scales to: its signed value over 2^31.
   *  The bound below 1 is exact over the reals; a float division rounds
   *  (2^31 - 1) / 2^31 to 1.0f, so the float result can reach 1. */
  function ValueFromHash(hash: Int32): (r: real)
    ensures -1.0 <= r < 1.0
  {
    var s := Signed(ValueHash(hash));
    ScaleInUnit(s);
    s as real / 2147483648.0
  }

  /** Noise::ValueCoordinate over the reals (float rounding left out). */
  function ValueCoordinate(seed: Int32, xPrimed: Int32, yPrimed: Int32): (r: real)
    ensures -1.0 <= r < 1.0
  {
    ValueFromHash(Hash(seed, xPrimed, yPrimed))
  }

  lemma ScaleInUnit(s: int)
    requires -0x8000_0000 <= s < 0x8000_0000
    ensures -1.0 <= s as real / 2147483648.0 < 1.0
  {
    var x := s as real / 2147483648.0;
    assert x * 2147483648.0 == s as real;
  }

  /** Noise::GradientCoordinate over the reals: the offset (xd, yd) dotted
   *  with the gradient pair the hash selects. */
  function GradientCoordinate(seed: Int32, xPrimed: Int32, yPrimed: Int32, xd: real, yd: real): (r: real)
  {
    var i := GradientIndex(Hash(seed, xPrimed, yPrimed));
    GradientIndexInTable(Hash(seed, xPrimed, yPrimed));
    xd * Gradients[i as int] + yd * Gradients[(i | 1) as int]
  }

  /** A block of 48 gradient components that the table repeats five times. */
  const GradientBlock: seq<real> := [
    0.130526192220052, 0.99144486137381, 0.38268343236509, 0.923879532511287,
    0.608761429008721, 0.793353340291235, 0.793353340291235, 0.608761429008721,
    0.923879532511287, 0.38268343236509, 0.99144486137381, 0.130526192220051,
    0.99144486137381, -0.130526192220051, 0.923879532511287, -0.38268343236509,
    0.793353340291235, -0.60876142900872, 0.608761429008721, -0.793353340291235,
    0.38268343236509, -0.923879532511287, 0.130526192220052, -0.99144486137381,
    -0.130526192220052, -0.99144486137381, -0.38268343236509, -0.923879532511287,
    -0.608761429008721, -0.793353340291235, -0.793353340291235, -0.608761429008721,
    -0.923879532511287, -0.38268343236509, -0.99144486137381, -0.130526192220052,
    -0.99144486137381, 0.130526192220051, -0.923879532511287, 0.38268343236509,
    -0.793353340291235, 0.608761429008721, -0.608761429008721, 0.793353340291235,
    -0.38268343236509, 0.923879532511287, -0.130526192220052, 0.99144486137381
  ]

  /** The last 16 components of the table. */
  const GradientTail: seq<real> := [
    0.38268343236509, 0.923879532511287, 0.923879532511287, 0.38268343236509,
    0.923879532511287, -0.38268343236509, 0.38268343236509, -0.923879532511287,
    -0.38268343236509, -0.923879532511287, -0.923879532511287, -0.38268343236509,
    -0.923879532511287, 0.38268343236509, -0.38268343236509, 0.923879532511287
  ]

  /** The gradients table, as interleaved (x, y) components. */
  const Gradients: seq<real> :=
    GradientBlock + GradientBlock + GradientBlock + GradientBlock + GradientBlock + GradientTail

  // ---------------------------------------------------------------------
  // Properties

  /** The table has exactly 256 components. */
  lemma GradientsLength()
    ensures |Gradients| == 256
  {
    assert |GradientBlock| == 48;
    assert |GradientTail| == 16;
  }

  /** The hash multiplies the xor by an odd constant, so it loses nothing:
   *  multiplying by its inverse modulo 2^32 (0xfb699ca5) and xoring the coordinates back out gives
   *  the seed again. */
  lemma HashRecoversSeed(seed: Int32, xPrimed: Int32, yPrimed: Int32)
    ensures Hash(seed, xPrimed, yPrimed) == (seed ^ xPrimed ^ yPrimed) * 0x27d4eb2d
    ensures (((seed ^ xPrimed ^ yPrimed) * 0x27d4eb2d) * 0xfb699ca5) ^ xPrimed ^ yPrimed == seed
  {
  }

  /** The three inputs enter the hash symmetrically. */
  lemma HashSymmetric(seed: Int32, xPrimed: Int32, yPrimed: Int32)
    ensures Hash(seed, xPrimed, yPrimed) == Hash(xPrimed, seed, yPrimed)
    ensures Hash(seed, xPrimed, yPrimed) == Hash(seed, yPrimed, xPrimed)
  {
  }

  /** After the mask, an arithmetic and a logical shift give the same
   *  index: the copied sign bits land above bit 16. */
  lemma GradientIndexIgnoresSignFill(hash: Int32)
    ensures GradientIndex(hash) == (hash ^ (hash >> 15)) & 254
  {
  }

  /** Value noise depends on the hash only up to sign, because the hash
   *  is squared first. */
  lemma ValueHashEven(hash: Int32)
    ensures ValueHash(-hash) == ValueHash(hash)
  {
    assert (-hash) * (-hash) == hash * hash;
  }

  /** The shift by 19 leaves the low 19 bits of the square untouched. */
  lemma ValueHashLowBits(hash: Int32)
    ensures ValueHash(hash) & 0x7FFFF == (hash * hash) & 0x7FFFF
  {
  }
}
