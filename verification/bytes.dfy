/** Fixed-width integer helpers shared by the IMU and barometer models.
    The drivers work on 8-bit bus bytes and reinterpret them as 16- and
    32-bit two's-complement words; C's truncating division and 32-bit
    wrap-around are written out here because Dafny's integers are
    unbounded and its division is Euclidean. */
module Bytes {

  type byte = b: int | 0 <= b < 256
  type uint16 = w: int | 0 <= w < 0x1_0000

  const TWO_15: int := 0x8000
  const TWO_16: int := 0x1_0000
  const TWO_31: int := 0x8000_0000
  const TWO_32: int := 0x1_0000_0000

  predicate IsInt16(v: int) { -TWO_15 <= v < TWO_15 }
  predicate IsInt32(v: int) { -TWO_31 <= v < TWO_31 }

  function Abs(x: int): nat { if x < 0 then -x else x }

  /** Two's-complement reading of a 16-bit pattern (the (int16_t) cast of a uint16). */
  function ToInt16(u: uint16): (v: int)
    ensures IsInt16(v)
    ensures v % TWO_16 == u
  {
    if u < TWO_15 then u else u - TWO_16
  }

  /** The (int16_t) cast of an arbitrary int: keep the low 16 bits. */
  function Wrap16(x: int): (v: int)
    ensures IsInt16(v)
    ensures (v - x) % TWO_16 == 0
    ensures IsInt16(x) ==> v == x
  {
    ToInt16(x % TWO_16)
  }

  /** The (int32_t) cast of an arbitrary int: keep the low 32 bits. */
  function Wrap32(x: int): (v: int)
    ensures IsInt32(v)
    ensures (v - x) % TWO_32 == 0
    ensures IsInt32(x) ==> v == x
  {
    var u := x % TWO_32;
    if u < TWO_31 then u else u - TWO_32
  }

  // A right shift `x >> k` of a signed C integer is arithmetic on the
  // target compiler, i.e. floor division by 2^k; Dafny's `/` by a positive
  // divisor is exactly that, so the models write `x / 2048` for `x >> 11`.

  /** C99 division: the quotient is truncated toward zero (section 6.5.5 of ISO C),
      so its magnitude is the quotient of the magnitudes and its sign is the
      product of the operands' signs. */
  function CDiv(a: int, b: int): (q: int)
    requires b != 0
    ensures Abs(q) == Abs(a) / Abs(b)
    ensures q > 0 ==> (a > 0) == (b > 0)
    ensures q < 0 ==> (a > 0) != (b > 0)
  {
    if a == 0 then 0
    else if (a < 0) == (b < 0) then Abs(a) / Abs(b)
    else -(Abs(a) / Abs(b))
  }

  

  // ---------------------------------------------------------------------
  // Decoding: bytes -> words

  function Uint16BE(hi: byte, lo: byte): uint16
  {
    hi * 256 + lo
  }

  /** `(int16_t)((hi << 8) | lo)`: big-endian signed 16-bit word. */
  function Int16BE(hi: byte, lo: byte): (v: int)
    ensures IsInt16(v)
  {
    ToInt16(Uint16BE(hi, lo))
  }

  /** `(int16_t)((b[1] << 8) | b[0])`: little-endian signed 16-bit word. */
  function Int16LE(lo: byte, hi: byte): (v: int)
    ensures IsInt16(v)
  {
    ToInt16(Uint16BE(hi, lo))
  }

  /** `(long)b0 << 24 | b1 << 16 | b2 << 8 | b3` with a 32-bit long:
      big-endian two's-complement 32-bit word. */
  function Int32BE(b0: byte, b1: byte, b2: byte, b3: byte): (v: int)
    ensures IsInt32(v)
  {
    var u := ((b0 * 256 + b1) * 256 + b2) * 256 + b3;
    if u < TWO_31 then u else u - TWO_32
  }

  // ---------------------------------------------------------------------
  // Encoding: words -> bytes (the sensor side of the wire)

  function Int16ToBE(v: int): (s: seq<byte>)
    requires IsInt16(v)
    ensures |s| == 2
  {
    var u := v % TWO_16;
    [u / 256, u % 256]
  }

  function Int16ToLE(v: int): (s: seq<byte>)
    requires IsInt16(v)
    ensures |s| == 2
  {
    var u := v % TWO_16;
    [u % 256, u / 256]
  }

  function Int32ToBE(v: int): (s: seq<byte>)
    requires IsInt32(v)
    ensures |s| == 4
  {
    var u := v % TWO_32;
    [u / 0x100_0000, (u / 0x1_0000) % 256, (u / 256) % 256, u % 256]
  }

  // ---------------------------------------------------------------------
  // Round trips, in both directions

  lemma Int16BERoundTrip(v: int)
    requires IsInt16(v)
    ensures Int16BE(Int16ToBE(v)[0], Int16ToBE(v)[1]) == v
  {
  }

  lemma Int16BEBytesRoundTrip(hi: byte, lo: byte)
    ensures Int16ToBE(Int16BE(hi, lo)) == [hi, lo]
  {
  }

  lemma Int16LERoundTrip(v: int)
    requires IsInt16(v)
    ensures Int16LE(Int16ToLE(v)[0], Int16ToLE(v)[1]) == v
  {
  }

  lemma Int16LEBytesRoundTrip(lo: byte, hi: byte)
    ensures Int16ToLE(Int16LE(lo, hi)) == [lo, hi]
  {
  }

  /** The four base-256 digits of a 32-bit pattern, as Int32ToBE takes them apart. */
  lemma Base256Digits(u: int, b0: byte, b1: byte, b2: byte, b3: byte)
    requires u == ((b0 * 256 + b1) * 256 + b2) * 256 + b3
    ensures u / 0x100_0000 == b0 && (u / 0x1_0000) % 256 == b1
    ensures (u / 256) % 256 == b2 && u % 256 == b3
  {
    DivModUnique(u, 0x100_0000, b0, (b1 * 256 + b2) * 256 + b3);
    DivModUnique(u, 0x1_0000, b0 * 256 + b1, b2 * 256 + b3);
    DivModUnique(b0 * 256 + b1, 256, b0, b1);
    DivModUnique(u, 256, (b0 * 256 + b1) * 256 + b2, b3);
    DivModUnique((b0 * 256 + b1) * 256 + b2, 256, b0 * 256 + b1, b2);
  }

  /** The two's-complement reading of a 32-bit pattern and the pattern of
      a 32-bit value are inverse. */
  lemma Int32Pattern(v: int, u: int)
    requires IsInt32(v) && 0 <= u < TWO_32
    ensures v % TWO_32 == u <==> v == (if u < TWO_31 then u else u - TWO_32)
  {
    if v >= 0 {
      DivModUnique(v, TWO_32, 0, v);
    } else {
      DivModUnique(v, TWO_32, -1, v + TWO_32);
    }
  }

  lemma Int32BERoundTrip(v: int)
    requires IsInt32(v)
    ensures var s := Int32ToBE(v); Int32BE(s[0], s[1], s[2], s[3]) == v
  {
    var u := v % TWO_32;
    var b0, r0 := u / 0x100_0000, u % 0x100_0000;
    var b1, r1 := r0 / 0x1_0000, r0 % 0x1_0000;
    var b2, b3 := r1 / 256, r1 % 256;
    assert u == ((b0 * 256 + b1) * 256 + b2) * 256 + b3;
    Base256Digits(u, b0, b1, b2, b3);
    Int32Pattern(v, u);
  }

  lemma Int32BEBytesRoundTrip(b0: byte, b1: byte, b2: byte, b3: byte)
    ensures Int32ToBE(Int32BE(b0, b1, b2, b3)) == [b0, b1, b2, b3]
  {
    var u := ((b0 * 256 + b1) * 256 + b2) * 256 + b3;
    Int32Pattern(Int32BE(b0, b1, b2, b3), u);
    Base256Digits(u, b0, b1, b2, b3);
  }

  // ---------------------------------------------------------------------
  // Euclidean division facts

  /** Division with remainder is unique: q and r are the quotient and
      remainder of x by d whenever x = d*q + r with 0 <= r < d. */
  lemma DivModUnique(x: int, d: int, q: int, r: int)
    requires d > 0 && 0 <= r < d && x == d * q + r
    ensures x / d == q && x % d == r
  {
    var q', r' := x / d, x % d;
    assert x == d * q' + r';
    assert d * (q - q') == r' - r by {
      assert d * (q - q') == d * q - d * q';
    }
    if q > q' {
      MulAtLeast(d, q - q');
    } else if q < q' {
      MulAtLeast(d, q' - q);
    }
  }

  lemma MulAtLeast(d: int, n: int)
    requires d > 0 && n >= 1
    ensures d * n >= d
  {
    assert d * n == d * (n - 1) + d;
    assert d * (n - 1) >= 0;
  }
}
