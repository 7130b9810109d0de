/** The DMP FIFO reader (read_dmp_fifo) as a specification: how the byte
    count reported by the FIFO is triaged, which packet in the buffer is
    decoded, the wire layout of a packet (little-endian magnetometer block,
    big-endian quaternion, accelerometer and gyro words), the quaternion
    sanity band, the magnetometer correction, and what the sample record
    and the driver's statics look like afterwards. The imperative reader
    of the session class is proved against FifoRead. Bus transfers are
    inputs: the two possible count reads and the two possible burst reads. */
module DmpFifo {
  import opened Bytes
  import opened ImuTypes
  import opened YawFusion

  /** Packet sizes: quaternion + accel + gyro, plus 7 magnetometer bytes. */
  const FIFO_LEN_NO_MAG: int := 28
  const FIFO_LEN_MAG: int := 35

  const QUAT_ERROR_THRESH: int := 0x100_0000
  const QUAT_MAG_SQ_NORMALIZED: int := 0x1000_0000
  const QUAT_MAG_SQ_MIN: int := QUAT_MAG_SQ_NORMALIZED - QUAT_ERROR_THRESH
  const QUAT_MAG_SQ_MAX: int := QUAT_MAG_SQ_NORMALIZED + QUAT_ERROR_THRESH

  /** HOFL, bit 3 of the AK8963 status-2 byte that closes the magnetometer block. */
  const MAGNETOMETER_SATURATION: int := 0x08

  const MAG_BLOCK_LEN: int := 7
  const QUAT_BLOCK_LEN: int := 16
  const TRIPLE_BLOCK_LEN: int := 6

  /** The FIFO transfers of one call, in order. */
  datatype FifoOp = ReadCount | ReadBurst(length: int) | ResetFifo

  // ---------------------------------------------------------------------
  // Count triage (lines 1311-1355)

  predicate WholePackets(pl: int, c: int)
  {
    c == pl || c == 2 * pl
  }

  /** The first count is short of two packets and is not one packet: the
      driver waits and reads the count once more. */
  predicate Rereads(pl: int, count1: Option<uint16>)
  {
    count1.Some? && count1.value != pl && count1.value < 2 * pl
  }

  /** The count to go on with, if any, and the transfers issued so far. */
  datatype Triage = Triage(count: Option<int>, ops: seq<FifoOp>)

  function CountTriage(pl: int, firstRun: bool, showWarnings: bool,
                       count1: Option<uint16>, count2: Option<uint16>): (t: Triage)
    ensures t.count.Some? ==> WholePackets(pl, t.count.value)
  {
    match count1
    case None => Triage(None, [ReadCount])
    case Some(c1) =>
      if c1 > 2 * pl then Triage(None, [ReadCount, ResetFifo])
      else if c1 != pl && c1 < 2 * pl then
        match count2
        case None => Triage(None, [ReadCount, ReadCount])
        case Some(c2) =>
          if !WholePackets(pl, c2) then
            Triage(None, [ReadCount, ReadCount] + (if showWarnings && !firstRun then [ResetFifo] else []))
          else Triage(Some(c2 as int), [ReadCount, ReadCount])
      else Triage(Some(c1 as int), [ReadCount])
  }

  /** What the triage issues and what it lets through: the count is read
      once more exactly when the first one is short, a reset goes out on
      an overflow or on a still-bad re-read (when warnings are on and this
      is not the first call), and a count goes on exactly when one of the
      reads found one or two whole packets. */
  lemma CountTriageSpec(pl: int, firstRun: bool, showWarnings: bool,
                        count1: Option<uint16>, count2: Option<uint16>)
    ensures var t := CountTriage(pl, firstRun, showWarnings, count1, count2);
      |t.ops| >= 1 && t.ops[0] == ReadCount &&
      multiset(t.ops)[ReadCount] == (if Rereads(pl, count1) then 2 else 1) &&
      (t.count.Some? ==> ResetFifo !in t.ops) &&
      (t.count.Some? <==>
        (count1.Some? && WholePackets(pl, count1.value)) ||
        (Rereads(pl, count1) && count2.Some? && WholePackets(pl, count2.value))) &&
      (t.count.Some? && !Rereads(pl, count1) ==> t.count == Some(count1.value as int)) &&
      (t.count.Some? && Rereads(pl, count1) ==> t.count == Some(count2.value as int)) &&
      (ResetFifo in t.ops <==>
        (count1.Some? && count1.value > 2 * pl) ||
        (Rereads(pl, count1) && count2.Some? && !WholePackets(pl, count2.value) &&
         showWarnings && !firstRun))
  {
    var t := CountTriage(pl, firstRun, showWarnings, count1, count2);
    if count1.Some? && !(count1.value > 2 * pl) && Rereads(pl, count1) && count2.Some? {
      if !WholePackets(pl, count2.value) && showWarnings && !firstRun {
        assert t.ops == [ReadCount, ReadCount, ResetFifo];
      } else {
        assert t.ops == [ReadCount, ReadCount];
      }
    }
  }

  // ---------------------------------------------------------------------
  // Offset selection (lines 1360-1377)

  /** The offset test as written: it compares packet_len, not the count,
      against the magnetometer packet length. None is the final `else`. */
  function OffsetFor(pl: int, count: int): (off: Option<int>)
    ensures off.Some? ==> off.value == 0 || off.value == pl
    ensures count == 2 * pl ==> off == Some(pl)
  {
    if count == 2 * pl then Some(pl)
    else if count == FIFO_LEN_NO_MAG || pl == FIFO_LEN_MAG then Some(0)
    else None
  }

  /** For every count that survives the triage the test is the same as
      asking for exactly one packet: the last packet in the buffer is the
      one decoded, and the final `else` is unreachable. */
  lemma OffsetSelectsLastPacket(pl: int, count: int)
    requires pl == FIFO_LEN_NO_MAG || pl == FIFO_LEN_MAG
    requires WholePackets(pl, count)
    ensures OffsetFor(pl, count).Some?
    ensures OffsetFor(pl, count) == Some(if count == pl then 0 else pl)
    ensures OffsetFor(pl, count).value + pl == count
  {
  }

  // ---------------------------------------------------------------------
  // Burst read with one retry (lines 1381-1392)

  /** A burst transfer: None is a negative return from the bus, Some(bytes)
      a transfer that returned |bytes|. */
  datatype Burst = Burst(bytes: Option<seq<byte>>, ops: seq<FifoOp>)

  function BurstRead(count: int, burst1: Option<seq<byte>>, burst2: Option<seq<byte>>): (b: Burst)
    ensures b.bytes.Some? ==> |b.bytes.value| == count
    ensures b.bytes.Some? <==>
      (burst1.Some? && |burst1.value| == count) ||
      (burst1.None? && burst2.Some? && |burst2.value| == count)
    ensures b.ops == if burst1.None? then [ReadBurst(count), ReadBurst(count)] else [ReadBurst(count)]
  {
    var got := if burst1.None? then burst2 else burst1;
    var ops := if burst1.None? then [ReadBurst(count), ReadBurst(count)] else [ReadBurst(count)];
    if got.Some? && |got.value| == count then Burst(got, ops) else Burst(None, ops)
  }

  // ---------------------------------------------------------------------
  // Wire layout (lines 1396-1500)

  datatype MagBlock = MagBlock(adc: Triple<int>, status: byte)

  /** One decoded packet; `mag` is present in 35-byte packets only. */
  datatype Packet = Packet(mag: Option<MagBlock>, quat: Quat<int>, accel: Triple<int>, gyro: Triple<int>)

  function PacketLen(withMag: bool): int
  {
    if withMag then FIFO_LEN_MAG else FIFO_LEN_NO_MAG
  }

  function MagAdcAt(raw: seq<byte>, i: int): Triple<int>
    requires 0 <= i && i + 6 <= |raw|
  {
    Triple(Int16LE(raw[i], raw[i + 1]), Int16LE(raw[i + 2], raw[i + 3]), Int16LE(raw[i + 4], raw[i + 5]))
  }

  function QuatAt(raw: seq<byte>, i: int): Quat<int>
    requires 0 <= i && i + QUAT_BLOCK_LEN <= |raw|
  {
    Quat(Int32BE(raw[i], raw[i + 1], raw[i + 2], raw[i + 3]),
         Int32BE(raw[i + 4], raw[i + 5], raw[i + 6], raw[i + 7]),
         Int32BE(raw[i + 8], raw[i + 9], raw[i + 10], raw[i + 11]),
         Int32BE(raw[i + 12], raw[i + 13], raw[i + 14], raw[i + 15]))
  }

  function Int16TripleAt(raw: seq<byte>, i: int): Triple<int>
    requires 0 <= i && i + TRIPLE_BLOCK_LEN <= |raw|
  {
    Triple(Int16BE(raw[i], raw[i + 1]), Int16BE(raw[i + 2], raw[i + 3]), Int16BE(raw[i + 4], raw[i + 5]))
  }

  /** The packet starting at offset i of the burst. */
  function DecodePacket(raw: seq<byte>, i: int, withMag: bool): (p: Packet)
    requires 0 <= i && i + PacketLen(withMag) <= |raw|
    ensures p.mag.Some? <==> withMag
  {
    var j := if withMag then i + MAG_BLOCK_LEN else i;
    Packet(if withMag then Some(MagBlock(MagAdcAt(raw, i), raw[i + 6])) else None,
           QuatAt(raw, j), Int16TripleAt(raw, j + QUAT_BLOCK_LEN),
           Int16TripleAt(raw, j + QUAT_BLOCK_LEN + TRIPLE_BLOCK_LEN))
  }

  predicate Int16Triple(t: Triple<int>)
  {
    IsInt16(t.x) && IsInt16(t.y) && IsInt16(t.z)
  }

  /** Every field fits the width it has on the wire. */
  predicate ValidPacket(p: Packet)
  {
    (p.mag.Some? ==> Int16Triple(p.mag.value.adc)) &&
    IsInt32(p.quat.w) && IsInt32(p.quat.x) && IsInt32(p.quat.y) && IsInt32(p.quat.z) &&
    Int16Triple(p.accel) && Int16Triple(p.gyro)
  }

  function MagBlockBytes(b: MagBlock): (s: seq<byte>)
    requires Int16Triple(b.adc)
    ensures |s| == MAG_BLOCK_LEN
  {
    Int16ToLE(b.adc.x) + Int16ToLE(b.adc.y) + Int16ToLE(b.adc.z) + [b.status]
  }

  function QuatBytes(q: Quat<int>): (s: seq<byte>)
    requires IsInt32(q.w) && IsInt32(q.x) && IsInt32(q.y) && IsInt32(q.z)
    ensures |s| == QUAT_BLOCK_LEN
  {
    Int32ToBE(q.w) + Int32ToBE(q.x) + Int32ToBE(q.y) + Int32ToBE(q.z)
  }

  function TripleBytes(t: Triple<int>): (s: seq<byte>)
    requires Int16Triple(t)
    ensures |s| == TRIPLE_BLOCK_LEN
  {
    Int16ToBE(t.x) + Int16ToBE(t.y) + Int16ToBE(t.z)
  }

  /** The DMP side of the wire: the bytes of one packet. */
  function EncodePacket(p: Packet): (s: seq<byte>)
    requires ValidPacket(p)
    ensures |s| == PacketLen(p.mag.Some?)
  {
    (if p.mag.Some? then MagBlockBytes(p.mag.value) else []) + BodyBytes(p)
  }

  /** The quaternion, accel and gyro blocks that every packet carries. */
  function BodyBytes(p: Packet): (s: seq<byte>)
    requires ValidPacket(p)
    ensures |s| == FIFO_LEN_NO_MAG
  {
    QuatBytes(p.quat) + TripleBytes(p.accel) + TripleBytes(p.gyro)
  }

  lemma MagBlockRoundTrip(raw: seq<byte>, i: int, b: MagBlock)
    requires Int16Triple(b.adc)
    requires 0 <= i && i + MAG_BLOCK_LEN <= |raw| && raw[i..i + MAG_BLOCK_LEN] == MagBlockBytes(b)
    ensures MagAdcAt(raw, i) == b.adc && raw[i + 6] == b.status
  {
    var s := MagBlockBytes(b);
    assert raw[i] == s[0] && raw[i + 1] == s[1] && raw[i + 2] == s[2] && raw[i + 3] == s[3];
    assert raw[i + 4] == s[4] && raw[i + 5] == s[5] && raw[i + 6] == s[6];
    Int16LERoundTrip(b.adc.x);
    Int16LERoundTrip(b.adc.y);
    Int16LERoundTrip(b.adc.z);
  }

  lemma QuatRoundTrip(raw: seq<byte>, i: int, q: Quat<int>)
    requires IsInt32(q.w) && IsInt32(q.x) && IsInt32(q.y) && IsInt32(q.z)
    requires 0 <= i && i + QUAT_BLOCK_LEN <= |raw| && raw[i..i + QUAT_BLOCK_LEN] == QuatBytes(q)
    ensures QuatAt(raw, i) == q
  {
    var s := QuatBytes(q);
    forall k | 0 <= k < QUAT_BLOCK_LEN
      ensures raw[i + k] == s[k]
    {
      assert raw[i..i + QUAT_BLOCK_LEN][k] == raw[i + k];
    }
    Int32BERoundTrip(q.w);
    Int32BERoundTrip(q.x);
    Int32BERoundTrip(q.y);
    Int32BERoundTrip(q.z);
  }

  lemma TripleRoundTrip(raw: seq<byte>, i: int, t: Triple<int>)
    requires Int16Triple(t)
    requires 0 <= i && i + TRIPLE_BLOCK_LEN <= |raw| && raw[i..i + TRIPLE_BLOCK_LEN] == TripleBytes(t)
    ensures Int16TripleAt(raw, i) == t
  {
    var s := TripleBytes(t);
    assert raw[i] == s[0] && raw[i + 1] == s[1] && raw[i + 2] == s[2] && raw[i + 3] == s[3];
    assert raw[i + 4] == s[4] && raw[i + 5] == s[5];
    Int16BERoundTrip(t.x);
    Int16BERoundTrip(t.y);
    Int16BERoundTrip(t.z);
  }

  /** Decoding what the DMP encoded gives the packet back, wherever it sits
      in the burst (offset packet_len after a discarded first packet). */
  lemma {:induction false} PacketRoundTrip(prefix: seq<byte>, p: Packet, suffix: seq<byte>)
    requires ValidPacket(p)
    ensures var raw := prefix + EncodePacket(p) + suffix;
      DecodePacket(raw, |prefix|, p.mag.Some?) == p
  {
    var e := EncodePacket(p);
    var raw := prefix + e + suffix;
    var i := |prefix|;
    var m := if p.mag.Some? then MAG_BLOCK_LEN else 0;
    var j := i + m;
    assert raw[i..i + |e|] == e;
    assert e[m..m + QUAT_BLOCK_LEN] == QuatBytes(p.quat);
    assert e[m + QUAT_BLOCK_LEN..m + QUAT_BLOCK_LEN + TRIPLE_BLOCK_LEN] == TripleBytes(p.accel);
    assert e[m + QUAT_BLOCK_LEN + TRIPLE_BLOCK_LEN..m + QUAT_BLOCK_LEN + 2 * TRIPLE_BLOCK_LEN] == TripleBytes(p.gyro);
    SliceOfSlice(raw, i, |e|, m, m + QUAT_BLOCK_LEN);
    QuatRoundTrip(raw, j, p.quat);
    SliceOfSlice(raw, i, |e|, m + QUAT_BLOCK_LEN, m + QUAT_BLOCK_LEN + TRIPLE_BLOCK_LEN);
    TripleRoundTrip(raw, j + QUAT_BLOCK_LEN, p.accel);
    SliceOfSlice(raw, i, |e|, m + QUAT_BLOCK_LEN + TRIPLE_BLOCK_LEN, m + QUAT_BLOCK_LEN + 2 * TRIPLE_BLOCK_LEN);
    TripleRoundTrip(raw, j + QUAT_BLOCK_LEN + TRIPLE_BLOCK_LEN, p.gyro);
    if p.mag.Some? {
      assert e[0..MAG_BLOCK_LEN] == MagBlockBytes(p.mag.value);
      SliceOfSlice(raw, i, |e|, 0, MAG_BLOCK_LEN);
      MagBlockRoundTrip(raw, i, p.mag.value);
    }
  }

  lemma SliceOfSlice(s: seq<byte>, i: int, n: int, a: int, b: int)
    requires 0 <= i && i + n <= |s| && 0 <= a <= b <= n
    ensures s[i..i + n][a..b] == s[i + a..i + b]
  {
    var t := s[i..i + n];
    forall k | a <= k < b
      ensures t[k] == s[i + k]
    {
    }
  }

  /** The other direction: every packet-sized window of the burst is the
      encoding of what is decoded from it. */
  lemma {:induction false} PacketBytesRoundTrip(raw: seq<byte>, i: int, withMag: bool)
    requires 0 <= i && i + PacketLen(withMag) <= |raw|
    ensures ValidPacket(DecodePacket(raw, i, withMag))
    ensures EncodePacket(DecodePacket(raw, i, withMag)) == raw[i..i + PacketLen(withMag)]
  {
    var p := DecodePacket(raw, i, withMag);
    var j := if withMag then i + MAG_BLOCK_LEN else i;
    var e := j + FIFO_LEN_NO_MAG;
    BodyBytesRoundTrip(raw, j);
    var q := DecodePacket(raw, j, false);
    assert p.quat == q.quat && p.accel == q.accel && p.gyro == q.gyro;
    assert BodyBytes(p) == BodyBytes(q);
    if withMag {
      MagBytesRoundTrip(raw, i);
      assert raw[i..e] == raw[i..j] + raw[j..e];
    }
  }

  /** The quaternion and the two triples re-encode to their 28 bytes. */
  lemma BodyBytesRoundTrip(raw: seq<byte>, j: int)
    requires 0 <= j && j + FIFO_LEN_NO_MAG <= |raw|
    ensures ValidPacket(DecodePacket(raw, j, false))
    ensures BodyBytes(DecodePacket(raw, j, false)) == raw[j..j + FIFO_LEN_NO_MAG]
  {
    var k := j + QUAT_BLOCK_LEN;
    var g := k + TRIPLE_BLOCK_LEN;
    var e := g + TRIPLE_BLOCK_LEN;
    QuatBytesRoundTrip(raw, j);
    TripleBytesRoundTrip(raw, k);
    TripleBytesRoundTrip(raw, g);
    assert raw[j..e] == raw[j..k] + raw[k..g] + raw[g..e];
  }

  lemma MagBytesRoundTrip(raw: seq<byte>, i: int)
    requires 0 <= i && i + MAG_BLOCK_LEN <= |raw|
    ensures Int16Triple(MagAdcAt(raw, i))
    ensures MagBlockBytes(MagBlock(MagAdcAt(raw, i), raw[i + 6])) == raw[i..i + MAG_BLOCK_LEN]
  {
    Int16LEBytesRoundTrip(raw[i], raw[i + 1]);
    Int16LEBytesRoundTrip(raw[i + 2], raw[i + 3]);
    Int16LEBytesRoundTrip(raw[i + 4], raw[i + 5]);
  }

  lemma QuatBytesRoundTrip(raw: seq<byte>, i: int)
    requires 0 <= i && i + QUAT_BLOCK_LEN <= |raw|
    ensures var q := QuatAt(raw, i);
      IsInt32(q.w) && IsInt32(q.x) && IsInt32(q.y) && IsInt32(q.z) &&
      QuatBytes(q) == raw[i..i + QUAT_BLOCK_LEN]
  {
    Int32BEBytesRoundTrip(raw[i], raw[i + 1], raw[i + 2], raw[i + 3]);
    Int32BEBytesRoundTrip(raw[i + 4], raw[i + 5], raw[i + 6], raw[i + 7]);
    Int32BEBytesRoundTrip(raw[i + 8], raw[i + 9], raw[i + 10], raw[i + 11]);
    Int32BEBytesRoundTrip(raw[i + 12], raw[i + 13], raw[i + 14], raw[i + 15]);
  }

  lemma TripleBytesRoundTrip(raw: seq<byte>, i: int)
    requires 0 <= i && i + TRIPLE_BLOCK_LEN <= |raw|
    ensures Int16Triple(Int16TripleAt(raw, i))
    ensures TripleBytes(Int16TripleAt(raw, i)) == raw[i..i + TRIPLE_BLOCK_LEN]
  {
    Int16BEBytesRoundTrip(raw[i], raw[i + 1]);
    Int16BEBytesRoundTrip(raw[i + 2], raw[i + 3]);
    Int16BEBytesRoundTrip(raw[i + 4], raw[i + 5]);
  }

  // ---------------------------------------------------------------------
  // Quaternion sanity band (lines 1456-1467)

  /** `q >> 16` of a 32-bit word: the Q30 component scaled to Q14. */
  function Q14(w: int): (q: int)
    ensures q * TWO_16 <= w < (q + 1) * TWO_16
  {
    w / TWO_16
  }

  /** The squared norm of the Q14 quaternion, as the driver sums it. */
  function QuatMagSq(q: Quat<int>): (n: int)
    ensures n >= 0
  {
    Q14(q.w) * Q14(q.w) + Q14(q.x) * Q14(q.x) + Q14(q.y) * Q14(q.y) + Q14(q.z) * Q14(q.z)
  }

  /** A quaternion is accepted when its squared Q14 norm is within 2^24 of 2^28 = 1.0. */
  predicate QuatInBand(q: Quat<int>)
  {
    QUAT_MAG_SQ_MIN <= QuatMagSq(q) <= QUAT_MAG_SQ_MAX
  }

  lemma Q14Range(w: int)
    requires IsInt32(w)
    ensures -TWO_15 <= Q14(w) < TWO_15
  {
    DivModUnique(w, TWO_16, Q14(w), w % TWO_16);
  }

  lemma SquareBound(a: int)
    requires -TWO_15 <= a < TWO_15
    ensures 0 <= a * a <= 0x4000_0000
  {
    var b := if a < 0 then -a else a;
    assert a * a == b * b;
    MulMono(b, b, TWO_15);
    MulMono(TWO_15, b, TWO_15);
  }

  /** Multiplying by a non-negative factor keeps the order. */
  lemma MulMono(c: int, x: int, y: int)
    requires 0 <= c && x <= y
    ensures c * x <= c * y
  {
    assert c * y - c * x == c * (y - x);
  }

  /** The squared norm is between 0 and 2^32: it can overflow a 32-bit
      `long` only by reaching 2^31 or more. */
  lemma QuatMagSqBound(q: Quat<int>)
    requires IsInt32(q.w) && IsInt32(q.x) && IsInt32(q.y) && IsInt32(q.z)
    ensures 0 <= QuatMagSq(q) <= TWO_32
  {
    Q14Range(q.w);
    Q14Range(q.x);
    Q14Range(q.y);
    Q14Range(q.z);
    SquareBound(Q14(q.w));
    SquareBound(Q14(q.x));
    SquareBound(Q14(q.y));
    SquareBound(Q14(q.z));
  }

  /** The sum of squares is computed in a 32-bit `long`; every sum that
      wraps is far above the band and wraps to a value below it, so the
      accept/reject verdict is the same as over the integers. */
  lemma QuatBandSameIn32Bits(q: Quat<int>)
    requires IsInt32(q.w) && IsInt32(q.x) && IsInt32(q.y) && IsInt32(q.z)
    ensures QuatInBand(q) <==> QUAT_MAG_SQ_MIN <= Wrap32(QuatMagSq(q)) <= QUAT_MAG_SQ_MAX
  {
    var s := QuatMagSq(q);
    QuatMagSqBound(q);
    if s >= TWO_31 {
      if s < TWO_32 {
        DivModUnique(s, TWO_32, 0, s);
      } else {
        DivModUnique(s, TWO_32, 1, 0);
      }
    }
  }

  // ---------------------------------------------------------------------
  // Magnetometer correction (lines 355-357, 1399-1435)

  /** The AK8963 sensitivity adjustment from its fuse-ROM byte. */
  function FactoryAdjust(asa: byte): (k: real)
    ensures 0.5 <= k < 1.5
  {
    (asa - 128) as real / 256.0 + 1.0
  }

  /** Bit 3 (HOFL) of the magnetometer's ST2 status byte. */
  predicate Saturated(status: byte)
    ensures Saturated(status) <==> (status as bv8) & 0x08 != 0
  {
    (status / MAGNETOMETER_SATURATION) % 2 == 1
  }

  /** The magnetometer's axes re-expressed in the accelerometer's: x and y
      swap and z flips, each scaled by its adjustment and the unit factor. */
  function FactoryCal(adc: Triple<int>, adjust: Triple<real>, rawToUt: real): Triple<real>
  {
    Triple(adc.y as real * adjust.y * rawToUt,
           adc.x as real * adjust.x * rawToUt,
           (-adc.z) as real * adjust.z * rawToUt)
  }

  /** A scale of exactly zero is taken for an unset one. */
  function FixScale(s: real): (r: real)
    ensures r != 0.0 && (s != 0.0 ==> r == s)
  {
    if s == 0.0 then 1.0 else s
  }

  function FixScales(s: Triple<real>): Triple<real>
  {
    Triple(FixScale(s.x), FixScale(s.y), FixScale(s.z))
  }

  function Calibrate(v: Triple<real>, offsets: Triple<real>, scales: Triple<real>): Triple<real>
  {
    Triple((v.x - offsets.x) * scales.x, (v.y - offsets.y) * scales.y, (v.z - offsets.z) * scales.z)
  }

  /** What the driver's own magnetometer settings are for one call. */
  datatype MagConfig = MagConfig(rawToUt: real, factoryAdjust: Triple<real>, offsets: Triple<real>)

  datatype MagOutcome = MagOutcome(mag: Triple<real>, scales: Triple<real>, newMag: bool)

  predicate NoZeroScale(s: Triple<real>)
  {
    s.x != 0.0 && s.y != 0.0 && s.z != 0.0
  }

  /** The magnetometer block: a saturated or all-zero reading changes
      nothing; otherwise zero scales are replaced by 1 (and stay replaced)
      and the corrected field becomes the new reading. */
  function MagUpdate(mc: MagConfig, mag: Triple<real>, scales: Triple<real>, b: MagBlock): (o: MagOutcome)
    ensures o.newMag <==> !Saturated(b.status) && b.adc != Triple(0, 0, 0)
    ensures !o.newMag ==> o.mag == mag && o.scales == scales
    ensures o.newMag ==> NoZeroScale(o.scales)
    ensures NoZeroScale(scales) ==> o.scales == scales
    ensures o.newMag ==> Decalibrate(o.mag, mc.offsets, o.scales) == FactoryCal(b.adc, mc.factoryAdjust, mc.rawToUt)
  {
    if Saturated(b.status) || b.adc == Triple(0, 0, 0) then MagOutcome(mag, scales, false)
    else
      var s := FixScales(scales);
      var fc := FactoryCal(b.adc, mc.factoryAdjust, mc.rawToUt);
      CalibrateInverts(fc, mc.offsets, s);
      MagOutcome(Calibrate(fc, mc.offsets, s), s, true)
  }

  /** The inverse of the correction, for non-zero scales. */
  function Decalibrate(m: Triple<real>, offsets: Triple<real>, scales: Triple<real>): Triple<real>
    requires NoZeroScale(scales)
  {
    Triple(m.x / scales.x + offsets.x, m.y / scales.y + offsets.y, m.z / scales.z + offsets.z)
  }

  lemma CalibrateInverts(v: Triple<real>, offsets: Triple<real>, scales: Triple<real>)
    requires NoZeroScale(scales)
    ensures Decalibrate(Calibrate(v, offsets, scales), offsets, scales) == v
  {
    var c := Calibrate(v, offsets, scales);
    ScaleInverts(v.x, offsets.x, scales.x);
    ScaleInverts(v.y, offsets.y, scales.y);
    ScaleInverts(v.z, offsets.z, scales.z);
    assert c.x / scales.x + offsets.x == v.x;
    assert c.y / scales.y + offsets.y == v.y;
    assert c.z / scales.z + offsets.z == v.z;
  }

  lemma ScaleInverts(v: real, o: real, s: real)
    requires s != 0.0
    ensures ((v - o) * s) / s + o == v
  {
    var p := (v - o) * s;
    assert p / s == v - o;
  }

  // ---------------------------------------------------------------------
  // The whole call

  /** Fixed settings seen by the reader: the DMP switch and packet length,
      the warnings switch, the fusion settings, the helper functions and
      the magnetometer settings. */
  datatype FifoConfig = FifoConfig(
    dmpEnabled: bool, packetLen: int, showWarnings: bool,
    orientation: int, mixFactor: int, rate: int, math: FloatMath, mag: MagConfig)

  /** What the reader may change: the sample record, the magnetometer
      scales, its own first-run flag and the statics of data_fusion. */
  datatype FifoState = FifoState(data: ImuData, magScales: Triple<real>, firstRun: bool, fusion: FusionState)

  /** The four transfers the reader may ask of the bus, in order. */
  datatype FifoInputs = FifoInputs(
    count1: Option<uint16>, count2: Option<uint16>,
    burst1: Option<seq<byte>>, burst2: Option<seq<byte>>)

  datatype FifoOutcome = FifoOutcome(ret: int, ops: seq<FifoOp>, state: FifoState)

  /** The sample record after an accepted quaternion: the DMP quaternion
      and angles, then accelerometer and gyro in raw and real units. */
  function WithMotion(math: FloatMath, d: ImuData, p: Packet): (r: ImuData)
    ensures r.mag == d.mag && r.compassHeading == d.compassHeading
    ensures r.fusedQuat == d.fusedQuat && r.fusedTaitBryan == d.fusedTaitBryan
    ensures r.accelToMs2 == d.accelToMs2 && r.gyroToDegs == d.gyroToDegs
    ensures r.rawAccel == p.accel && r.rawGyro == p.gyro
    ensures r.dmpQuat == math.normalize(QuatToReal(p.quat))
    ensures r.dmpTaitBryan == math.toTaitBryan(r.dmpQuat)
    ensures r.accel == Scale(p.accel, d.accelToMs2) && r.gyro == Scale(p.gyro, d.gyroToDegs)
  {
    var q := math.normalize(QuatToReal(p.quat));
    d.(dmpQuat := q, dmpTaitBryan := math.toTaitBryan(q),
       rawAccel := p.accel, accel := Scale(p.accel, d.accelToMs2),
       rawGyro := p.gyro, gyro := Scale(p.gyro, d.gyroToDegs))
  }

  /** Decoding and applying the packet at offset i (lines 1394-1514). */
  function Unpack(cfg: FifoConfig, st: FifoState, raw: seq<byte>, i: int): (o: FifoOutcome)
    requires cfg.rate > 0
    requires cfg.packetLen == FIFO_LEN_NO_MAG || cfg.packetLen == FIFO_LEN_MAG
    requires 0 <= i && i + cfg.packetLen <= |raw|
    ensures o.ops == []
  {
    var p := DecodePacket(raw, i, cfg.packetLen == FIFO_LEN_MAG);
    var m := if p.mag.Some? then MagUpdate(cfg.mag, st.data.mag, st.magScales, p.mag.value)
             else MagOutcome(st.data.mag, st.magScales, false);
    var d := st.data.(mag := m.mag);
    if !QuatInBand(p.quat) then
      FifoOutcome(-1, [], st.(data := d, magScales := m.scales))
    else
      var d1 := WithMotion(cfg.math, d, p);
      if m.newMag then
        var f := Fuse(cfg.math, cfg.orientation, cfg.mixFactor, cfg.rate, st.fusion, d1);
        FifoOutcome(0, [], FifoState(f.data, m.scales, false, f.state))
      else
        FifoOutcome(0, [], FifoState(d1, m.scales, false, st.fusion))
  }

  /** A rejected quaternion aborts the call after the magnetometer block
      was applied: the new field reading and any replaced scales stay,
      while the DMP quaternion and angles, accel and gyro keep their old
      values and data_fusion does not run. */
  lemma QuatRejectKeepsMotion(cfg: FifoConfig, st: FifoState, raw: seq<byte>, i: int)
    requires cfg.rate > 0
    requires cfg.packetLen == FIFO_LEN_NO_MAG || cfg.packetLen == FIFO_LEN_MAG
    requires 0 <= i && i + cfg.packetLen <= |raw|
    ensures var p := DecodePacket(raw, i, cfg.packetLen == FIFO_LEN_MAG);
      var o := Unpack(cfg, st, raw, i);
      (o.ret == -1 <==> !QuatInBand(p.quat)) &&
      (o.ret == -1 ==>
        o.state.firstRun == st.firstRun && o.state.fusion == st.fusion &&
        o.state.data == st.data.(mag := o.state.data.mag) &&
        (p.mag.Some? ==>
          var m := MagUpdate(cfg.mag, st.data.mag, st.magScales, p.mag.value);
          o.state.data.mag == m.mag && o.state.magScales == m.scales))
  {
  }

  /** data_fusion runs only when a new, unsaturated, non-zero magnetometer
      reading came with an accepted packet; otherwise its statics and the
      fused angles are left alone. */
  lemma FusionOnlyOnNewMag(cfg: FifoConfig, st: FifoState, raw: seq<byte>, i: int)
    requires cfg.rate > 0
    requires cfg.packetLen == FIFO_LEN_NO_MAG || cfg.packetLen == FIFO_LEN_MAG
    requires 0 <= i && i + cfg.packetLen <= |raw|
    ensures var p := DecodePacket(raw, i, cfg.packetLen == FIFO_LEN_MAG);
      var o := Unpack(cfg, st, raw, i);
      var newMag := p.mag.Some? && !Saturated(p.mag.value.status) && p.mag.value.adc != Triple(0, 0, 0);
      (o.ret == 0 && !newMag ==>
        o.state.fusion == st.fusion &&
        o.state.data.fusedTaitBryan == st.data.fusedTaitBryan &&
        o.state.data.fusedQuat == st.data.fusedQuat &&
        o.state.data.compassHeading == st.data.compassHeading) &&
      (o.ret == 0 && newMag ==>
        o.state.fusion == Fuse(cfg.math, cfg.orientation, cfg.mixFactor, cfg.rate, st.fusion,
                               WithMotion(cfg.math, st.data.(mag := o.state.data.mag), p)).state)
  {
  }

  /** read_dmp_fifo. `cfg.rate` is the DMP sample rate the driver accepted
      at initialisation. */
  function FifoRead(cfg: FifoConfig, st: FifoState, inp: FifoInputs): (o: FifoOutcome)
    requires cfg.rate > 0
    ensures o.ret == 0 || o.ret == -1
    ensures o.ret == 0 ==> !o.state.firstRun
    ensures o.ret == -1 ==> o.state.firstRun == st.firstRun && o.state.fusion == st.fusion
  {
    if !cfg.dmpEnabled then FifoOutcome(-1, [], st)
    else if cfg.packetLen != FIFO_LEN_NO_MAG && cfg.packetLen != FIFO_LEN_MAG then FifoOutcome(-1, [], st)
    else
      var t := CountTriage(cfg.packetLen, st.firstRun, cfg.showWarnings, inp.count1, inp.count2);
      match t.count
      case None => FifoOutcome(-1, t.ops, st)
      case Some(count) =>
        match OffsetFor(cfg.packetLen, count)
        case None => FifoOutcome(-1, t.ops, st)
        case Some(i) =>
          var b := BurstRead(count, inp.burst1, inp.burst2);
          match b.bytes
          case None => FifoOutcome(-1, t.ops + b.ops, st)
          case Some(raw) =>
            OffsetSelectsLastPacket(cfg.packetLen, count);
            var u := Unpack(cfg, st, raw, i);
            FifoOutcome(u.ret, t.ops + b.ops, u.state)
  }

  /** Once the triage passed a count and the burst arrived, the call is
      the decoding of the packet at the chosen offset. */
  lemma FifoReadDecodes(cfg: FifoConfig, st: FifoState, inp: FifoInputs, count: int, i: int, raw: seq<byte>)
    requires cfg.rate > 0 && cfg.dmpEnabled
    requires cfg.packetLen == FIFO_LEN_NO_MAG || cfg.packetLen == FIFO_LEN_MAG
    requires CountTriage(cfg.packetLen, st.firstRun, cfg.showWarnings, inp.count1, inp.count2).count == Some(count)
    requires OffsetFor(cfg.packetLen, count) == Some(i)
    requires BurstRead(count, inp.burst1, inp.burst2).bytes == Some(raw)
    ensures 0 <= i && i + cfg.packetLen <= |raw|
    ensures var u := Unpack(cfg, st, raw, i);
      FifoRead(cfg, st, inp) ==
        FifoOutcome(u.ret, CountTriage(cfg.packetLen, st.firstRun, cfg.showWarnings, inp.count1, inp.count2).ops +
                           BurstRead(count, inp.burst1, inp.burst2).ops, u.state)
  {
    OffsetSelectsLastPacket(cfg.packetLen, count);
  }

  // ---------------------------------------------------------------------
  // Properties of the whole call

  /** Nothing is decoded unless the count triage and the burst read both
      succeed; a reset is issued only on a count above two packets, or on
      a still-bad count after the re-read when warnings are on and this is
      not the first call. */
  lemma {:induction false} FailedTransfersDecodeNothing(cfg: FifoConfig, st: FifoState, inp: FifoInputs)
    requires cfg.rate > 0
    requires cfg.dmpEnabled && (cfg.packetLen == FIFO_LEN_NO_MAG || cfg.packetLen == FIFO_LEN_MAG)
    ensures var o := FifoRead(cfg, st, inp);
      var t := CountTriage(cfg.packetLen, st.firstRun, cfg.showWarnings, inp.count1, inp.count2);
      (t.count.None? ==> o.ret == -1 && o.state == st && o.ops == t.ops) &&
      (t.count.Some? && BurstRead(t.count.value, inp.burst1, inp.burst2).bytes.None? ==>
         o.ret == -1 && o.state == st && ResetFifo !in o.ops)
  {
    var t := CountTriage(cfg.packetLen, st.firstRun, cfg.showWarnings, inp.count1, inp.count2);
    if t.count.Some? {
      OffsetSelectsLastPacket(cfg.packetLen, t.count.value);
    }
  }

  /** A count above two packets resets the FIFO and fails at once, with
      exactly one count read. */
  lemma OverflowResets(cfg: FifoConfig, st: FifoState, inp: FifoInputs)
    requires cfg.rate > 0
    requires cfg.dmpEnabled && (cfg.packetLen == FIFO_LEN_NO_MAG || cfg.packetLen == FIFO_LEN_MAG)
    requires inp.count1.Some? && inp.count1.value > 2 * cfg.packetLen
    ensures FifoRead(cfg, st, inp) == FifoOutcome(-1, [ReadCount, ResetFifo], st)
  {
  }

  /** On success the packet decoded is the last one in the burst: what is
      stored as raw accel and gyro are that packet's words, and the
      quaternion passed the band check. */
  lemma {:induction false} SuccessDecodesLastPacket(cfg: FifoConfig, st: FifoState, inp: FifoInputs)
    requires cfg.rate > 0
    ensures var o := FifoRead(cfg, st, inp);
      o.ret == 0 ==>
        cfg.dmpEnabled && (cfg.packetLen == FIFO_LEN_NO_MAG || cfg.packetLen == FIFO_LEN_MAG) &&
        var raw := BurstRead(CountTriage(cfg.packetLen, st.firstRun, cfg.showWarnings, inp.count1, inp.count2).count.value,
                             inp.burst1, inp.burst2).bytes.value;
        var p := DecodePacket(raw, |raw| - cfg.packetLen, cfg.packetLen == FIFO_LEN_MAG);
        QuatInBand(p.quat) && o.state.data.rawAccel == p.accel && o.state.data.rawGyro == p.gyro &&
        o.state.data.dmpQuat == cfg.math.normalize(QuatToReal(p.quat)) &&
        o.state.data.dmpTaitBryan == cfg.math.toTaitBryan(o.state.data.dmpQuat) &&
        o.state.data.accel == Scale(p.accel, st.data.accelToMs2) &&
        o.state.data.gyro == Scale(p.gyro, st.data.gyroToDegs)
  {
    var o := FifoRead(cfg, st, inp);
    if o.ret == 0 {
      var t := CountTriage(cfg.packetLen, st.firstRun, cfg.showWarnings, inp.count1, inp.count2);
      OffsetSelectsLastPacket(cfg.packetLen, t.count.value);
      var raw := BurstRead(t.count.value, inp.burst1, inp.burst2).bytes.value;
      var i := |raw| - cfg.packetLen;
      var p := DecodePacket(raw, i, cfg.packetLen == FIFO_LEN_MAG);
      var m := if p.mag.Some? then MagUpdate(cfg.mag, st.data.mag, st.magScales, p.mag.value)
               else MagOutcome(st.data.mag, st.magScales, false);
      var d1 := WithMotion(cfg.math, st.data.(mag := m.mag), p);
      if m.newMag {
        var f := Fuse(cfg.math, cfg.orientation, cfg.mixFactor, cfg.rate, st.fusion, d1);
        assert f.data.rawAccel == d1.rawAccel && f.data.rawGyro == d1.rawGyro;
        assert f.data.dmpQuat == d1.dmpQuat && f.data.dmpTaitBryan == d1.dmpTaitBryan;
        assert f.data.accel == d1.accel && f.data.gyro == d1.gyro;
      }
    }
  }
}
