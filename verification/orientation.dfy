/** Orientation codes of the DMP. A mounting is a signed permutation
    matrix; inv_row_2_scale turns each row into a 3-bit code (the axis in
    bits 0-1, the sign in bit 2), inv_orientation_matrix_to_scalar packs
    the three codes at bits 0, 3 and 6, and dmp_set_orientation unpacks
    them again into the axis and sign registers of the DMP. */
module Orientation {
  import opened Bytes
  import opened ImuTypes
  import opened Bus

  // imu_orientation_t
  const ORIENTATION_Z_UP: int := 136
  const ORIENTATION_Z_DOWN: int := 396
  const ORIENTATION_X_UP: int := 14
  const ORIENTATION_X_DOWN: int := 266
  const ORIENTATION_Y_UP: int := 112
  const ORIENTATION_Y_DOWN: int := 336

  /** Rows of a 3x3 `signed char` matrix, row-major as in the driver. */
  type Matrix = Triple<Triple<int>>

  const ZUpMatrix: Matrix := Triple(Triple(1, 0, 0), Triple(0, 1, 0), Triple(0, 0, 1))
  const ZDownMatrix: Matrix := Triple(Triple(-1, 0, 0), Triple(0, 1, 0), Triple(0, 0, -1))
  const XUpMatrix: Matrix := Triple(Triple(0, 0, -1), Triple(0, 1, 0), Triple(1, 0, 0))
  const XDownMatrix: Matrix := Triple(Triple(0, 0, 1), Triple(0, 1, 0), Triple(-1, 0, 0))
  const YUpMatrix: Matrix := Triple(Triple(1, 0, 0), Triple(0, 0, -1), Triple(0, 1, 0))
  const YDownMatrix: Matrix := Triple(Triple(1, 0, 0), Triple(0, 0, 1), Triple(0, -1, 0))

  /** A row with a single non-zero entry: +1 or -1 on one axis. */
  datatype SignedAxis = SignedAxis(axis: int, negative: bool)

  predicate ValidAxis(a: SignedAxis) { 0 <= a.axis < 3 }

  function UnitRow(a: SignedAxis): (row: Triple<int>)
    requires ValidAxis(a)
  {
    var v := if a.negative then -1 else 1;
    if a.axis == 0 then Triple(v, 0, 0)
    else if a.axis == 1 then Triple(0, v, 0)
    else Triple(0, 0, v)
  }

  /** inv_row_2_scale: the first non-zero entry decides; 7 flags a zero row. */
  function RowCode(row: Triple<int>): (b: int)
    ensures 0 <= b <= 7
    ensures b == 7 <==> row == Triple(0, 0, 0)
  {
    if row.x > 0 then 0
    else if row.x < 0 then 4
    else if row.y > 0 then 1
    else if row.y < 0 then 5
    else if row.z > 0 then 2
    else if row.z < 0 then 6
    else 7
  }

  /** A unit row is coded as its axis, plus 4 when it is negative. */
  lemma RowCodeOfUnitRow(a: SignedAxis)
    requires ValidAxis(a)
    ensures RowCode(UnitRow(a)) == a.axis + (if a.negative then 4 else 0)
  {
  }

  /** inv_orientation_matrix_to_scalar: `a | b << 3 | c << 6`. The three
      codes are below 8, so the bit fields are disjoint and the OR is the
      sum written here. */
  function MatrixScalar(m: Matrix): (s: int)
    ensures 0 <= s < 512
    ensures s % 8 == RowCode(m.x) && (s / 8) % 8 == RowCode(m.y) && s / 64 == RowCode(m.z)
  {
    RowCode(m.x) + 8 * RowCode(m.y) + 64 * RowCode(m.z)
  }

  /** The six mounting matrices produce the six imu_orientation_t values. */
  lemma EnumValuesFromMatrices()
    ensures MatrixScalar(ZUpMatrix) == ORIENTATION_Z_UP
    ensures MatrixScalar(ZDownMatrix) == ORIENTATION_Z_DOWN
    ensures MatrixScalar(XUpMatrix) == ORIENTATION_X_UP
    ensures MatrixScalar(XDownMatrix) == ORIENTATION_X_DOWN
    ensures MatrixScalar(YUpMatrix) == ORIENTATION_Y_UP
    ensures MatrixScalar(YDownMatrix) == ORIENTATION_Y_DOWN
  {
  }

  // ---------------------------------------------------------------------
  // Decoding, as dmp_set_orientation does it

  /** 2^(3k): the position of row k's code. */
  function RowShift(k: int): (d: int)
    requires 0 <= k < 3
    ensures d == 1 || d == 8 || d == 64
  {
    if k == 0 then 1 else if k == 1 then 8 else 64
  }

  /** `(orient >> 3k) & 3`. */
  function AxisField(orient: uint16, k: int): (a: int)
    requires 0 <= k < 3
    ensures 0 <= a < 4
  {
    (orient / RowShift(k)) % 4
  }

  /** `orient & 4`, `orient & 0x20`, `orient & 0x100` for k = 0, 1, 2. */
  predicate SignBit(orient: uint16, k: int)
    requires 0 <= k < 3
  {
    (orient / (4 * RowShift(k))) % 2 == 1
  }

  /** The axis tables are three entries long: an axis field of 3 (a zero
      row) would index past them, so only these codes can be applied. */
  predicate Decodable(orient: uint16)
  {
    AxisField(orient, 0) < 3 && AxisField(orient, 1) < 3 && AxisField(orient, 2) < 3
  }

  /** Decoding a packed matrix recovers each row's axis and sign. */
  lemma DecodeInvertsEncode(r0: SignedAxis, r1: SignedAxis, r2: SignedAxis)
    requires ValidAxis(r0) && ValidAxis(r1) && ValidAxis(r2)
    ensures var o := MatrixScalar(Triple(UnitRow(r0), UnitRow(r1), UnitRow(r2)));
      Decodable(o) &&
      AxisField(o, 0) == r0.axis && AxisField(o, 1) == r1.axis && AxisField(o, 2) == r2.axis &&
      (SignBit(o, 0) <==> r0.negative) && (SignBit(o, 1) <==> r1.negative) &&
      (SignBit(o, 2) <==> r2.negative)
  {
    RowCodeOfUnitRow(r0);
    RowCodeOfUnitRow(r1);
    RowCodeOfUnitRow(r2);
    var o := MatrixScalar(Triple(UnitRow(r0), UnitRow(r1), UnitRow(r2)));
    var c0, c1, c2 := RowCode(UnitRow(r0)), RowCode(UnitRow(r1)), RowCode(UnitRow(r2));
    assert o == c0 + 8 * c1 + 64 * c2;
    DigitsOfPacked(c0, c1, c2);
  }

  /** The base-8 digits of a + 8b + 64c, and their low two bits and third bit. */
  lemma DigitsOfPacked(a: int, b: int, c: int)
    requires 0 <= a < 8 && 0 <= b < 8 && 0 <= c < 8
    ensures var o := a + 8 * b + 64 * c;
      o / 1 % 4 == a % 4 && o / 8 % 4 == b % 4 && o / 64 % 4 == c % 4 &&
      o / 4 % 2 == a / 4 && o / 32 % 2 == b / 4 && o / 256 % 2 == c / 4
  {
    var o := a + 8 * b + 64 * c;
    DivModUnique(o, 4, a / 4 + 2 * b + 16 * c, a % 4);
    DivModUnique(o, 8, b + 8 * c, a);
    DivModUnique(b + 8 * c, 4, b / 4 + 2 * c, b % 4);
    DivModUnique(o, 64, c, a + 8 * b);
    DivModUnique(a / 4 + 2 * b + 16 * c, 2, b + 8 * c, a / 4);
    DivModUnique(o, 32, b / 4 + 2 * c, a + 8 * (b % 4));
    DivModUnique(b / 4 + 2 * c, 2, c, b / 4);
    DivModUnique(o, 256, c / 4, a + 8 * b + 64 * (c % 4));
    DivModUnique(c / 4, 2, 0, c / 4);
  }

  /** The row a decoded field stands for. */
  function DecodedRow(orient: uint16, k: int): (a: SignedAxis)
    requires 0 <= k < 3
  {
    SignedAxis(AxisField(orient, k), SignBit(orient, k))
  }

  /** Encoding the decoded rows of any applicable code gives the code back:
      on the 9-bit codes whose axis fields are below 3, decoding and
      encoding are inverse. */
  lemma EncodeInvertsDecode(orient: uint16)
    requires orient < 512 && Decodable(orient)
    ensures MatrixScalar(Triple(UnitRow(DecodedRow(orient, 0)), UnitRow(DecodedRow(orient, 1)),
                                UnitRow(DecodedRow(orient, 2)))) == orient
  {
    var r0, r1, r2 := DecodedRow(orient, 0), DecodedRow(orient, 1), DecodedRow(orient, 2);
    RowCodeOfUnitRow(r0);
    RowCodeOfUnitRow(r1);
    RowCodeOfUnitRow(r2);
    var c0 := orient % 8;
    var c1 := (orient / 8) % 8;
    var c2 := (orient / 8) / 8;
    assert orient == c0 + 8 * c1 + 64 * c2;
    DigitsOfPacked(c0, c1, c2);
    assert r0 == SignedAxis(c0 % 4, c0 / 4 == 1);
    assert r1 == SignedAxis(c1 % 4, c1 / 4 == 1);
    assert r2 == SignedAxis(c2 % 4, c2 / 4 == 1);
    assert RowCode(UnitRow(r0)) == c0;
    assert RowCode(UnitRow(r1)) == c1;
    assert RowCode(UnitRow(r2)) == c2;
  }

  // ---------------------------------------------------------------------
  // Register bytes written by dmp_set_orientation

  // DINAxx names denote the byte 0xxx.
  const GYRO_AXES: seq<byte> := [0x4C, 0xCD, 0x6C]
  const ACCEL_AXES: seq<byte> := [0x0C, 0xC9, 0x2C]
  const GYRO_SIGN: seq<byte> := [0x36, 0x56, 0x76]
  const ACCEL_SIGN: seq<byte> := [0x26, 0x46, 0x66]

  // DMP memory addresses of the chip-to-body configuration.
  const FCFG_1: uint16 := 1062
  const FCFG_2: uint16 := 1066
  const FCFG_3: uint16 := 1088
  const FCFG_7: uint16 := 1073

  datatype OrientRegs = OrientRegs(gyroAxes: seq<byte>, accelAxes: seq<byte>,
                                   gyroSigns: seq<byte>, accelSigns: seq<byte>)

  function SignByte(base: byte, on: bool): (b: byte)
    requires base % 2 == 0
    ensures b % 2 == 1 <==> on
    ensures b / 2 == base / 2
  {
    DivModUnique(base, 2, base / 2, 0);
    DivModUnique(base + 1, 2, base / 2, 1);
    if on then base + 1 else base
  }

  function OrientationRegs(orient: uint16): (r: OrientRegs)
    requires Decodable(orient)
    ensures |r.gyroAxes| == 3 && |r.accelAxes| == 3 && |r.gyroSigns| == 3 && |r.accelSigns| == 3
    ensures forall k :: 0 <= k < 3 ==>
      r.gyroAxes[k] == GYRO_AXES[AxisField(orient, k)] &&
      r.accelAxes[k] == ACCEL_AXES[AxisField(orient, k)] &&
      (r.gyroSigns[k] % 2 == 1 <==> SignBit(orient, k)) &&
      (r.accelSigns[k] % 2 == 1 <==> SignBit(orient, k)) &&
      r.gyroSigns[k] / 2 == GYRO_SIGN[k] / 2 && r.accelSigns[k] / 2 == ACCEL_SIGN[k] / 2
  {
    var a0, a1, a2 := AxisField(orient, 0), AxisField(orient, 1), AxisField(orient, 2);
    var s0, s1, s2 := SignBit(orient, 0), SignBit(orient, 1), SignBit(orient, 2);
    OrientRegs(
      [GYRO_AXES[a0], GYRO_AXES[a1], GYRO_AXES[a2]],
      [ACCEL_AXES[a0], ACCEL_AXES[a1], ACCEL_AXES[a2]],
      [SignByte(GYRO_SIGN[0], s0), SignByte(GYRO_SIGN[1], s1), SignByte(GYRO_SIGN[2], s2)],
      [SignByte(ACCEL_SIGN[0], s0), SignByte(ACCEL_SIGN[1], s1), SignByte(ACCEL_SIGN[2], s2)])
  }

  /** The four DMP memory writes of dmp_set_orientation, each checked. */
  function OrientationPlan(orient: uint16): (plan: seq<Step>)
    requires Decodable(orient)
    ensures |plan| == 4
  {
    var r := OrientationRegs(orient);
    [Step(Mem(FCFG_1, r.gyroAxes), true), Step(Mem(FCFG_2, r.accelAxes), true),
     Step(Mem(FCFG_3, r.gyroSigns), true), Step(Mem(FCFG_7, r.accelSigns), true)]
  }

  /** dmp_set_orientation: 0 when all four writes land, else -1. */
  function SetOrientation(orient: uint16, acks: seq<bool>): (ret: int)
    requires Decodable(orient) && |acks| == 4
  {
    RunPlan(OrientationPlan(orient), acks).ret
  }

  /** None of these writes crosses a DMP bank, so the outcome depends on
      the bus alone: it succeeds exactly when all four writes are
      acknowledged. */
  lemma SetOrientationSucceedsIffAcked(orient: uint16, acks: seq<bool>)
    requires Decodable(orient) && |acks| == 4
    ensures SetOrientation(orient, acks) == 0 <==> acks == [true, true, true, true]
    ensures SetOrientation(orient, acks) == 0 || SetOrientation(orient, acks) == -1
  {
    var plan := OrientationPlan(orient);
    RunPlanSpec(plan, acks);
    forall i | 0 <= i < 4
      ensures Lands(plan[i].write, acks[i]) <==> acks[i]
    {
      assert MemAccessAllowed(plan[i].write.addr, 3);
    }
  }

  /** The six enum values are all applicable codes. */
  lemma EnumValuesDecodable()
    ensures Decodable(ORIENTATION_Z_UP as uint16) && Decodable(ORIENTATION_Z_DOWN as uint16)
    ensures Decodable(ORIENTATION_X_UP as uint16) && Decodable(ORIENTATION_X_DOWN as uint16)
    ensures Decodable(ORIENTATION_Y_UP as uint16) && Decodable(ORIENTATION_Y_DOWN as uint16)
  {
  }
}
