/** Yaw fusion (data_fusion): the DMP's gyro-integrated yaw drifts, so each
    time a fresh magnetometer sample arrives the driver advances its own
    filtered yaw by the DMP's yaw change and then pulls it a fixed fraction
    of the way towards the tilt-compensated compass heading. Angles are in
    radians; the filtered yaw is kept in [0, 2*PI] and reported in
    (-PI, PI]. Trigonometry and quaternion algebra are parameters. */
module YawFusion {
  import opened ImuTypes
  import opened Orientation
  import opened Angles

  /** The function-local statics of data_fusion. C zero-initialises the
      two angles; first_run starts at 1. */
  datatype FusionState = FusionState(lastDmpYaw: real, lastYaw: real, firstRun: bool)

  const InitialFusion: FusionState := FusionState(0.0, 0.0, true)

  /** The orientation switch of data_fusion: the magnetometer vector,
      already in the IMU's body axes, re-expressed in the DMP frame of the
      chosen mounting. An unknown orientation is an error. */
  function RemapMag(orientation: int, m: Triple<real>): (r: Option<Triple<real>>)
    ensures r.Some? <==> orientation in {ORIENTATION_Z_UP, ORIENTATION_Z_DOWN, ORIENTATION_X_UP,
                                         ORIENTATION_X_DOWN, ORIENTATION_Y_UP, ORIENTATION_Y_DOWN}
  {
    if orientation == ORIENTATION_Z_UP then Some(Triple(m.x, m.y, m.z))
    else if orientation == ORIENTATION_Z_DOWN then Some(Triple(-m.x, m.y, -m.z))
    else if orientation == ORIENTATION_X_UP then Some(Triple(m.z, m.y, m.x))
    else if orientation == ORIENTATION_X_DOWN then Some(Triple(-m.z, m.y, -m.x))
    else if orientation == ORIENTATION_Y_UP then Some(Triple(m.x, -m.z, m.y))
    else if orientation == ORIENTATION_Y_DOWN then Some(Triple(m.x, m.z, -m.y))
    else None
  }

  function Dot(row: Triple<int>, m: Triple<real>): real
  {
    row.x as real * m.x + row.y as real * m.y + row.z as real * m.z
  }

  /** A matrix applied to a vector. */
  function Apply(mat: Matrix, m: Triple<real>): Triple<real>
  {
    Triple(Dot(mat.x, m), Dot(mat.y, m), Dot(mat.z, m))
  }

  function NormSq(m: Triple<real>): real
  {
    m.x * m.x + m.y * m.y + m.z * m.z
  }

  /** Every branch of the switch is a signed permutation of the axes, so
      the length of the field vector is kept. */
  lemma RemapKeepsLength(orientation: int, m: Triple<real>)
    ensures RemapMag(orientation, m).Some? ==> NormSq(RemapMag(orientation, m).value) == NormSq(m)
  {
    var r := RemapMag(orientation, m);
    if r.Some? {
      var v := r.value;
      assert v.x * v.x + v.y * v.y + v.z * v.z == m.x * m.x + m.y * m.y + m.z * m.z by {
        assert (-m.x) * (-m.x) == m.x * m.x;
        assert (-m.y) * (-m.y) == m.y * m.y;
        assert (-m.z) * (-m.z) == m.z * m.z;
      }
    }
  }

  /** The switch against the mounting matrices: the identity for Z_UP, the
      mounting matrix itself for the Z and Y mountings, and for the X
      mountings the matrix with the sign of its first row flipped. */
  lemma RemapAgainstMountingMatrix(m: Triple<real>)
    ensures RemapMag(ORIENTATION_Z_UP, m) == Some(m)
    ensures RemapMag(ORIENTATION_Z_UP, m) == Some(Apply(ZUpMatrix, m))
    ensures RemapMag(ORIENTATION_Z_DOWN, m) == Some(Apply(ZDownMatrix, m))
    ensures RemapMag(ORIENTATION_Y_UP, m) == Some(Apply(YUpMatrix, m))
    ensures RemapMag(ORIENTATION_Y_DOWN, m) == Some(Apply(YDownMatrix, m))
    ensures var a := Apply(XUpMatrix, m);
      RemapMag(ORIENTATION_X_UP, m) == Some(Triple(-a.x, a.y, a.z))
    ensures var a := Apply(XDownMatrix, m);
      RemapMag(ORIENTATION_X_DOWN, m) == Some(Triple(-a.x, a.y, a.z))
  {
    DotUnit(m);
  }

  /** The dot product with a unit or zero row picks out one component. */
  lemma DotUnit(m: Triple<real>)
    ensures Dot(Triple(1, 0, 0), m) == m.x && Dot(Triple(-1, 0, 0), m) == -m.x
    ensures Dot(Triple(0, 1, 0), m) == m.y && Dot(Triple(0, -1, 0), m) == -m.y
    ensures Dot(Triple(0, 0, 1), m) == m.z && Dot(Triple(0, 0, -1), m) == -m.z
  {
  }

  /** The 100/(YAW_MIX_FACTOR * rate) fraction of the heading error applied
      per sample. */
  function MixGain(mixFactor: int, rate: int): (k: real)
    requires mixFactor != 0 && rate != 0
    ensures k * (mixFactor as real * rate as real) == 100.0
    ensures mixFactor * rate > 0 ==> k > 0.0
    ensures 0.0 < k <= 1.0 <==> mixFactor * rate >= 100
  {
    var n := mixFactor as real * rate as real;
    assert n == (mixFactor * rate) as real;
    HundredOver(n);
    100.0 / n
  }

  lemma HundredOver(n: real)
    requires n != 0.0
    ensures (100.0 / n) * n == 100.0
    ensures n > 0.0 ==> 100.0 / n > 0.0
    ensures 0.0 < 100.0 / n <= 1.0 <==> n >= 100.0
  {
    var k := 100.0 / n;
    assert k * n == 100.0;
    if n > 0.0 {
      ProductSigns(k, n);
      assert (k - 1.0) * n == 100.0 - n;
      ProductSigns(k - 1.0, n);
    } else {
      assert k * -n == -100.0;
      ProductSigns(k, -n);
    }
  }

  /** Result of one call: the return code, the new statics and the new
      sample record. */
  datatype FusionOutcome = FusionOutcome(ret: int, state: FusionState, data: ImuData)

  /** Lines 1529-1601 of data_fusion: the magnetic vector remapped to the
      DMP frame, tilted level by the DMP's roll and pitch, and turned into a
      heading by -atan2f(y, x). None for an unknown orientation. */
  function CompassHeading(math: FloatMath, orientation: int, d: ImuData): (h: Option<Float>)
    ensures h.None? <==> orientation !in {ORIENTATION_Z_UP, ORIENTATION_Z_DOWN, ORIENTATION_X_UP,
                                          ORIENTATION_X_DOWN, ORIENTATION_Y_UP, ORIENTATION_Y_DOWN}
  {
    var unfused := math.fromTaitBryan(TaitBryan(d.dmpTaitBryan.pitchX, d.dmpTaitBryan.rollY, 0.0));
    match RemapMag(orientation, d.mag)
    case None => None
    case Some(v) =>
      var tilted := math.tiltCompensate(Quat(0.0, v.x, v.y, v.z), unfused);
      Some(Negate(math.atan2(tilted.y, tilted.x)))
  }

  /** The yaw the filter starts this step from: the compass on the first run. */
  function SeedYaw(st: FusionState, magYaw: real): real
  {
    if st.firstRun then magYaw else st.lastYaw
  }

  /** The gyro-predicted yaw of this step (lines 1609-1619). */
  function Prediction(st: FusionState, d: ImuData, magYaw: real): real
  {
    PredictYaw(SeedYaw(st, magYaw), st.lastDmpYaw - d.dmpTaitBryan.yawZ)
  }

  /** data_fusion. `rate` is config.dmp_sample_rate, which the driver has
      checked to be one of the accepted DMP rates before any sample arrives. */
  function Fuse(math: FloatMath, orientation: int, mixFactor: int, rate: int,
                st: FusionState, d: ImuData): (o: FusionOutcome)
    requires rate > 0
    ensures o.ret == 0 || o.ret == -1
    ensures o.state.lastDmpYaw == d.dmpTaitBryan.yawZ
    ensures o.data.accel == d.accel && o.data.gyro == d.gyro && o.data.mag == d.mag
    ensures o.data.dmpQuat == d.dmpQuat && o.data.dmpTaitBryan == d.dmpTaitBryan
    ensures o.ret == 0 ==>
      o.data.fusedTaitBryan.pitchX == d.dmpTaitBryan.pitchX &&
      o.data.fusedTaitBryan.rollY == d.dmpTaitBryan.rollY &&
      o.data.fusedQuat == math.fromTaitBryan(o.data.fusedTaitBryan) &&
      !o.state.firstRun
    ensures o.ret == -1 ==> o.data.fusedTaitBryan == d.fusedTaitBryan && o.data.fusedQuat == d.fusedQuat
  {
    var dmpYaw := d.dmpTaitBryan.yawZ;
    match CompassHeading(math, orientation, d)
    case None => FusionOutcome(-1, st.(lastDmpYaw := dmpYaw), d)
    case Some(NaN) => FusionOutcome(-1, st.(lastDmpYaw := dmpYaw), d)
    case Some(Num(heading)) =>
      var d1 := d.(compassHeading := heading);
      var magYaw := PositiveHeading(heading);
      var seed := SeedYaw(st, magYaw);
      if mixFactor == 0 then
        FusionOutcome(-1, FusionState(dmpYaw, seed, false), d1)
      else
        var predicted := Prediction(st, d, magYaw);
        var newYaw := MixYaw(predicted, magYaw, MixGain(mixFactor, rate));
        var fused := TaitBryan(d.dmpTaitBryan.pitchX, d.dmpTaitBryan.rollY, SignedYaw(newYaw));
        FusionOutcome(0, FusionState(dmpYaw, newYaw, false),
                      d1.(fusedTaitBryan := fused, fusedQuat := math.fromTaitBryan(fused)))
  }

  /** The three error exits: an unknown orientation, a NaN heading, and a
      zero mix factor. Each one comes after lastDMPYaw has already been
      advanced; the zero-mix exit also comes after the first-run seeding,
      so it consumes the first run. */
  lemma FuseErrorExits(math: FloatMath, orientation: int, mixFactor: int, rate: int,
                       st: FusionState, d: ImuData)
    requires rate > 0
    ensures var o := Fuse(math, orientation, mixFactor, rate, st, d);
      var h := CompassHeading(math, orientation, d);
      (o.ret == -1 <==> h.None? || h.value.NaN? || mixFactor == 0) &&
      (h.None? || h.value.NaN? ==> o.state == st.(lastDmpYaw := d.dmpTaitBryan.yawZ) && o.data == d) &&
      (h.Some? && h.value.Num? && mixFactor == 0 ==>
         !o.state.firstRun && o.data == d.(compassHeading := h.value.value) &&
         o.state.lastYaw == (if st.firstRun then PositiveHeading(h.value.value) else st.lastYaw))
  {
  }

  /** On the first run the stored lastYaw plays no part in what is
      computed: the filter starts from the compass heading. */
  lemma FirstRunSeedsFromCompass(math: FloatMath, orientation: int, mixFactor: int, rate: int,
                                 st: FusionState, d: ImuData, anyYaw: real)
    requires rate > 0 && st.firstRun
    ensures var o1 := Fuse(math, orientation, mixFactor, rate, st, d);
      var o2 := Fuse(math, orientation, mixFactor, rate, st.(lastYaw := anyYaw), d);
      o1.ret == o2.ret && o1.data == o2.data && (o1.ret == 0 ==> o1.state == o2.state)
  {
  }

  /** The heading is a real number in [-PI, PI] whenever it is a number. */
  predicate HeadingInRange(math: FloatMath, orientation: int, d: ImuData)
  {
    var h := CompassHeading(math, orientation, d);
    h.Some? && h.value.Num? ==> -PI <= h.value.value <= PI
  }

  /** Range of the filter: if the stored yaw is in [0, 2*PI] (or this is the
      first run), the DMP yaw moved by at most 2*PI, atan2 gave a heading in
      [-PI, PI] and the per-sample gain is in (0, 1], then the stored yaw
      stays in [0, 2*PI], the reported yaw is in (-PI, PI] and is the stored
      yaw slid into that range. */
  lemma FuseKeepsYawInRange(math: FloatMath, orientation: int, mixFactor: int, rate: int,
                            st: FusionState, d: ImuData)
    requires rate > 0
    requires st.firstRun || 0.0 <= st.lastYaw <= TWO_PI
    requires -TWO_PI <= st.lastDmpYaw - d.dmpTaitBryan.yawZ <= TWO_PI
    requires HeadingInRange(math, orientation, d)
    requires mixFactor != 0 && 0.0 < MixGain(mixFactor, rate) <= 1.0
    ensures var o := Fuse(math, orientation, mixFactor, rate, st, d);
      o.ret == 0 ==>
        0.0 <= o.state.lastYaw <= TWO_PI &&
        -PI < o.data.fusedTaitBryan.yawZ <= PI &&
        -PI <= o.data.compassHeading <= PI &&
        o.data.fusedTaitBryan.yawZ == SignedYaw(o.state.lastYaw)
  {
    FuseSuccess(math, orientation, mixFactor, rate, st, d);
    var h := CompassHeading(math, orientation, d);
    if h.Some? && h.value.Num? {
      var magYaw := PositiveHeading(h.value.value);
      YawStepsInRange(SeedYaw(st, magYaw), st.lastDmpYaw - d.dmpTaitBryan.yawZ, magYaw, MixGain(mixFactor, rate));
    }
  }

  /** A successful call stores the mix of the gyro prediction with the
      compass heading, and records that heading. */
  lemma FuseSuccess(math: FloatMath, orientation: int, mixFactor: int, rate: int,
                    st: FusionState, d: ImuData)
    requires rate > 0
    ensures var o := Fuse(math, orientation, mixFactor, rate, st, d);
      var h := CompassHeading(math, orientation, d);
      o.ret == 0 ==>
        h.Some? && h.value.Num? && mixFactor != 0 &&
        o.data.compassHeading == h.value.value &&
        var magYaw := PositiveHeading(h.value.value);
        o.state.lastYaw == MixYaw(Prediction(st, d, magYaw), magYaw, MixGain(mixFactor, rate))
  {
  }

}
