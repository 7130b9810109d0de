/** Value types shared by the MPU-9250 driver model: three- and four-element
    vectors, Tait-Bryan angles, the sample record handed to the user, and
    the floating-point helpers the driver calls but that are not part of
    this model (they enter as functions supplied by the caller). */
module ImuTypes {

  datatype Option<T> = None | Some(value: T)

  /** A C `float v[3]` / `int16_t v[3]`, indexed 0, 1, 2. */
  datatype Triple<T> = Triple(x: T, y: T, z: T)

  /** A C `float q[4]` / `long q[4]` indexed by QUAT_W..QUAT_Z = 0..3. */
  datatype Quat<T> = Quat(w: T, x: T, y: T, z: T)

  /** Indexed by TB_PITCH_X, TB_ROLL_Y, TB_YAW_Z = 0, 1, 2. */
  datatype TaitBryan = TaitBryan(pitchX: real, rollY: real, yawZ: real)

  /** A single-precision result that may be NaN. Only the heading computed
      from atan2f is ever tested for NaN by the driver. */
  datatype Float = NaN | Num(value: real)

  function Negate(f: Float): (r: Float)
    ensures r.NaN? <==> f.NaN?
    ensures f.Num? ==> r.value + f.value == 0.0
  {
    match f
    case NaN => NaN
    case Num(v) => Num(-v)
  }

  /** The helpers of the math library the driver calls: normalizeQuaternion,
      quaternionToTaitBryan, TaitBryanToQuaternion, tilt_compensate and
      atan2f. Their numerics are not modelled; a session is parameterised by
      one fixed choice of them. */
  datatype FloatMath = FloatMath(
    normalize: Quat<real> -> Quat<real>,
    toTaitBryan: Quat<real> -> TaitBryan,
    fromTaitBryan: TaitBryan -> Quat<real>,
    tiltCompensate: (Quat<real>, Quat<real>) -> Quat<real>,
    atan2: (real, real) -> Float)

  /** imu_data_t, with the DMP-mode angle arrays under the names the driver
      writes (dmp_TaitBryan, fused_TaitBryan). The one-shot temperature
      field is not written on the DMP path and is left out. */
  datatype ImuData = ImuData(
    accel: Triple<real>,
    gyro: Triple<real>,
    mag: Triple<real>,
    rawGyro: Triple<int>,
    rawAccel: Triple<int>,
    accelToMs2: real,
    gyroToDegs: real,
    dmpQuat: Quat<real>,
    dmpTaitBryan: TaitBryan,
    fusedQuat: Quat<real>,
    fusedTaitBryan: TaitBryan,
    compassHeading: real)

  /** Componentwise scaling of a raw triple into real units: the raw word
      times the driver's unit factor on each axis. */
  function Scale(v: Triple<int>, k: real): Triple<real>
  {
    Triple(v.x as real * k, v.y as real * k, v.z as real * k)
  }

  /** The `(float)` copy of each quaternion word. */
  function QuatToReal(q: Quat<int>): Quat<real>
  {
    Quat(q.w as real, q.x as real, q.y as real, q.z as real)
  }
}
