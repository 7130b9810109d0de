/** The MPU-9250 driver session: the globals and function-local statics of
    mpu9250.c that the FIFO reader, the yaw filter, the interrupt step,
    the bypass switch and the magnetometer calibration update in place.
    Settings fixed at initialisation are constant fields; everything a
    call may change is a mutable field. Bus transfers are inputs, and the
    FIFO transfers issued are recorded in a trace. */
module Imu {
  import opened Bytes
  import opened ImuTypes
  import opened Angles
  import opened YawFusion
  import opened DmpFifo
  import opened DmpConfig
  import opened Calibration
  import opened Bus

  class ImuSession {
    // Settings fixed by initialize_imu_dmp.
    const dmpEnabled: bool
    const packetLen: int
    const showWarnings: bool
    const orientation: int
    const mixFactor: int
    const rate: int
    const math: FloatMath
    const magRawToUt: real
    const magFactoryAdjust: Triple<real>

    // The user's sample record and the magnetometer calibration globals.
    var data: ImuData
    var magOffsets: Triple<real>
    var magScales: Triple<real>
    // The static first_run of read_dmp_fifo.
    var fifoFirstRun: bool
    // The statics of data_fusion.
    var lastDmpYaw: real
    var lastYaw: real
    var fusionFirstRun: bool
    // FIFO transfers issued so far, in order.
    var fifoOps: seq<FifoOp>
    // The interrupt thread's first_run, interrupt_running, last_read_successful,
    // and the number of calls made to the user's callback.
    var handlerFirstRun: bool
    var interruptRunning: bool
    var lastReadSuccessful: bool
    var callbacks: nat
    // bypass_en.
    var bypassEnabled: bool
    // The magnetometer calibration file, if one has been written.
    var magCalFile: Option<MagRecord>

    /** A session right after initialisation: C zero-initialises the
        calibration globals, and every first_run flag starts at 1. */
    constructor(dmpEnabled: bool, packetLen: int, showWarnings: bool, orientation: int,
                mixFactor: int, rate: int, math: FloatMath, magRawToUt: real,
                magFactoryAdjust: Triple<real>, data: ImuData, magCalFile: Option<MagRecord>)
      ensures Config() == FifoConfig(dmpEnabled, packetLen, showWarnings, orientation, mixFactor, rate, math,
                                     MagConfig(magRawToUt, magFactoryAdjust, Triple(0.0, 0.0, 0.0)))
      ensures State() == FifoState(data, Triple(0.0, 0.0, 0.0), true, InitialFusion)
      ensures fifoOps == [] && handlerFirstRun && !interruptRunning && !lastReadSuccessful
      ensures callbacks == 0 && !bypassEnabled && this.magCalFile == magCalFile
    {
      this.dmpEnabled := dmpEnabled;
      this.packetLen := packetLen;
      this.showWarnings := showWarnings;
      this.orientation := orientation;
      this.mixFactor := mixFactor;
      this.rate := rate;
      this.math := math;
      this.magRawToUt := magRawToUt;
      this.magFactoryAdjust := magFactoryAdjust;
      this.data := data;
      magOffsets := Triple(0.0, 0.0, 0.0);
      magScales := Triple(0.0, 0.0, 0.0);
      fifoFirstRun := true;
      lastDmpYaw := 0.0;
      lastYaw := 0.0;
      fusionFirstRun := true;
      fifoOps := [];
      handlerFirstRun := true;
      interruptRunning := false;
      lastReadSuccessful := false;
      callbacks := 0;
      bypassEnabled := false;
      this.magCalFile := magCalFile;
    }

    /** The settings the FIFO reader sees. */
    function Config(): FifoConfig
      reads this`magOffsets
    {
      FifoConfig(dmpEnabled, packetLen, showWarnings, orientation, mixFactor, rate, math,
                 MagConfig(magRawToUt, magFactoryAdjust, magOffsets))
    }

    function Fusion(): FusionState
      reads this`lastDmpYaw, this`lastYaw, this`fusionFirstRun
    {
      FusionState(lastDmpYaw, lastYaw, fusionFirstRun)
    }

    /** What the FIFO reader may change. */
    function State(): FifoState
      reads this`data, this`magScales, this`fifoFirstRun, this`lastDmpYaw, this`lastYaw, this`fusionFirstRun
    {
      FifoState(data, magScales, fifoFirstRun, Fusion())
    }

    /** data_fusion, step by step over its statics: lastDMPYaw advances
        first, then the compass heading is formed and checked, the first
        run seeds lastYaw from it, and the filter step runs. */
    method DataFusion() returns (ret: int)
      requires rate > 0
      modifies this`data, this`lastDmpYaw, this`lastYaw, this`fusionFirstRun
      ensures var o := Fuse(math, orientation, mixFactor, rate, old(Fusion()), old(data));
        ret == o.ret && Fusion() == o.state && data == o.data
    {
      var deltaDmpYaw := lastDmpYaw - data.dmpTaitBryan.yawZ;
      lastDmpYaw := data.dmpTaitBryan.yawZ;
      var heading := CompassHeading(math, orientation, data);
      if heading.None? || heading.value.NaN? {
        return -1;
      }
      data := data.(compassHeading := heading.value.value);
      var magYaw := heading.value.value;
      if magYaw < 0.0 {
        magYaw := TWO_PI + magYaw;
      }
      if fusionFirstRun {
        lastYaw := magYaw;
        fusionFirstRun := false;
      }
      ret := FilterYaw(magYaw, deltaDmpYaw);
    }

    /** Lines 1614-1628 of data_fusion: the yaw predicted from the DMP's
        yaw change, slid into [0, 2*PI], and the compass error against it,
        slid into [-PI, PI). */
    method PredictError(magYaw: real, deltaDmpYaw: real) returns (predicted: real, error: real)
      ensures predicted == PredictYaw(lastYaw, deltaDmpYaw)
      ensures error == WrapPi(magYaw - predicted)
    {
      predicted := lastYaw + deltaDmpYaw;
      if predicted > TWO_PI {
        predicted := predicted - TWO_PI;
      } else if predicted < 0.0 {
        predicted := predicted + TWO_PI;
      }
      error := magYaw - predicted;
      if error >= PI {
        error := error - TWO_PI;
      } else if error < -PI {
        error := error + TWO_PI;
      }
    }

    /** Lines 1614-1655 of data_fusion: predict the yaw, pull it towards
        the compass by the mix gain, store it and report it. */
    method FilterYaw(magYaw: real, deltaDmpYaw: real) returns (ret: int)
      requires rate > 0
      modifies this`data, this`lastYaw
      ensures ret == if mixFactor == 0 then -1 else 0
      ensures ret == -1 ==> data == old(data) && lastYaw == old(lastYaw)
      ensures ret == 0 ==>
        lastYaw == MixYaw(PredictYaw(old(lastYaw), deltaDmpYaw), magYaw, MixGain(mixFactor, rate))
      ensures ret == 0 ==>
        var fused := TaitBryan(old(data).dmpTaitBryan.pitchX, old(data).dmpTaitBryan.rollY, SignedYaw(lastYaw));
        data == old(data).(fusedTaitBryan := fused, fusedQuat := math.fromTaitBryan(fused))
    {
      var newYaw, deltaMagYaw := PredictError(magYaw, deltaDmpYaw);
      if mixFactor == 0 {
        return -1;
      }
      ghost var predicted := newYaw;
      var gain := MixGain(mixFactor, rate);
      newYaw := newYaw + deltaMagYaw * gain;
      ghost var unwrapped := newYaw;
      if newYaw > TWO_PI {
        newYaw := newYaw - TWO_PI;
      } else if newYaw < 0.0 {
        newYaw := newYaw + TWO_PI;
      }
      assert newYaw == WrapTwoPi(unwrapped);
      MixStep(predicted, magYaw, gain, unwrapped);
      lastYaw := newYaw;
      if newYaw > PI {
        newYaw := newYaw - TWO_PI;
      }
      var fused := TaitBryan(data.dmpTaitBryan.pitchX, data.dmpTaitBryan.rollY, newYaw);
      data := data.(fusedTaitBryan := fused, fusedQuat := math.fromTaitBryan(fused));
      return 0;
    }

    static lemma MixStep(predicted: real, magYaw: real, gain: real, unwrapped: real)
      requires unwrapped == predicted + WrapPi(magYaw - predicted) * gain
      ensures WrapTwoPi(unwrapped) == MixYaw(predicted, magYaw, gain)
    {
    }

    /** read_dmp_fifo: the count triage, the offset choice, the burst read
        with one retry, then the packet decoded block by block while the
        cursor i advances. */
    method ReadDmpFifo(inp: FifoInputs) returns (ret: int)
      requires rate > 0
      modifies this`data, this`magScales, this`fifoFirstRun, this`lastDmpYaw, this`lastYaw,
               this`fusionFirstRun, this`fifoOps
      ensures var o := FifoRead(Config(), old(State()), inp);
        ret == o.ret && State() == o.state && fifoOps == old(fifoOps) + o.ops
    {
      if !dmpEnabled {
        return -1;
      }
      if packetLen != FIFO_LEN_NO_MAG && packetLen != FIFO_LEN_MAG {
        return -1;
      }
      ghost var st0 := State();
      ghost var t := CountTriage(packetLen, fifoFirstRun, showWarnings, inp.count1, inp.count2);
      var counted := TriageCount(inp);
      if counted.None? {
        return -1;
      }
      var count := counted.value;
      var i := 0;
      if count == 2 * packetLen {
        i := packetLen;
      } else if count == FIFO_LEN_NO_MAG || packetLen == FIFO_LEN_MAG {
        i := 0;
      } else {
        assert false;
      }
      assert OffsetFor(packetLen, count) == Some(i);
      var got := BurstTransfer(count, inp);
      if got.None? {
        return -1;
      }
      var raw := got.value;
      FifoReadDecodes(Config(), st0, inp, count, i, raw);
      ghost var ops := fifoOps;
      assert ops == old(fifoOps) + (t.ops + BurstRead(count, inp.burst1, inp.burst2).ops);
      ret := Decode(raw, i);
    }

    /** Lines 1309-1355 of read_dmp_fifo: read the count, reset on an
        overflow, re-read once when short, and give up on a count that is
        still not one or two whole packets. */
    method TriageCount(inp: FifoInputs) returns (count: Option<int>)
      requires packetLen == FIFO_LEN_NO_MAG || packetLen == FIFO_LEN_MAG
      modifies this`fifoOps
      ensures var t := CountTriage(packetLen, fifoFirstRun, showWarnings, inp.count1, inp.count2);
        count == t.count && fifoOps == old(fifoOps) + t.ops
    {
      fifoOps := fifoOps + [ReadCount];
      if inp.count1.None? {
        return None;
      }
      var c: int := inp.count1.value;
      if c > 2 * packetLen {
        fifoOps := fifoOps + [ResetFifo];
        return None;
      }
      if c != packetLen && c < 2 * packetLen {
        fifoOps := fifoOps + [ReadCount];
        if inp.count2.None? {
          return None;
        }
        c := inp.count2.value;
        if c != packetLen && c != 2 * packetLen {
          if showWarnings && !fifoFirstRun {
            fifoOps := fifoOps + [ResetFifo];
          }
          return None;
        }
      }
      return Some(c);
    }

    /** Lines 1381-1392 of read_dmp_fifo: the burst read, retried once on
        a bus error; anything but exactly `count` bytes is a failure. */
    method BurstTransfer(count: int, inp: FifoInputs) returns (got: Option<seq<byte>>)
      modifies this`fifoOps
      ensures var b := BurstRead(count, inp.burst1, inp.burst2);
        got == b.bytes && fifoOps == old(fifoOps) + b.ops
    {
      fifoOps := fifoOps + [ReadBurst(count)];
      got := inp.burst1;
      if got.None? {
        fifoOps := fifoOps + [ReadBurst(count)];
        got := inp.burst2;
      }
      if got.Some? && |got.value| != count {
        got := None;
      }
    }

    /** Lines 1394-1514 of read_dmp_fifo: the packet at offset i of a
        complete burst. */
    method Decode(raw: seq<byte>, i0: int) returns (ret: int)
      requires rate > 0
      requires packetLen == FIFO_LEN_NO_MAG || packetLen == FIFO_LEN_MAG
      requires 0 <= i0 && i0 + packetLen <= |raw|
      modifies this`data, this`magScales, this`fifoFirstRun, this`lastDmpYaw, this`lastYaw,
               this`fusionFirstRun
      ensures var o := Unpack(Config(), old(State()), raw, i0);
        ret == o.ret && State() == o.state
    {
      ghost var p := DecodePacket(raw, i0, packetLen == FIFO_LEN_MAG);
      ghost var m := if p.mag.Some? then MagUpdate(Config().mag, data.mag, magScales, p.mag.value)
                     else MagOutcome(data.mag, magScales, false);
      ghost var d := old(data).(mag := m.mag);
      var i := i0;
      var newMag := false;
      if packetLen == FIFO_LEN_MAG {
        newMag := MagBlockStep(raw, i);
        i := i + MAG_BLOCK_LEN;
      }
      assert data == d && magScales == m.scales && newMag == m.newMag;
      ghost var body := DecodePacket(raw, i, false);
      assert body.quat == p.quat && body.accel == p.accel && body.gyro == p.gyro;
      var inBand := MotionStep(raw, i);
      if !inBand {
        return -1;
      }
      assert data == WithMotion(math, d, p);
      if newMag {
        var _ := DataFusion();
      }
      fifoFirstRun := false;
      return 0;
    }

    /** Lines 1395-1436 of read_dmp_fifo: the magnetometer block of a
        packet, skipped when saturated or all zero. */
    method MagBlockStep(raw: seq<byte>, i: int) returns (newMag: bool)
      requires 0 <= i && i + MAG_BLOCK_LEN <= |raw|
      modifies this`data, this`magScales
      ensures var m := MagUpdate(Config().mag, old(data.mag), old(magScales), MagBlock(MagAdcAt(raw, i), raw[i + 6]));
        data == old(data).(mag := m.mag) && magScales == m.scales && newMag == m.newMag
    {
      newMag := false;
      if Saturated(raw[i + 6]) {
        return;
      }
      var adc := Triple(Int16LE(raw[i], raw[i + 1]), Int16LE(raw[i + 2], raw[i + 3]),
                        Int16LE(raw[i + 4], raw[i + 5]));
      if adc == Triple(0, 0, 0) {
        return;
      }
      var fc := FactoryCal(adc, magFactoryAdjust, magRawToUt);
      if magScales.x == 0.0 {
        magScales := magScales.(x := 1.0);
      }
      if magScales.y == 0.0 {
        magScales := magScales.(y := 1.0);
      }
      if magScales.z == 0.0 {
        magScales := magScales.(z := 1.0);
      }
      data := data.(mag := Calibrate(fc, magOffsets, magScales));
      newMag := true;
    }

    /** Lines 1438-1499 of read_dmp_fifo: the quaternion band check, then
        the DMP orientation, accel and gyro of the packet body at i. */
    method MotionStep(raw: seq<byte>, i: int) returns (inBand: bool)
      requires 0 <= i && i + FIFO_LEN_NO_MAG <= |raw|
      modifies this`data
      ensures var p := DecodePacket(raw, i, false);
        inBand == QuatInBand(p.quat) &&
        data == if inBand then WithMotion(math, old(data), p) else old(data)
    {
      var quat := QuatAt(raw, i);
      if !QuatInBand(quat) {
        return false;
      }
      var dq := math.normalize(QuatToReal(quat));
      data := data.(dmpQuat := dq, dmpTaitBryan := math.toTaitBryan(dq));
      var j := i + QUAT_BLOCK_LEN;
      var accel := Int16TripleAt(raw, j);
      data := data.(rawAccel := accel, accel := Scale(accel, data.accelToMs2));
      j := j + TRIPLE_BLOCK_LEN;
      var gyro := Int16TripleAt(raw, j);
      data := data.(rawGyro := gyro, gyro := Scale(gyro, data.gyroToDegs));
      return true;
    }

    /** One pass of the interrupt thread's loop after the interrupt fired:
        read the FIFO, record whether that worked, and call the user's
        function unless this is the thread's first pass or no function is
        installed. */
    method InterruptCycle(inp: FifoInputs)
      requires rate > 0
      modifies this
      ensures var o := FifoRead(old(Config()), old(State()), inp);
        State() == o.state && fifoOps == old(fifoOps) + o.ops &&
        lastReadSuccessful == (o.ret == 0)
      ensures !handlerFirstRun
      ensures callbacks == if !old(handlerFirstRun) && interruptRunning then old(callbacks) + 1 else old(callbacks)
      ensures interruptRunning == old(interruptRunning) && magOffsets == old(magOffsets)
      ensures bypassEnabled == old(bypassEnabled) && magCalFile == old(magCalFile)
    {
      var ret := ReadDmpFifo(inp);
      lastReadSuccessful := ret == 0;
      if handlerFirstRun {
        handlerFirstRun := false;
      } else if interruptRunning {
        callbacks := callbacks + 1;
      }
    }

    /** set_imu_interrupt_func. */
    method SetInterruptFunc()
      modifies this`interruptRunning
      ensures interruptRunning
    {
      interruptRunning := true;
    }

    /** stop_imu_interrupt_func. */
    method StopInterruptFunc()
      modifies this`interruptRunning
      ensures !interruptRunning
    {
      interruptRunning := false;
    }

    /** mpu_set_bypass: write USER_CTRL, then INT_PIN_CFG, and record the
        new state only when both writes went through. `acks` are the bus
        results of the two writes. */
    method SetBypass(bypass: bool, acks: seq<bool>) returns (ret: int)
      requires |acks| == 2
      modifies this`bypassEnabled
      ensures ret == RunPlan(BypassPlan(dmpEnabled, bypass), acks).ret
      ensures ret == 0 <==> acks[0] && acks[1]
      ensures bypassEnabled == if ret == 0 then bypass else old(bypassEnabled)
    {
      var plan := BypassPlan(dmpEnabled, bypass);
      RunPlanSpec(plan, acks);
      if !acks[0] {
        return -1;
      }
      if !acks[1] {
        return -1;
      }
      bypassEnabled := bypass;
      return 0;
    }

    /** load_mag_calibration: with no calibration file, -1 and nothing
        changes; otherwise the stored offsets and scales become current. */
    method LoadMagCalibration() returns (ret: int)
      modifies this`magOffsets, this`magScales
      ensures magCalFile.None? ==> ret == -1 && magOffsets == old(magOffsets) && magScales == old(magScales)
      ensures magCalFile.Some? ==>
        ret == 0 && magOffsets == magCalFile.value.offsets && magScales == magCalFile.value.scales
    {
      if magCalFile.None? {
        return -1;
      }
      magOffsets := magCalFile.value.offsets;
      magScales := magCalFile.value.scales;
      return 0;
    }

    /** calibrate_mag_routine. `setupOk` stands for the bus, reset,
        WHO_AM_I and magnetometer set-up steps; `input` for the readings;
        `fit` for fitEllipsoid; `diskOk` for the file write. The in-memory
        calibration is reset to offsets 0 and scales 1 once set-up
        succeeded, and stays so whatever happens next; only the file
        receives the new values. */
    method CalibrateMag(setupOk: bool, input: seq<MagRead>, fit: seq<Triple<real>> -> Option<Ellipsoid>,
                        diskOk: bool) returns (ret: int)
      modifies this`magOffsets, this`magScales, this`magCalFile
      ensures !setupOk ==>
        ret == -1 && magOffsets == old(magOffsets) && magScales == old(magScales) && magCalFile == old(magCalFile)
      ensures setupOk ==>
        var o := MagCalibration(Collected(input, MAG_CAL_SAMPLES), fit, diskOk);
        ret == o.ret &&
        magOffsets == Triple(0.0, 0.0, 0.0) && magScales == Triple(1.0, 1.0, 1.0) &&
        magCalFile == if ret == 0 then o.saved else old(magCalFile)
    {
      if !setupOk {
        return -1;
      }
      magOffsets := Triple(0.0, 0.0, 0.0);
      magScales := Triple(1.0, 1.0, 1.0);
      var samples := CollectMagSamples(input);
      var o := MagCalibration(samples, fit, diskOk);
      if o.ret == 0 {
        magCalFile := o.saved;
      }
      ret := o.ret;
    }
  }
}
