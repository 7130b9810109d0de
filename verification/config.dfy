/** Configuration arithmetic of the MPU-9250 driver: the DMP rate check of
    initialize_imu_dmp, the sample-rate dividers of mpu_set_sample_rate and
    dmp_set_fifo_rate, the FIFO packet length implied by the DMP feature
    mask, the register values of mpu_set_bypass and mpu_reset_fifo, and the
    chunked firmware loader. Register addresses and bit names follow the
    MPU-9250 register map; the vendor DMP symbols follow the InvenSense
    motion-driver headers, which are not part of this model. */
module DmpConfig {
  import opened Bytes
  import opened ImuTypes
  import opened Bus

  const DMP_MAX_RATE: int := 200
  const DMP_MIN_RATE: int := 4
  /** DMP_SAMPLE_RATE of the motion driver: the DMP's own output rate. */
  const DMP_SAMPLE_RATE: int := 200

  // Register addresses
  const SMPLRT_DIV: byte := 0x19
  const FIFO_EN: byte := 0x23
  const INT_PIN_CFG: byte := 0x37
  const INT_ENABLE: byte := 0x38
  const USER_CTRL: byte := 0x6A

  // USER_CTRL bits
  const BIT_DMP_EN: int := 0x80
  const FIFO_EN_BIT: int := 0x40
  const I2C_MST_EN: int := 0x20
  const BIT_DMP_RST: int := 0x08
  const BIT_FIFO_RST: int := 0x04

  // INT_PIN_CFG bits
  const ACTL_ACTIVE_LOW: int := 0x80
  const LATCH_INT_EN: int := 0x20
  const INT_ANYRD_CLEAR: int := 0x10
  const BYPASS_EN: int := 0x02

  const BIT_DMP_INT_EN: int := 0x02
  const FIFO_SLV0_EN: int := 0x01

  /** Bit `bit` (a power of two) of a register value. */
  predicate HasBit(v: int, bit: int)
    requires bit > 0
  {
    (v / bit) % 2 == 1
  }

  // ---------------------------------------------------------------------
  // Rates (mpu9250.c:450-461, 779-790, 1143-1149)

  /** The range and divisor checks of initialize_imu_dmp. */
  predicate DmpRateAccepted(rate: int)
  {
    DMP_MIN_RATE <= rate <= DMP_MAX_RATE && DMP_MAX_RATE % rate == 0
  }

  /** The accepted DMP rates are exactly the ten the driver's message
      lists. */
  lemma DmpRatesListed(rate: int)
    ensures DmpRateAccepted(rate) <==> rate in {4, 5, 8, 10, 20, 25, 40, 50, 100, 200}
  {
    if DmpRateAccepted(rate) {
      var q := DMP_MAX_RATE / rate;
      DivModUnique(DMP_MAX_RATE, rate, q, 0);
      assert rate * q == 200;
      assert 1 <= q <= 50;
    }
  }

  /** The divider of mpu_set_sample_rate, None when the rate is outside
      [4, 1000]. */
  function SampleRateDivider(rate: int): (div: Option<byte>)
    ensures div.Some? <==> 4 <= rate <= 1000
    ensures div.Some? ==> div.value <= 249
    ensures div.Some? ==> rate * (div.value + 1) <= 1000 < rate * (div.value + 2)
  {
    if rate > 1000 || rate < 4 then None
    else
      var q := 1000 / rate;
      DivModUnique(1000, rate, q, 1000 % rate);
      assert q <= 250 by {
        if q > 250 { MulMono(rate, 251, q); }
      }
      Some(q - 1)
  }

  lemma MulMono(c: int, x: int, y: int)
    requires 0 <= c && x <= y
    ensures c * x <= c * y
  {
    assert c * y - c * x == c * (y - x);
  }

  /** mpu_set_sample_rate: one checked write of the divider. */
  function SetSampleRate(rate: int, ack: bool): (ret: int)
    ensures ret == 0 <==> SampleRateDivider(rate).Some? && ack
    ensures ret == 0 || ret == -1
  {
    match SampleRateDivider(rate)
    case None => -1
    case Some(div) => if ack then 0 else -1
  }

  /** dmp_set_fifo_rate writes `1000 / rate - 1` through a byte parameter,
      so only its low eight bits reach SMPLRT_DIV. The driver calls it
      with the DMP rate it accepted, which is never zero. */
  function FifoRateDivider(rate: uint16): (div: byte)
    requires rate != 0
  {
    (1000 / rate - 1) % 256
  }

  /** For every accepted DMP rate the divider fits in the byte and divides
      the 1 kHz gyro clock down to exactly the requested rate. */
  lemma FifoRateDividerExact(rate: uint16)
    requires DmpRateAccepted(rate)
    ensures FifoRateDivider(rate) == 1000 / rate - 1 <= 249
    ensures rate * (FifoRateDivider(rate) + 1) == 1000
  {
    DmpRatesListed(rate);
  }

  /** D_0_22 and CFG_6 of the motion-driver key map, and the twelve bytes
      of the FIFO-rate program end (DINAFE, DINAF2, DINAAB, 0xc4, DINAAA,
      DINAF1, DINADF, DINADF, 0xBB, 0xAF, DINADF, DINADF). */
  const D_0_22: uint16 := 22 + 512
  const CFG_6: uint16 := 2753
  const REGS_END: seq<byte> := [0xFE, 0xF2, 0xAB, 0xC4, 0xAA, 0xF1, 0xDF, 0xDF, 0xBB, 0xAF, 0xDF, 0xDF]

  /** The transfers of dmp_set_fifo_rate after its range check: divider,
      then a zero DMP rate divisor, then the program end. */
  function FifoRatePlan(rate: uint16): (plan: seq<Step>)
    requires rate != 0
    ensures |plan| == 3 && forall k :: 0 <= k < 3 ==> plan[k].checked
  {
    [Step(Reg(SMPLRT_DIV, FifoRateDivider(rate)), true),
     Step(Mem(D_0_22, [0, 0]), true),
     Step(Mem(CFG_6, REGS_END), true)]
  }

  function SetFifoRate(rate: uint16, acks: seq<bool>): (ret: int)
    requires rate != 0 && |acks| == 3
    ensures ret == 0 || ret == -1
  {
    if rate > DMP_SAMPLE_RATE then -1
    else RunPlan(FifoRatePlan(rate), acks).ret
  }

  /** Both DMP memory writes lie inside one bank, so dmp_set_fifo_rate
      succeeds exactly when its rate is at most 200 and all three
      transfers are acknowledged. */
  lemma SetFifoRateSucceeds(rate: uint16, acks: seq<bool>)
    requires rate != 0 && |acks| == 3
    ensures SetFifoRate(rate, acks) == 0 <==> rate <= DMP_SAMPLE_RATE && acks == [true, true, true]
  {
    var plan := FifoRatePlan(rate);
    RunPlanSpec(plan, acks);
    assert MemAccessAllowed(D_0_22, 2) && MemAccessAllowed(CFG_6, 12);
    if rate <= DMP_SAMPLE_RATE && RunPlan(plan, acks).ret == 0 {
      assert Lands(plan[0].write, acks[0]) && Lands(plan[1].write, acks[1]) && Lands(plan[2].write, acks[2]);
    }
  }

  // ---------------------------------------------------------------------
  // Packet length from the feature mask (mpu9250.c:557, 591, 964-970)

  const DMP_FEATURE_LP_QUAT: int := 0x004
  const DMP_FEATURE_6X_LP_QUAT: int := 0x010
  const DMP_FEATURE_SEND_RAW_ACCEL: int := 0x040
  const DMP_FEATURE_SEND_RAW_GYRO: int := 0x080
  const DMP_FEATURE_SEND_CAL_GYRO: int := 0x100

  /** The feature mask initialize_imu_dmp enables. */
  const DRIVER_FEATURES: int := DMP_FEATURE_6X_LP_QUAT + DMP_FEATURE_SEND_RAW_ACCEL + DMP_FEATURE_SEND_RAW_GYRO

  /** packet_len as dmp_enable_feature leaves it: 6 bytes of accel, 6 of
      gyro (raw or calibrated) and 16 of quaternion (either kind). */
  function PacketLength(mask: uint16): (len: int)
    ensures len in {0, 6, 12, 16, 22, 28}
    ensures len == 28 <==>
      HasBit(mask, DMP_FEATURE_SEND_RAW_ACCEL) &&
      (HasBit(mask, DMP_FEATURE_SEND_RAW_GYRO) || HasBit(mask, DMP_FEATURE_SEND_CAL_GYRO)) &&
      (HasBit(mask, DMP_FEATURE_LP_QUAT) || HasBit(mask, DMP_FEATURE_6X_LP_QUAT))
  {
    (if HasBit(mask, DMP_FEATURE_SEND_RAW_ACCEL) then 6 else 0) +
    (if HasBit(mask, DMP_FEATURE_SEND_RAW_GYRO) || HasBit(mask, DMP_FEATURE_SEND_CAL_GYRO) then 6 else 0) +
    (if HasBit(mask, DMP_FEATURE_LP_QUAT) || HasBit(mask, DMP_FEATURE_6X_LP_QUAT) then 16 else 0)
  }

  /** packet_len once initialize_imu_dmp is done: the feature length, plus
      the 7 magnetometer bytes when the magnetometer is enabled. */
  function DriverPacketLength(magEnabled: bool): (len: int)
  {
    PacketLength(DRIVER_FEATURES) + (if magEnabled then 7 else 0)
  }

  /** The driver's features give the 28-byte packet, and the magnetometer
      turns it into the 35-byte one: the only two lengths the FIFO reader
      accepts. */
  lemma DriverPacketLengths()
    ensures DriverPacketLength(false) == 28
    ensures DriverPacketLength(true) == 35
  {
    assert HasBit(DRIVER_FEATURES, DMP_FEATURE_SEND_RAW_ACCEL);
    assert HasBit(DRIVER_FEATURES, DMP_FEATURE_SEND_RAW_GYRO);
    assert HasBit(DRIVER_FEATURES, DMP_FEATURE_6X_LP_QUAT);
  }

  // ---------------------------------------------------------------------
  // mpu_set_bypass (mpu9250.c:820-845)

  function BypassUserCtrl(dmpEnabled: bool, bypass: bool): (v: byte)
    ensures HasBit(v, FIFO_EN_BIT) <==> dmpEnabled
    ensures HasBit(v, I2C_MST_EN) <==> !bypass
    ensures !HasBit(v, BIT_DMP_EN) && !HasBit(v, BIT_FIFO_RST) && !HasBit(v, BIT_DMP_RST)
  {
    (if dmpEnabled then FIFO_EN_BIT else 0) + (if !bypass then I2C_MST_EN else 0)
  }

  function BypassPinCfg(bypass: bool): (v: byte)
    ensures HasBit(v, BYPASS_EN) <==> bypass
    ensures HasBit(v, LATCH_INT_EN) && HasBit(v, INT_ANYRD_CLEAR) && HasBit(v, ACTL_ACTIVE_LOW)
  {
    LATCH_INT_EN + INT_ANYRD_CLEAR + ACTL_ACTIVE_LOW + (if bypass then BYPASS_EN else 0)
  }

  /** The two writes of mpu_set_bypass. Exactly one of the two routes to
      the magnetometer is open afterwards: the pass-through of INT_PIN_CFG
      or the I2C master of USER_CTRL. */
  function BypassPlan(dmpEnabled: bool, bypass: bool): (plan: seq<Step>)
    ensures |plan| == 2 && plan[0].checked && plan[1].checked
    ensures plan[0].write.Reg? && plan[0].write.reg == USER_CTRL
    ensures plan[1].write.Reg? && plan[1].write.reg == INT_PIN_CFG
    ensures HasBit(plan[1].write.value, BYPASS_EN) != HasBit(plan[0].write.value, I2C_MST_EN)
  {
    [Step(Reg(USER_CTRL, BypassUserCtrl(dmpEnabled, bypass)), true),
     Step(Reg(INT_PIN_CFG, BypassPinCfg(bypass)), true)]
  }

  // ---------------------------------------------------------------------
  // mpu_reset_fifo (mpu9250.c:1048-1080)

  /** The register sequence of mpu_reset_fifo. The DMP interrupt enable is
      written only in DMP mode and its result is not checked. */
  function ResetFifoPlan(dmpEnabled: bool, magEnabled: bool): (plan: seq<Step>)
    ensures |plan| == if dmpEnabled then 6 else 5
    ensures forall k :: 0 <= k < |plan| ==> plan[k].write.Reg?
    ensures forall k :: 0 <= k < |plan| ==> (plan[k].checked <==> !(dmpEnabled && k == 4))
  {
    [Step(Reg(INT_ENABLE, 0), true),
     Step(Reg(FIFO_EN, 0), true),
     Step(Reg(USER_CTRL, BIT_FIFO_RST + BIT_DMP_RST), true),
     Step(Reg(USER_CTRL, BIT_DMP_EN + FIFO_EN_BIT + (if magEnabled then I2C_MST_EN else 0)), true)] +
    (if dmpEnabled then [Step(Reg(INT_ENABLE, BIT_DMP_INT_EN), false)] else []) +
    [Step(Reg(FIFO_EN, if magEnabled then FIFO_SLV0_EN else 0), true)]
  }

  /** What the sequence does: interrupts and FIFO inputs off, FIFO and DMP
      reset, both restarted (with the I2C master when the magnetometer is
      on), and finally only the magnetometer slave feeding the FIFO. */
  lemma ResetFifoOrder(dmpEnabled: bool, magEnabled: bool)
    ensures var plan := ResetFifoPlan(dmpEnabled, magEnabled);
      var last := plan[|plan| - 1].write;
      plan[0].write == Reg(INT_ENABLE, 0) && plan[1].write == Reg(FIFO_EN, 0) &&
      HasBit(plan[2].write.value, BIT_FIFO_RST) && HasBit(plan[2].write.value, BIT_DMP_RST) &&
      HasBit(plan[3].write.value, BIT_DMP_EN) && HasBit(plan[3].write.value, FIFO_EN_BIT) &&
      (HasBit(plan[3].write.value, I2C_MST_EN) <==> magEnabled) &&
      last.reg == FIFO_EN && (HasBit(last.value, FIFO_SLV0_EN) <==> magEnabled)
  {
  }

  /** The unchecked interrupt-enable write never decides the result: the
      reset succeeds or fails the same whatever becomes of it. */
  lemma ResetFifoIgnoresInterruptWrite(magEnabled: bool, acks: seq<bool>, other: bool)
    requires |acks| == 6
    ensures RunPlan(ResetFifoPlan(true, magEnabled), acks).ret ==
            RunPlan(ResetFifoPlan(true, magEnabled), acks[4 := other]).ret
  {
    var plan := ResetFifoPlan(true, magEnabled);
    RunPlanSpec(plan, acks);
    RunPlanSpec(plan, acks[4 := other]);
  }

  // ---------------------------------------------------------------------
  // Firmware loader (mpu9250.c:683-720)

  const DMP_LOAD_CHUNK: int := 16

  /** Bus results of one chunk: the bank select and data write of
      mpu_write_mem, then the bank select and read of mpu_read_mem. */
  datatype ChunkBus = ChunkBus(writeSelect: bool, writeData: bool, readSelect: bool, readBack: Option<seq<byte>>)

  /** A firmware image the loader can address: ii is an unsigned short. */
  predicate Loadable(fw: seq<byte>)
  {
    |fw| <= 0xFFFF
  }

  function ChunkCount(size: nat): nat
  {
    (size + DMP_LOAD_CHUNK - 1) / DMP_LOAD_CHUNK
  }

  /** Chunk k starts at 16*k and is 16 bytes long, except possibly the last. */
  function ChunkLen(size: nat, k: nat): int
  {
    if size - DMP_LOAD_CHUNK * k < DMP_LOAD_CHUNK then size - DMP_LOAD_CHUNK * k else DMP_LOAD_CHUNK
  }

  lemma ChunkBounds(size: nat, k: nat)
    requires k < ChunkCount(size)
    ensures DMP_LOAD_CHUNK * k < size
    ensures 1 <= ChunkLen(size, k) <= DMP_LOAD_CHUNK
    ensures DMP_LOAD_CHUNK * k + ChunkLen(size, k) == size <==> k + 1 == ChunkCount(size)
  {
    var c := ChunkCount(size);
    DivModUnique(size + 15, 16, c, (size + 15) % 16);
  }

  /** Every chunk is 16-aligned and at most 16 long, so it never crosses a
      256-byte bank: the bank check of the memory accessors always passes. */
  lemma ChunkStaysInBank(size: nat, k: nat)
    requires k < ChunkCount(size) && size <= 0xFFFF
    ensures MemAccessAllowed(DMP_LOAD_CHUNK * k, ChunkLen(size, k))
  {
    ChunkBounds(size, k);
    DivModUnique(16 * k, 256, k / 16, 16 * (k % 16));
  }

  /** One chunk: 0, -1 for a failed write or read, -2 for a read-back that
      differs from the image. */
  function ChunkResult(fw: seq<byte>, k: nat, cb: ChunkBus): (ret: int)
    requires Loadable(fw) && k < ChunkCount(|fw|)
    ensures ret in {0, -1, -2}
    ensures ret == 0 <==>
      cb.writeSelect && cb.writeData && cb.readSelect &&
      cb.readBack == Some(fw[DMP_LOAD_CHUNK * k..DMP_LOAD_CHUNK * k + ChunkLen(|fw|, k)])
    ensures ret == -2 <==>
      cb.writeSelect && cb.writeData && cb.readSelect && cb.readBack.Some? &&
      |cb.readBack.value| == ChunkLen(|fw|, k) &&
      cb.readBack.value != fw[DMP_LOAD_CHUNK * k..DMP_LOAD_CHUNK * k + ChunkLen(|fw|, k)]
  {
    ChunkBounds(|fw|, k);
    ChunkStaysInBank(|fw|, k);
    var ii := DMP_LOAD_CHUNK * k;
    var n := ChunkLen(|fw|, k);
    if WriteMem(ii, fw[ii..ii + n], cb.writeSelect, cb.writeData) != 0 then -1
    else match ReadMem(ii, n, cb.readSelect, cb.readBack)
      case None => -1
      case Some(cur) => if cur != fw[ii..ii + n] then -2 else 0
  }

  /** The chunks from k on, stopping at the first that fails. */
  function LoadChunks(fw: seq<byte>, bus: seq<ChunkBus>, k: nat): (ret: int)
    requires Loadable(fw) && |bus| == ChunkCount(|fw|) && k <= |bus|
    ensures ret in {0, -1, -2}
    decreases |bus| - k
  {
    if k == |bus| then 0
    else
      var r := ChunkResult(fw, k, bus[k]);
      if r != 0 then r else LoadChunks(fw, bus, k + 1)
  }

  /** dmp_load_motion_driver_firmware: every chunk written and verified,
      then the program start address written. */
  function LoadFirmware(fw: seq<byte>, bus: seq<ChunkBus>, startAck: bool): (ret: int)
    requires Loadable(fw) && |bus| == ChunkCount(|fw|)
    ensures ret in {0, -1, -2}
  {
    var r := LoadChunks(fw, bus, 0);
    if r != 0 then r else if startAck then 0 else -1
  }

  /** All chunks from k on succeed exactly when each of them does. */
  lemma {:induction false} LoadChunksSpec(fw: seq<byte>, bus: seq<ChunkBus>, k: nat)
    requires Loadable(fw) && |bus| == ChunkCount(|fw|) && k <= |bus|
    ensures LoadChunks(fw, bus, k) == 0 <==> forall j :: k <= j < |bus| ==> ChunkResult(fw, j, bus[j]) == 0
    decreases |bus| - k
  {
    if k < |bus| {
      LoadChunksSpec(fw, bus, k + 1);
    }
  }

  /** The loader succeeds exactly when every chunk read back equal to the
      image and the start address was acknowledged; the verified chunks
      then put the whole image together again. */
  lemma LoadFirmwareSpec(fw: seq<byte>, bus: seq<ChunkBus>, startAck: bool)
    requires Loadable(fw) && |bus| == ChunkCount(|fw|)
    ensures LoadFirmware(fw, bus, startAck) == 0 <==>
      startAck && forall k :: 0 <= k < |bus| ==>
        bus[k].readBack == Some(fw[DMP_LOAD_CHUNK * k..DMP_LOAD_CHUNK * k + ChunkLen(|fw|, k)]) &&
        bus[k].writeSelect && bus[k].writeData && bus[k].readSelect
  {
    LoadChunksSpec(fw, bus, 0);
  }

  /** The loop of dmp_load_motion_driver_firmware. `loaded` is what was
      read back and verified so far: always a prefix of the image, and
      the whole image on success. */
  method LoadMotionDriverFirmware(fw: seq<byte>, bus: seq<ChunkBus>, startAck: bool)
    returns (ret: int, loaded: seq<byte>)
    requires Loadable(fw) && |bus| == ChunkCount(|fw|)
    ensures ret == LoadFirmware(fw, bus, startAck)
    ensures |loaded| <= |fw| && loaded == fw[..|loaded|]
    ensures ret == 0 ==> loaded == fw
  {
    var ii := 0;
    var k := 0;
    loaded := [];
    while ii < |fw|
      invariant 0 <= k <= |bus|
      invariant ii == if k == |bus| then |fw| else DMP_LOAD_CHUNK * k
      invariant LoadChunks(fw, bus, 0) == LoadChunks(fw, bus, k)
      invariant loaded == fw[..ii]
      decreases |fw| - ii
    {
      ChunkBounds(|fw|, k);
      var thisWrite := if DMP_LOAD_CHUNK < |fw| - ii then DMP_LOAD_CHUNK else |fw| - ii;
      assert thisWrite == ChunkLen(|fw|, k);
      ChunkStaysInBank(|fw|, k);
      if WriteMem(ii, fw[ii..ii + thisWrite], bus[k].writeSelect, bus[k].writeData) != 0 {
        return -1, loaded;
      }
      var cur := ReadMem(ii, thisWrite, bus[k].readSelect, bus[k].readBack);
      if cur.None? {
        return -1, loaded;
      }
      if cur.value != fw[ii..ii + thisWrite] {
        return -2, loaded;
      }
      assert fw[..ii + thisWrite] == fw[..ii] + fw[ii..ii + thisWrite];
      loaded := loaded + cur.value;
      ii := ii + thisWrite;
      k := k + 1;
    }
    if !startAck {
      return -1, loaded;
    }
    return 0, loaded;
  }
}
