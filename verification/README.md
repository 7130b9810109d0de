# bb_blue_api MPU-9250 and BMP280 driver core in Dafny

This project models the computational core of the BeagleBone Blue sensor
drivers in `mpu9250.c` and `bmp280.c`, and proves properties of that model.

- **DMP FIFO reader** (`read_dmp_fifo`). It triages the FIFO byte count, rereading once and resetting the FIFO when needed. It then does the burst read with one retry and picks the last packet in the burst. The packet holds a little-endian magnetometer block, a big-endian quaternion, accel and gyro. Corrupt quaternions are rejected with the integer magnitude band. The magnetometer factory and user correction is applied, with zero scales replaced by 1. When a new magnetometer sample arrives, `data_fusion` runs.
- **Yaw fusion** (`data_fusion`). It remaps the magnetic vector for each mounting orientation, takes the compass heading, and does the gyro prediction with a single-step wrap into [0, 2π]. The heading error is wrapped into [-π, π), and a fixed fraction of it, 100/(mix factor · rate), is mixed in.
- **Orientation codes.** `inv_row_2_scale` and `inv_orientation_matrix_to_scalar` encode them; `dmp_set_orientation` decodes them into its register bytes.
- **Calibration and configuration arithmetic.**
  - The gyro bias register bytes, and the truncated-mean gyro calibration loop.
  - The magnetometer sampling loop, fit acceptance and scales.
  - The DMP rate checks and the rate dividers.
  - The DMP memory bank check and the firmware loader loop.
  - The `packet_len` computation, and the register values of `mpu_set_bypass` and `mpu_reset_fifo`.
  - One pass of the interrupt thread.
- **BMP280.**
  - Decoding of the trimming coefficients and of the 20-bit ADC words.
  - The 64-bit integer temperature and pressure compensation of the Bosch BMP280 datasheet (section 3.11.3).
  - The control byte for an oversampling setting.
  - The status tests and error returns of `initialize_barometer` and `read_barometer`, and `set_sea_level_pressure_pa`.

## How the code is modelled

- **Globals as classes.** The driver's globals and function-local statics are the mutable fields of two classes, `Imu.ImuSession` and `Bmp280.Barometer`. The ImuSession statics are `first_run`, `lastDMPYaw`, `lastYaw`, `mag_scales`, `mag_offsets`, `bypass_en` and the interrupt flags.
- **Specification functions.** Every state-changing method is proved against a pure function: `ReadDmpFifo` against `DmpFifo.FifoRead`, `DataFusion` against `YawFusion.Fuse`, and the loops against `LoadFirmware`, `GyroCalibration` and `Collected`. Each method's `ensures` ties the new state to that function of the old state. The properties are proved as lemmas about the functions.
- **Bus and sensor inputs.** Bus transfers (acknowledgements, counts, bursts) and sensor readings are parameters. The FIFO transfers issued (count reads, burst reads, FIFO resets) are recorded in a trace. Register sequences are plans of writes run against a list of acknowledgements.
- **Integer arithmetic.**
  - Integers are unbounded.
  - Right shifts of signed values are floor divisions.
  - C's truncating `/` is `Bytes.CDiv`.
  - Casts to `int16_t` and 32-bit wrap-around are written out as `Wrap16` and `Wrap32`.
- **Floating point.** `float` values are reals. NaN is represented only where the code tests for it: the compass heading. The quaternion and trigonometric helpers, which are not shown, are uninterpreted functions in `ImuTypes.FloatMath`.
- **Constants** from headers that are not shown come from the MPU-9250 register map, the BMP280 datasheet, and Invensense's DMP key names. DMP_MAX_RATE = 200 and DMP_MIN_RATE = 4 are the values the driver prints at mpu9250.c:458-459. `YAW_MIX_FACTOR` is a compile-time macro whose definition is not shown (mpu9250.c:1632-1637). It is not a constant here but the session parameter `mixFactor`, so every value, including 0, is covered.

Source facts that the model keeps as written:

- When the count is still bad after the reread, the FIFO reset is issued only if warnings are on and this is not the first call.
- The single-packet offset test compares `packet_len`, not the count. `DmpFifo.OffsetSelectsLastPacket` proves this harmless.
- A rejected quaternion leaves the magnetometer reading, and any replaced scales, already written.
- On the first fusion run, the yaw is seeded from the compass, and the prediction and mix still run.
- `read_barometer` does not release the bus on its success paths, including the early return when the pressure divisor is zero.
- The NVM-ready test in `initialize_barometer` is `c | BMP280_IM_UPDATE_STATUS`. With a non-zero flag it aborts for every status byte (`Bmp280.NvmTestIgnoresStatus`).
- A raw-data read failure in `read_barometer` returns 1, not -1.

## Model

| member | source | states |
|---|---|---|
| Bytes.ToInt16 | bmp280.c:163-173 | the `int16_t` reinterpretation of a 16-bit pattern is in range and congruent to it mod 2^16 |
| Bytes.Wrap16 | mpu9250.c:1852-1854 | the cast to `int16_t` is in range, congruent mod 2^16, and the identity on values already in range |
| Bytes.Wrap32 | mpu9250.c:1460-1461 | 32-bit two's-complement wrap: in range, congruent mod 2^32, identity in range |
| Bytes.CDiv | mpu9250.c:1852-1854 | C division truncates toward zero: the magnitude of the quotient is the quotient of the magnitudes, and its sign is that of the operands' product |
| Bytes.Int16BERoundTrip | mpu9250.c:1477-1479 | encoding an int16 big-endian and decoding it gives it back |
| Bytes.Int16BEBytesRoundTrip | mpu9250.c:1477-1479 | decoding a byte pair and re-encoding gives the same bytes |
| Bytes.Int16LERoundTrip | mpu9250.c:1407-1409 | the little-endian round trip for int16 values |
| Bytes.Int16LEBytesRoundTrip | mpu9250.c:1407-1409 | the little-endian round trip for byte pairs |
| Bytes.Int32BERoundTrip | mpu9250.c:1438-1445 | encoding an int32 big-endian and decoding it gives it back |
| Bytes.Int32BEBytesRoundTrip | mpu9250.c:1438-1445 | four bytes decode and re-encode to themselves |
| ImuTypes.Negate | mpu9250.c:1596 | negation keeps NaN and negates numbers |
| Bus.MemAccessStaysInBank | mpu9250.c:636-639 | the check `(addr & 0xFF) + length <= 256` holds exactly when first and last byte are in the same bank |
| Bus.WriteMem | mpu9250.c:625-647 | `mpu_write_mem` returns 0 iff the bank check passes and both transfers are acknowledged, else -1 |
| Bus.ReadMem | mpu9250.c:656-676 | `mpu_read_mem` yields data iff the bank check passes, the bank select is acknowledged and exactly `length` bytes arrive |
| Bus.RunPlan | mpu9250.c:820-845 | a sequence of writes stopping at the first checked failure returns 0 or -1 and issues no more than the plan |
| Bus.RunPlanSpec | mpu9250.c:1048-1080 | a sequence succeeds iff every checked write lands, then issues every write; on failure it stops right after the first checked write that did not land |
| Orientation.RowCode | mpu9250.c:1871-1889 | `inv_row_2_scale` is in 0..7, and 7 exactly for the zero row |
| Orientation.RowCodeOfUnitRow | mpu9250.c:1874-1885 | a unit row codes as its axis, plus 4 when negative |
| Orientation.MatrixScalar | mpu9250.c:1899-1906 | the scalar packs the three row codes at bits 0, 3 and 6 |
| Orientation.EnumValuesFromMatrices | mpu9250.c:1915-1948 | the six mounting matrices give the values 136, 396, 14, 266, 112 and 336 |
| Orientation.EnumValuesDecodable | libraries/bb_blue_api.h:522-527 | every enum value has three axis fields below 3 |
| Orientation.DecodeInvertsEncode | mpu9250.c:736-762 | `(orient >> 3k) & 3` and the sign bits recover each row's axis and sign from an encoded signed permutation |
| Orientation.EncodeInvertsDecode | mpu9250.c:736-762 | re-encoding the decoded rows of any decodable code gives the code back |
| Orientation.SignByte | mpu9250.c:750-761 | `|= 1` sets exactly the low bit and keeps the rest |
| Orientation.OrientationRegs | mpu9250.c:736-761 | the axis bytes are the table entries at the decoded fields; the sign bytes have the low bit set iff the sign bit of that row is set |
| Orientation.SetOrientation | mpu9250.c:729-771 | no contract of its own: the four memory writes of `dmp_set_orientation` run as one plan; `Orientation.SetOrientationSucceedsIffAcked` states its result |
| Orientation.SetOrientationSucceedsIffAcked | mpu9250.c:729-770 | `dmp_set_orientation` returns 0 iff all four memory writes are acknowledged, else -1 |
| DmpConfig.DmpRateAccepted | mpu9250.c:450-461 | no contract of its own: the two rate checks of `initialize_imu_dmp`; `DmpConfig.DmpRatesListed` gives the set they accept |
| DmpConfig.DmpRatesListed | mpu9250.c:450-461 | the rate checks accept exactly 4, 5, 8, 10, 20, 25, 40, 50, 100 and 200 Hz |
| DmpConfig.SampleRateDivider | mpu9250.c:1143-1149 | a divider exists iff 4 <= rate <= 1000; it is at most 249, and rate·(div+1) <= 1000 < rate·(div+2) |
| DmpConfig.SetSampleRate | mpu9250.c:1143-1160 | `mpu_set_sample_rate` returns 0 iff the rate is in range and the write is acknowledged |
| DmpConfig.FifoRateDivider | mpu9250.c:785-790 | no contract of its own: `1000 / rate - 1` cut to the byte parameter; `DmpConfig.FifoRateDividerExact` shows nothing is cut for an accepted rate |
| DmpConfig.FifoRateDividerExact | mpu9250.c:785-790 | for every accepted DMP rate, `1000 / rate - 1` fits a byte and the divider divides 1000 exactly |
| DmpConfig.FifoRatePlan | mpu9250.c:785-805 | the divider write and two DMP memory writes, all checked |
| DmpConfig.SetFifoRate | mpu9250.c:779-808 | returns 0 or -1; `DmpConfig.SetFifoRateSucceeds` states exactly when it is 0 |
| DmpConfig.SetFifoRateSucceeds | mpu9250.c:779-808 | `dmp_set_fifo_rate` returns 0 iff rate <= 200 and all three writes are acknowledged |
| DmpConfig.PacketLength | mpu9250.c:964-970 | the feature length is one of 0, 6, 12, 16, 22, 28, and 28 exactly when accel, gyro and a quaternion feature are all on |
| DmpConfig.DriverPacketLengths | mpu9250.c:557-591 | the driver's features give 28 bytes, 35 with the magnetometer |
| DmpConfig.BypassUserCtrl | mpu9250.c:824-828 | USER_CTRL has FIFO_EN iff the DMP is on and I2C_MST_EN iff not bypassing, and no reset bits |
| DmpConfig.BypassPinCfg | mpu9250.c:833-835 | INT_PIN_CFG has BYPASS_EN iff bypassing, plus latch, any-read-clear and active-low |
| DmpConfig.BypassPlan | mpu9250.c:820-837 | USER_CTRL then INT_PIN_CFG, both checked; bypass and I2C master mode are never both on |
| DmpConfig.ResetFifoPlan | mpu9250.c:1048-1080 | five or six register writes; only the DMP interrupt enable write is unchecked |
| DmpConfig.ResetFifoOrder | mpu9250.c:1048-1080 | interrupts and FIFO inputs are off before the FIFO/DMP reset, then the FIFO and DMP are enabled, then the FIFO inputs are set |
| DmpConfig.ResetFifoIgnoresInterruptWrite | mpu9250.c:1068-1070 | the acknowledgement of the DMP interrupt write never changes the result |
| DmpConfig.ChunkBounds | mpu9250.c:696-697 | chunk k starts inside the image, is 1 to 16 bytes, and only the last chunk reaches the end |
| DmpConfig.ChunkStaysInBank | mpu9250.c:692-697 | every 16-aligned chunk passes the bank check |
| DmpConfig.ChunkResult | mpu9250.c:698-709 | a chunk gives 0 iff written, read back and equal; -2 iff read back but different; otherwise -1 |
| DmpConfig.LoadChunks | mpu9250.c:696-710 | returns 0, -1 or -2; `DmpConfig.LoadChunksSpec` states when it is 0 |
| DmpConfig.LoadChunksSpec | mpu9250.c:696-710 | the chunks from k on all succeed exactly when each does |
| DmpConfig.LoadFirmware | mpu9250.c:683-720 | returns 0, -1 or -2; `DmpConfig.LoadFirmwareSpec` states when it is 0 |
| DmpConfig.LoadFirmwareSpec | mpu9250.c:683-720 | the loader returns 0 iff every chunk succeeds and the start-address write is acknowledged |
| DmpConfig.LoadMotionDriverFirmware | mpu9250.c:683-720 | the loop returns what `LoadFirmware` specifies; the verified bytes are a prefix of the image, and all of it on success |
| DmpFifo.CountTriage | mpu9250.c:1309-1355 | a count is passed on only if it is one or two whole packets |
| DmpFifo.CountTriageSpec | mpu9250.c:1311-1355 | count reads: one, or two when the first count is short. A reset is issued iff the count exceeds two packets, or the reread is still bad with warnings on after the first call. A count goes on iff one of the reads found whole packets, and it is that read's value |
| DmpFifo.OffsetFor | mpu9250.c:1357-1377 | the offset chosen is 0 or `packet_len`, and `packet_len` whenever the count is two packets; None is the final `else` |
| DmpFifo.OffsetSelectsLastPacket | mpu9250.c:1357-1377 | for the counts the triage lets through, the `packet_len` test picks offset 0 for one packet and `packet_len` for two; the final `else` is unreachable; offset plus packet is the count |
| DmpFifo.BurstRead | mpu9250.c:1381-1392 | the burst is retried exactly when the first read fails, and succeeds iff exactly `fifo_count` bytes arrive |
| DmpFifo.DecodePacket | mpu9250.c:1394-1481 | the packet at offset i carries a magnetometer block iff `packet_len` is 35 |
| DmpFifo.PacketRoundTrip | mpu9250.c:1394-1481 | decoding an encoded packet at any offset in any surrounding bytes gives the packet back |
| DmpFifo.PacketBytesRoundTrip | mpu9250.c:1394-1481 | every packet-sized window decodes to a valid packet that re-encodes to the same bytes |
| DmpFifo.Q14 | mpu9250.c:1456-1459 | the arithmetic `>> 16` rounds toward minus infinity: q·2^16 <= w < (q+1)·2^16 |
| DmpFifo.QuatMagSq | mpu9250.c:1460-1461 | the sum of squares of the Q14 words is non-negative; `DmpFifo.QuatMagSqBound` bounds it above |
| DmpFifo.QuatInBand | mpu9250.c:1462 | no contract of its own: the band 2^28 ± 2^24; `DmpFifo.QuatRejectKeepsMotion` and `DmpFifo.SuccessDecodesLastPacket` state its effect |
| DmpFifo.QuatMagSqBound | mpu9250.c:1452-1461 | the sum of squares of the words shifted by 16 lies in [0, 2^32] |
| DmpFifo.QuatBandSameIn32Bits | mpu9250.c:1460-1467 | the band verdict is the same whether the sum of squares is computed exactly or wrapped to 32 bits |
| DmpFifo.FactoryAdjust | mpu9250.c:355-357 | the sensitivity adjustment (asa-128)/256+1 lies in [0.5, 1.5) |
| DmpFifo.Saturated | mpu9250.c:1399 | true exactly when bit 3 (`MAGNETOMETER_SATURATION`) of the status byte is set, the C `&` test |
| DmpFifo.FactoryCal | mpu9250.c:1420-1422 | no contract of its own: x and y swap and z flips, each times its adjustment and `MAG_RAW_TO_uT`; `DmpFifo.MagUpdate` states that undoing the user correction gives it back |
| DmpFifo.FixScale | mpu9250.c:1426-1428 | the scale used is never zero, and a non-zero scale is kept |
| DmpFifo.Calibrate | mpu9250.c:1429-1431 | no contract of its own: `(v - offset)·scale` on each axis; `DmpFifo.CalibrateInverts` states that it is invertible for non-zero scales |
| DmpFifo.MagUpdate | mpu9250.c:1395-1436 | a new reading iff not saturated and not all zero; otherwise nothing changes. Zero scales become non-zero and others are kept, and undoing the correction gives the factory-calibrated reading |
| DmpFifo.CalibrateInverts | mpu9250.c:1429-1431 | with non-zero scales the correction `(v - offset)·scale` is invertible |
| DmpFifo.WithMotion | mpu9250.c:1469-1499 | the accepted packet sets the DMP quaternion to the normalised `(float)` words and the DMP angles to its Tait-Bryan form, raw accel and gyro to the packet's words and the real-unit values to those words times the unit factors; the magnetometer, heading, fused outputs and unit factors are left alone |
| DmpFifo.Unpack | mpu9250.c:1394-1514 | decoding and applying a packet issues no transfers |
| DmpFifo.QuatRejectKeepsMotion | mpu9250.c:1429-1467 | a rejected quaternion returns -1 with the magnetometer update kept and the DMP quaternion, angles, accel, gyro, fusion and first_run unchanged |
| DmpFifo.FusionOnlyOnNewMag | mpu9250.c:1501-1512 | without a new magnetometer sample the fusion state and heading are unchanged; with one, the fusion state is `Fuse` of the decoded data |
| DmpFifo.FifoRead | mpu9250.c:1285-1515 | returns 0 or -1; success clears first_run; failure keeps first_run and the fusion statics |
| DmpFifo.FifoReadDecodes | mpu9250.c:1357-1394 | once the triage passed a count and the burst arrived, the chosen offset leaves a whole packet in the buffer and the call is the decoding of that packet, after the triage and burst transfers |
| DmpFifo.FailedTransfersDecodeNothing | mpu9250.c:1311-1392 | a failed triage or burst read returns -1 with the state unchanged; the burst path issues no reset |
| DmpFifo.OverflowResets | mpu9250.c:1324-1331 | a count above two packets gives -1 after one count read and one reset, with the state unchanged |
| DmpFifo.SuccessDecodesLastPacket | mpu9250.c:1357-1499 | on success the decoded packet is the last one in the burst and its quaternion passed the band; the stored DMP quaternion and angles, raw accel and gyro and their real-unit values are that packet's |
| Angles.WrapTwoPi | mpu9250.c:1617-1619 | one slide by 2π, which lands in [0, 2π] for inputs in [-2π, 4π] |
| Angles.WrapPi | mpu9250.c:1625-1628 | one slide by 2π, which lands in [-π, π) for inputs in [-3π, 3π) |
| Angles.PositiveHeading | mpu9250.c:1606 | a heading in [-π, π] becomes one in [0, 2π) |
| Angles.SignedYaw | mpu9250.c:1648-1649 | a yaw in [0, 2π] becomes one in (-π, π] |
| Angles.PredictYaw | mpu9250.c:1614-1619 | no contract of its own: the gyro step with one slide back into [0, 2π]; `Angles.YawStepsInRange` keeps it in range |
| Angles.MixYaw | mpu9250.c:1624-1644 | no contract of its own: the wrapped error times the gain, added and slid back; `Angles.MixShrinksError` and `Angles.YawStepsInRange` state what it does |
| Angles.YawStepsInRange | mpu9250.c:1614-1644 | from a seed in [0, 2π], with a DMP step under 2π and a gain in (0, 1], the prediction and the mixed yaw stay in [0, 2π] |
| Angles.MixShrinksError | mpu9250.c:1624-1644 | after the mix, the wrapped heading error is (1-k) times the error before it |
| YawFusion.RemapMag | mpu9250.c:1554-1588 | a vector exists iff the orientation is one of the six enum values |
| YawFusion.RemapKeepsLength | mpu9250.c:1554-1588 | every branch of the switch keeps the vector's length |
| YawFusion.RemapAgainstMountingMatrix | mpu9250.c:1554-1588 | each branch is a signed permutation of the axes; Z_UP is the identity |
| YawFusion.CompassHeading | mpu9250.c:1537-1601 | no heading exactly for an orientation outside the six mounting codes |
| YawFusion.MixGain | mpu9250.c:1636-1637 | the gain times `YAW_MIX_FACTOR`·rate is 100; it is positive when that product is, and in (0, 1] exactly when the product is at least 100 |
| YawFusion.Fuse | mpu9250.c:1528-1657 | returns 0 or -1; lastDMPYaw always advances; only the fused outputs and the heading change; on success the fused pitch and roll are the DMP's |
| YawFusion.FuseErrorExits | mpu9250.c:1585-1639 | -1 exactly for an unknown orientation, a NaN heading or a zero mix factor; the first two change only lastDMPYaw, while a zero mix factor has already stored the heading and, on the first run, seeded lastYaw from it |
| YawFusion.FirstRunSeedsFromCompass | mpu9250.c:1609-1612 | on the first run the stored lastYaw plays no part in the result |
| YawFusion.FuseKeepsYawInRange | mpu9250.c:1614-1650 | with lastYaw in [0, 2π] (or first run), a heading in range and a gain in (0, 1], lastYaw stays in [0, 2π] and the output yaw is in (-π, π] |
| YawFusion.FuseSuccess | mpu9250.c:1614-1650 | on success lastYaw is the mix of the gyro prediction towards the positive compass heading, and the fused yaw is its signed form |
| Calibration.GyroBiasBytes | mpu9250.c:1729-1734 | two bytes; `Calibration.GyroBiasBytesEncode` states what they encode |
| Calibration.GyroBiasBytesEncode | mpu9250.c:1729-1734 | each register pair is the big-endian 16-bit two's complement of the C-truncated `-x/4`, equal to it when x is an int16 |
| Calibration.GyroSum | mpu9250.c:1830-1842 | the sum of n samples exists iff the first n reads succeeded, and lies within n times the int16 range |
| Calibration.GyroSamples | mpu9250.c:1820-1822 | `fifo_count / 6` of the signed count lies in [-5461, 5461] |
| Calibration.GyroCalibration | mpu9250.c:1821-1854 | no contract of its own: failed read, division by zero, or the offsets; `Calibration.GyroOffsetsAreMeans` states what the offsets are |
| Calibration.GyroOffsetsAreMeans | mpu9250.c:1821-1854 | the offsets are the truncated means of the samples, fit in 16 bits and differ from the exact mean by less than one; a negative count gives zero offsets |
| Calibration.MeanFits | mpu9250.c:1852-1854 | a mean of int16 values is an int16 and the truncated mean |
| Calibration.CalibrateGyro | mpu9250.c:1821-1854 | the loop with 32-bit accumulators returns what `GyroCalibration` specifies: failed read, division by zero, or the offsets |
| Calibration.GyroSumFailsOn | mpu9250.c:1832-1835 | once a read fails every longer sum fails |
| Calibration.Collected | mpu9250.c:2133-2155 | no contract of its own: the samples the loop keeps; `Calibration.CollectedSpec` states which |
| Calibration.CollectedSpec | mpu9250.c:2133-2155 | no more samples than the room left, each non-zero and equal to the reading at its position; when the room and the input are not used up, the next reading failed or was all zero |
| Calibration.CollectMagSamples | mpu9250.c:2129-2155 | the sampling loop keeps exactly `Collected(input, 200)` |
| Calibration.MagScale | mpu9250.c:2198-2200 | for an accepted length, scale·length = 70 and the scale is in [0.5, 14] |
| Calibration.MagCalibration | mpu9250.c:2163-2206 | a record is produced iff 200 samples were kept and the fit succeeds with every \|centre\| <= 70 and every length in [5, 140]. It holds the centre and 70/length, and the result is 0 iff the record was written |
| Imu.ImuSession.constructor | mpu9250.c:33-40 | the globals and statics right after initialisation: zero magnetometer offsets and scales, every first_run flag set, bypass and the interrupt thread off, an empty transfer trace |
| Imu.ImuSession.ReadDmpFifo | mpu9250.c:1285-1515 | the result, new state and transfers issued are those of `FifoRead` on the old state |
| Imu.ImuSession.TriageCount | mpu9250.c:1309-1355 | the count and the transfers are those of `CountTriage` |
| Imu.ImuSession.BurstTransfer | mpu9250.c:1381-1392 | the bytes and the transfers are those of `BurstRead` |
| Imu.ImuSession.Decode | mpu9250.c:1394-1514 | the result and new state are those of `Unpack` |
| Imu.ImuSession.MagBlockStep | mpu9250.c:1395-1436 | the magnetometer field and scales become those of `MagUpdate` |
| Imu.ImuSession.MotionStep | mpu9250.c:1438-1499 | accepted iff the quaternion is in band; then the record is `WithMotion` of the body, otherwise unchanged |
| Imu.ImuSession.DataFusion | mpu9250.c:1528-1657 | the result, statics and record become those of `Fuse` on the old ones |
| Imu.ImuSession.PredictError | mpu9250.c:1614-1628 | the predicted yaw and the heading error wrapped into [-π, π) |
| Imu.ImuSession.FilterYaw | mpu9250.c:1630-1655 | a zero mix factor returns -1 with nothing changed; otherwise lastYaw becomes the mix and the fused angles take its signed form |
| Imu.ImuSession.InterruptCycle | mpu9250.c:1236-1245 | the read's state and transfers are those of `FifoRead`, the success flag records its result, and the callback runs unless this is the first cycle or no function is installed |
| Imu.ImuSession.SetInterruptFunc | mpu9250.c:1260-1264 | the callback becomes active |
| Imu.ImuSession.StopInterruptFunc | mpu9250.c:1271-1274 | the callback becomes inactive |
| Imu.ImuSession.SetBypass | mpu9250.c:820-845 | returns 0 iff both writes are acknowledged, and only then records the new bypass state |
| Imu.ImuSession.LoadMagCalibration | mpu9250.c:2028-2061 | without a file, -1 and nothing changes; with one, offsets and scales become the stored ones |
| Imu.ImuSession.CalibrateMag | mpu9250.c:2072-2206 | after set-up the in-memory calibration is reset to offsets 0 and scales 1, and the file gets the `MagCalibration` record only on success |
| Bmp280.DecodeCoefficients | bmp280.c:162-173 | each word is `buf[2k] | buf[2k+1] << 8`; dig_T1 and dig_P1 are that unsigned word, the others its int16 reinterpretation |
| Bmp280.EncodeCoefficients | bmp280.c:162-173 | the 24 register bytes of a set of coefficients |
| Bmp280.CoefficientsRoundTrip | bmp280.c:162-173 | decoding the encoded registers gives the coefficients back |
| Bmp280.RegistersRoundTrip | bmp280.c:162-173 | encoding decoded registers gives the same 24 bytes |
| Bmp280.Adc20 | bmp280.c:262-265 | the ADC word lies in [0, 2^20) |
| Bmp280.AdcDigits | bmp280.c:262-265 | the word keeps the MSB, LSB and the high nibble of XLSB, and nothing of the low nibble |
| Bmp280.TFine | bmp280.c:267-273 | no contract: t_fine with floor shifts on unbounded integers; only `Bmp280.DatasheetExample` fixes a value of it |
| Bmp280.Temperature | bmp280.c:275 | `(t_fine·5 + 128) >> 8` is t_fine/51.2 rounded to the nearest unit |
| Bmp280.TemperatureRounds | bmp280.c:275 | the temperature is monotone in t_fine and equal temperatures come from t_fine values within one rounding step |
| Bmp280.PressureDivisor | bmp280.c:278-284 | no contract: var3 of line 284; `Bmp280.CompensatePressure` gives up exactly when it is 0, `Bmp280.ZeroP1GivesUp` shows it is 0 when dig_P1 is, and only `Bmp280.DatasheetExample` fixes another value |
| Bmp280.PressureOffset | bmp280.c:278-281 | no contract: var4 of line 281; only `Bmp280.DatasheetExample` fixes a value of it |
| Bmp280.CompensatePressure | bmp280.c:278-296 | no pressure exactly when the divisor var3 is 0 |
| Bmp280.ZeroP1GivesUp | bmp280.c:284-288 | a zero dig_P1 makes every reading give up |
| Bmp280.DatasheetExample | bmp280.c:267-296 | the datasheet's worked example: t_fine 128422, 25.08 °C, pressure 25767233/256 Pa |
| Bmp280.CtrlMeas | bmp280.c:100-122 | a byte exists iff the setting is one of the five enum values; mode bits normal, oversampling field setting+1, standby bits 0 |
| Bmp280.NvmTestIgnoresStatus | bmp280.c:149-154 | with a non-zero flag constant the `|` test is true for every status byte |
| Bmp280.Barometer.constructor | bmp280.c:41-43 | the zero-initialised globals and an unclaimed bus |
| Bmp280.Barometer.Initialize | bmp280.c:51-181 | 0 iff every step succeeds (init, reset, chip id, oversampling, both writes, status test, coefficient read); then `cal` is the decoded coefficients and the default sea level; the bus is released on every exit; the register writes issued are the reset, control and config writes up to the failing step: none when the bus does not open, the reset alone after a failed reset, a wrong chip id or an unknown oversampling, reset and control byte after a failed control write, all three otherwise |
| Bmp280.Barometer.Read | bmp280.c:220-302 | -1 on a claimed bus (before claiming), a bad address or status read. 1 when measuring or the data read fails, with nothing updated and the bus released. 0 otherwise, with the temperature set, pressure and altitude set unless the divisor is 0, and the bus still claimed |
| Bmp280.Barometer.SetSeaLevelPressure | bmp280.c:321-329 | -1 and unchanged outside [80000, 120000], otherwise the value is stored |

## Left out

- File I/O for the calibration files, both writing and reading (`fopen`, `fscanf`, `fprintf`, `mkdir`). The magnetometer file is an exact record of offsets and scales, although the `%f` text format rounds. `load_gyro_offets` is modelled only through the bias bytes it computes (`Calibration.GyroBiasBytes`).
- The I2C transport, GPIO, `poll`, the interrupt thread and its creation and shutdown, `usleep`, and the clock. Transfer outcomes are parameters, and only the per-cycle step of the thread is modelled.
- The advisory `i2c_claim_bus` flags of the MPU-9250 paths. The BMP280's flag is modelled, because `read_barometer`'s first test depends on it.
- `normalizeQuaternion`, `quaternionToTaitBryan`, `TaitBryanToQuaternion`, `tilt_compensate` and `atan2f` are not part of this model. They are uninterpreted functions, so float rounding is not modelled.
- `fitEllipsoid` and the matrix library are not part of this model. The fit is a parameter that may return any centre and lengths, or fail.
- The barometer altitude formula uses `pow` and is a parameter of `Bmp280.Barometer`.
- The DMP firmware image and the vendor register tables (`dmp_enable_feature` payloads, `dmp_enable_gyro_cal`, `dmp_set_interrupt_mode`, the lp_quat tables) are not modelled. The firmware image is a parameter of the loader.
- `initialize_imu`, `initialize_imu_dmp` beyond its rate checks, the one-shot sensor readers, `power_off_imu`, `power_down_magnetometer` and `power_down_barometer`: sequences of bus writes with nothing beyond their return codes to state.
- The `bmp_get_*` accessors: they return the `Bmp280.Barometer` fields.
- MAG_RAW_TO_uT is a constant of a header that is not shown, so it is a parameter. The magnetometer factory adjustments are parameters set at initialisation.
- Imu.ImuSession.ReadDmpFifo, Imu.ImuSession.DataFusion and Imu.ImuSession.InterruptCycle: require a positive DMP rate, which `initialize_imu_dmp` guarantees before any read. With a rate of 0 the C code divides a float by zero.
- Bmp280.TFine, Bmp280.CompensatePressure: the 32-bit and 64-bit intermediates are unbounded integers, so overflow of `int32_t`/`int64_t` for extreme coefficients is not modelled.
- DmpFifo.QuatMagSqBound: the 32-bit `long` sum of squares can reach 2^32 and wrap. The model uses exact integers and proves that wrapping never changes the band verdict.
- A lemma that `Fuse` as a whole shrinks the heading error is not stated. `Angles.MixShrinksError` states it for the mix step and `YawFusion.FuseSuccess` ties that step to `Fuse`.
- The gyro calibration file format (three newline-terminated integers) is not modelled.
- Orientation.OrientationRegs, Orientation.SetOrientation and Orientation.SetOrientationSucceedsIffAcked: require a decodable orientation code, with every axis field below 3. `initialize_imu_dmp` passes `conf.orientation` unchecked (mpu9250.c:552). An axis field of 3 indexes past the 3-entry tables of `dmp_set_orientation`, which is undefined behaviour in C and is not modelled.
- Bmp280.TFine, Bmp280.PressureDivisor, Bmp280.PressureOffset: no independent reference formula, such as the datasheet's floating-point compensation with an error bound, is stated. Apart from the zero-divisor exit, only the datasheet's worked example (`Bmp280.DatasheetExample`) pins their values.
