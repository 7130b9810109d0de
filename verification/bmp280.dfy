/** The BMP280 barometer driver: decoding of the factory trimming
    coefficients and of the 20-bit ADC words, the 64-bit fixed-point
    temperature and pressure compensation of the Bosch BMP280 datasheet
    (section 3.11.3), the control byte chosen for an oversampling setting,
    and the driver's globals (`cal` and `data`) as a class. Right shifts of
    signed values are arithmetic, so they are floor divisions by a power
    of two; the one C division in the pressure formula truncates. */
module Bmp280 {
  import opened Bytes
  import opened ImuTypes
  import opened Bus

  // Registers and bit fields, as the datasheet lays them out.
  const BMP280_CHIP_ID: byte := 0x58
  const BMP280_RESET_REG: byte := 0xE0
  const BMP280_RESET_WORD: byte := 0xB6
  const BMP280_CTRL_MEAS: byte := 0xF4
  const BMP280_CONFIG: byte := 0xF5
  /** Standby 0.5 ms in CONFIG, and "filter off". */
  const BMP280_TSB_0: byte := 0x00
  const BMP280_FILTER_OFF: byte := 0x00
  /** The mode field (bits 1..0) of CTRL_MEAS. */
  const BMP_MODE_NORMAL: byte := 0x03
  /** The `measuring` bit of the status register. */
  const BMP280_MEAS_STATUS: byte := 0x08
  /** DEFAULT_SEA_LEVEL_PA. */
  const DEFAULT_SEA_LEVEL_PA: real := 101325.0

  /** The enum values BMP_OVERSAMPLE_1 .. BMP_OVERSAMPLE_16. */
  const BMP_OVERSAMPLE_1: int := 0
  const BMP_OVERSAMPLE_16: int := 4

  // ---------------------------------------------------------------------
  // Factory coefficients (bmp280.c:162-173)

  /** bmp280_cal_t without the sea-level pressure: dig_T1 and dig_P1 are
      unsigned, the other ten are signed 16-bit. */
  datatype Coefficients = Coefficients(
    t1: int, t2: int, t3: int,
    p1: int, p2: int, p3: int, p4: int, p5: int, p6: int, p7: int, p8: int, p9: int)

  predicate ValidCoefficients(c: Coefficients)
  {
    0 <= c.t1 < TWO_16 && IsInt16(c.t2) && IsInt16(c.t3) &&
    0 <= c.p1 < TWO_16 && IsInt16(c.p2) && IsInt16(c.p3) && IsInt16(c.p4) && IsInt16(c.p5) &&
    IsInt16(c.p6) && IsInt16(c.p7) && IsInt16(c.p8) && IsInt16(c.p9)
  }

  /** `(buf[2k+1] << 8) | buf[2k]`: the k-th little-endian word. */
  function Word(buf: seq<byte>, k: int): (w: uint16)
    requires 0 <= k && 2 * k + 1 < |buf|
  {
    Uint16BE(buf[2 * k + 1], buf[2 * k])
  }

  function DecodeCoefficients(buf: seq<byte>): (c: Coefficients)
    requires |buf| == 24
    ensures ValidCoefficients(c)
    ensures c.t1 == buf[0] as int + 256 * buf[1] as int && c.p1 == buf[6] as int + 256 * buf[7] as int
    ensures c.t2 % TWO_16 == Word(buf, 1) && c.p9 % TWO_16 == Word(buf, 11)
  {
    Coefficients(
      Word(buf, 0), ToInt16(Word(buf, 1)), ToInt16(Word(buf, 2)),
      Word(buf, 3), ToInt16(Word(buf, 4)), ToInt16(Word(buf, 5)), ToInt16(Word(buf, 6)),
      ToInt16(Word(buf, 7)), ToInt16(Word(buf, 8)), ToInt16(Word(buf, 9)), ToInt16(Word(buf, 10)),
      ToInt16(Word(buf, 11)))
  }

  /** The 16-bit register patterns of a set of coefficients, in register
      order. */
  function Patterns(c: Coefficients): (ws: seq<uint16>)
    requires ValidCoefficients(c)
    ensures |ws| == 12
  {
    [c.t1, c.t2 % TWO_16, c.t3 % TWO_16,
     c.p1, c.p2 % TWO_16, c.p3 % TWO_16, c.p4 % TWO_16, c.p5 % TWO_16,
     c.p6 % TWO_16, c.p7 % TWO_16, c.p8 % TWO_16, c.p9 % TWO_16]
  }

  /** Words laid out low byte first. */
  function LEWords(ws: seq<uint16>): (s: seq<byte>)
    ensures |s| == 2 * |ws|
  {
    if |ws| == 0 then [] else [ws[0] % 256, ws[0] / 256] + LEWords(ws[1..])
  }

  /** The 24 bytes of the trimming registers for a set of coefficients. */
  function EncodeCoefficients(c: Coefficients): (buf: seq<byte>)
    requires ValidCoefficients(c)
    ensures |buf| == 24
  {
    LEWords(Patterns(c))
  }

  /** Reading word k of a laid-out sequence gives the k-th word back. */
  lemma {:induction false} WordOfLEWords(ws: seq<uint16>, k: int)
    requires 0 <= k < |ws|
    ensures Word(LEWords(ws), k) == ws[k]
  {
    var s := LEWords(ws);
    if k == 0 {
      DivModUnique(ws[0], 256, ws[0] / 256, ws[0] % 256);
    } else {
      WordOfLEWords(ws[1..], k - 1);
      var t := LEWords(ws[1..]);
      assert s[2 * k] == t[2 * (k - 1)] && s[2 * k + 1] == t[2 * (k - 1) + 1];
    }
  }

  /** The words of a byte sequence of even length. */
  function WordsOf(buf: seq<byte>): (ws: seq<uint16>)
    requires |buf| % 2 == 0
    ensures |ws| == |buf| / 2
    ensures forall k :: 0 <= k < |ws| ==> ws[k] == Word(buf, k)
  {
    if |buf| == 0 then [] else [Word(buf, 0)] + WordsOf(buf[2..])
  }

  /** Laying out the words of a byte sequence gives the bytes back. */
  lemma {:induction false} LEWordsOfWords(buf: seq<byte>)
    requires |buf| % 2 == 0
    ensures LEWords(WordsOf(buf)) == buf
  {
    if |buf| > 0 {
      LEWordsOfWords(buf[2..]);
      var w := Word(buf, 0);
      DivModUnique(w, 256, buf[1], buf[0]);
      assert WordsOf(buf)[1..] == WordsOf(buf[2..]);
      assert buf == [buf[0], buf[1]] + buf[2..];
    }
  }

  /** Decoding the encoded registers gives the coefficients back. */
  lemma {:induction false} CoefficientsRoundTrip(c: Coefficients)
    requires ValidCoefficients(c)
    ensures DecodeCoefficients(EncodeCoefficients(c)) == c
  {
    var ws := Patterns(c);
    forall k | 0 <= k < 12
      ensures Word(EncodeCoefficients(c), k) == ws[k]
    {
      WordOfLEWords(ws, k);
    }
    assert Wrap16(c.t2) == c.t2 && Wrap16(c.t3) == c.t3;
    assert Wrap16(c.p2) == c.p2 && Wrap16(c.p3) == c.p3 && Wrap16(c.p4) == c.p4 && Wrap16(c.p5) == c.p5;
    assert Wrap16(c.p6) == c.p6 && Wrap16(c.p7) == c.p7 && Wrap16(c.p8) == c.p8 && Wrap16(c.p9) == c.p9;
  }

  /** Encoding decoded registers gives the same 24 bytes. */
  lemma {:induction false} RegistersRoundTrip(buf: seq<byte>)
    requires |buf| == 24
    ensures EncodeCoefficients(DecodeCoefficients(buf)) == buf
  {
    var c := DecodeCoefficients(buf);
    assert Patterns(c) == WordsOf(buf);
    LEWordsOfWords(buf);
  }

  // ---------------------------------------------------------------------
  // ADC words (bmp280.c:262-265)

  /** `raw[0] << 12 | raw[1] << 4 | raw[2] >> 4`: the three shifted parts
      occupy disjoint bits, so the OR is their sum. */
  function Adc20(msb: byte, lsb: byte, xlsb: byte): (adc: int)
    ensures 0 <= adc < 0x10_0000
  {
    msb * 4096 + lsb * 16 + xlsb / 16
  }

  /** The ADC word keeps the two high bytes and the high nibble of the
      third, and nothing else. */
  lemma AdcDigits(msb: byte, lsb: byte, xlsb: byte)
    ensures var adc := Adc20(msb, lsb, xlsb);
      adc / 4096 == msb && (adc / 16) % 256 == lsb && adc % 16 == xlsb / 16
    ensures Adc20(msb, lsb, xlsb) == Adc20(msb, lsb, (xlsb / 16) * 16)
  {
    var adc := Adc20(msb, lsb, xlsb);
    DivModUnique(adc, 4096, msb, lsb * 16 + xlsb / 16);
    DivModUnique(adc, 16, msb * 256 + lsb, xlsb / 16);
    DivModUnique(msb * 256 + lsb, 256, msb, lsb);
    DivModUnique((xlsb / 16) * 16, 16, xlsb / 16, 0);
  }

  // ---------------------------------------------------------------------
  // Temperature (bmp280.c:267-276)

  /** t_fine: the fine temperature shared with the pressure formula. */
  function TFine(c: Coefficients, adcT: int): int
  {
    var var1 := ((adcT / 8 - c.t1 * 2) * c.t2) / 2048;
    var d := adcT / 16 - c.t1;
    var var2 := (((d * d) / 4096) * c.t3) / 16384;
    var1 + var2
  }

  /** `(t_fine * 5 + 128) >> 8`: hundredths of a degree Celsius. */
  function Temperature(tFine: int): (t: int)
    ensures -128 <= 5 * tFine - 256 * t < 128
  {
    (tFine * 5 + 128) / 256
  }

  /** The temperature is t_fine / 5120 degrees rounded to the nearest
      hundredth, so it is monotone in t_fine and determined by it up to
      that rounding. */
  lemma TemperatureRounds(a: int, b: int)
    ensures a <= b ==> Temperature(a) <= Temperature(b)
    ensures Temperature(a) == Temperature(b) ==> -256 < 5 * (a - b) < 256
  {
  }

  // ---------------------------------------------------------------------
  // Pressure (bmp280.c:278-296)

  /** The divisor var3 of line 291. */
  function PressureDivisor(c: Coefficients, tFine: int): int
  {
    var v := tFine - 128000;
    var var3 := (v * v * c.p3) / 256 + v * c.p2 * 4096;
    ((0x8000_0000_0000 + var3) * c.p1) / 0x2_0000_0000
  }

  /** The offset var4 of line 291. */
  function PressureOffset(c: Coefficients, tFine: int): int
  {
    var v := tFine - 128000;
    v * v * c.p6 + v * c.p5 * 0x2_0000 + c.p4 * 0x8_0000_0000
  }

  /** The pressure in Pa as a Q24.8 fixed-point value, or None when the
      divisor is zero and the driver gives up. */
  function CompensatePressure(c: Coefficients, tFine: int, adcP: int): (p: Option<int>)
    ensures p.None? <==> PressureDivisor(c, tFine) == 0
  {
    var var3 := PressureDivisor(c, tFine);
    if var3 == 0 then None
    else
      var p0 := CDiv(((0x10_0000 - adcP) * 0x8000_0000 - PressureOffset(c, tFine)) * 3125, var3);
      var r := p0 / 0x2000;
      var var3b := (c.p9 * r * r) / 0x200_0000;
      var var4b := (c.p8 * p0) / 0x8_0000;
      Some((p0 + var3b + var4b) / 256 + c.p7 * 16)
  }

  /** A zero dig_P1 makes every pressure reading give up. */
  lemma ZeroP1GivesUp(c: Coefficients, tFine: int, adcP: int)
    requires c.p1 == 0
    ensures CompensatePressure(c, tFine, adcP).None?
  {
  }

  /** The worked example of the datasheet: with its coefficients and raw
      readings the fine temperature is 128422, the temperature 25.08 C and
      the pressure 25767233 / 256, about 100653 Pa. */
  lemma DatasheetExample()
    ensures var tf := TFine(ExampleCoefficients, 519888);
      tf == 128422 && Temperature(tf) == 2508 &&
      CompensatePressure(ExampleCoefficients, tf, 415148) == Some(25767233)
  {
    ExampleTemperature();
    ExampleDivisor();
    ExamplePressure();
  }

  lemma ExampleTemperature()
    ensures TFine(ExampleCoefficients, 519888) == 128422
  {
    assert (519888 / 8 - 27504 * 2) * 26435 / 2048 == 128793;
    assert 519888 / 16 - 27504 == 4989;
    assert 4989 * 4989 / 4096 * -1000 / 16384 == -371;
  }

  lemma ExampleDivisor()
    ensures PressureDivisor(ExampleCoefficients, 128422) == 597560748
    ensures PressureOffset(ExampleCoefficients, 128422) == 98104795527812
  {
    var v := 128422 - 128000;
    assert (v * v * 3024) / 256 + v * -10685 * 4096 == -18467047103;
    assert (0x8000_0000_0000 - 18467047103) * 36477 / 0x2_0000_0000 == 597560748;
  }

  lemma ExamplePressure()
    requires PressureDivisor(ExampleCoefficients, 128422) == 597560748
    requires PressureOffset(ExampleCoefficients, 128422) == 98104795527812
    ensures CompensatePressure(ExampleCoefficients, 128422, 415148) == Some(25767233)
  {
    var num := ((0x10_0000 - 415148) * 0x8000_0000 - 98104795527812) * 3125;
    assert num == 3944285864554787500;
    DivModUnique(num, 597560748, 6600644165, 35552080);
    assert CDiv(num, 597560748) == 6600644165;
    assert 6600644165 / 0x2000 == 805742;
    assert (6000 * 805742 * 805742) / 0x200_0000 == 116089612;
    assert (-14600 * 6600644165) / 0x8_0000 == -183810053;
  }

  const ExampleCoefficients: Coefficients :=
    Coefficients(27504, 26435, -1000, 36477, -10685, 3024, 2855, 140, -7, 15500, -14600, 6000)

  // ---------------------------------------------------------------------
  // Control bytes and status bits (bmp280.c:100-154, 244)

  /** CTRL_MEAS for an oversampling setting: TSB_0 | MODE_NORMAL | the
      pressure oversampling field, or None for a value outside the enum. */
  function CtrlMeas(oversampling: int): (c: Option<byte>)
    ensures c.Some? <==> BMP_OVERSAMPLE_1 <= oversampling <= BMP_OVERSAMPLE_16
    ensures c.Some? ==> c.value % 4 == BMP_MODE_NORMAL
    ensures c.Some? ==> (c.value / 4) % 8 == oversampling + 1
    ensures c.Some? ==> c.value / 32 == 0
  {
    if BMP_OVERSAMPLE_1 <= oversampling <= BMP_OVERSAMPLE_16
    then Some(BMP280_TSB_0 + BMP_MODE_NORMAL + (oversampling + 1) * 4)
    else None
  }

  /** `c & BMP280_MEAS_STATUS`: a conversion is running. */
  predicate Measuring(status: byte)
  {
    (status as bv8 & BMP280_MEAS_STATUS as bv8) != 0
  }

  /** The NVM test of line 149 as written: `c | BMP280_IM_UPDATE_STATUS`. */
  predicate NvmBusyAsWritten(status: byte, mask: byte)
  {
    (status as bv8 | mask as bv8) != 0
  }

  /** With any non-zero flag constant the test is true for every status
      byte, and with a zero one it only asks whether the status is zero. */
  lemma NvmTestIgnoresStatus(status: byte, mask: byte)
    ensures mask != 0 ==> NvmBusyAsWritten(status, mask)
    ensures mask == 0 ==> (NvmBusyAsWritten(status, mask) <==> status != 0)
  {
  }

  /** The range check of set_sea_level_pressure_pa. */
  predicate SeaLevelAccepted(pa: real)
  {
    !(pa < 80000.0 || pa > 120000.0)
  }

  // ---------------------------------------------------------------------
  // The driver's globals

  /** The bus results initialize_barometer sees, in order: i2c_init's
      return value, the reset write, the chip-id read, the two register
      writes, the status read and the 24-byte coefficient read. */
  datatype InitBus = InitBus(
    initRet: int, resetAck: bool, chipId: Option<byte>, ctrlAck: bool, configAck: bool,
    status: Option<byte>, calBytes: Option<seq<byte>>)

  /** The three register writes of initialize_barometer, in order: the
      soft reset, the control byte, and the config byte. */
  function InitWrites(ctrl: byte): seq<BusWrite>
  {
    [Reg(BMP280_RESET_REG, BMP280_RESET_WORD), Reg(BMP280_CTRL_MEAS, ctrl),
     Reg(BMP280_CONFIG, BMP280_TSB_0 + BMP280_FILTER_OFF)]
  }

  /** How many of those writes initialize_barometer reaches: none when
      the bus does not open; only the reset when it is not acknowledged,
      the chip id is wrong or the oversampling is unknown; the reset and
      the control byte when that write fails; otherwise all three. */
  function InitWritesIssued(oversampling: int, bus: InitBus): (n: nat)
    ensures n <= 3
    ensures n == 3 <==> bus.initRet >= 1 && bus.resetAck && bus.chipId == Some(BMP280_CHIP_ID) &&
                        CtrlMeas(oversampling).Some? && bus.ctrlAck
    ensures n == 0 <==> bus.initRet < 1
  {
    if bus.initRet < 1 then 0
    else if !bus.resetAck || bus.chipId != Some(BMP280_CHIP_ID) || CtrlMeas(oversampling).None? then 1
    else if !bus.ctrlAck then 2
    else 3
  }

  /** The global `cal` and `data` of bmp280.c, the bus's advisory claim
      flag, and the register writes issued. `imUpdateMask` is
      BMP280_IM_UPDATE_STATUS; `altitude` is the pow-based formula of
      line 299. */
  class Barometer {
    const imUpdateMask: byte
    const altitude: (real, real) -> real
    var cal: Coefficients
    var seaLevelPa: real
    var temp: real
    var pressure: real
    var alt: real
    var busClaimed: bool
    var regWrites: seq<BusWrite>

    constructor(imUpdateMask: byte, altitude: (real, real) -> real)
      ensures this.imUpdateMask == imUpdateMask && this.altitude == altitude
      ensures cal == Coefficients(0, 0, 0, 0, 0, 0, 0, 0, 0, 0, 0, 0) && seaLevelPa == 0.0
      ensures temp == 0.0 && pressure == 0.0 && alt == 0.0 && !busClaimed && regWrites == []
    {
      this.imUpdateMask := imUpdateMask;
      this.altitude := altitude;
      cal := Coefficients(0, 0, 0, 0, 0, 0, 0, 0, 0, 0, 0, 0);
      seaLevelPa := 0.0;
      temp := 0.0;
      pressure := 0.0;
      alt := 0.0;
      busClaimed := false;
      regWrites := [];
    }

    /** initialize_barometer. A claimed bus only draws a warning; every
        exit releases the bus; the coefficients and the default sea-level
        pressure are stored only when every step succeeded. */
    method Initialize(oversampling: int, bus: InitBus) returns (ret: int)
      requires bus.calBytes.Some? ==> |bus.calBytes.value| == 24
      modifies this`cal, this`seaLevelPa, this`busClaimed, this`regWrites
      ensures ret == 0 || ret == -1
      ensures !busClaimed
      ensures ret == 0 <==>
        bus.initRet >= 1 && bus.resetAck && bus.chipId == Some(BMP280_CHIP_ID) &&
        CtrlMeas(oversampling).Some? && bus.ctrlAck && bus.configAck &&
        bus.status.Some? && !NvmBusyAsWritten(bus.status.value, imUpdateMask) && bus.calBytes.Some?
      ensures ret == 0 ==> cal == DecodeCoefficients(bus.calBytes.value) && seaLevelPa == DEFAULT_SEA_LEVEL_PA
      ensures ret == -1 ==> cal == old(cal) && seaLevelPa == old(seaLevelPa)
      ensures ret == 0 ==> regWrites == old(regWrites) + InitWrites(CtrlMeas(oversampling).value)
      ensures ret == -1 ==>
        var ctrl := if CtrlMeas(oversampling).Some? then CtrlMeas(oversampling).value else 0;
        regWrites == old(regWrites) + InitWrites(ctrl)[..InitWritesIssued(oversampling, bus)]
    {
      busClaimed := true;
      if bus.initRet < 1 {
        busClaimed := false;
        return -1;
      }
      regWrites := regWrites + [Reg(BMP280_RESET_REG, BMP280_RESET_WORD)];
      if !bus.resetAck {
        busClaimed := false;
        return -1;
      }
      if bus.chipId.None? || bus.chipId.value != BMP280_CHIP_ID {
        busClaimed := false;
        return -1;
      }
      var c := CtrlMeas(oversampling);
      if c.None? {
        busClaimed := false;
        return -1;
      }
      regWrites := regWrites + [Reg(BMP280_CTRL_MEAS, c.value)];
      if !bus.ctrlAck {
        busClaimed := false;
        return -1;
      }
      regWrites := regWrites + [Reg(BMP280_CONFIG, BMP280_TSB_0 + BMP280_FILTER_OFF)];
      if !bus.configAck {
        busClaimed := false;
        return -1;
      }
      if bus.status.None? || NvmBusyAsWritten(bus.status.value, imUpdateMask) {
        busClaimed := false;
        return -1;
      }
      if bus.calBytes.None? {
        busClaimed := false;
        return -1;
      }
      cal := DecodeCoefficients(bus.calBytes.value);
      seaLevelPa := DEFAULT_SEA_LEVEL_PA;
      busClaimed := false;
      return 0;
    }

    /** read_barometer. `addrOk` is the address set-up, `status` the
        status read and `raw` the six data bytes. */
    method Read(addrOk: bool, status: Option<byte>, raw: Option<seq<byte>>) returns (ret: int)
      requires raw.Some? ==> |raw.value| == 6
      modifies this`temp, this`pressure, this`alt, this`busClaimed
      ensures ret in {-1, 0, 1}
      ensures old(busClaimed) ==> ret == -1 && busClaimed
      ensures ret != 0 ==> temp == old(temp) && pressure == old(pressure) && alt == old(alt)
      ensures !old(busClaimed) ==>
        (ret == -1 <==> !addrOk || status.None?) &&
        (ret == 1 <==> addrOk && status.Some? && (Measuring(status.value) || raw.None?))
      ensures !old(busClaimed) && ret != 0 ==> !busClaimed
      ensures ret == 0 ==>
        var r := raw.value;
        var tf := TFine(cal, Adc20(r[3], r[4], r[5]));
        busClaimed && temp == Temperature(tf) as real / 100.0 &&
        match CompensatePressure(cal, tf, Adc20(r[0], r[1], r[2]))
        case None => pressure == old(pressure) && alt == old(alt)
        case Some(p) => pressure == p as real / 256.0 && alt == altitude(pressure, seaLevelPa)
    {
      if busClaimed {
        return -1;
      }
      busClaimed := true;
      if !addrOk {
        busClaimed := false;
        return -1;
      }
      if status.None? {
        busClaimed := false;
        return -1;
      }
      if Measuring(status.value) {
        busClaimed := false;
        return 1;
      }
      if raw.None? {
        busClaimed := false;
        return 1;
      }
      var r := raw.value;
      var adcP := Adc20(r[0], r[1], r[2]);
      var adcT := Adc20(r[3], r[4], r[5]);
      var tFine := TFine(cal, adcT);
      temp := Temperature(tFine) as real / 100.0;
      var p := CompensatePressure(cal, tFine, adcP);
      if p.None? {
        return 0;
      }
      pressure := p.value as real / 256.0;
      alt := altitude(pressure, seaLevelPa);
      return 0;
    }

    /** set_sea_level_pressure_pa. */
    method SetSeaLevelPressure(pa: real) returns (ret: int)
      modifies this`seaLevelPa
      ensures ret == 0 <==> SeaLevelAccepted(pa)
      ensures ret == -1 <==> !SeaLevelAccepted(pa)
      ensures seaLevelPa == if ret == 0 then pa else old(seaLevelPa)
    {
      if pa < 80000.0 || pa > 120000.0 {
        return -1;
      }
      seaLevelPa := pa;
      return 0;
    }
  }
}
