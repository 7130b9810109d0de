/** Calibration arithmetic of the MPU-9250 driver: the gyro bias register
    bytes of load_gyro_offets, the truncated-mean gyro calibration of
    calibrate_gyro_routine, and the sample collection, fit acceptance and
    scale derivation of calibrate_mag_routine. Bus reads are inputs; the
    ellipsoid fit is a function supplied by the caller. */
module Calibration {
  import opened Bytes
  import opened ImuTypes

  // ---------------------------------------------------------------------
  // Gyro bias registers (mpu9250.c:1724-1734)

  /** The bytes pushed to XG_OFFSET_H.. for one axis: the negated offset
      divided by 4 (C division), high byte first, each masked to 8 bits.
      `x` comes from the calibration file as an int; its negation must not
      overflow. */
  function GyroBiasBytes(x: int): (b: seq<byte>)
    requires IsInt32(x) && IsInt32(-x)
    ensures |b| == 2
  {
    var v := CDiv(-x, 4);
    [(v / 256) % 256, v % 256]
  }

  /** The register pair holds the 16-bit two's complement of -x/4; for
      every offset the gyro calibration can produce, exactly -x/4. */
  lemma GyroBiasBytesEncode(x: int)
    requires IsInt32(x) && IsInt32(-x)
    ensures var b := GyroBiasBytes(x); Int16BE(b[0], b[1]) == Wrap16(CDiv(-x, 4))
    ensures IsInt16(x) ==> var b := GyroBiasBytes(x); Int16BE(b[0], b[1]) == CDiv(-x, 4)
  {
    var v := CDiv(-x, 4);
    var u := v % TWO_16;
    var hi, lo := (v / 256) % 256, v % 256;
    DivModUnique(v, 256, v / 256, lo);
    DivModUnique(v / 256, 256, (v / 256) / 256, hi);
    DivModUnique(v, TWO_16, (v / 256) / 256, hi * 256 + lo);
    assert u == hi * 256 + lo;
  }

  // ---------------------------------------------------------------------
  // Gyro calibration (mpu9250.c:1819-1854)

  /** One FIFO read of the calibration loop: None when the bus reports an
      error, otherwise the six bytes of one gyro sample. */
  type GyroRead = Option<seq<byte>>

  predicate WellFormedInput(input: seq<GyroRead>)
  {
    forall k :: 0 <= k < |input| && input[k].Some? ==> |input[k].value| == 6
  }

  function GyroSample(d: seq<byte>): (t: Triple<int>)
    requires |d| == 6
    ensures IsInt16(t.x) && IsInt16(t.y) && IsInt16(t.z)
  {
    Triple(Int16BE(d[0], d[1]), Int16BE(d[2], d[3]), Int16BE(d[4], d[5]))
  }

  /** Sum of the first n samples, None when one of those reads fails (a
      read beyond the supplied inputs counts as failed). */
  function GyroSum(input: seq<GyroRead>, n: nat): (s: Option<Triple<int>>)
    requires WellFormedInput(input)
    ensures s.Some? ==> -TWO_15 * n <= s.value.x <= (TWO_15 - 1) * n
    ensures s.Some? ==> -TWO_15 * n <= s.value.y <= (TWO_15 - 1) * n
    ensures s.Some? ==> -TWO_15 * n <= s.value.z <= (TWO_15 - 1) * n
    ensures s.Some? <==> n <= |input| && forall k :: 0 <= k < n ==> input[k].Some?
  {
    if n == 0 then Some(Triple(0, 0, 0))
    else if n > |input| || input[n - 1].None? then None
    else match GyroSum(input, n - 1)
      case None => None
      case Some(s) =>
        var t := GyroSample(input[n - 1].value);
        Some(Triple(s.x + t.x, s.y + t.y, s.z + t.z))
  }

  datatype GyroCalOutcome = ReadFailed | DivisionByZero | Offsets(offsets: Triple<int>)

  /** samples = fifo_count / 6, with fifo_count the int16 reading of the
      two count bytes. */
  function GyroSamples(countHi: byte, countLo: byte): (n: int)
    ensures -5461 <= n <= 5461
  {
    CDiv(Int16BE(countHi, countLo), 6)
  }

  /** calibrate_gyro_routine from the count on. A negative count runs no
      iteration; a count of fewer than six bytes leaves zero samples and the
      division by zero that follows. */
  function GyroCalibration(countHi: byte, countLo: byte, input: seq<GyroRead>): (o: GyroCalOutcome)
    requires WellFormedInput(input)
  {
    var samples := GyroSamples(countHi, countLo);
    var n := if samples < 0 then 0 else samples;
    match GyroSum(input, n)
    case None => ReadFailed
    case Some(s) =>
      if samples == 0 then DivisionByZero
      else Offsets(Triple(Wrap16(CDiv(s.x, samples)), Wrap16(CDiv(s.y, samples)), Wrap16(CDiv(s.z, samples))))
  }

  /** The offsets are the truncated means of the samples: each fits in 16
      bits without wrapping, and differs from the exact mean by less than
      one count, towards zero. A negative count (bit 15 set) input no
      sample and yields zero offsets. */
  lemma GyroOffsetsAreMeans(countHi: byte, countLo: byte, input: seq<GyroRead>)
    requires WellFormedInput(input)
    ensures var samples := GyroSamples(countHi, countLo);
      var o := GyroCalibration(countHi, countLo, input);
      (o.Offsets? && samples < 0 ==> o.offsets == Triple(0, 0, 0)) &&
      (o.Offsets? && samples > 0 ==>
        GyroSum(input, samples).Some? &&
        var s := GyroSum(input, samples).value;
        TruncatedMean(s.x, samples, o.offsets.x) &&
        TruncatedMean(s.y, samples, o.offsets.y) &&
        TruncatedMean(s.z, samples, o.offsets.z) &&
        o.offsets == Triple(CDiv(s.x, samples), CDiv(s.y, samples), CDiv(s.z, samples)))
  {
    var samples := GyroSamples(countHi, countLo);
    var o := GyroCalibration(countHi, countLo, input);
    if o.Offsets? && samples > 0 {
      var s := GyroSum(input, samples).value;
      MeanFits(s.x, samples);
      MeanFits(s.y, samples);
      MeanFits(s.z, samples);
    }
  }

  /** m is sum / n rounded toward zero. */
  predicate TruncatedMean(sum: int, n: int, m: int)
  {
    n > 0 && Abs(sum - m * n) < n && Abs(m * n) <= Abs(sum) && (m * n >= 0 <==> sum >= 0 || m == 0)
  }

  /** A mean of int16 values is an int16 and is the truncated mean. */
  lemma MeanFits(sum: int, n: int)
    requires n > 0 && -TWO_15 * n <= sum <= (TWO_15 - 1) * n
    ensures IsInt16(CDiv(sum, n)) && Wrap16(CDiv(sum, n)) == CDiv(sum, n)
    ensures TruncatedMean(sum, n, CDiv(sum, n))
  {
    var q := CDiv(sum, n);
    var a := Abs(sum);
    var r := a % n;
    DivModUnique(a, n, a / n, r);
    assert a == n * (a / n) + r;
    if sum >= 0 {
      assert q == a / n;
      assert q <= TWO_15 - 1 by {
        if q > TWO_15 - 1 { MulMonoInt(n, TWO_15, q); }
      }
      assert sum - q * n == r;
    } else {
      assert q == -(a / n);
      assert a / n <= TWO_15 by {
        if a / n > TWO_15 { MulMonoInt(n, TWO_15 + 1, a / n); }
      }
      assert sum - q * n == -r;
    }
  }

  lemma MulMonoInt(c: int, x: int, y: int)
    requires 0 <= c && x <= y
    ensures c * x <= c * y
  {
    assert c * y - c * x == c * (y - x);
  }

  /** The loop of calibrate_gyro_routine, summing into 32-bit accumulators
      that provably never overflow, then the truncating average. */
  method CalibrateGyro(countHi: byte, countLo: byte, input: seq<GyroRead>) returns (o: GyroCalOutcome)
    requires WellFormedInput(input)
    ensures o == GyroCalibration(countHi, countLo, input)
  {
    var fifoCount := Int16BE(countHi, countLo);
    var samples := CDiv(fifoCount, 6);
    assert samples == GyroSamples(countHi, countLo);
    var sx, sy, sz := 0, 0, 0;
    var i := 0;
    while i < samples
      invariant 0 <= i && (samples >= 0 ==> i <= samples) && (samples < 0 ==> i == 0)
      invariant GyroSum(input, i) == Some(Triple(sx, sy, sz))
      invariant IsInt32(sx) && IsInt32(sy) && IsInt32(sz)
    {
      if i >= |input| || input[i].None? {
        assert GyroSum(input, i + 1).None?;
        GyroSumFailsOn(input, i + 1, samples);
        return ReadFailed;
      }
      var d := input[i].value;
      var x := Int16BE(d[0], d[1]);
      var y := Int16BE(d[2], d[3]);
      var z := Int16BE(d[4], d[5]);
      sx, sy, sz := sx + x, sy + y, sz + z;
      i := i + 1;
      assert GyroSum(input, i) == Some(Triple(sx, sy, sz));
    }
    if samples == 0 {
      return DivisionByZero;
    }
    o := Offsets(Triple(Wrap16(CDiv(sx, samples)), Wrap16(CDiv(sy, samples)), Wrap16(CDiv(sz, samples))));
  }

  /** Once a read fails, every longer sum fails too. */
  lemma {:induction false} GyroSumFailsOn(input: seq<GyroRead>, n: nat, m: int)
    requires WellFormedInput(input) && GyroSum(input, n).None? && n <= m
    ensures GyroSum(input, m).None?
    decreases m - n
  {
    if n < m {
      GyroSumFailsOn(input, n + 1, m);
    }
  }

  // ---------------------------------------------------------------------
  // Magnetometer calibration (mpu9250.c:2123-2200)

  const MAG_CAL_SAMPLES: int := 200

  /** One pass of the sampling loop: the program asked to exit, the
      magnetometer read failed, or a reading (offsets 0, scales 1). */
  datatype MagRead = Exiting | MagReadFailed | MagSample(m: Triple<real>)

  predicate ZeroField(m: Triple<real>)
  {
    m.x == 0.0 && m.y == 0.0 && m.z == 0.0
  }

  /** The samples the loop keeps: readings until 200 are stored, the
      program exits, a read fails or an all-zero field comes back. Running
      out of inputs counts as exiting. */
  function Collected(input: seq<MagRead>, room: nat): (s: seq<Triple<real>>)
  {
    if room == 0 || |input| == 0 then []
    else match input[0]
      case MagSample(m) =>
        if ZeroField(m) then [] else [m] + Collected(input[1..], room - 1)
      case _ => []
  }

  /** What is kept is the longest run of non-zero samples at the head of
      the readings, cut at `room`: the run stops at the first failed read,
      exit or all-zero field. */
  lemma {:induction false} CollectedSpec(input: seq<MagRead>, room: nat)
    ensures var s := Collected(input, room);
      |s| <= room && |s| <= |input| &&
      (forall k :: 0 <= k < |s| ==> !ZeroField(s[k]) && input[k] == MagSample(s[k])) &&
      (|s| < room && |s| < |input| ==> !input[|s|].MagSample? || ZeroField(input[|s|].m))
  {
    if room > 0 && |input| > 0 && input[0].MagSample? && !ZeroField(input[0].m) {
      CollectedSpec(input[1..], room - 1);
      var s := Collected(input, room);
      var t := Collected(input[1..], room - 1);
      assert s == [input[0].m] + t;
      forall k | 0 <= k < |s|
        ensures !ZeroField(s[k]) && input[k] == MagSample(s[k])
      {
        if k > 0 {
          assert s[k] == t[k - 1] && input[k] == input[1..][k - 1];
        }
      }
    }
  }

  /** The sampling loop of calibrate_mag_routine. */
  method CollectMagSamples(input: seq<MagRead>) returns (samples: seq<Triple<real>>)
    ensures samples == Collected(input, MAG_CAL_SAMPLES)
  {
    samples := [];
    var i := 0;
    while i < MAG_CAL_SAMPLES && i < |input| && input[i] != Exiting
      invariant 0 <= i <= MAG_CAL_SAMPLES && i <= |input|
      invariant Collected(input, MAG_CAL_SAMPLES) == samples + Collected(input[i..], MAG_CAL_SAMPLES - i)
      decreases MAG_CAL_SAMPLES - i
    {
      CollectedFrom(input, i, MAG_CAL_SAMPLES - i);
      if input[i].MagReadFailed? {
        break;
      }
      var m := input[i].m;
      if ZeroField(m) {
        break;
      }
      ghost var rest := Collected(input[i + 1..], MAG_CAL_SAMPLES - (i + 1));
      assert samples + ([m] + rest) == (samples + [m]) + rest;
      samples := samples + [m];
      i := i + 1;
    }
    CollectedFrom(input, i, MAG_CAL_SAMPLES - i);
  }

  /** One step of Collected on a suffix of the readings. */
  lemma CollectedFrom(input: seq<MagRead>, i: nat, room: nat)
    requires i <= |input|
    ensures room == 0 || i == |input| ==> Collected(input[i..], room) == []
    ensures room > 0 && i < |input| ==>
      Collected(input[i..], room) ==
        if input[i].MagSample? && !ZeroField(input[i].m) then [input[i].m] + Collected(input[i + 1..], room - 1)
        else []
  {
    if room > 0 && i < |input| {
      assert input[i..][0] == input[i];
      assert input[i..][1..] == input[i + 1..];
    }
  }

  /** The output of fitEllipsoid. */
  datatype Ellipsoid = Ellipsoid(center: Triple<real>, lengths: Triple<real>)

  function AbsReal(r: real): real { if r < 0.0 then -r else r }

  predicate CenterInBounds(c: Triple<real>)
  {
    AbsReal(c.x) <= 70.0 && AbsReal(c.y) <= 70.0 && AbsReal(c.z) <= 70.0
  }

  predicate LengthInBounds(l: real)
  {
    5.0 <= l <= 140.0
  }

  /** The sanity checks on the fit: centre within 70 uT of the origin on
      every axis, every semi-axis between 5 and 140 uT. */
  predicate FitAccepted(e: Ellipsoid)
  {
    CenterInBounds(e.center) &&
    LengthInBounds(e.lengths.x) && LengthInBounds(e.lengths.y) && LengthInBounds(e.lengths.z)
  }

  /** The scales that map the fitted ellipsoid onto a sphere of 70 uT. */
  function MagScale(length: real): (s: real)
    requires LengthInBounds(length)
    ensures 0.5 <= s <= 14.0
    ensures s * length == 70.0
  {
    70.0 / length
  }

  /** The calibration record written to disk: centre and scales. */
  datatype MagRecord = MagRecord(offsets: Triple<real>, scales: Triple<real>)

  datatype MagCalOutcome = MagCalOutcome(ret: int, saved: Option<MagRecord>)

  /** calibrate_mag_routine from the sampling loop on. `fit` is
      fitEllipsoid (None when it reports failure); `diskOk` is the result
      of the write to disk. */
  function MagCalibration(samples: seq<Triple<real>>, fit: seq<Triple<real>> -> Option<Ellipsoid>, diskOk: bool): (o: MagCalOutcome)
    ensures o.ret == 0 || o.ret == -1
    ensures o.saved.Some? <==>
      |samples| >= MAG_CAL_SAMPLES && fit(samples).Some? && FitAccepted(fit(samples).value)
    ensures o.ret == 0 <==> o.saved.Some? && diskOk
    ensures o.saved.Some? ==>
      var e := fit(samples).value;
      o.saved.value.offsets == e.center &&
      o.saved.value.scales.x * e.lengths.x == 70.0 &&
      o.saved.value.scales.y * e.lengths.y == 70.0 &&
      o.saved.value.scales.z * e.lengths.z == 70.0
    ensures o.saved.Some? ==>
      0.5 <= o.saved.value.scales.x <= 14.0 &&
      0.5 <= o.saved.value.scales.y <= 14.0 &&
      0.5 <= o.saved.value.scales.z <= 14.0
  {
    if |samples| < MAG_CAL_SAMPLES then MagCalOutcome(-1, None)
    else match fit(samples)
      case None => MagCalOutcome(-1, None)
      case Some(e) =>
        if !CenterInBounds(e.center) then MagCalOutcome(-1, None)
        else if !(LengthInBounds(e.lengths.x) && LengthInBounds(e.lengths.y) && LengthInBounds(e.lengths.z)) then
          MagCalOutcome(-1, None)
        else
          var rec := MagRecord(e.center, Triple(MagScale(e.lengths.x), MagScale(e.lengths.y), MagScale(e.lengths.z)));
          MagCalOutcome(if diskOk then 0 else -1, Some(rec))
  }
}
