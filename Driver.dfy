/**
 * The driver's calibration state (the static mag_offset / mag_scale
 * globals) as one session object: the calibrated axis getters read it,
 * the two setters and the calibration run overwrite it.
 */
module Driver {
  import opened Wrappers
  import opened Conversion
  import opened Calibration

  class Hmc5983 {
    /** Hard-iron offset, subtracted from every gained reading. */
    var offset: Vec3
    /** Soft-iron scale, applied after the offset. */
    var scale: Vec3

    /** A fresh session: offset (0, 0, 0) and scale (1, 1, 1), so readings pass through unchanged. */
    constructor ()
      ensures offset == Vec3(0.0, 0.0, 0.0)
      ensures scale == Vec3(1.0, 1.0, 1.0)
    {
      offset := Vec3(0.0, 0.0, 0.0);
      scale := Vec3(1.0, 1.0, 1.0);
    }

    /**
     * hmc5983_get_magnetic_x/y/z: a gained raw reading of axis `k`, with
     * that axis' offset removed and its scale applied; no data when the
     * raw read had none.
     */
    function Magnetic(k: Axis, r: AxisReplies): (v: Option<real>)
      reads this
      ensures v.None? <==> r.msb.Failed? || r.lsb.Failed?
      ensures v.Some? ==> v.value == Correct(Reading(r).value, offset.At(k), scale.At(k))
    {
      match Reading(r)
      case None => None
      case Some(field) => Some(Correct(field, offset.At(k), scale.At(k)))
    }

    /** hmc5983_set_calibration_offset: replaces the offset; the scale is unchanged. */
    method SetCalibrationOffset(x: real, y: real, z: real)
      modifies this
      ensures offset == Vec3(x, y, z)
      ensures scale == old(scale)
    {
      offset := Vec3(x, y, z);
    }

    /** hmc5983_set_calibration_scale: replaces the scale; the offset is unchanged. */
    method SetCalibrationScale(x: real, y: real, z: real)
      modifies this
      ensures scale == Vec3(x, y, z)
      ensures offset == old(offset)
    {
      scale := Vec3(x, y, z);
    }

    /**
     * hmc5983_calibrate without the file write: collects SampleCount
     * accepted triples with their per-axis low and high (SampleRun), then
     * derives the offset as each axis' midpoint and the scale as the mean
     * half range over the axis' half range. Returns how many triples were
     * read.
     */
    method Calibrate(samples: seq<SampleReplies>) returns (consumed: nat)
      requires Calibratable(samples)
      modifies this
      ensures SampleCount <= consumed <= |samples|
      ensures Accepted(samples[..consumed]) == Accepted(samples)[..SampleCount]
      ensures Sample(samples[consumed - 1]).Some?
      ensures offset == RunCorrection(samples).offset
      ensures scale == RunCorrection(samples).scale
    {
      var low, high;
      low, high, consumed := SampleRun(samples);
      assert Spread(RunExtrema(samples, 0)) && Spread(RunExtrema(samples, 1)) && Spread(RunExtrema(samples, 2));
      ghost var lows := Vec3(low[0].v, low[1].v, low[2].v);
      ghost var highs := Vec3(high[0].v, high[1].v, high[2].v);
      RunCorrectionFrom(samples, lows, highs);

      offset := Vec3((high[0].v + low[0].v) / 2.0, (high[1].v + low[1].v) / 2.0, (high[2].v + low[2].v) / 2.0);
      var delta := Vec3((high[0].v - low[0].v) / 2.0, (high[1].v - low[1].v) / 2.0, (high[2].v - low[2].v) / 2.0);
      var avgDelta := (delta.x + delta.y + delta.z) / 3.0;
      scale := Vec3(avgDelta / delta.x, avgDelta / delta.y, avgDelta / delta.z);
    }
  }

  /**
   * The sampling loop of hmc5983_calibrate: low_val starts at +INFINITY and
   * high_val at -INFINITY; each iteration reads one triple, discards it
   * when any axis had no data, and otherwise tracks it and counts it,
   * until SampleCount triples were counted. Returns the two arrays and how
   * many triples were read.
   */
  method SampleRun(samples: seq<SampleReplies>) returns (low: array<Bound>, high: array<Bound>, consumed: nat)
    requires |Accepted(samples)| >= SampleCount
    ensures fresh(low) && fresh(high) && low.Length == 3 && high.Length == 3
    ensures SampleCount <= consumed <= |samples|
    ensures Accepted(samples[..consumed]) == Accepted(samples)[..SampleCount]
    ensures Sample(samples[consumed - 1]).Some?
    ensures forall k: Axis :: Extrema(low[k], high[k]) == RunExtrema(samples, k)
  {
    low := new Bound[3](_ => PosInf);
    high := new Bound[3](_ => NegInf);
    var i := 0;
    consumed := 0;
    ghost var acc: seq<Vec3> := [];
    while i < SampleCount
      invariant 0 <= i <= SampleCount
      invariant consumed <= |samples|
      invariant acc == Accepted(samples[..consumed]) && |acc| == i
      invariant forall k: Axis :: Extrema(low[k], high[k]) == AxisExtrema(Component(acc, k))
      invariant i == SampleCount ==> 0 < consumed && Sample(samples[consumed - 1]).Some?
      decreases |samples| - consumed
    {
      AcceptedAll(samples);
      var s := samples[consumed];
      var xm := Reading(s.x);
      var ym := Reading(s.y);
      var zm := Reading(s.z);
      consumed := consumed + 1;
      if xm.None? || ym.None? || zm.None? {
        AcceptedSkipped(samples, consumed - 1);
        continue;
      }
      var v := Vec3(xm.value, ym.value, zm.value);
      AcceptedTaken(samples, consumed - 1, v);
      TrackSample(low, high, v, acc);
      acc := acc + [v];
      i := i + 1;
    }
    AcceptedPrefix(samples, consumed);
    ghost var run := Accepted(samples)[..SampleCount];
    assert Accepted(samples[..consumed]) == run;
    assert forall k: Axis :: RunExtrema(samples, k) == AxisExtrema(Component(run, k));
  }

  /**
   * The per-axis update of one accepted triple: on each axis a value below
   * low_val becomes the new low, else a value at or above high_val becomes
   * the new high. With `acc` the accepted triples so far, the arrays then
   * hold the tracking of `acc` followed by `v`.
   */
  method TrackSample(low: array<Bound>, high: array<Bound>, v: Vec3, ghost acc: seq<Vec3>)
    requires low.Length == 3 && high.Length == 3 && low != high
    requires forall k: Axis :: Extrema(low[k], high[k]) == AxisExtrema(Component(acc, k))
    modifies low, high
    ensures forall k: Axis :: Extrema(low[k], high[k]) == Track(old(Extrema(low[k], high[k])), v.At(k))
    ensures forall k: Axis :: Extrema(low[k], high[k]) == AxisExtrema(Component(acc + [v], k))
  {
    ghost var es := [Extrema(low[0], high[0]), Extrema(low[1], high[1]), Extrema(low[2], high[2])];
    ComponentAppend(acc, v, es);

    if Exceeds(low[0], v.x) {
      low[0] := Finite(v.x);
    } else if NotAbove(high[0], v.x) {
      high[0] := Finite(v.x);
    }

    if Exceeds(low[1], v.y) {
      low[1] := Finite(v.y);
    } else if NotAbove(high[1], v.y) {
      high[1] := Finite(v.y);
    }

    if Exceeds(low[2], v.z) {
      low[2] := Finite(v.z);
    } else if NotAbove(high[2], v.z) {
      high[2] := Finite(v.z);
    }
  }

  /** Tracking one more accepted triple extends each axis' extrema by one Track step. */
  lemma ComponentAppend(vs: seq<Vec3>, v: Vec3, es: seq<Extrema>)
    requires |es| == 3
    requires forall k: Axis :: es[k] == AxisExtrema(Component(vs, k))
    ensures forall k: Axis :: Track(es[k], v.At(k)) == AxisExtrema(Component(vs + [v], k))
  {
    forall k: Axis ensures Track(es[k], v.At(k)) == AxisExtrema(Component(vs + [v], k)) {
      var xs := Component(vs + [v], k);
      assert xs[..|xs| - 1] == Component(vs, k);
    }
  }

  /** A calibrated reading of axis `k` depends on that axis' offset and scale only. */
  lemma MagneticUsesOwnAxis(a: Hmc5983, b: Hmc5983, k: Axis, r: AxisReplies)
    requires a.offset.At(k) == b.offset.At(k) && a.scale.At(k) == b.scale.At(k)
    ensures a.Magnetic(k, r) == b.Magnetic(k, r)
  {
  }

  /**
   * Offset (1, 2, 3) and scale (2, 2, 2) turn gained readings of 10 Gauss
   * on every axis into (18, 16, 14).
   */
  lemma MagneticExample(s: Hmc5983, r: AxisReplies)
    requires s.offset == Vec3(1.0, 2.0, 3.0) && s.scale == Vec3(2.0, 2.0, 2.0)
    requires Reading(r) == Some(10.0)
    ensures s.Magnetic(0, r) == Some(18.0)
    ensures s.Magnetic(1, r) == Some(16.0)
    ensures s.Magnetic(2, r) == Some(14.0)
  {
  }

  /**
   * After a calibration run, a reading equal to an axis' recorded high is
   * corrected to +mean half range and one equal to its low to -mean half
   * range: all three axes span the same interval around zero.
   */
  lemma CalibratedExtremesSymmetric(s: Hmc5983, samples: seq<SampleReplies>, k: Axis)
    requires Calibratable(samples)
    requires s.offset == RunCorrection(samples).offset && s.scale == RunCorrection(samples).scale
    ensures Correct(RunHigh(samples).At(k), s.offset.At(k), s.scale.At(k)) == MeanHalfRange(RunLow(samples), RunHigh(samples))
    ensures Correct(RunLow(samples).At(k), s.offset.At(k), s.scale.At(k)) == -MeanHalfRange(RunLow(samples), RunHigh(samples))
  {
    assert Distinct(RunLow(samples), RunHigh(samples)) by {
      forall j: Axis ensures RunLow(samples).At(j) != RunHigh(samples).At(j) {
        assert Spread(RunExtrema(samples, j));
      }
    }
    CorrectedRangeIsSymmetric(RunLow(samples), RunHigh(samples), k);
  }
}
