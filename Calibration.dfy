/**
 * What hmc5983_calibrate computes, stated as functions: the accepted
 * sample stream, the per-axis low/high tracking with its if/else-if
 * update, and the hard-iron offset / soft-iron scale derivation.
 * The imperative loop itself is Driver.Hmc5983.Calibrate.
 */
module Calibration {
  import opened Wrappers
  import opened Registers
  import opened Conversion

  /** Number of accepted sample triples one calibration run collects. */
  const SampleCount: nat := 1000

  /** An axis index, as used for the low_val/high_val arrays: 0 = x, 1 = y, 2 = z. */
  type Axis = k: int | 0 <= k < 3

  /** A triple of per-axis values (struct hmc5983_Var3). */
  datatype Vec3 = Vec3(x: real, y: real, z: real) {
    function At(k: Axis): real
    {
      if k == 0 then x else if k == 1 then y else z
    }
  }

  /** A float that may be one of the two infinities used to initialise low_val and high_val. */
  datatype Bound = NegInf | Finite(v: real) | PosInf

  /** `b > x`, the test for a new low. */
  predicate Exceeds(b: Bound, x: real)
  {
    b.PosInf? || (b.Finite? && b.v > x)
  }

  /** `b <= x`, the test for a new high. */
  predicate NotAbove(b: Bound, x: real)
  {
    b.NegInf? || (b.Finite? && b.v <= x)
  }

  /** The pair (low_val[k], high_val[k]) for one axis. */
  datatype Extrema = Extrema(low: Bound, high: Bound)

  /** low_val starts at +INFINITY and high_val at -INFINITY. */
  const Unset: Extrema := Extrema(PosInf, NegInf)

  /**
   * One accepted sample updates one axis: a value below `low` becomes the
   * new low; otherwise a value at or above `high` becomes the new high.
   * A sample never moves both.
   */
  function Track(e: Extrema, x: real): (r: Extrema)
    ensures r == e || r == Extrema(Finite(x), e.high) || r == Extrema(e.low, Finite(x))
    ensures r.low != e.low ==> Exceeds(e.low, x)
    ensures r.high != e.high ==> !Exceeds(e.low, x) && NotAbove(e.high, x)
  {
    if Exceeds(e.low, x) then Extrema(Finite(x), e.high)
    else if NotAbove(e.high, x) then Extrema(e.low, Finite(x))
    else e
  }

  /** The (low, high) pair after tracking the samples `xs` of one axis in order. */
  function AxisExtrema(xs: seq<real>): (e: Extrema)
    ensures !e.low.NegInf? && !e.high.PosInf?
    ensures xs != [] ==> e.low.Finite?
  {
    if xs == [] then Unset else Track(AxisExtrema(xs[..|xs| - 1]), xs[|xs| - 1])
  }

  /** Sample `j` is below every sample before it, so it updates `low` and not `high`. */
  predicate NewMinimum(xs: seq<real>, j: int)
    requires 0 <= j < |xs|
  {
    forall i :: 0 <= i < j ==> xs[j] < xs[i]
  }

  /** `low` is the minimum of the samples, and +INFINITY when there are none. */
  lemma {:induction false} LowIsMinimum(xs: seq<real>)
    ensures xs == [] ==> AxisExtrema(xs).low == PosInf
    ensures xs != [] ==>
      AxisExtrema(xs).low.Finite? && AxisExtrema(xs).low.v in xs &&
      forall i :: 0 <= i < |xs| ==> AxisExtrema(xs).low.v <= xs[i]
  {
    if xs != [] {
      var p := xs[..|xs| - 1];
      LowIsMinimum(p);
      assert xs == p + [xs[|xs| - 1]];
    }
  }

  /** The test for a new low holds of sample `j` exactly when it is a new minimum. */
  lemma NewLowIffNewMinimum(xs: seq<real>, j: int)
    requires 0 <= j < |xs|
    ensures Exceeds(AxisExtrema(xs[..j]).low, xs[j]) <==> NewMinimum(xs, j)
  {
    var p := xs[..j];
    LowIsMinimum(p);
    if p != [] && !NewMinimum(xs, j) {
      var i :| 0 <= i < j && xs[j] >= xs[i];
      assert p[i] == xs[i];
    }
  }

  /**
   * `high` is the maximum of the samples that were not new minima, and stays
   * -INFINITY when every sample was a new minimum. In particular the first
   * sample never reaches `high`.
   */
  lemma {:induction false} HighIsMaximumOfOthers(xs: seq<real>)
    ensures !AxisExtrema(xs).high.PosInf?
    ensures AxisExtrema(xs).high.NegInf? <==> forall j :: 0 <= j < |xs| ==> NewMinimum(xs, j)
    ensures AxisExtrema(xs).high.Finite? ==>
      (exists j :: 0 <= j < |xs| && !NewMinimum(xs, j) && xs[j] == AxisExtrema(xs).high.v) &&
      (forall j :: 0 <= j < |xs| && !NewMinimum(xs, j) ==> xs[j] <= AxisExtrema(xs).high.v)
  {
    if xs != [] {
      var n := |xs| - 1;
      var p := xs[..n];
      var x := xs[n];
      HighIsMaximumOfOthers(p);
      assert forall j :: 0 <= j < n ==> (NewMinimum(xs, j) <==> NewMinimum(p, j)) by {
        forall j | 0 <= j < n ensures NewMinimum(xs, j) <==> NewMinimum(p, j) {
          assert forall i :: 0 <= i < j ==> p[i] == xs[i] && p[j] == xs[j];
        }
      }
      assert xs[..n] == p;
      NewLowIffNewMinimum(xs, n);
      var hp := AxisExtrema(p).high;
      var h := AxisExtrema(xs).high;
      if NewMinimum(xs, n) {
        assert h == hp;
      } else if NotAbove(hp, x) {
        assert h == Finite(x);
        assert forall j :: 0 <= j < |xs| && !NewMinimum(xs, j) ==> xs[j] <= x by {
          forall j | 0 <= j < |xs| && !NewMinimum(xs, j) ensures xs[j] <= x {
            if j < n {
              assert p[j] == xs[j];
            }
          }
        }
      } else {
        assert h == hp;
        assert forall j :: 0 <= j < |xs| && !NewMinimum(xs, j) ==> xs[j] <= hp.v by {
          forall j | 0 <= j < |xs| && !NewMinimum(xs, j) ensures xs[j] <= hp.v {
            if j < n {
              assert p[j] == xs[j];
            }
          }
        }
        var w :| 0 <= w < n && !NewMinimum(p, w) && p[w] == hp.v;
        assert !NewMinimum(xs, w) && xs[w] == h.v;
      }
    }
  }

  /** When both are set, `high` lies between `low` and the largest sample. */
  lemma HighBetweenLowAndMaximum(xs: seq<real>)
    requires AxisExtrema(xs).high.Finite?
    ensures AxisExtrema(xs).low.Finite?
    ensures AxisExtrema(xs).low.v <= AxisExtrema(xs).high.v
    ensures exists j :: 0 <= j < |xs| && AxisExtrema(xs).high.v <= xs[j]
  {
    HighIsMaximumOfOthers(xs);
    LowIsMinimum(xs);
  }

  /**
   * The if/else-if misses a maximum that arrives as a new minimum: after
   * the samples 2, 0, 1 the low is 0 but the high is 1, not 2.
   */
  lemma HighMissesLeadingMaximum()
    ensures AxisExtrema([2.0, 0.0, 1.0]) == Extrema(Finite(0.0), Finite(1.0))
  {
    assert [2.0, 0.0, 1.0][..2] == [2.0, 0.0];
    assert [2.0, 0.0][..1] == [2.0];
    assert [2.0][..0] == [];
  }

  /** The register replies the three raw axis reads of one loop iteration receive. */
  datatype AxisReplies = AxisReplies(msb: Reply, lsb: Reply, gain: byte)
  datatype SampleReplies = SampleReplies(x: AxisReplies, y: AxisReplies, z: AxisReplies)

  /** One gained raw axis read (hmc5983_get_raw_magnetic_*(1)). */
  function Reading(r: AxisReplies): (v: Option<real>)
    ensures v.None? <==> r.msb.Failed? || r.lsb.Failed?
  {
    RawAxis(r.msb, r.lsb, true, r.gain)
  }

  /** The triple read in one iteration, or None when any of its axes had no data. */
  function Sample(s: SampleReplies): (v: Option<Vec3>)
    ensures v.None? <==>
      s.x.msb.Failed? || s.x.lsb.Failed? || s.y.msb.Failed? || s.y.lsb.Failed? || s.z.msb.Failed? || s.z.lsb.Failed?
  {
    if Reading(s.x).None? || Reading(s.y).None? || Reading(s.z).None? then None
    else Some(Vec3(Reading(s.x).value, Reading(s.y).value, Reading(s.z).value))
  }

  /** The triples the loop accepts from the reply stream, in order; each comes from one element of the stream. */
  function Accepted(ss: seq<SampleReplies>): (vs: seq<Vec3>)
    ensures |vs| <= |ss|
  {
    if ss == [] then []
    else
      var s := Sample(ss[|ss| - 1]);
      Accepted(ss[..|ss| - 1]) + (if s.Some? then [s.value] else [])
  }

  /** A triple with a failed axis read is discarded: the accepted samples do not change. */
  lemma FailedTripleDiscarded(ss: seq<SampleReplies>, s: SampleReplies)
    requires Sample(s).None?
    ensures Accepted(ss + [s]) == Accepted(ss)
  {
    assert (ss + [s])[..|ss|] == ss;
  }

  /** Reading one more triple appends it to the accepted samples exactly when it has data on every axis. */
  lemma AcceptedStep(ss: seq<SampleReplies>, n: nat)
    requires n < |ss|
    ensures Sample(ss[n]).None? ==> Accepted(ss[..n + 1]) == Accepted(ss[..n])
    ensures Sample(ss[n]).Some? ==> Accepted(ss[..n + 1]) == Accepted(ss[..n]) + [Sample(ss[n]).value]
  {
    assert ss[..n + 1][..n] == ss[..n];
  }

  /** A triple whose three reads all have data is appended to the accepted samples. */
  lemma AcceptedTaken(ss: seq<SampleReplies>, n: nat, v: Vec3)
    requires n < |ss|
    requires Reading(ss[n].x) == Some(v.x) && Reading(ss[n].y) == Some(v.y) && Reading(ss[n].z) == Some(v.z)
    ensures Accepted(ss[..n + 1]) == Accepted(ss[..n]) + [v]
  {
    AcceptedStep(ss, n);
  }

  /** A triple with a read that has no data is skipped. */
  lemma AcceptedSkipped(ss: seq<SampleReplies>, n: nat)
    requires n < |ss|
    requires Reading(ss[n].x).None? || Reading(ss[n].y).None? || Reading(ss[n].z).None?
    ensures Accepted(ss[..n + 1]) == Accepted(ss[..n])
  {
    AcceptedStep(ss, n);
  }

  /** The whole stream is its own longest prefix. */
  lemma AcceptedAll(ss: seq<SampleReplies>)
    ensures Accepted(ss[..|ss|]) == Accepted(ss)
  {
    assert ss[..|ss|] == ss;
  }

  /** Reading further into the stream only extends the accepted samples. */
  lemma {:induction false} AcceptedPrefix(ss: seq<SampleReplies>, n: nat)
    requires n <= |ss|
    ensures Accepted(ss[..n]) <= Accepted(ss)
    decreases |ss| - n
  {
    if n == |ss| {
      assert ss[..n] == ss;
    } else {
      AcceptedPrefix(ss, n + 1);
      assert ss[..n + 1][..n] == ss[..n];
    }
  }

  /** The samples of one axis. */
  function Component(vs: seq<Vec3>, k: Axis): (xs: seq<real>)
    ensures |xs| == |vs| && forall i :: 0 <= i < |vs| ==> xs[i] == vs[i].At(k)
  {
    seq(|vs|, i requires 0 <= i < |vs| => vs[i].At(k))
  }

  /** The stream holds enough accepted triples, and every axis ends with a finite, non-empty range. */
  predicate Calibratable(ss: seq<SampleReplies>)
  {
    |Accepted(ss)| >= SampleCount &&
    forall k: Axis :: Spread(RunExtrema(ss, k))
  }

  /** The (low, high) pair for axis `k` after the first SampleCount accepted triples. */
  function RunExtrema(ss: seq<SampleReplies>, k: Axis): Extrema
    requires |Accepted(ss)| >= SampleCount
  {
    AxisExtrema(Component(Accepted(ss)[..SampleCount], k))
  }

  /** Both ends are finite and differ, so the derivation does not divide by zero or infinity. */
  predicate Spread(e: Extrema)
  {
    e.low.Finite? && e.high.Finite? && e.low.v != e.high.v
  }

  /** The per-axis lows of a calibratable run. */
  function RunLow(ss: seq<SampleReplies>): Vec3
    requires Calibratable(ss)
  {
    Vec3(RunExtrema(ss, 0).low.v, RunExtrema(ss, 1).low.v, RunExtrema(ss, 2).low.v)
  }

  /** The per-axis highs of a calibratable run. */
  function RunHigh(ss: seq<SampleReplies>): Vec3
    requires Calibratable(ss)
  {
    Vec3(RunExtrema(ss, 0).high.v, RunExtrema(ss, 1).high.v, RunExtrema(ss, 2).high.v)
  }

  /** No axis has a zero range. */
  predicate Distinct(low: Vec3, high: Vec3)
  {
    forall k: Axis :: low.At(k) != high.At(k)
  }

  /** Per axis, half the distance between high and low (avg_delta_xyz). */
  function HalfRange(low: Vec3, high: Vec3): Vec3
  {
    Vec3((high.x - low.x) / 2.0, (high.y - low.y) / 2.0, (high.z - low.z) / 2.0)
  }

  /** The mean of the three half ranges (avg_delta). */
  function MeanHalfRange(low: Vec3, high: Vec3): real
  {
    var d := HalfRange(low, high);
    (d.x + d.y + d.z) / 3.0
  }

  /** The hard-iron offset and soft-iron scale a calibration produces. */
  datatype Correction = Correction(offset: Vec3, scale: Vec3)

  /** Offset = midpoint of each axis' range; scale = mean half range / the axis' half range. */
  function Derive(low: Vec3, high: Vec3): (c: Correction)
    requires Distinct(low, high)
    ensures forall k: Axis :: Correct((low.At(k) + high.At(k)) / 2.0, c.offset.At(k), c.scale.At(k)) == 0.0
  {
    var d := HalfRange(low, high);
    var avg := MeanHalfRange(low, high);
    assert d.x != 0.0 && d.y != 0.0 && d.z != 0.0 by {
      assert low.At(0) != high.At(0) && low.At(1) != high.At(1) && low.At(2) != high.At(2);
    }
    Correction(
      Vec3((high.x + low.x) / 2.0, (high.y + low.y) / 2.0, (high.z + low.z) / 2.0),
      Vec3(avg / d.x, avg / d.y, avg / d.z))
  }

  /** A calibrated value: the offset removed, then scaled. */
  function Correct(field: real, offset: real, scale: real): (r: real)
    ensures offset == 0.0 && scale == 1.0 ==> r == field
  {
    (field - offset) * scale
  }

  /** The offset lies halfway between low and high on every axis. */
  lemma OffsetIsMidpoint(low: Vec3, high: Vec3, k: Axis)
    requires Distinct(low, high)
    ensures high.At(k) - Derive(low, high).offset.At(k) == HalfRange(low, high).At(k)
    ensures Derive(low, high).offset.At(k) - low.At(k) == HalfRange(low, high).At(k)
  {
  }

  /** Each axis' scale stretches its half range to the mean half range. */
  lemma ScaleEqualizesHalfRanges(low: Vec3, high: Vec3, k: Axis)
    requires Distinct(low, high)
    ensures Derive(low, high).scale.At(k) * HalfRange(low, high).At(k) == MeanHalfRange(low, high)
  {
    var d := HalfRange(low, high).At(k);
    assert d != 0.0 by { assert low.At(k) != high.At(k); }
    assert Derive(low, high).scale.At(k) == MeanHalfRange(low, high) / d;
  }

  /**
   * After correction every axis spans the same interval: its high reads as
   * +mean half range and its low as -mean half range.
   */
  lemma CorrectedRangeIsSymmetric(low: Vec3, high: Vec3, k: Axis)
    requires Distinct(low, high)
    ensures var c := Derive(low, high);
      Correct(high.At(k), c.offset.At(k), c.scale.At(k)) == MeanHalfRange(low, high) &&
      Correct(low.At(k), c.offset.At(k), c.scale.At(k)) == -MeanHalfRange(low, high)
  {
    var c := Derive(low, high);
    OffsetIsMidpoint(low, high, k);
    ScaleEqualizesHalfRanges(low, high, k);
    SymmetricProduct(high.At(k), low.At(k), c.offset.At(k), c.scale.At(k),
      HalfRange(low, high).At(k), MeanHalfRange(low, high));
  }

  /** Points half a range above and below the offset scale to +m and -m when scale * half range = m. */
  lemma SymmetricProduct(h: real, l: real, o: real, sc: real, d: real, m: real)
    requires h - o == d && o - l == d && sc * d == m
    ensures Correct(h, o, sc) == m && Correct(l, o, sc) == -m
  {
    assert (l - o) * sc == -(d * sc);
  }

  /** Axes with equal ranges need no soft-iron correction: every scale is 1. */
  lemma EqualRangesGiveUnitScale(low: Vec3, high: Vec3)
    requires Distinct(low, high)
    requires HalfRange(low, high).x == HalfRange(low, high).y == HalfRange(low, high).z
    ensures Derive(low, high).scale == Vec3(1.0, 1.0, 1.0)
  {
    var d := HalfRange(low, high);
    assert MeanHalfRange(low, high) == d.x;
    assert d.x != 0.0 by { assert low.At(0) != high.At(0); }
    assert Derive(low, high).scale == Vec3(d.x / d.x, d.y / d.y, d.z / d.z);
  }

  /** low = (-1, -2, -3), high = (1, 2, 3) gives offset 0 and scale (2, 1, 2/3). */
  lemma DeriveExample()
    ensures Distinct(Vec3(-1.0, -2.0, -3.0), Vec3(1.0, 2.0, 3.0))
    ensures Derive(Vec3(-1.0, -2.0, -3.0), Vec3(1.0, 2.0, 3.0))
      == Correction(Vec3(0.0, 0.0, 0.0), Vec3(2.0, 1.0, 2.0 / 3.0))
  {
    assert Vec3(-1.0, -2.0, -3.0).At(2) != Vec3(1.0, 2.0, 3.0).At(2);
  }

  /** The correction a run over `ss` derives from its lows and highs. */
  function RunCorrection(ss: seq<SampleReplies>): (c: Correction)
    requires Calibratable(ss)
    ensures forall k: Axis ::
      Correct(RunHigh(ss).At(k), c.offset.At(k), c.scale.At(k)) == -Correct(RunLow(ss).At(k), c.offset.At(k), c.scale.At(k))
  {
    assert Distinct(RunLow(ss), RunHigh(ss)) by {
      forall k: Axis ensures RunLow(ss).At(k) != RunHigh(ss).At(k) {
        assert Spread(RunExtrema(ss, k));
      }
    }
    assert forall k: Axis ::
      Correct(RunHigh(ss).At(k), Derive(RunLow(ss), RunHigh(ss)).offset.At(k), Derive(RunLow(ss), RunHigh(ss)).scale.At(k))
      == -Correct(RunLow(ss).At(k), Derive(RunLow(ss), RunHigh(ss)).offset.At(k), Derive(RunLow(ss), RunHigh(ss)).scale.At(k)) by {
      forall k: Axis {
        CorrectedRangeIsSymmetric(RunLow(ss), RunHigh(ss), k);
      }
    }
    Derive(RunLow(ss), RunHigh(ss))
  }

  /** A run whose per-axis extrema are the finite `low` and `high` derives its correction from them. */
  lemma RunCorrectionFrom(ss: seq<SampleReplies>, low: Vec3, high: Vec3)
    requires |Accepted(ss)| >= SampleCount
    requires forall k: Axis :: RunExtrema(ss, k) == Extrema(Finite(low.At(k)), Finite(high.At(k)))
    requires Distinct(low, high)
    ensures Calibratable(ss)
    ensures RunLow(ss) == low && RunHigh(ss) == high
    ensures RunCorrection(ss) == Derive(low, high)
  {
    assert RunExtrema(ss, 0) == Extrema(Finite(low.x), Finite(high.x));
    assert RunExtrema(ss, 1) == Extrema(Finite(low.y), Finite(high.y));
    assert RunExtrema(ss, 2) == Extrema(Finite(low.z), Finite(high.z));
  }
}
