/**
 * The percentile estimate of nb_histogram_percentile and the figures
 * nb_histogram_dump reports: walk the cumulative bucket counts until they
 * reach floor(size * p), interpolate linearly between the edges of the
 * bucket that reaches it, and clamp the result to [min, max].
 *
 * The source computes in doubles. PercentileAsWritten keeps the one IEEE-754
 * effect that changes the outcome, a 0/0 that yields NaN; Percentile is the
 * corrected estimate the report is meant to show.
 */
module Percentile {
  import opened Histogram

  /** floor(size * p): the double product converted to size_t truncates, and
      p is never negative (a negative double converted to size_t is
      undefined in C). */
  function Threshold(size: nat, p: real): (t: nat)
    requires p >= 0.0
    ensures t as real <= size as real * p < t as real + 1.0
  {
    (size as real * p).Floor
  }

  /** Number of samples in the buckets before bucket b. */
  function Cum(s: seq<nat>, b: nat): nat
    requires b <= |s|
  {
    Total(s[..b])
  }

  lemma TotalStep(s: seq<nat>, b: nat)
    requires b < |s|
    ensures Cum(s, b + 1) == Cum(s, b) + s[b]
  {
    assert s[..b+1][..b] == s[..b];
  }

  lemma {:induction false} CumMono(s: seq<nat>, i: nat, j: nat)
    requires i <= j <= |s|
    ensures Cum(s, i) <= Cum(s, j)
    decreases j - i
  {
    if i < j {
      TotalStep(s, j - 1);
      CumMono(s, i, j - 1);
    }
  }

  /** Outcome of the cumulative walk: the first bucket whose running count
      reaches the threshold, or the end of the table. */
  datatype Walked = Reached(b: nat) | Exhausted

  function WalkFrom(s: seq<nat>, t: nat, b: nat): (r: Walked)
    requires b <= |s|
    ensures r.Reached? ==> b <= r.b < |s| && t <= Cum(s, r.b + 1)
    ensures r.Reached? ==> forall j :: b < j <= r.b ==> Cum(s, j) < t
    ensures r.Exhausted? ==> forall j :: b < j <= |s| ==> Cum(s, j) < t
    decreases |s| - b
  {
    if b == |s| then Exhausted
    else if t <= Cum(s, b + 1) then Reached(b)
    else WalkFrom(s, t, b + 1)
  }

  /** The bucket loop of nb_histogram_percentile. */
  function Walk(s: seq<nat>, t: nat): (r: Walked)
    ensures r.Reached? ==> r.b < |s| && t <= Cum(s, r.b + 1)
    ensures r.Reached? ==> forall j :: 0 < j <= r.b ==> Cum(s, j) < t
    ensures r.Exhausted? ==> forall j :: 0 < j <= |s| ==> Cum(s, j) < t
  {
    WalkFrom(s, t, 0)
  }

  /** The walk stops inside the table exactly when the threshold does not
      exceed the number of samples. */
  lemma WalkReaches(s: seq<nat>, t: nat)
    requires |s| > 0
    ensures Walk(s, t).Reached? <==> t <= Total(s)
  {
    var w := Walk(s, t);
    assert Cum(s, |s|) == Total(s) by {
      assert s[..|s|] == s;
    }
    if w.Reached? {
      CumMono(s, w.b + 1, |s|);
    } else {
      assert Cum(s, |s|) < t;
    }
  }

  /** A larger threshold is reached no earlier. */
  lemma WalkMono(s: seq<nat>, t1: nat, t2: nat)
    requires t1 <= t2 && Walk(s, t2).Reached?
    ensures Walk(s, t1).Reached? && Walk(s, t1).b <= Walk(s, t2).b
  {
  }

  /** What the walk knows about the bucket it stops at, for a positive
      threshold: the samples before it fall short, the bucket is not
      empty. */
  lemma ReachedFacts(s: seq<nat>, t: nat)
    requires t >= 1 && Walk(s, t).Reached?
    ensures var b := Walk(s, t).b;
      Cum(s, b) < t <= Cum(s, b + 1) && s[b] > 0
  {
    var b := Walk(s, t).b;
    if b > 0 {
      assert Cum(s, b) < t;
    } else {
      assert s[..0] == [];
    }
    TotalStep(s, b);
  }

  /** The value the report uses for the lower edge of bucket b: bucket 0
      starts at 0. */
  function Lower(bounds: seq<real>, b: nat): real
    requires b <= |bounds|
  {
    if b == 0 then 0.0 else bounds[b-1]
  }

  lemma LowerBelow(bounds: seq<real>, b: nat)
    requires IsTable(bounds) && b < |bounds|
    ensures Lower(bounds, b) < bounds[b]
  {
  }

  lemma DivUnit(a: real, d: real)
    requires 0.0 <= a <= d && d > 0.0
    ensures 0.0 <= a / d <= 1.0
  {
  }

  lemma DivMono(a: real, b: real, d: real)
    requires a <= b && d > 0.0
    ensures a / d <= b / d
  {
  }

  /** The point at fraction scale of the way from lo to hi. */
  function Lerp(lo: real, hi: real, scale: real): (r: real)
    requires lo <= hi && 0.0 <= scale <= 1.0
    ensures lo <= r <= hi
  {
    var d := hi - lo;
    MulMono(d, 0.0, scale);
    MulMono(d, scale, 1.0);
    assert d * 0.0 == 0.0 && d * 1.0 == d;
    lo + d * scale
  }

  lemma LerpMono(lo: real, hi: real, s1: real, s2: real)
    requires lo <= hi && 0.0 <= s1 <= s2 <= 1.0
    ensures Lerp(lo, hi, s1) <= Lerp(lo, hi, s2)
  {
    var d := hi - lo;
    var a, b := d * s1, d * s2;
    MulMono(d, s1, s2);
    calc {
      Lerp(lo, hi, s1);
    ==
      lo + a;
    <= { assert a <= b; }
      lo + b;
    ==
      Lerp(lo, hi, s2);
    }
  }

  /** Linear interpolation between the edges of finite bucket b, at the
      position of threshold t among the samples of that bucket. */
  function Interpolate(bounds: seq<real>, s: seq<nat>, t: nat, b: nat): (r: real)
    requires IsTable(bounds) && b < |bounds| && b < |s|
    requires Cum(s, b) <= t <= Cum(s, b + 1) && Cum(s, b) < Cum(s, b + 1)
    ensures Lower(bounds, b) <= r <= bounds[b]
  {
    var left := Cum(s, b);
    var right := Cum(s, b + 1);
    var lo := Lower(bounds, b);
    var hi := bounds[b];
    var scale := (t - left) as real / (right - left) as real;
    DivUnit((t - left) as real, (right - left) as real);
    LowerBelow(bounds, b);
    Lerp(lo, hi, scale)
  }

  /** Within one bucket the interpolation grows with the threshold. */
  lemma InterpolateMono(bounds: seq<real>, s: seq<nat>, t1: nat, t2: nat, b: nat)
    requires IsTable(bounds) && b < |bounds| && b < |s|
    requires Cum(s, b) <= t1 <= t2 <= Cum(s, b + 1) && Cum(s, b) < Cum(s, b + 1)
    ensures Interpolate(bounds, s, t1, b) <= Interpolate(bounds, s, t2, b)
  {
    var left := Cum(s, b);
    var d := (Cum(s, b + 1) - left) as real;
    DivMono((t1 - left) as real, (t2 - left) as real, d);
    DivUnit((t1 - left) as real, d);
    DivUnit((t2 - left) as real, d);
    LowerBelow(bounds, b);
    LerpMono(Lower(bounds, b), bounds[b], (t1 - left) as real / d, (t2 - left) as real / d);
  }

  /** The final clamp of nb_histogram_percentile. */
  function Clamp(h: Hist, r: real): (c: real)
    requires h.min.Finite? && h.min.value <= h.max
    ensures h.min.value <= c <= h.max
    ensures h.min.value <= r <= h.max ==> c == r
  {
    if r < h.min.value then h.min.value else if r > h.max then h.max else r
  }

  lemma ClampMono(h: Hist, r1: real, r2: real)
    requires h.min.Finite? && h.min.value <= h.max && r1 <= r2
    ensures Clamp(h, r1) <= Clamp(h, r2)
  {
  }

  /** The result of a double computation: a number or NaN. */
  datatype Double = Num(x: real) | NaN

  /** nb_histogram_percentile as written. A zero-width count range makes
      the scale 0/0, NaN; NaN passes both clamp comparisons and is returned.
      In the catch-all bucket the upper edge is INFINITY: a positive scale
      makes the estimate infinite, clamped to max, and a zero scale would
      make it NaN. A histogram with no samples is excluded by the assertion
      in nb_histogram_dump, the only caller. */
  function PercentileAsWritten(bounds: seq<real>, h: Hist, p: real): (r: Double)
    requires IsTable(bounds) && Valid(bounds, h) && h.size > 0 && p >= 0.0
    ensures r.Num? ==> h.min.value <= r.x <= h.max
  {
    var t := Threshold(h.size, p);
    match Walk(h.buckets, t)
    case Exhausted => Num(h.max)
    case Reached(b) =>
      var left := Cum(h.buckets, b);
      var right := Cum(h.buckets, b + 1);
      if right == left then NaN
      else if b == |bounds| then (if t == left then NaN else Num(h.max))
      else
        assert b > 0 ==> left < t;
        Num(Clamp(h, Interpolate(bounds, h.buckets, t, b)))
  }

  lemma FloorMono(x: real, y: real)
    requires x <= y
    ensures x.Floor <= y.Floor
  {
  }

  /** The unclamped estimate for a positive threshold that the walk reaches
      inside a finite bucket. */
  function Estimate(bounds: seq<real>, s: seq<nat>, t: nat): (r: real)
    requires IsTable(bounds) && |s| == |bounds| + 1 && t >= 1
    requires Walk(s, t).Reached? && Walk(s, t).b < |bounds|
    ensures Lower(bounds, Walk(s, t).b) <= r <= bounds[Walk(s, t).b]
  {
    ReachedFacts(s, t);
    Interpolate(bounds, s, t, Walk(s, t).b)
  }

  /** A larger threshold never gives a smaller estimate: a later bucket lies
      entirely above an earlier one, and inside one bucket the
      interpolation grows. */
  lemma EstimateMono(bounds: seq<real>, s: seq<nat>, t1: nat, t2: nat)
    requires IsTable(bounds) && |s| == |bounds| + 1 && 1 <= t1 <= t2
    requires Walk(s, t2).Reached? && Walk(s, t2).b < |bounds|
    ensures Walk(s, t1).Reached? && Walk(s, t1).b < |bounds|
    ensures Estimate(bounds, s, t1) <= Estimate(bounds, s, t2)
  {
    WalkMono(s, t1, t2);
    var b1 := Walk(s, t1).b;
    var b2 := Walk(s, t2).b;
    ReachedFacts(s, t1);
    ReachedFacts(s, t2);
    if b1 == b2 {
      InterpolateMono(bounds, s, t1, t2, b1);
    } else {
      assert bounds[b1] <= Lower(bounds, b2);
    }
  }

  /** The corrected estimate: nb_histogram_percentile with the 0/0 of an
      empty bucket 0 at threshold 0 read as a scale of 0, so that the
      estimate is the lower edge of bucket 0, clamped to [min, max], as it
      is when bucket 0 holds samples. Every other input gives what the
      source gives: AgreeWhenNumber. */
  function Percentile(bounds: seq<real>, h: Hist, p: real): (r: real)
    requires IsTable(bounds) && Valid(bounds, h) && h.size > 0 && p >= 0.0
    ensures h.min.value <= r <= h.max
  {
    var t := Threshold(h.size, p);
    if t == 0 then Clamp(h, Lower(bounds, 0))
    else match Walk(h.buckets, t)
      case Exhausted => h.max
      case Reached(b) =>
        if b == |bounds| then h.max else Clamp(h, Estimate(bounds, h.buckets, t))
  }

  /** NaN comes out exactly when the threshold is zero and bucket 0 is
      empty: any other empty bucket is passed over by the walk. */
  lemma NaNIff(bounds: seq<real>, h: Hist, p: real)
    requires IsTable(bounds) && Valid(bounds, h) && h.size > 0 && p >= 0.0
    ensures PercentileAsWritten(bounds, h, p) == NaN
        <==> Threshold(h.size, p) == 0 && h.buckets[0] == 0
  {
    var s := h.buckets;
    var t := Threshold(h.size, p);
    TotalStep(s, 0);
    assert s[..0] == [];
    WalkReaches(s, t);
    match Walk(s, t)
    case Exhausted =>
    case Reached(b) =>
      TotalStep(s, b);
      if b > 0 {
        assert Cum(s, b) < t;
      }
  }

  /** For fewer than 20 samples none of which is in bucket 0, the 5th
      percentile that nb_engine_run asks for comes out NaN. */
  lemma FewSamplesNaN(bounds: seq<real>, h: Hist)
    requires IsTable(bounds) && Valid(bounds, h) && 0 < h.size < 20 && h.buckets[0] == 0
    ensures PercentileAsWritten(bounds, h, 0.05) == NaN
  {
    NaNIff(bounds, h, 0.05);
  }

  /** A concrete run: the engine's histogram (exponent 6) after one operation
      that took 5 microseconds, which lands in bucket [4, 5]. */
  lemma OneSampleNaN()
    ensures IsTable(Bounds)
    ensures var h := Add(Bounds, New(Bounds, 6), 0.000005);
      PercentileAsWritten(Bounds, h, 0.05) == NaN
  {
    BoundsIncreasing();
    BoundsIsTable();
    var h0 := New(Bounds, 6);
    assert Pow10(6) == 1000000.0 by {
      assert Pow10(1) == 10.0;
      assert Pow10(2) == 100.0;
      assert Pow10(3) == 1000.0;
      assert Pow10(4) == 10000.0;
      assert Pow10(5) == 100000.0;
    }
    assert Scale(6, 0.000005) == 5.0;
    var h := Add(Bounds, h0, 0.000005);
    assert !InBucket(Bounds, 0, 5.0);
    FewSamplesNaN(Bounds, h);
  }

  /** Wherever the source's percentile is a number, the corrected one is
      that number. */
  lemma AgreeWhenNumber(bounds: seq<real>, h: Hist, p: real)
    requires IsTable(bounds) && Valid(bounds, h) && h.size > 0 && p >= 0.0
    ensures PercentileAsWritten(bounds, h, p).Num? ==>
      PercentileAsWritten(bounds, h, p) == Num(Percentile(bounds, h, p))
  {
    var s := h.buckets;
    var t := Threshold(h.size, p);
    if t == 0 {
      assert s[..0] == [];
      TotalStep(s, 0);
      assert Walk(s, 0) == Reached(0);
      if s[0] > 0 {
        var left := Cum(s, 0);
        var right := Cum(s, 1);
        var d := (right - left) as real;
        assert (t - left) as real / d == 0.0;
        assert Interpolate(bounds, s, t, 0) == Lower(bounds, 0);
      }
    } else if Walk(s, t).Reached? {
      ReachedFacts(s, t);
      TotalStep(s, Walk(s, t).b);
    }
  }

  /** Every percentile the report lists is the source's, unless the
      source's is NaN. */
  lemma AgreeAll(bounds: seq<real>, h: Hist, ps: seq<real>)
    requires IsTable(bounds) && Valid(bounds, h) && h.size > 0
    requires forall i :: 0 <= i < |ps| ==> ps[i] >= 0.0
    ensures forall i :: 0 <= i < |ps| ==> PercentileAsWritten(bounds, h, ps[i]).Num? ==>
      PercentileAsWritten(bounds, h, ps[i]).x == Percentile(bounds, h, ps[i])
  {
    forall i | 0 <= i < |ps| {
      AgreeWhenNumber(bounds, h, ps[i]);
    }
  }

  /** For p <= 1 the walk always stops inside the table, so the trailing
      `return max` is dead code. */
  lemma NoFallback(bounds: seq<real>, h: Hist, p: real)
    requires IsTable(bounds) && Valid(bounds, h) && h.size > 0 && 0.0 <= p <= 1.0
    ensures Walk(h.buckets, Threshold(h.size, p)).Reached?
    ensures Walk(h.buckets, 1).Reached?
  {
    MulMono(h.size as real, p, 1.0);
    assert Threshold(h.size, p) <= h.size;
    WalkReaches(h.buckets, Threshold(h.size, p));
    WalkReaches(h.buckets, 1);
  }

  /** When the walk stops in the catch-all bucket the estimate is max: the
      INFINITY times zero case cannot arise. */
  lemma CatchAllIsMax(bounds: seq<real>, h: Hist, p: real)
    requires IsTable(bounds) && Valid(bounds, h) && h.size > 0 && p >= 0.0
    requires Walk(h.buckets, Threshold(h.size, p)) == Reached(|bounds|)
    ensures PercentileAsWritten(bounds, h, p) == Num(h.max)
  {
    var t := Threshold(h.size, p);
    assert Cum(h.buckets, |bounds|) < t;
  }

  /** Every finite bucket, and so every estimate, starts at or above 0. */
  lemma LowerNonNegative(bounds: seq<real>, b: nat)
    requires IsTable(bounds) && b < |bounds|
    ensures 0.0 <= Lower(bounds, b)
  {
  }

  /** A zero threshold gives the least estimate: the lower edge of bucket 0
      lies below every estimate. */
  lemma ZeroThresholdLeast(bounds: seq<real>, h: Hist, p: real)
    requires IsTable(bounds) && Valid(bounds, h) && h.size > 0 && p >= 0.0
    ensures Clamp(h, Lower(bounds, 0)) <= Percentile(bounds, h, p)
  {
    var t := Threshold(h.size, p);
    if t >= 1 && Walk(h.buckets, t).Reached? && Walk(h.buckets, t).b < |bounds| {
      var e := Estimate(bounds, h.buckets, t);
      LowerNonNegative(bounds, Walk(h.buckets, t).b);
      ClampMono(h, Lower(bounds, 0), e);
      assert Percentile(bounds, h, p) == Clamp(h, e);
    }
  }

  /** Between two positive thresholds the estimate grows. */
  lemma PositiveThresholdMono(bounds: seq<real>, h: Hist, p1: real, p2: real)
    requires IsTable(bounds) && Valid(bounds, h) && h.size > 0 && 0.0 <= p1 && 0.0 <= p2
    requires 1 <= Threshold(h.size, p1) <= Threshold(h.size, p2)
    ensures Percentile(bounds, h, p1) <= Percentile(bounds, h, p2)
  {
    var s := h.buckets;
    var t1 := Threshold(h.size, p1);
    var t2 := Threshold(h.size, p2);
    if Walk(s, t2).Reached? && Walk(s, t2).b < |bounds| {
      EstimateMono(bounds, s, t1, t2);
      ClampMono(h, Estimate(bounds, s, t1), Estimate(bounds, s, t2));
      assert Percentile(bounds, h, p1) == Clamp(h, Estimate(bounds, s, t1));
      assert Percentile(bounds, h, p2) == Clamp(h, Estimate(bounds, s, t2));
    }
  }

  /** The corrected estimate never decreases as p grows. */
  lemma PercentileMono(bounds: seq<real>, h: Hist, p1: real, p2: real)
    requires IsTable(bounds) && Valid(bounds, h) && h.size > 0
    requires 0.0 <= p1 <= p2
    ensures Percentile(bounds, h, p1) <= Percentile(bounds, h, p2)
  {
    MulMono(h.size as real, p1, p2);
    FloorMono(h.size as real * p1, h.size as real * p2);
    if Threshold(h.size, p1) == 0 {
      ZeroThresholdLeast(bounds, h, p2);
    } else {
      PositiveThresholdMono(bounds, h, p1, p2);
    }
  }

  /** The average divides a sum that lies between size * min and
      size * max. */
  lemma MeanBetween(n: real, lo: real, hi: real, sum: real)
    requires n > 0.0 && n * lo <= sum <= n * hi
    ensures lo <= sum / n <= hi
  {
    assert (n * lo) / n == lo;
    assert (n * hi) / n == hi;
    DivMono(n * lo, sum, n);
    DivMono(sum, n * hi, n);
  }

  lemma AverageWithin(h: Hist)
    requires h.size > 0
    ensures MeanWithin(h) ==> h.min.value <= h.sum / h.size as real <= h.max
  {
    if MeanWithin(h) {
      MeanBetween(h.size as real, h.min.value, h.max, h.sum);
    }
  }

  /** The figures nb_histogram_dump reports besides the bucket rows. */
  datatype Summary = Summary(min: real, avg: real, max: real, percentiles: seq<real>)

  /** nb_histogram_dump, apart from the formatting: it asserts the
      histogram is not empty, then reports min, average, max and one
      estimate per requested percentile. */
  function Dump(bounds: seq<real>, h: Hist, ps: seq<real>): (r: Summary)
    requires IsTable(bounds) && Valid(bounds, h) && h.size > 0
    requires forall i :: 0 <= i < |ps| ==> ps[i] >= 0.0
    ensures r.min == h.min.value && r.max == h.max && r.min <= r.max
    ensures |r.percentiles| == |ps|
    ensures forall i :: 0 <= i < |ps| ==> r.min <= r.percentiles[i] <= r.max
    ensures MeanWithin(h) ==> r.min <= r.avg <= r.max
    ensures r.avg * h.size as real == h.sum
    ensures forall i :: 0 <= i < |ps| ==> PercentileAsWritten(bounds, h, ps[i]).Num? ==>
      r.percentiles[i] == PercentileAsWritten(bounds, h, ps[i]).x
  {
    AverageWithin(h);
    AgreeAll(bounds, h, ps);
    Summary(h.min.value, h.sum / h.size as real, h.max,
            seq(|ps|, i requires 0 <= i < |ps| => Percentile(bounds, h, ps[i])))
  }

  /** The dump of the samples of a run: min is the least of them and max
      the greatest of them and 0 (the histogram starts with max 0), the
      average is their mean, and every bucket counts the samples in it. */
  lemma DumpOfSamples(bounds: seq<real>, power: int, vals: seq<real>, ps: seq<real>)
    requires IsTable(bounds) && |vals| > 0
    requires forall i :: 0 <= i < |ps| ==> ps[i] >= 0.0
    ensures var h := AddAll(bounds, New(bounds, power), vals);
      var xs := Scaled(power, vals);
      var d := Dump(bounds, h, ps);
      && (forall i :: 0 <= i < |xs| ==> d.min <= xs[i] <= d.max)
      && (exists i :: 0 <= i < |xs| && d.min == xs[i])
      && 0.0 <= d.max && (d.max == 0.0 || exists i :: 0 <= i < |xs| && d.max == xs[i])
      && d.avg == Sum(xs) / |xs| as real
      && forall k :: 0 <= k < |h.buckets| ==> h.buckets[k] == CountIn(bounds, k, xs)
  {
    var h0 := New(bounds, power);
    var h := AddAll(bounds, h0, vals);
    var xs := Scaled(power, vals);
    AddAllSum(bounds, h0, vals);
    AddAllCounts(bounds, h0, vals);
    AddAllExtremes(bounds, h0, vals);
    forall i | 0 <= i < |xs| ensures h.min.value <= xs[i] <= h.max {
      assert xs[i] == Scale(power, vals[i]);
    }
    assert h.sum == Sum(xs);
  }
}
