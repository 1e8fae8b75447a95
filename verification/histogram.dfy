/**
 * The latency histogram of nb_histogram.c: one fixed table of bucket
 * boundaries shared by every histogram, and per-run counters with running
 * minimum, maximum, sum and sum of squares.
 *
 * Values are `real` and counters `nat`: IEEE-754 rounding, NaN inputs and
 * `size_t` overflow are not modelled. The INFINITY sentinel that closes the
 * source's table becomes an unbounded last bucket.
 */
module Histogram {

  // The boundaries, one decade per row (they were taken from the LevelDB
  // benchmark so that reports are comparable with it). Each row is checked
  // to be increasing on its own; see BoundsIncreasing.
  const Row0: seq<real> := [
    1.0, 2.0, 3.0, 4.0, 5.0, 6.0, 7.0, 8.0, 9.0, 10.0]
  const Row1: seq<real> := [
    12.0, 14.0, 16.0, 18.0, 20.0, 25.0, 30.0, 35.0, 40.0, 45.0, 50.0,
    60.0, 70.0, 80.0, 90.0, 100.0]
  const Row2: seq<real> := [
    120.0, 140.0, 160.0, 180.0, 200.0, 250.0, 300.0, 350.0, 400.0, 450.0,
    500.0, 600.0, 700.0, 800.0, 900.0, 1000.0]
  const Row3: seq<real> := [
    1200.0, 1400.0, 1600.0, 1800.0, 2000.0, 2500.0, 3000.0, 3500.0,
    4000.0, 4500.0, 5000.0, 6000.0, 7000.0, 8000.0, 9000.0, 10000.0]
  const Row4: seq<real> := [
    12000.0, 14000.0, 16000.0, 18000.0, 20000.0, 25000.0, 30000.0,
    35000.0, 40000.0, 45000.0, 50000.0, 60000.0, 70000.0, 80000.0,
    90000.0, 100000.0]
  const Row5: seq<real> := [
    120000.0, 140000.0, 160000.0, 180000.0, 200000.0, 250000.0, 300000.0,
    350000.0, 400000.0, 450000.0, 500000.0, 600000.0, 700000.0, 800000.0,
    900000.0, 1000000.0]
  const Row6: seq<real> := [
    1200000.0, 1400000.0, 1600000.0, 1800000.0, 2000000.0, 2500000.0,
    3000000.0, 3500000.0, 4000000.0, 4500000.0, 5000000.0, 6000000.0,
    7000000.0, 8000000.0, 9000000.0, 10000000.0]
  const Row7: seq<real> := [
    12000000.0, 14000000.0, 16000000.0, 18000000.0, 20000000.0,
    25000000.0, 30000000.0, 35000000.0, 40000000.0, 45000000.0,
    50000000.0, 60000000.0, 70000000.0, 80000000.0, 90000000.0,
    100000000.0]
  const Row8: seq<real> := [
    120000000.0, 140000000.0, 160000000.0, 180000000.0, 200000000.0,
    250000000.0, 300000000.0, 350000000.0, 400000000.0, 450000000.0,
    500000000.0, 600000000.0, 700000000.0, 800000000.0, 900000000.0,
    1000000000.0]
  const Row9: seq<real> := [
    1200000000.0, 1400000000.0, 1600000000.0, 1800000000.0, 2000000000.0,
    2500000000.0, 3000000000.0, 3500000000.0, 4000000000.0, 4500000000.0,
    5000000000.0, 6000000000.0, 7000000000.0, 8000000000.0, 9000000000.0]
  const Row10: seq<real> := [
    1e200]

  /** The finite bucket boundaries. Bucket k holds the values v with
      Bounds[k-1] < v <= Bounds[k]; bucket 0 has no lower bound and the
      catch-all bucket |Bounds| has no upper bound. */
  const Bounds: seq<real> :=
    Row0 + Row1 + Row2 + Row3 + Row4 + Row5 + Row6 + Row7 + Row8 + Row9 + Row10


  ghost predicate AdjacentIncreasing(s: seq<real>) {
    forall i :: 0 < i < |s| ==> s[i-1] < s[i]
  }

  ghost predicate StrictlyIncreasing(s: seq<real>) {
    forall i, j :: 0 <= i < j < |s| ==> s[i] < s[j]
  }

  lemma AppendIncreasing(a: seq<real>, b: seq<real>)
    requires AdjacentIncreasing(a) && AdjacentIncreasing(b)
    requires |a| > 0 && |b| > 0 && a[|a|-1] < b[0]
    ensures AdjacentIncreasing(a + b)
  {
  }

  lemma {:induction false} AdjacentIsStrict(s: seq<real>)
    requires AdjacentIncreasing(s)
    ensures StrictlyIncreasing(s)
  {
    forall i, j | 0 <= i < j < |s| ensures s[i] < s[j] {
      var k := i + 1;
      while k < j
        invariant i < k <= j
        invariant s[i] < s[k]
      {
        k := k + 1;
      }
    }
  }

  lemma Row0Increasing() ensures AdjacentIncreasing(Row0) {}
  lemma Row1Increasing() ensures AdjacentIncreasing(Row1) {}
  lemma Row2Increasing() ensures AdjacentIncreasing(Row2) {}
  lemma Row3Increasing() ensures AdjacentIncreasing(Row3) {}
  lemma Row4Increasing() ensures AdjacentIncreasing(Row4) {}
  lemma Row5Increasing() ensures AdjacentIncreasing(Row5) {}
  lemma Row6Increasing() ensures AdjacentIncreasing(Row6) {}
  lemma Row7Increasing() ensures AdjacentIncreasing(Row7) {}
  lemma Row8Increasing() ensures AdjacentIncreasing(Row8) {}
  lemma Row9Increasing() ensures AdjacentIncreasing(Row9) {}
  lemma Row10Increasing() ensures AdjacentIncreasing(Row10) {}

  /** The table has 154 finite boundaries, starts at 1, ends at 1e200 and is
      strictly increasing. */
  lemma BoundsIncreasing()
    ensures |Bounds| == 154
    ensures Bounds[0] == 1.0 && Bounds[|Bounds| - 1] == 1e200
    ensures StrictlyIncreasing(Bounds)
  {
    Row0Increasing();
    var acc := Row0;
    Row1Increasing(); AppendIncreasing(acc, Row1); acc := acc + Row1;
    Row2Increasing(); AppendIncreasing(acc, Row2); acc := acc + Row2;
    Row3Increasing(); AppendIncreasing(acc, Row3); acc := acc + Row3;
    Row4Increasing(); AppendIncreasing(acc, Row4); acc := acc + Row4;
    Row5Increasing(); AppendIncreasing(acc, Row5); acc := acc + Row5;
    Row6Increasing(); AppendIncreasing(acc, Row6); acc := acc + Row6;
    Row7Increasing(); AppendIncreasing(acc, Row7); acc := acc + Row7;
    Row8Increasing(); AppendIncreasing(acc, Row8); acc := acc + Row8;
    Row9Increasing(); AppendIncreasing(acc, Row9); acc := acc + Row9;
    Row10Increasing(); AppendIncreasing(acc, Row10); acc := acc + Row10;
    assert acc == Bounds;
    AdjacentIsStrict(Bounds);
  }

  /** What the model needs of a boundary table: at least one finite
      boundary, the first one positive (bucket 0 is reported as starting at
      0), strictly increasing. Every operation below takes the table as a
      parameter; the source always uses Bounds. */
  ghost predicate IsTable(bounds: seq<real>) {
    |bounds| > 0 && 0.0 < bounds[0] && StrictlyIncreasing(bounds)
  }

  /** The source's table qualifies, with 155 buckets in all
      (NB_HISTOGRAM_BUCKETS_COUNT). */
  lemma BoundsIsTable()
    ensures IsTable(Bounds) && |Bounds| + 1 == 155
  {
    BoundsIncreasing();
  }

  /** Value v is counted in bucket k: it lies above the boundary before k
      and at or below k's own boundary; bucket |bounds| is the catch-all. */
  predicate InBucket(bounds: seq<real>, k: nat, v: real) {
    && k <= |bounds|
    && (k == 0 || bounds[k-1] < v)
    && (k == |bounds| || v <= bounds[k])
  }

  /** A value belongs to at most one bucket. */
  lemma BucketUnique(bounds: seq<real>, k1: nat, k2: nat, v: real)
    requires IsTable(bounds)
    requires InBucket(bounds, k1, v) && InBucket(bounds, k2, v)
    ensures k1 == k2
  {
  }

  function BucketFrom(bounds: seq<real>, v: real, k: nat): (b: nat)
    requires k <= |bounds| && (k == 0 || bounds[k-1] < v)
    ensures k <= b && InBucket(bounds, b, v)
    decreases |bounds| - k
  {
    if k == |bounds| || v <= bounds[k] then k else BucketFrom(bounds, v, k + 1)
  }

  /** The bucket a (scaled) value is counted in: a linear reference for the
      binary search of Locate. */
  function BucketOf(bounds: seq<real>, v: real): (b: nat)
    ensures InBucket(bounds, b, v)
  {
    BucketFrom(bounds, v, 0)
  }

  /** A value equal to a boundary is counted in that boundary's bucket, not in
      the next one. */
  lemma BoundaryTie(bounds: seq<real>, i: nat)
    requires IsTable(bounds) && i < |bounds|
    ensures BucketOf(bounds, bounds[i]) == i
  {
    assert InBucket(bounds, i, bounds[i]);
    BucketUnique(bounds, i, BucketOf(bounds, bounds[i]), bounds[i]);
  }

  /** The bucket search of nb_histogram_add: a binary search over
      [begin, end] with midpoint begin/2 + end/2 that stops when the midpoint
      reaches begin, then a backward linear scan from end. It never reads
      the INFINITY sentinel, which is why the catch-all needs no boundary. */
  method Locate(bounds: seq<real>, v: real) returns (k: nat)
    requires IsTable(bounds)
    ensures InBucket(bounds, k, v)
    ensures k == BucketOf(bounds, v)
  {
    var begin: nat := 0;
    var end: nat := |bounds|;
    while true
      invariant begin < end <= |bounds|
      invariant begin == 0 || bounds[begin-1] < v
      invariant end == |bounds| || v <= bounds[end]
      decreases end - begin
    {
      var mid: nat := begin / 2 + end / 2;
      if mid == begin {
        mid := end;
        while mid > begin
          invariant begin <= mid <= end
          invariant forall m :: mid <= m < end ==> v <= bounds[m]
          decreases mid
        {
          if bounds[mid-1] < v {
            break;
          }
          mid := mid - 1;
        }
        k := mid;
        BucketUnique(bounds, k, BucketOf(bounds, v), v);
        return;
      }
      if bounds[mid-1] < v {
        begin := mid;
      } else {
        end := mid;
      }
    }
  }

  /** 10^e, the factor nb_histogram_add scales every value by. */
  function Pow10(e: int): (r: real)
    ensures r > 0.0
    decreases if e < 0 then -e else e
  {
    if e == 0 then 1.0
    else if e > 0 then 10.0 * Pow10(e - 1)
    else Pow10(e + 1) / 10.0
  }

  /** The running minimum starts at +infinity. */
  datatype ExtReal = Finite(value: real) | Infinite

  datatype Hist = Hist(
    min: ExtReal,
    max: real,
    sum: real,
    sumsq: real,
    size: nat,
    buckets: seq<nat>,
    power: int)

  /** Sum of the counters. */
  function Total(s: seq<nat>): nat {
    if |s| == 0 then 0 else Total(s[..|s|-1]) + s[|s|-1]
  }

  lemma {:induction false} TotalIncrement(s: seq<nat>, k: nat)
    requires k < |s|
    ensures Total(s[k := s[k] + 1]) == Total(s) + 1
  {
    var t := s[k := s[k] + 1];
    var n := |s| - 1;
    if k == n {
      assert t[..n] == s[..n];
    } else {
      assert t[..n] == s[..n][k := s[k] + 1];
      TotalIncrement(s[..n], k);
    }
  }

  lemma {:induction false} TotalZeros(n: nat)
    ensures Total(seq(n, _ => 0)) == 0
  {
    if n > 0 {
      assert seq(n, _ => 0)[..n-1] == seq(n - 1, _ => 0);
      TotalZeros(n - 1);
    }
  }

  /** What every histogram reachable through New, Clear and Add satisfies:
      one counter per bucket, the counters sum to size, and once a sample
      exists min <= max. */
  ghost predicate Valid(bounds: seq<real>, h: Hist) {
    && |h.buckets| == |bounds| + 1
    && Total(h.buckets) == h.size
    && h.sumsq >= 0.0
    && (h.size == 0 ==> h.min == Infinite && h.max == 0.0 && h.sum == 0.0 && h.sumsq == 0.0)
    && (h.size > 0 ==> h.min.Finite? && h.min.value <= h.max)
  }

  /** The average sum/size lies between min and max (stated without the
      division). */
  ghost predicate MeanWithin(h: Hist) {
    h.size > 0 ==>
      h.min.Finite? && h.size as real * h.min.value <= h.sum <= h.size as real * h.max
  }

  /** nb_histogram_clear. */
  function Clear(bounds: seq<real>, h: Hist): (r: Hist)
    ensures Valid(bounds, r) && r.size == 0 && r.power == h.power
    ensures forall k :: 0 <= k < |r.buckets| ==> r.buckets[k] == 0
    ensures r.min == Infinite && r.max == 0.0 && r.sum == 0.0 && r.sumsq == 0.0
  {
    TotalZeros(|bounds| + 1);
    Hist(Infinite, 0.0, 0.0, 0.0, 0, seq(|bounds| + 1, _ => 0), h.power)
  }

  /** nb_histogram_new, apart from the allocation: sets the exponent and
      clears. */
  function New(bounds: seq<real>, power: int): (r: Hist)
    ensures Valid(bounds, r) && r.power == power && r.size == 0
    ensures r == Clear(bounds, r)
  {
    Clear(bounds, Hist(Infinite, 0.0, 0.0, 0.0, 0, [], power))
  }

  lemma MulMono(n: real, a: real, b: real)
    requires n >= 0.0 && a <= b
    ensures n * a <= n * b
  {
  }

  /** The update nb_histogram_add makes for an already scaled value v. */
  function Fold(bounds: seq<real>, h: Hist, v: real): Hist
    requires |h.buckets| == |bounds| + 1
  {
    var k := BucketOf(bounds, v);
    Hist(if h.min.Infinite? || h.min.value > v then Finite(v) else h.min,
         if h.max < v then v else h.max,
         h.sum + v,
         h.sumsq + v * v,
         h.size + 1,
         h.buckets[k := h.buckets[k] + 1],
         h.power)
  }

  lemma FoldTotal(bounds: seq<real>, h: Hist, v: real)
    requires |h.buckets| == |bounds| + 1
    ensures Total(Fold(bounds, h, v).buckets) == Total(h.buckets) + 1
  {
    TotalIncrement(h.buckets, BucketOf(bounds, v));
  }

  /** Fold counts v in exactly one bucket. */
  lemma FoldCounts(bounds: seq<real>, h: Hist, v: real)
    requires IsTable(bounds) && |h.buckets| == |bounds| + 1
    ensures var r := Fold(bounds, h, v);
      forall j :: 0 <= j < |r.buckets| ==>
        r.buckets[j] == if InBucket(bounds, j, v) then h.buckets[j] + 1 else h.buckets[j]
  {
    var r := Fold(bounds, h, v);
    var k := BucketOf(bounds, v);
    forall j | 0 <= j < |r.buckets|
      ensures r.buckets[j] == if InBucket(bounds, j, v) then h.buckets[j] + 1 else h.buckets[j]
    {
      if InBucket(bounds, j, v) {
        BucketUnique(bounds, j, k, v);
      }
    }
  }

  /** One more sample between the new extremes keeps the sum between
      size * min and size * max. */
  lemma MeanStep(n: real, lo: real, hi: real, sum: real, lo': real, hi': real, v: real)
    requires n >= 0.0 && n * lo <= sum <= n * hi
    requires lo' <= lo && hi <= hi' && lo' <= v <= hi'
    ensures (n + 1.0) * lo' <= sum + v <= (n + 1.0) * hi'
  {
    MulMono(n, lo', lo);
    MulMono(n, hi, hi');
  }

  /** The bucket search and the statistics update of nb_histogram_add, for
      an already scaled value v: exactly the counter of v's bucket moves, and
      v is folded into min, max, sum and sum of squares. */
  function Record(bounds: seq<real>, h: Hist, v: real): (r: Hist)
    requires IsTable(bounds) && Valid(bounds, h)
    ensures Valid(bounds, r)
    ensures r.power == h.power && r.size == h.size + 1
    ensures forall k :: 0 <= k < |r.buckets| ==>
      r.buckets[k] == if InBucket(bounds, k, v) then h.buckets[k] + 1 else h.buckets[k]
    ensures r.min == Finite(if h.min.Finite? && h.min.value <= v then h.min.value else v)
    ensures r.max == if h.max < v then v else h.max
    ensures r.sum == h.sum + v && r.sumsq == h.sumsq + v * v
  {
    FoldTotal(bounds, h, v);
    FoldCounts(bounds, h, v);
    Fold(bounds, h, v)
  }

  /** The value nb_histogram_add records for a raw sample val. */
  function Scale(power: int, val: real): real {
    val * Pow10(power)
  }

  /** nb_histogram_add: the value is scaled by 10^power before it is
      recorded. */
  function Add(bounds: seq<real>, h: Hist, val: real): (r: Hist)
    requires IsTable(bounds) && Valid(bounds, h)
    ensures Valid(bounds, r) && r.power == h.power && r.size == h.size + 1
    ensures forall k :: 0 <= k < |r.buckets| ==>
      r.buckets[k] == if InBucket(bounds, k, Scale(h.power, val)) then h.buckets[k] + 1 else h.buckets[k]
    ensures var v := Scale(h.power, val);
      && r.min == Finite(if h.min.Finite? && h.min.value <= v then h.min.value else v)
      && r.max == (if h.max < v then v else h.max)
      && r.sum == h.sum + v && r.sumsq == h.sumsq + v * v
  {
    Record(bounds, h, Scale(h.power, val))
  }

  /** Recording a sample keeps the average between min and max. */
  lemma RecordKeepsMean(bounds: seq<real>, h: Hist, v: real)
    requires IsTable(bounds) && Valid(bounds, h) && MeanWithin(h)
    ensures MeanWithin(Record(bounds, h, v))
  {
    var r := Record(bounds, h, v);
    if h.size > 0 {
      assert r.min.value <= h.min.value && r.min.value <= v;
      assert h.max <= r.max && v <= r.max;
      MeanGrows(h, r, v);
    }
  }

  lemma MeanGrows(h: Hist, r: Hist, v: real)
    requires h.size > 0 && MeanWithin(h) && r.size == h.size + 1 && r.sum == h.sum + v
    requires r.min.Finite? && r.min.value <= h.min.value && r.min.value <= v
    requires h.max <= r.max && v <= r.max
    ensures MeanWithin(r)
  {
    MeanStep(h.size as real, h.min.value, h.max, h.sum, r.min.value, r.max, v);
    assert r.size as real == h.size as real + 1.0;
  }

  /** Adding a sequence of raw samples in order, as the benchmark loop does:
      the size grows by their number and every one of them, scaled, lies
      between the final min and max. */
  function AddAll(bounds: seq<real>, h: Hist, vals: seq<real>): (r: Hist)
    requires IsTable(bounds) && Valid(bounds, h)
    ensures Valid(bounds, r) && r.power == h.power && r.size == h.size + |vals|
    ensures h.min.Finite? ==> r.min.Finite? && r.min.value <= h.min.value
    ensures h.max <= r.max
    ensures forall i :: 0 <= i < |vals| ==>
      r.min.Finite? && r.min.value <= Scale(h.power, vals[i]) <= r.max
    decreases |vals|
  {
    if |vals| == 0 then h
    else AddAll(bounds, Add(bounds, h, vals[0]), vals[1..])
  }

  lemma {:induction false} AddAllKeepsMean(bounds: seq<real>, h: Hist, vals: seq<real>)
    requires IsTable(bounds) && Valid(bounds, h) && MeanWithin(h)
    ensures MeanWithin(AddAll(bounds, h, vals))
    decreases |vals|
  {
    if |vals| > 0 {
      RecordKeepsMean(bounds, h, Scale(h.power, vals[0]));
      AddAllKeepsMean(bounds, Add(bounds, h, vals[0]), vals[1..]);
    }
  }

  /** Adding one more sample after a sequence is adding the longer
      sequence: the benchmark loop may add its samples one at a time. */
  lemma {:induction false} AddAllSnoc(bounds: seq<real>, h: Hist, vals: seq<real>, v: real)
    requires IsTable(bounds) && Valid(bounds, h)
    ensures AddAll(bounds, h, vals + [v]) == Add(bounds, AddAll(bounds, h, vals), v)
    decreases |vals|
  {
    if |vals| == 0 {
      assert vals + [v] == [v];
      assert [v][1..] == [];
    } else {
      assert (vals + [v])[0] == vals[0];
      assert (vals + [v])[1..] == vals[1..] + [v];
      AddAllSnoc(bounds, Add(bounds, h, vals[0]), vals[1..], v);
    }
  }

  /** The values nb_histogram_add records for the raw samples vals. */
  function Scaled(power: int, vals: seq<real>): (xs: seq<real>)
    ensures |xs| == |vals|
  {
    seq(|vals|, i requires 0 <= i < |vals| => Scale(power, vals[i]))
  }

  function Sum(xs: seq<real>): real
    decreases |xs|
  {
    if |xs| == 0 then 0.0 else xs[0] + Sum(xs[1..])
  }

  /** How many of xs lie in bucket k. */
  function CountIn(bounds: seq<real>, k: nat, xs: seq<real>): nat
    decreases |xs|
  {
    if |xs| == 0 then 0
    else (if InBucket(bounds, k, xs[0]) then 1 else 0) + CountIn(bounds, k, xs[1..])
  }

  /** Adding a sequence of raw samples grows the sum by the sum of the
      scaled samples. */
  lemma {:induction false} AddAllSum(bounds: seq<real>, h: Hist, vals: seq<real>)
    requires IsTable(bounds) && Valid(bounds, h)
    ensures AddAll(bounds, h, vals).sum == h.sum + Sum(Scaled(h.power, vals))
    decreases |vals|
  {
    if |vals| > 0 {
      var h1 := Add(bounds, h, vals[0]);
      assert Scaled(h.power, vals[1..]) == Scaled(h.power, vals)[1..];
      AddAllSum(bounds, h1, vals[1..]);
    }
  }

  /** Adding a sequence of raw samples grows each counter by the number of
      scaled samples in its bucket. */
  lemma {:induction false} AddAllCounts(bounds: seq<real>, h: Hist, vals: seq<real>)
    requires IsTable(bounds) && Valid(bounds, h)
    ensures var r := AddAll(bounds, h, vals);
      forall k :: 0 <= k < |r.buckets| ==>
        r.buckets[k] == h.buckets[k] + CountIn(bounds, k, Scaled(h.power, vals))
    decreases |vals|
  {
    if |vals| > 0 {
      var h1 := Add(bounds, h, vals[0]);
      var xs := Scaled(h.power, vals);
      assert Scaled(h.power, vals[1..]) == xs[1..];
      AddAllCounts(bounds, h1, vals[1..]);
    }
  }

  /** After adding a sequence of raw samples, min and max are either the
      old ones or one of the scaled samples. */
  lemma {:induction false} AddAllExtremes(bounds: seq<real>, h: Hist, vals: seq<real>)
    requires IsTable(bounds) && Valid(bounds, h)
    ensures var r := AddAll(bounds, h, vals); var xs := Scaled(h.power, vals);
      && (r.min == h.min || exists i :: 0 <= i < |xs| && r.min == Finite(xs[i]))
      && (r.max == h.max || exists i :: 0 <= i < |xs| && r.max == xs[i])
    decreases |vals|
  {
    if |vals| > 0 {
      var h1 := Add(bounds, h, vals[0]);
      var r := AddAll(bounds, h1, vals[1..]);
      var xs := Scaled(h.power, vals);
      var ys := Scaled(h.power, vals[1..]);
      assert ys == xs[1..];
      AddAllExtremes(bounds, h1, vals[1..]);
      if r.min != h1.min {
        var i :| 0 <= i < |ys| && r.min == Finite(ys[i]);
        assert r.min == Finite(xs[i + 1]);
      } else if r.min != h.min {
        assert r.min == Finite(xs[0]);
      }
      if r.max != h1.max {
        var i :| 0 <= i < |ys| && r.max == ys[i];
        assert r.max == xs[i + 1];
      } else if r.max != h.max {
        assert r.max == xs[0];
      }
    }
  }

  /** Clearing forgets every sample: the result is the fresh histogram with
      the same exponent. */
  lemma ClearForgets(bounds: seq<real>, h: Hist)
    ensures Clear(bounds, h) == New(bounds, h.power)
  {
  }
}
