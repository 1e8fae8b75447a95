/**
 * The measurement loop shared by nb_engine_run and mininb's bench: draw a
 * key, time one driver call, add the elapsed time to the histogram, and
 * print a progress line every report interval.
 *
 * The clock and the driver are oracles: iteration i reads clock(2 i) before
 * its call and clock(2 i + 1) after it, and accepts(i) says whether the
 * call succeeds.
 */
module BenchLoop {
  import opened Histogram
  import opened KeyStream

  /** The benchmark type. A third value would reach the default branch's
      assert(0); the enumeration has only these two. */
  datatype Op = Get | Put

  /** A driver call: a lookup with no output buffer, or a write of a value
      of valLen bytes. */
  datatype Call = Select(key: seq<bv8>) | Replace(key: seq<bv8>, valLen: nat)

  function CallOf(op: Op, key: seq<bv8>, valLen: nat): Call {
    match op
    case Get => Select(key)
    case Put => Replace(key, valLen)
  }

  /** Why the loop stopped: all iterations done, the key file exhausted,
      or a driver call refused. */
  datatype Stop = Done | Exhausted | Refused

  /** The loop's final state: how it stopped, the iterations completed,
      the samples given to nb_histogram_add in order, the key stream, the
      calls made, the progress lines printed inside the loop, and
      prev_count. The histogram is never read inside the loop, so the
      samples determine it: Timed and TimedAll. */
  datatype Run = Run(stop: Stop, done: nat, samples: seq<real>, stream: Stream,
                     calls: seq<Call>, lines: nat, pending: nat)

  /** Where key i of a stream starting at cur begins. */
  function Offset(cur: nat, ks: nat, i: nat): nat {
    cur + i * ks
  }

  /** Draw i from s0 succeeds (the strict test of the key stream). */
  predicate Drawable(s0: Stream, ks: nat, i: nat) {
    Offset(s0.cur, ks, i) + ks < |s0.data|
  }

  /** The key that draw i returns. */
  function KeyAt(s0: Stream, ks: nat, i: nat): seq<bv8>
    requires Drawable(s0, ks, i)
  {
    s0.data[Offset(s0.cur, ks, i)..Offset(s0.cur, ks, i) + ks]
  }

  /** The elapsed time of iteration i: the reading after its call minus the
      reading before it. */
  function Delta(clock: nat -> real, i: nat): real {
    clock(2 * i + 1) - clock(2 * i)
  }

  /** The elapsed time of each of the first k iterations. */
  function Elapsed(clock: nat -> real, k: nat): (d: seq<real>)
    ensures |d| == k
    ensures forall i :: 0 <= i < k ==> d[i] == Delta(clock, i)
  {
    if k == 0 then [] else Elapsed(clock, k - 1) + [Delta(clock, k - 1)]
  }

  /** Progress lines after k iterations: one per full interval, or one per
      iteration when the interval is 0. */
  function Lines(k: nat, interval: nat): nat {
    if interval == 0 then k else k / interval
  }

  /** Counting k + 1 from k: the remainder wraps to 0 exactly when a new
      interval is full, and the quotient then grows by one. */
  lemma CountStep(k: nat, n: nat)
    requires n >= 1
    ensures k % n + 1 < n ==> (k + 1) % n == k % n + 1 && (k + 1) / n == k / n
    ensures k % n + 1 == n ==> (k + 1) % n == 0 && (k + 1) / n == k / n + 1
  {
    var q, m := k / n, k % n;
    assert k == q * n + m;
    if m + 1 < n {
      DivModUnique(k + 1, n, q, m + 1);
    } else {
      assert k + 1 == (q + 1) * n;
      DivModUnique(k + 1, n, q + 1, 0);
    }
  }

  /** Quotient and remainder are unique. */
  lemma DivModUnique(a: nat, n: nat, q: nat, m: nat)
    requires n >= 1 && m < n && a == q * n + m
    ensures a / n == q && a % n == m
  {
    var q', m' := a / n, a % n;
    assert a == q' * n + m';
    if q' < q {
      MulMonoNat(q' + 1, q, n);
    } else if q < q' {
      MulMonoNat(q + 1, q', n);
    }
  }

  /** One draw from the stream after i keys: it succeeds exactly when draw
      i is drawable, and then returns key i and moves to key i + 1. */
  lemma DrawStep(s0: Stream, ks: nat, i: nat, key: seq<bv8>)
    requires |key| == ks
    ensures var d := Next(Stream(s0.data, Offset(s0.cur, ks, i)), ks, key);
      && (d.rc == 0 <==> Drawable(s0, ks, i))
      && (d.rc == 0 ==> d.key == KeyAt(s0, ks, i)
                        && d.stream == Stream(s0.data, Offset(s0.cur, ks, i + 1)))
  {
    var d := Next(Stream(s0.data, Offset(s0.cur, ks, i)), ks, key);
    assert Offset(s0.cur, ks, i + 1) == Offset(s0.cur, ks, i) + ks;
    if d.rc == 0 {
      assert d.key == d.key[..ks];
    }
  }

  /** The histogram after the first k iterations, each adding its elapsed
      time in turn. */
  function Timed(bounds: seq<real>, h0: Hist, clock: nat -> real, k: nat): (h: Hist)
    requires IsTable(bounds) && Valid(bounds, h0)
    ensures Valid(bounds, h) && h.power == h0.power && h.size == h0.size + k
  {
    if k == 0 then h0
    else Add(bounds, Timed(bounds, h0, clock, k - 1), Delta(clock, k - 1))
  }

  /** Adding the samples one iteration at a time gives the histogram of
      all elapsed times. */
  lemma {:induction false} TimedAll(bounds: seq<real>, h0: Hist, clock: nat -> real, k: nat)
    requires IsTable(bounds) && Valid(bounds, h0)
    ensures Timed(bounds, h0, clock, k) == AddAll(bounds, h0, Elapsed(clock, k))
  {
    if k > 0 {
      TimedAll(bounds, h0, clock, k - 1);
      Extend(bounds, h0, Elapsed(clock, k - 1), Elapsed(clock, k), Delta(clock, k - 1));
    }
  }

  lemma Extend(bounds: seq<real>, h0: Hist, e: seq<real>, e': seq<real>, td: real)
    requires IsTable(bounds) && Valid(bounds, h0) && e' == e + [td]
    ensures AddAll(bounds, h0, e') == Add(bounds, AddAll(bounds, h0, e), td)
  {
    AddAllSnoc(bounds, h0, e, td);
  }

  /** The loop of nb_engine_run (and of bench). */
  method Loop(s0: Stream, key0: seq<bv8>, ks: nat, op: Op, valLen: nat,
              count: nat, interval: nat, clock: nat -> real, accepts: nat -> bool)
    returns (r: Run)
    requires |key0| == ks
    ensures r.done <= count && (r.stop.Done? <==> r.done == count)
    ensures forall i :: 0 <= i < r.done ==> Drawable(s0, ks, i) && accepts(i)
    ensures r.stop.Exhausted? ==> !Drawable(s0, ks, r.done)
    ensures r.stop.Refused? ==> Drawable(s0, ks, r.done) && !accepts(r.done)
    ensures r.samples == Elapsed(clock, r.done)
    ensures r.stream == Stream(s0.data, Offset(s0.cur, ks, |r.calls|))
    ensures |r.calls| == if r.stop.Refused? then r.done + 1 else r.done
    ensures forall i :: 0 <= i < |r.calls| ==>
      Drawable(s0, ks, i) && r.calls[i] == CallOf(op, KeyAt(s0, ks, i), valLen)
    ensures r.lines == Lines(r.done, interval)
    ensures interval >= 1 ==> r.pending == r.done % interval
    ensures interval == 0 ==> r.pending == 0
  {
    var samples: seq<real> := [];
    var s := s0 .(cur := Offset(s0.cur, ks, 0));
    var key := key0;
    var calls: seq<Call> := [];
    var lines, prev, kk := 0, 0, 0;
    while kk < count
      invariant kk <= count && |key| == ks
      invariant forall i :: 0 <= i < kk ==> Drawable(s0, ks, i) && accepts(i)
      invariant samples == Elapsed(clock, kk)
      invariant s == Stream(s0.data, Offset(s0.cur, ks, kk))
      invariant |calls| == kk
      invariant forall i :: 0 <= i < kk ==>
        Drawable(s0, ks, i) && calls[i] == CallOf(op, KeyAt(s0, ks, i), valLen)
      invariant lines == Lines(kk, interval)
      invariant interval >= 1 ==> prev == kk % interval
      invariant interval == 0 ==> prev == 0
    {
      DrawStep(s0, ks, kk, key);
      var d := Next(s, ks, key);
      if d.rc != 0 {
        return Run(Exhausted, kk, samples, s, calls, lines, prev);
      }
      key := d.key;
      s := d.stream;
      calls := calls + [CallOf(op, key, valLen)];
      if !accepts(kk) {
        return Run(Refused, kk, samples, s, calls, lines, prev);
      }
      samples := samples + [Delta(clock, kk)];
      if interval >= 1 {
        CountStep(kk, interval);
      }
      prev := prev + 1;
      kk := kk + 1;
      if prev < interval {
        continue;
      }
      lines := lines + 1;
      prev := 0;
    }
    return Run(Done, kk, samples, s, calls, lines, prev);
  }
}
