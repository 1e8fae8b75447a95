/**
 * nb_random_shuffle (and random_shuffle, its older twin): shuffle the
 * first records of the key file in place with the Fisher-Yates
 * (Durstenfeld) algorithm, then write the mapping back.
 *
 * rand() is an oracle: the caller supplies the values it returns, each in
 * [0, RAND_MAX]. The statistical quality of the shuffle is not modelled.
 */
module KeyShuffle {
  import opened Resources
  import opened KeyStream

  /** RAND_MAX of the C library (glibc). */
  const RandMax: nat := 0x7fff_ffff

  /** size_t arithmetic wraps modulo 2^64. */
  const SizeModulus: nat := 0x1_0000_0000_0000_0000

  /** An integer stored into a size_t. */
  function Wrap(x: int): (w: nat)
    ensures w < SizeModulus
    ensures 0 <= x < SizeModulus ==> w == x
    ensures x < 0 && 0 <= x + SizeModulus ==> w == x + SizeModulus
  {
    x % SizeModulus
  }

  /** The first n records of bs bytes each. */
  function Split(b: seq<bv8>, bs: nat, n: nat): (r: seq<seq<bv8>>)
    requires n * bs <= |b|
    ensures |r| == n && forall i :: 0 <= i < n ==> |r[i]| == bs
    decreases n
  {
    if n == 0 then []
    else
      assert (n - 1) * bs == n * bs - bs;
      [b[..bs]] + Split(b[bs..], bs, n - 1)
  }

  /** The records laid end to end. */
  function Flatten(rs: seq<seq<bv8>>): seq<bv8>
    decreases |rs|
  {
    if |rs| == 0 then [] else rs[0] + Flatten(rs[1..])
  }

  lemma {:induction false} FlattenSplit(b: seq<bv8>, bs: nat, n: nat)
    requires n * bs <= |b|
    ensures Flatten(Split(b, bs, n)) == b[..n * bs]
    decreases n
  {
    if n > 0 {
      assert (n - 1) * bs == n * bs - bs;
      var rs := Split(b, bs, n);
      assert rs[1..] == Split(b[bs..], bs, n - 1);
      FlattenSplit(b[bs..], bs, n - 1);
      assert b[..n * bs] == b[..bs] + b[bs..][..(n - 1) * bs];
    }
  }

  /** Records of bs bytes followed by a tail split back into the same
      records. */
  lemma {:induction false} SplitFlatten(rs: seq<seq<bv8>>, tail: seq<bv8>, bs: nat)
    requires forall i :: 0 <= i < |rs| ==> |rs[i]| == bs
    ensures |Flatten(rs)| == |rs| * bs
    ensures Split(Flatten(rs) + tail, bs, |rs|) == rs
    decreases |rs|
  {
    if |rs| > 0 {
      SplitFlatten(rs[1..], tail, bs);
      assert |rs| * bs == bs + (|rs| - 1) * bs;
      var b := Flatten(rs) + tail;
      assert b[..bs] == rs[0];
      assert b[bs..] == Flatten(rs[1..]) + tail;
      assert rs == [rs[0]] + rs[1..];
    }
  }

  /** The swap partner the source picks in step i of n: with any r in
      [0, RAND_MAX], i + r / (RAND_MAX / (n - i) + 1) lies in [i, n - 1]. */
  lemma SwapIndex(i: nat, n: nat, r: nat)
    requires i + 1 < n && r <= RandMax
    ensures i <= i + r / (RandMax / (n - i) + 1) <= n - 1
  {
    var m := n - i;
    var q := RandMax / m;
    assert RandMax == q * m + RandMax % m;
    assert r < (q + 1) * m;
    DivBound(r, q + 1, m);
  }

  /** The loop of nb_random_shuffle over whole records: step i swaps record
      i with a record at or after it. */
  method Permute(recs: seq<seq<bv8>>, rands: seq<int>) returns (out: seq<seq<bv8>>)
    requires |recs| >= 1 && |rands| >= |recs| - 1
    requires forall k :: 0 <= k < |rands| ==> 0 <= rands[k] <= RandMax
    ensures |out| == |recs| && multiset(out) == multiset(recs)
    ensures forall k :: 0 <= k < |out| ==> out[k] in recs
  {
    var n := |recs|;
    out := recs;
    var i := 0;
    while i < n - 1
      invariant 0 <= i <= n - 1
      invariant |out| == n && multiset(out) == multiset(recs)
    {
      var j := i + rands[i] / (RandMax / (n - i) + 1);
      SwapIndex(i, n, rands[i]);
      out := out[i := out[j]][j := out[i]];
      i := i + 1;
    }
    forall k | 0 <= k < |out| ensures out[k] in recs {
      assert out[k] in multiset(out);
    }
  }

  /** What the shuffle does after opening the file: nothing, or permute the
      first n records (n >= 1), or divide by zero. */
  datatype Plan = Skip | Loop(n: nat) | DivideByZero

  /** Number of records to shuffle: whole records in the file, at most
      count. It is the largest such number: either count records, or the
      file holds no further whole record. */
  function Records(len: nat, bs: nat, count: nat): (n: nat)
    requires bs >= 1
    ensures n * bs <= len && n <= count
    ensures n == count || len < (n + 1) * bs
  {
    DivBound(len, bs, len / bs + 1);
    var whole := len / bs;
    assert whole * bs <= len;
    if whole > count then
      MulMonoNat(count, whole, bs);
      count
    else whole
  }

  /** The guards as written: n == 0 is tested before the clamp to count, and
      the loop bound n - 1 and the divisor n - i are size_t. */
  function PlanAsWritten(len: nat, bs: nat, count: nat): (p: Plan)
    requires bs >= 1 && len < SizeModulus && count < SizeModulus
  {
    var whole := len / bs;
    if whole == 0 then Skip
    else
      var n := if whole > count then count else whole;
      if 0 < Wrap(n - 1) && Wrap(n - 0) == 0 then DivideByZero
      else Loop(n)
  }

  /** The evidently intended guard: give up when no record is to be
      shuffled, after the clamp. */
  function PlanOf(len: nat, bs: nat, count: nat): (p: Plan)
    requires bs >= 1
    ensures p.Skip? <==> Records(len, bs, count) == 0
    ensures p.Loop? ==> p.n == Records(len, bs, count) >= 1
    ensures !p.DivideByZero?
  {
    var n := Records(len, bs, count);
    if n == 0 then Skip else Loop(n)
  }

  /** With count = 0 and at least one whole record in the file, the source
      passes the n == 0 guard, clamps n to 0, and the loop bound n - 1
      wraps to 2^64 - 1, so the first step computes RAND_MAX / 0. */
  lemma CountZeroDividesByZero(len: nat, bs: nat)
    requires bs >= 1 && bs <= len < SizeModulus
    ensures PlanAsWritten(len, bs, 0) == DivideByZero
    ensures PlanOf(len, bs, 0) == Skip
  {
    DivBound(len, bs, 1);
  }

  /** Apart from count = 0 on a file holding a whole record, the corrected
      guard changes nothing. */
  lemma PlanAgrees(len: nat, bs: nat, count: nat)
    requires bs >= 1 && len < SizeModulus && count < SizeModulus
    requires count >= 1 || len < bs
    ensures PlanAsWritten(len, bs, count) == PlanOf(len, bs, count)
  {
    if len < bs {
      DivBound(len, bs, 1);
    }
  }

  /** The shuffle proper, once the buffer is allocated: permute the first n
      records and leave the rest of the file as it is. */
  method ShuffleRecords(file: seq<bv8>, bs: nat, n: nat, rands: seq<int>)
    returns (shuffled: seq<bv8>)
    requires bs >= 1 && 1 <= n && n * bs <= |file| && |rands| >= n - 1
    requires forall k :: 0 <= k < |rands| ==> 0 <= rands[k] <= RandMax
    ensures |shuffled| == |file| && shuffled[n * bs..] == file[n * bs..]
    ensures multiset(Split(shuffled, bs, n)) == multiset(Split(file, bs, n))
  {
    var recs := Split(file, bs, n);
    var out := Permute(recs, rands);
    forall k | 0 <= k < |out| ensures |out[k]| == bs {
      assert out[k] in recs;
    }
    SplitFlatten(out, file[n * bs..], bs);
    shuffled := Flatten(out) + file[n * bs..];
    assert shuffled[n * bs..] == file[n * bs..];
  }

  /** The resource events of a shuffle that opened the file: the mapping,
      then the record buffer when it was allocated (buffered), then the
      close. */
  function ShuffleTrace(file: seq<bv8>, os: Os, buffered: bool): (t: seq<Event>)
    requires Opens(os)
    ensures Proper(t) && Held(t) == if os.unmaps then {} else {KeyFile, KeyMap}
  {
    var o := OpenFile(Stream([], 0), file, os).events;
    var b := if buffered then [Acquire(SwapBuffer), Release(SwapBuffer)] else [];
    var c := CloseFile(os).events;
    HeldFromAppend({}, o, b);
    Transient({KeyFile, KeyMap}, SwapBuffer);
    HeldFromAppend({}, o + b, c);
    o + b + c
  }

  /** Return code, file contents afterwards and resource events. */
  datatype Shuffled = Shuffled(rc: int, file: seq<bv8>, events: seq<Event>)

  predicate Opens(os: Os) {
    os.opens && os.stats && os.maps
  }

  /** What a shuffle with the corrected guard promises. The first n
      records of the file are permuted and the rest left alone; the file
      changes only when records were to be shuffled and the buffer was
      allocated. Return codes: -1 when the file cannot be opened, or, when
      there was nothing to shuffle, cannot be closed; -2 when the record
      buffer cannot be allocated; -3 when msync fails or, after a shuffle,
      the file cannot be closed. */
  predicate ShuffleResult(file: seq<bv8>, bs: nat, count: nat, os: Os, allocates: bool,
                          syncs: bool, r: Shuffled)
    requires bs >= 1
  {
    var n := Records(|file|, bs, count);
    var closes := os.unmaps && os.closes;
    && |r.file| == |file|
    && r.file[n * bs..] == file[n * bs..]
    && multiset(Split(r.file, bs, n)) == multiset(Split(file, bs, n))
    && ((n == 0 || !Opens(os) || !allocates) ==> r.file == file)
    && (r.rc == 0 <==> Opens(os) && closes && (n == 0 || (allocates && syncs)))
    && (r.rc == -1 <==> !Opens(os) || (n == 0 && !closes))
    && (r.rc == -2 <==> Opens(os) && n > 0 && !allocates)
    && (r.rc == -3 <==> Opens(os) && n > 0 && allocates && !(syncs && closes))
    && Proper(r.events)
    && Held(r.events) == if Opens(os) && !os.unmaps then {KeyFile, KeyMap} else {}
  }

  /** nb_random_shuffle / random_shuffle with the corrected guard. A bs of
      0 would divide by zero and is excluded. */
  method Shuffle(file: seq<bv8>, bs: nat, count: nat, rands: seq<int>,
                 os: Os, allocates: bool, syncs: bool) returns (r: Shuffled)
    requires bs >= 1 && |rands| >= |file| / bs
    requires forall k :: 0 <= k < |rands| ==> 0 <= rands[k] <= RandMax
    ensures ShuffleResult(file, bs, count, os, allocates, syncs, r)
  {
    var n := Records(|file|, bs, count);
    var o := OpenFile(Stream([], 0), file, os);
    if o.rc != 0 {
      return Shuffled(-1, file, o.events);
    }
    var c := CloseFile(os);
    if n == 0 {
      return Shuffled(if c.rc != 0 then -1 else 0, file, ShuffleTrace(file, os, false));
    }
    if !allocates {
      return Shuffled(-2, file, ShuffleTrace(file, os, false));
    }
    DivBound(|file|, bs, n);
    var shuffled := ShuffleRecords(file, bs, n, rands);
    var rc := if !syncs || c.rc != 0 then -3 else 0;
    return Shuffled(rc, shuffled, ShuffleTrace(file, os, true));
  }
}
