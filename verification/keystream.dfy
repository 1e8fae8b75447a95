/**
 * The key stream of nb_random.c and of its older twin random.c, which
 * differs only in names: the key file is mapped into memory and read front
 * to back, one key of key_size bytes per call.
 *
 * The mapped file is a byte sequence and its length is the stream's end.
 * The outcome of each system call (open, fstat, mmap, posix_madvise,
 * munmap, close) is a boolean supplied by the caller.
 */
module KeyStream {
  import opened Resources

  /** The mapped key file and the read cursor; the end of the stream is
      |data|. */
  datatype Stream = Stream(data: seq<bv8>, cur: nat)

  /** Whether each system call succeeds. */
  datatype Os = Os(opens: bool, stats: bool, maps: bool, advises: bool,
                   unmaps: bool, closes: bool)

  /** The events touch only the key file's descriptor and mapping. */
  predicate FileOnly(t: seq<Event>) {
    forall i :: 0 <= i < |t| ==> t[i].res == KeyFile || t[i].res == KeyMap
  }

  /** A return code, the stream structure afterwards, and the resource
      events on the way. */
  datatype Opened = Opened(rc: int, stream: Stream, events: seq<Event>)

  datatype Closed = Closed(rc: int, events: seq<Event>)

  /** nb_random_open_file / random_open_file: open, fstat, mmap. The
      descriptor stays open while the file is mapped; on failure the
      structure is not written. */
  function OpenFile(s: Stream, file: seq<bv8>, os: Os): (r: Opened)
    ensures Proper(r.events) && FileOnly(r.events)
    ensures r.rc == 0 <==> os.opens && os.stats && os.maps
    ensures r.rc == 0 ==> r.stream == Stream(file, 0) && Held(r.events) == {KeyFile, KeyMap}
    ensures r.rc != 0 ==> r.stream == s && Held(r.events) == {}
    ensures r.rc == -1 <==> !os.opens || !os.stats
    ensures r.rc == -2 <==> os.opens && os.stats && !os.maps
  {
    if !os.opens then Opened(-1, s, [])
    else if !os.stats then Opened(-1, s, [Acquire(KeyFile), Release(KeyFile)])
    else if !os.maps then Opened(-2, s, [Acquire(KeyFile), Release(KeyFile)])
    else Opened(0, Stream(file, 0), [Acquire(KeyFile), Acquire(KeyMap)])
  }

  /** nb_random_close_file / random_close_file: munmap, then close. A failed
      munmap skips the close, so both stay held. A failed close still
      releases the descriptor (the Linux behaviour). */
  function CloseFile(os: Os): (r: Closed)
    ensures ProperFrom({KeyFile, KeyMap}, r.events) && FileOnly(r.events)
    ensures HeldFrom({KeyFile, KeyMap}, r.events) == if os.unmaps then {} else {KeyFile, KeyMap}
    ensures r.rc == 0 <==> os.unmaps && os.closes
    ensures r.rc == -1 <==> !os.unmaps
  {
    if !os.unmaps then Closed(-1, [])
    else Closed(if os.closes then 0 else -2, [Release(KeyMap), Release(KeyFile)])
  }

  /** nb_random_create / random_create: zero the structure, open the file
      read-only, advise sequential access. */
  function Create(file: seq<bv8>, os: Os): (r: Opened)
    ensures Proper(r.events) && FileOnly(r.events)
    ensures r.rc == 0 <==> os.opens && os.stats && os.maps && os.advises
    ensures r.rc == 0 ==> r.stream == Stream(file, 0) && Held(r.events) == {KeyFile, KeyMap}
    ensures r.rc == -1 <==> !(os.opens && os.stats && os.maps)
    ensures r.rc == -2 <==> os.opens && os.stats && os.maps && !os.advises
    ensures r.rc == -1 ==> Held(r.events) == {}
    ensures r.rc == -2 ==> Held(r.events) == if os.unmaps then {} else {KeyFile, KeyMap}
  {
    var o := OpenFile(Stream([], 0), file, os);
    if o.rc != 0 then Opened(-1, o.stream, o.events)
    else if !os.advises then
      var c := CloseFile(os);
      HeldFromAppend({}, o.events, c.events);
      Opened(-2, o.stream, o.events + c.events)
    else o
  }

  /** nb_random_destroy / random_destroy: close the file; the result is
      ignored. After a successful create this releases both resources
      unless munmap fails. */
  function Destroy(os: Os): (events: seq<Event>)
    ensures ProperFrom({KeyFile, KeyMap}, events) && FileOnly(events)
    ensures HeldFrom({KeyFile, KeyMap}, events) == if os.unmaps then {} else {KeyFile, KeyMap}
  {
    CloseFile(os).events
  }

  /** The result of a draw: the return code, the stream afterwards and the
      key buffer afterwards. */
  datatype Drawn = Drawn(rc: int, stream: Stream, key: seq<bv8>)

  /** nb_random_next / random_next: copy the next key_size bytes into the
      key buffer and advance, unless the key would reach the end of the
      file. The check is strict, so a key ending exactly at the end of the
      file is never returned. */
  function Next(s: Stream, ks: nat, key: seq<bv8>): (r: Drawn)
    requires ks <= |key|
    ensures r.rc == 0 || r.rc == 1
    ensures r.rc == 0 <==> s.cur + ks < |s.data|
    ensures r.rc == 0 ==> r.stream == Stream(s.data, s.cur + ks)
    ensures r.rc == 0 ==>
      |r.key| == |key| && r.key[..ks] == s.data[s.cur..s.cur + ks] && r.key[ks..] == key[ks..]
    ensures r.rc != 0 ==> r.stream == s && r.key == key
  {
    if s.cur + ks >= |s.data| then Drawn(1, s, key)
    else Drawn(0, Stream(s.data, s.cur + ks), s.data[s.cur..s.cur + ks] + key[ks..])
  }

  function Zeros(n: nat): (z: seq<bv8>)
    ensures |z| == n
  {
    seq(n, _ => 0)
  }

  /** The return codes of k successive draws of ks bytes. */
  function Codes(s: Stream, ks: nat, k: nat): (r: seq<int>)
    ensures |r| == k
    decreases k
  {
    if k == 0 then []
    else
      var d := Next(s, ks, Zeros(ks));
      [d.rc] + Codes(d.stream, ks, k - 1)
  }

  lemma MulMonoNat(a: nat, b: nat, n: nat)
    requires a <= b
    ensures a * n <= b * n
  {
  }

  /** q * b <= a exactly when q <= a / b. */
  lemma DivBound(a: nat, b: nat, q: nat)
    requires b >= 1
    ensures q * b <= a <==> q <= a / b
  {
    var d := a / b;
    assert a == d * b + a % b;
    if q <= d {
      MulMonoNat(q, d, b);
    } else {
      MulMonoNat(d + 1, q, b);
    }
  }

  /** From cursor c, draw i (counting from 0) succeeds exactly when
      c + (i + 1) * ks < |data|. */
  lemma {:induction false} CodesFrom(data: seq<bv8>, c: nat, ks: nat, k: nat)
    requires ks >= 1
    ensures forall i :: 0 <= i < k ==>
      (Codes(Stream(data, c), ks, k)[i] == 0 <==> c + (i + 1) * ks < |data|)
    decreases k
  {
    if k > 0 {
      var s := Stream(data, c);
      var d := Next(s, ks, Zeros(ks));
      var r := Codes(s, ks, k);
      assert r[1..] == Codes(d.stream, ks, k - 1);
      CodesFrom(data, d.stream.cur, ks, k - 1);
      forall i | 0 < i < k
        ensures r[i] == 0 <==> c + (i + 1) * ks < |data|
      {
        assert r[i] == Codes(d.stream, ks, k - 1)[i - 1];
        assert (i + 1) * ks == i * ks + ks;
        if d.rc != 0 {
          MulMonoNat(1, i, ks);
        }
      }
    }
  }

  /** With a fixed key size ks >= 1 and a file of L >= 1 bytes, exactly the
      first (L - 1) / ks draws from a fresh stream succeed; every later draw
      fails. */
  lemma DrawCount(data: seq<bv8>, ks: nat, k: nat)
    requires ks >= 1 && |data| >= 1
    ensures forall i :: 0 <= i < k ==>
      (Codes(Stream(data, 0), ks, k)[i] == 0 <==> i < (|data| - 1) / ks)
  {
    CodesFrom(data, 0, ks, k);
    var r := Codes(Stream(data, 0), ks, k);
    forall i | 0 <= i < k
      ensures r[i] == 0 <==> i < (|data| - 1) / ks
    {
      DivBound(|data| - 1, ks, i + 1);
    }
  }
}
