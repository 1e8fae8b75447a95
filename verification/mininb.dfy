/**
 * mininb.c, the older single-binary harness: bench looks the driver up in
 * the static table of dbif.c instead of loading a plugin, and main turns
 * the command line into options and dispatches to a PUT or GET benchmark
 * or to the key-file shuffle.
 *
 * The driver's constructor and callbacks, malloc, the key file's system
 * calls, the clock, atol and atoi are oracles supplied by the caller.
 */
module MiniNb {
  import opened Optional
  import opened Resources
  import opened Registry
  import opened KeyStream
  import opened KeyShuffle
  import opened BenchLoop

  /** The fields of struct nb_options that mininb sets or reads. */
  datatype Options = Options(driver: string, root: string, keySize: nat, valueSize: nat,
                             interval: nat, count: nat, op: Op, keysFile: string)

  /** The options main starts from. */
  const Defaults: Options :=
    Options("cascadedb", "./nb", 16, 100, 100000, 1000000, Put, "keys.bin")

  datatype Env = Env(
    config: Config,         // the drivers compiled into the table
    constructs: bool,       // the driver's ctor returns a database
    keyMallocs: bool,
    keyFile: seq<bv8>,      // the contents of the keys file
    os: Os,
    histMallocs: bool,
    clock: nat -> real,
    accepts: nat -> bool)

  /** The setup step that failed, or the loop's result. */
  datatype Stage = NoDriver | CtorFailed | KeyFailed | RandomFailed | HistFailed | Ran(run: Run)

  /** bench's return code, the stage reached and the resource events. */
  datatype Benched = Benched(rc: int, stage: Stage, events: seq<Event>)

  /** Everything bench acquires, in order: the database, the key buffer,
      the key file and its mapping, the histogram. */
  const Owned: set<Res> := {Storage, KeyBuffer, KeyFile, KeyMap, HistogramBlock}

  /** The first setup step of bench that fails, or None. */
  function FirstFailure(opts: Options, env: Env): Option<Stage> {
    if Lookup(Table(env.config), opts.driver).Null? then Some(NoDriver)
    else if !env.constructs then Some(CtorFailed)
    else if !env.keyMallocs then Some(KeyFailed)
    else if Create(env.keyFile, env.os).rc != 0 then Some(RandomFailed)
    else if !env.histMallocs then Some(HistFailed)
    else None
  }

  /** What bench still holds when it returns. The loop's failed draw and
      failed select return at once; a failed replace jumps to error_5,
      which does not delete the histogram; the normal exit never frees the
      key buffer. The key file stays held whenever munmap fails. */
  function Leak(stage: Stage, op: Op, env: Env): set<Res> {
    var file := if env.os.unmaps then {} else {KeyFile, KeyMap};
    match stage
    case RandomFailed =>
      if Create(env.keyFile, env.os).rc == -2 then file else {}
    case HistFailed => file
    case Ran(run) =>
      if run.stop.Exhausted? || (run.stop.Refused? && op == Get) then Owned
      else if run.stop.Refused? then {HistogramBlock} + file
      else {KeyBuffer} + file
    case _ => {}
  }

  /** error_4 and error_3: free the key buffer (error_4 only) and destroy
      the database. */
  function ErrorPath(level: nat): seq<Res> {
    if level >= 4 then [KeyBuffer, Storage] else [Storage]
  }

  /** error_5: destroy the key stream, then fall through to error_4. What
      was held besides the key stream, the key buffer and the database
      stays held. */
  lemma Unwound(t: seq<Event>, os: Os, extra: set<Res>)
    requires Proper(t) && extra <= {HistogramBlock}
    requires Held(t) == {Storage, KeyBuffer, KeyFile, KeyMap} + extra
    ensures Proper(t + Destroy(os) + ReleaseAll(ErrorPath(4)))
    ensures Held(t + Destroy(os) + ReleaseAll(ErrorPath(4)))
         == extra + (if os.unmaps then {} else {KeyFile, KeyMap})
  {
    var rest := {Storage, KeyBuffer} + extra;
    Continue(t, {KeyFile, KeyMap}, Destroy(os));
    assert Held(t) - {KeyFile, KeyMap} == rest;
    var file := if os.unmaps then {} else {KeyFile, KeyMap};
    assert ErrorPath(4) == [KeyBuffer, Storage];
    ReleaseExactly(t + Destroy(os), ErrorPath(4), {Storage, KeyBuffer}, extra + file);
  }

  /** A failed random_create jumps to error_4, which leaves the key file
      held only when its own cleanup could not unmap it. */
  lemma CreateFailed(t: seq<Event>, file: seq<bv8>, os: Os)
    requires Proper(t) && Held(t) == {Storage, KeyBuffer}
    requires Create(file, os).rc != 0
    ensures Proper(t + Create(file, os).events + ReleaseAll(ErrorPath(4)))
    ensures Held(t + Create(file, os).events + ReleaseAll(ErrorPath(4)))
         == if Create(file, os).rc == -2 && !os.unmaps then {KeyFile, KeyMap} else {}
  {
    var c := Create(file, os);
    var extra := if c.rc == -2 && !os.unmaps then {KeyFile, KeyMap} else {};
    assert Held(c.events) == extra;
    Continue(t, {}, c.events);
    assert ErrorPath(4) == [KeyBuffer, Storage];
    ReleaseExactly(t + c.events, ErrorPath(4), {Storage, KeyBuffer}, extra);
  }

  /** A successful random_create adds the key file and its mapping. */
  lemma CreateOpened(t: seq<Event>, file: seq<bv8>, os: Os)
    requires Proper(t) && Held(t) == {Storage, KeyBuffer}
    requires Create(file, os).rc == 0
    ensures Proper(t + Create(file, os).events)
    ensures Held(t + Create(file, os).events) == {Storage, KeyBuffer, KeyFile, KeyMap}
  {
    Continue(t, {}, Create(file, os).events);
  }

  /** The normal exit: destroy the database, delete the histogram and
      destroy the key stream; the key buffer is never freed. */
  lemma Finished(t: seq<Event>, os: Os)
    requires Proper(t) && Held(t) == Owned
    ensures Proper(t + ReleaseAll([Storage, HistogramBlock]) + Destroy(os))
    ensures Held(t + ReleaseAll([Storage, HistogramBlock]) + Destroy(os))
         == {KeyBuffer} + (if os.unmaps then {} else {KeyFile, KeyMap})
  {
    ReleaseExactly(t, [Storage, HistogramBlock], {Storage, HistogramBlock},
                   {KeyBuffer, KeyFile, KeyMap});
    var t1 := t + ReleaseAll([Storage, HistogramBlock]);
    Continue(t1, {KeyFile, KeyMap}, Destroy(os));
    assert Held(t1) - {KeyFile, KeyMap} == {KeyBuffer};
  }

  /** The setup of bench: the stage that failed or the opened key stream,
      with the events so far. */
  datatype Ready = Ready(failed: Option<Stage>, stream: Stream, events: seq<Event>)

  /** The setup of bench with its error labels. */
  method SetUp(opts: Options, env: Env) returns (s: Ready)
    ensures s.failed == FirstFailure(opts, env)
    ensures Proper(s.events)
    ensures s.failed.Some? ==> Held(s.events) == Leak(s.failed.value, opts.op, env)
    ensures s.failed.None? ==> Held(s.events) == Owned && s.stream == Stream(env.keyFile, 0)
  {
    var none := Stream([], 0);
    var table := Table(env.config);
    assert table[|table| - 1].Null?;
    var db, _ := Match(table, opts.driver);
    if db.Null? {
      return Ready(Some(NoDriver), none, []);
    }
    if !env.constructs {
      return Ready(Some(CtorFailed), none, []);
    }
    var t := AcquireAll([Storage]);
    Acquiring([], {}, Storage);
    if !env.keyMallocs {
      ReleaseExactly(t, ErrorPath(3), {Storage}, {});
      return Ready(Some(KeyFailed), none, t + ReleaseAll(ErrorPath(3)));
    }
    Acquiring(t, {Storage}, KeyBuffer);
    s := Streaming(env, t + AcquireAll([KeyBuffer]));
  }

  /** The last setup steps of bench: open the key stream and create the
      histogram. */
  method Streaming(env: Env, t: seq<Event>) returns (s: Ready)
    requires Proper(t) && Held(t) == {Storage, KeyBuffer}
    ensures s.failed.Some? ==> s.failed.value == RandomFailed || s.failed.value == HistFailed
    ensures s.failed == Some(RandomFailed) <==> Create(env.keyFile, env.os).rc != 0
    ensures s.failed == Some(HistFailed) <==> Create(env.keyFile, env.os).rc == 0 && !env.histMallocs
    ensures Proper(s.events)
    ensures s.failed.Some? ==> Held(s.events) == Leak(s.failed.value, Put, env)
    ensures s.failed.None? ==> Held(s.events) == Owned && s.stream == Stream(env.keyFile, 0)
  {
    var none := Stream([], 0);
    var c := Create(env.keyFile, env.os);
    if c.rc != 0 {
      CreateFailed(t, env.keyFile, env.os);
      return Ready(Some(RandomFailed), none, t + c.events + ReleaseAll(ErrorPath(4)));
    }
    CreateOpened(t, env.keyFile, env.os);
    var t1 := t + c.events;
    if !env.histMallocs {
      Unwound(t1, env.os, {});
      return Ready(Some(HistFailed), none, t1 + Destroy(env.os) + ReleaseAll(ErrorPath(4)));
    }
    Acquiring(t1, {Storage, KeyBuffer, KeyFile, KeyMap}, HistogramBlock);
    return Ready(None, c.stream, t1 + AcquireAll([HistogramBlock]));
  }

  /** What the loop of bench promises about a run from the start of the
      key file. */
  predicate Measured(opts: Options, env: Env, run: Run) {
    var s0 := Stream(env.keyFile, 0);
    && run.samples == Elapsed(env.clock, run.done)
    && run.done <= opts.count && (run.stop.Done? <==> run.done == opts.count)
    && (run.stop.Exhausted? ==> !Drawable(s0, opts.keySize, run.done))
    && (run.stop.Refused? ==> Drawable(s0, opts.keySize, run.done) && !env.accepts(run.done))
    && |run.calls| == (if run.stop.Refused? then run.done + 1 else run.done)
    && forall i :: 0 <= i < |run.calls| ==>
         Drawable(s0, opts.keySize, i)
         && run.calls[i] == CallOf(opts.op, KeyAt(s0, opts.keySize, i), opts.valueSize)
  }

  /** What bench promises: the stage is the first setup step that fails,
      or the loop's result measured from the start of the key file; the
      return code is 1 when no driver matches or the loop stops on a failed
      draw or select, 2 when the ctor or a later setup step fails or a
      replace fails, 0 after count iterations; what stays held is Leak. */
  predicate BenchResult(opts: Options, env: Env, b: Benched) {
    && (b.stage.Ran? <==> FirstFailure(opts, env).None?)
    && (!b.stage.Ran? ==> Some(b.stage) == FirstFailure(opts, env))
    && (b.rc == 1 <==>
         b.stage == NoDriver ||
         (b.stage.Ran? && (b.stage.run.stop.Exhausted? || (b.stage.run.stop.Refused? && opts.op == Get))))
    && (b.rc == 2 <==>
         (!b.stage.Ran? && b.stage != NoDriver) ||
         (b.stage.Ran? && b.stage.run.stop.Refused? && opts.op == Put))
    && (b.rc == 0 <==> b.stage.Ran? && b.stage.run.stop.Done?)
    && (b.stage.Ran? ==> Measured(opts, env, b.stage.run))
    && Proper(b.events) && Held(b.events) == Leak(b.stage, opts.op, env)
  }

  /** bench. */
  method Bench(opts: Options, env: Env) returns (b: Benched)
    ensures BenchResult(opts, env, b)
  {
    var s := SetUp(opts, env);
    if s.failed.Some? {
      return Benched(if s.failed.value == NoDriver then 1 else 2, s.failed.value, s.events);
    }
    var run := BenchLoop.Loop(s.stream, Zeros(opts.keySize), opts.keySize, opts.op, opts.valueSize,
                    opts.count, opts.interval, env.clock, env.accepts);
    b := Finish(opts, env, s.events, run);
  }

  /** After the loop of bench. */
  method Finish(opts: Options, env: Env, t: seq<Event>, run: Run) returns (b: Benched)
    requires Proper(t) && Held(t) == Owned
    ensures b.stage == Ran(run)
    ensures b.rc == 1 <==> run.stop.Exhausted? || (run.stop.Refused? && opts.op == Get)
    ensures b.rc == 2 <==> run.stop.Refused? && opts.op == Put
    ensures b.rc == 0 <==> run.stop.Done?
    ensures Proper(b.events) && Held(b.events) == Leak(b.stage, opts.op, env)
  {
    match run.stop
    case Exhausted =>
      return Benched(1, Ran(run), t);
    case Refused =>
      if opts.op == Get {
        return Benched(1, Ran(run), t);
      }
      Unwound(t, env.os, {HistogramBlock});
      return Benched(2, Ran(run), t + Destroy(env.os) + ReleaseAll(ErrorPath(4)));
    case Done =>
      Finished(t, env.os);
      return Benched(0, Ran(run), t + ReleaseAll([Storage, HistogramBlock]) + Destroy(env.os));
  }

  /** The value slice of a replace: value_size bytes from the start of
      the key buffer. Some(bytes) when they lie inside the buffer, None
      when the read runs past its end. */
  function ValueBytes(key: seq<bv8>, valueSize: nat): (r: Option<seq<bv8>>)
    ensures r.Some? <==> valueSize <= |key|
    ensures r.Some? ==> |r.value| == valueSize && r.value <= key
  {
    if valueSize <= |key| then Some(key[..valueSize]) else None
  }

  /** With the default sizes every replace reads 84 bytes past the 16-byte
      key buffer. */
  lemma DefaultsOverRead(key: seq<bv8>)
    requires |key| == Defaults.keySize
    ensures ValueBytes(key, Defaults.valueSize).None?
    ensures Defaults.valueSize - |key| == 84
  {
  }

  /** What main does with the options: the PUT or GET benchmark, the
      shuffle of the key file, or nothing. */
  datatype Action = PutBench | GetBench | ShuffleKeys | Idle

  /** main's if-chain over the action number; any other number falls off
      the end of main. */
  function ActionOf(action: int): (a: Action)
    ensures a == PutBench <==> action == 0
    ensures a == GetBench <==> action == 1
    ensures a == ShuffleKeys <==> action == 2
    ensures a == Idle <==> action != 0 && action != 1 && action != 2
  {
    if action == 0 then PutBench
    else if action == 1 then GetBench
    else if action == 2 then ShuffleKeys
    else Idle
  }

  /** The command line: argv[1] is the driver, argv[2] the count through
      atol (a long stored in a size_t, so a negative count wraps), argv[3]
      the action through atoi. The other options keep their defaults. */
  function Parse(args: seq<string>, atol: string -> int, atoi: string -> int): (p: (Options, int))
    ensures p.0.driver == if |args| >= 2 then args[1] else Defaults.driver
    ensures p.0.count == if |args| >= 3 then Wrap(atol(args[2])) else Defaults.count
    ensures p.1 == if |args| >= 4 then atoi(args[3]) else 0
    ensures p.0.(driver := Defaults.driver, count := Defaults.count) == Defaults
  {
    var o := Defaults;
    var o := if |args| >= 2 then o.(driver := args[1]) else o;
    var o := if |args| >= 3 then o.(count := Wrap(atol(args[2]))) else o;
    (o, if |args| >= 4 then atoi(args[3]) else 0)
  }

  /** Without arguments main benchmarks PUT with the defaults. */
  lemma NoArguments(prog: string, atol: string -> int, atoi: string -> int)
    ensures Parse([prog], atol, atoi) == (Defaults, 0)
    ensures ActionOf(Parse([prog], atol, atoi).1) == PutBench
  {
  }

  /** What main ran. */
  datatype Ran = Benchmarked(bench: Benched) | ShuffledKeys(shuffle: Shuffled) | Nothing

  /** main: its exit status and what it ran. The benchmarks run bench on
      the parsed options (op Get for action 1); the shuffle works on the
      key file of env with the default key size and the parsed count, with
      rands as the values of rand(), allocates and syncs as the outcomes of
      its malloc and msync. The status is -1 exactly when what ran
      failed. */
  method MainEntry(args: seq<string>, atol: string -> int, atoi: string -> int, env: Env,
                   rands: seq<int>, allocates: bool, syncs: bool)
    returns (status: int, opts: Options, ran: Ran)
    requires |rands| >= |env.keyFile| / Defaults.keySize
    requires forall k :: 0 <= k < |rands| ==> 0 <= rands[k] <= RandMax
    ensures var p := Parse(args, atol, atoi);
      opts == if ActionOf(p.1) == GetBench then p.0.(op := Get) else p.0
    ensures ran.Nothing? <==> ActionOf(Parse(args, atol, atoi).1) == Idle
    ensures ran.Benchmarked? <==> ActionOf(Parse(args, atol, atoi).1) in {PutBench, GetBench}
    ensures ran.ShuffledKeys? <==> ActionOf(Parse(args, atol, atoi).1) == ShuffleKeys
    ensures ran.Benchmarked? ==> BenchResult(opts, env, ran.bench)
    ensures ran.ShuffledKeys? ==>
      ShuffleResult(env.keyFile, Defaults.keySize, opts.count, env.os, allocates, syncs, ran.shuffle)
    ensures status == 0 || status == -1
    ensures status == -1 <==>
      (ran.Benchmarked? && ran.bench.rc != 0) || (ran.ShuffledKeys? && ran.shuffle.rc != 0)
  {
    var p := Parse(args, atol, atoi);
    opts := p.0;
    match ActionOf(p.1)
    case PutBench =>
      var b := Bench(opts, env);
      return if b.rc != 0 then -1 else 0, opts, Benchmarked(b);
    case GetBench =>
      opts := opts.(op := Get);
      var b := Bench(opts, env);
      return if b.rc != 0 then -1 else 0, opts, Benchmarked(b);
    case ShuffleKeys =>
      var sh := Shuffle(env.keyFile, opts.keySize, opts.count, rands, env.os, allocates, syncs);
      return if sh.rc != 0 then -1 else 0, opts, ShuffledKeys(sh);
    case Idle =>
      return 0, opts, Nothing;
  }
}
