/**
 * nb_engine_run: load the driver plugin, open the storage, allocate the
 * key and value buffers, open the key stream and create the histogram, run
 * the measurement loop, print the report and tear everything down.
 *
 * Everything outside the harness is an oracle in Env: what the loader
 * finds, whether the driver's open and each malloc succeed, the key file's
 * contents and system calls, the clock and the driver's answers.
 */
module Engine {
  import opened Optional
  import opened Resources
  import opened Plugin
  import opened KeyStream
  import opened Histogram
  import opened Percentile
  import opened BenchLoop

  /** The fields of struct nb_opts that the run reads. */
  datatype Opts = Opts(driver: string, path: string, keyLen: nat, valLen: nat,
                       count: nat, interval: nat)

  datatype Env = Env(
    loader: Loader,
    opens: bool,            // the driver's open returns a database
    keyMallocs: bool,
    valMallocs: bool,
    keyFile: seq<bv8>,      // the contents of opts->keys_filename
    os: Os,
    histMallocs: bool,
    clock: nat -> real,
    accepts: nat -> bool)

  /** The percentiles the report asks for. */
  const Percentiles: seq<real> :=
    [0.05, 0.50, 0.95, 0.96, 0.97, 0.98, 0.99, 0.995, 0.999, 0.9995, 0.9999]

  /** The order in which the run acquires its resources. */
  const Order: seq<Res> :=
    [PluginRecord, ModuleHandle, Storage, KeyBuffer, ValueBuffer, KeyFile, KeyMap, HistogramBlock]

  /** How the process leaves nb_engine_run: with a return code, or aborted
      by the assertion in nb_histogram_dump. */
  datatype Exit = Returned(rc: int) | Aborted

  /** The setup step that failed, or the loop's result. */
  datatype Stage =
    | LoadFailed | OpenFailed | KeyFailed | ValFailed | RandomFailed | HistFailed
    | Ran(run: Run)

  /** Number of resources of Order held when a setup step fails. */
  function Acquired(s: Stage): nat {
    match s
    case LoadFailed => 0
    case OpenFailed => 2
    case KeyFailed => 3
    case ValFailed => 4
    case RandomFailed => 5
    case HistFailed => 7
    case Ran(_) => 8
  }

  /** The exit, the stage reached, the storage path given to the driver's
      open (if it was called), the report (if printed) and the resource
      events. */
  datatype Outcome = Outcome(exit: Exit, stage: Stage, dbPath: Option<string>,
                             report: Option<Summary>, events: seq<Event>)

  /** The storage path: opts->path, a slash and the driver name, cut to
      the buffer. */
  function StoragePath(opts: Opts): string {
    Bounded(opts.path + "/" + opts.driver)
  }

  /** Releases of the error labels, from error_<level> down to error_2:
      error_5 frees the value buffer, error_4 the key buffer, error_3
      closes the database and error_2 unloads the plugin. (error_6 first
      destroys the key stream: Destroy.) */
  function ErrorPath(level: nat): seq<Res>
    decreases level
  {
    if level <= 1 then []
    else if level == 2 then [ModuleHandle, PluginRecord]
    else if level == 3 then [Storage] + ErrorPath(2)
    else if level == 4 then [KeyBuffer] + ErrorPath(3)
    else [ValueBuffer] + ErrorPath(4)
  }

  /** Releases of the successful teardown: close the database, delete the
      histogram, destroy the key stream, free both buffers, unload. */
  function Teardown(os: Os): seq<Res> {
    [Storage, HistogramBlock] + (if os.unmaps then [KeyMap, KeyFile] else [])
    + [ValueBuffer, KeyBuffer, ModuleHandle, PluginRecord]
  }

  /** The histogram of a run: the samples added to a new histogram with
      exponent 6. */
  function RunHist(bounds: seq<real>, samples: seq<real>): (h: Hist)
    requires IsTable(bounds)
    ensures Valid(bounds, h) && h.size == |samples|
  {
    AddAll(bounds, New(bounds, 6), samples)
  }

  /** Every percentile the report asks for is a fraction. */
  lemma PercentilesFractions()
    ensures forall i :: 0 <= i < |Percentiles| ==> 0.0 <= Percentiles[i] <= 1.0
  {
  }

  /** The report of a run that timed at least one driver call: min,
      average, max and the requested percentiles of the histogram of the
      samples scaled by 10^6. */
  function Report(bounds: seq<real>, samples: seq<real>): (s: Summary)
    requires IsTable(bounds) && |samples| > 0
    ensures |s.percentiles| == |Percentiles|
    ensures forall i :: 0 <= i < |Percentiles| ==> s.min <= s.percentiles[i] <= s.max
    ensures s.min <= s.avg <= s.max
    ensures var xs := Scaled(6, samples);
      && (forall i :: 0 <= i < |xs| ==> s.min <= xs[i] <= s.max)
      && (exists i :: 0 <= i < |xs| && s.min == xs[i])
      && 0.0 <= s.max && (s.max == 0.0 || exists i :: 0 <= i < |xs| && s.max == xs[i])
      && s.avg == Sum(xs) / |xs| as real
    ensures forall i :: 0 <= i < |Percentiles| ==>
      0.0 <= Percentiles[i] &&
      var source := PercentileAsWritten(bounds, RunHist(bounds, samples), Percentiles[i]);
      source.Num? ==> s.percentiles[i] == source.x
  {
    var h0 := New(bounds, 6);
    var h := RunHist(bounds, samples);
    AddAllKeepsMean(bounds, h0, samples);
    PercentilesFractions();
    DumpOfSamples(bounds, 6, samples, Percentiles);
    Dump(bounds, h, Percentiles)
  }

  /** Whether the plugin loads. */
  predicate Loads(opts: Opts, env: Env) {
    Load(opts.driver, env.loader).plugin.Some?
  }

  /** What a failed setup step leaves held: nothing, unless munmap fails
      while the key stream is closed again. */
  function SetupLeak(s: Stage, env: Env): set<Res> {
    match s
    case RandomFailed =>
      if Create(env.keyFile, env.os).rc == -2 && !env.os.unmaps then {KeyFile, KeyMap} else {}
    case HistFailed => if env.os.unmaps then {} else {KeyFile, KeyMap}
    case _ => {}
  }

  /** The first setup step that fails, in the order the source tries
      them, or None when the setup completes. */
  function FirstFailure(opts: Opts, env: Env): Option<Stage> {
    if !Loads(opts, env) then Some(LoadFailed)
    else if !env.opens then Some(OpenFailed)
    else if !env.keyMallocs then Some(KeyFailed)
    else if !env.valMallocs then Some(ValFailed)
    else if Create(env.keyFile, env.os).rc != 0 then Some(RandomFailed)
    else if !env.histMallocs then Some(HistFailed)
    else None
  }

  /** What the run still holds when it exits. A loop that stops on a
      failed draw or lookup returns at once, and so does the abort; a
      refused write unwinds from error_5, which leaves the key stream and
      the histogram; the normal teardown releases everything but the
      mapping when munmap fails. */
  function Leak(stage: Stage, op: Op, opts: Opts, env: Env): set<Res> {
    match stage
    case Ran(run) =>
      if run.stop.Exhausted? || (run.stop.Refused? && op == Get) then All
      else if run.stop.Refused? then {KeyFile, KeyMap, HistogramBlock}
      else if opts.count == 0 then All
      else if env.os.unmaps then {}
      else {KeyFile, KeyMap}
    case _ => SetupLeak(stage, env)
  }

  /** The setup steps: either the stage that failed, or the opened key
      stream; with the events so far. */
  datatype Ready = Ready(failed: Option<Stage>, stream: Stream, events: seq<Event>)

  /** Everything the setup acquires. */
  const All: set<Res> :=
    {PluginRecord, ModuleHandle, Storage, KeyBuffer, ValueBuffer, KeyFile, KeyMap, HistogramBlock}

  /** What is held when the jump to error_<level> happens. */
  function Before(level: nat): set<Res> {
    if level <= 2 then {PluginRecord, ModuleHandle}
    else if level == 3 then {PluginRecord, ModuleHandle, Storage}
    else if level == 4 then {PluginRecord, ModuleHandle, Storage, KeyBuffer}
    else {PluginRecord, ModuleHandle, Storage, KeyBuffer, ValueBuffer}
  }

  /** The error labels error_2 .. error_5 release exactly what the setup
      had acquired before the jump; the key file's descriptor and mapping,
      if still held, stay held. */
  lemma ErrorExit(level: nat, t: seq<Event>, extra: set<Res>)
    requires 2 <= level <= 5 && extra <= {KeyFile, KeyMap, HistogramBlock}
    requires Proper(t) && Held(t) == Before(level) + extra
    ensures Proper(t + ReleaseAll(ErrorPath(level)))
    ensures Held(t + ReleaseAll(ErrorPath(level))) == extra
  {
    var rel := ErrorPath(level);
    if level == 2 {
      assert rel == [ModuleHandle, PluginRecord];
    } else if level == 3 {
      assert rel == [Storage, ModuleHandle, PluginRecord];
    } else if level == 4 {
      assert rel == [KeyBuffer, Storage, ModuleHandle, PluginRecord];
    } else {
      assert rel == [ValueBuffer, KeyBuffer, Storage, ModuleHandle, PluginRecord];
    }
    ReleaseExactly(t, rel, Before(level), extra);
  }

  /** Opening the key stream after the buffers: its events concern the key
      file only. */
  lemma Opening(t: seq<Event>, c: Opened)
    requires Proper(t) && Held(t) == Before(5)
    requires Proper(c.events) && FileOnly(c.events)
    ensures Proper(t + c.events) && Held(t + c.events) == Before(5) + Held(c.events)
  {
    Continue(t, {}, c.events);
  }

  /** Destroying the key stream when the histogram cannot be created. */
  lemma Closing(t: seq<Event>, os: Os)
    requires Proper(t) && Held(t) == Before(5) + {KeyFile, KeyMap}
    ensures Proper(t + Destroy(os))
    ensures Held(t + Destroy(os)) == Before(5) + (if os.unmaps then {} else {KeyFile, KeyMap})
  {
    Continue(t, {KeyFile, KeyMap}, Destroy(os));
    assert Held(t) - {KeyFile, KeyMap} == Before(5);
  }

  /** The setup of nb_engine_run, with the error labels of the setup
      steps. */
  method SetUp(opts: Opts, env: Env) returns (s: Ready)
    ensures s.failed == FirstFailure(opts, env)
    ensures Proper(s.events)
    ensures s.failed.Some? ==> Held(s.events) == SetupLeak(s.failed.value, env)
    ensures s.failed.None? ==> Held(s.events) == All && s.stream == Stream(env.keyFile, 0)
  {
    var l := Load(opts.driver, env.loader);
    if l.plugin.None? {
      return Ready(Some(LoadFailed), Stream([], 0), l.events);
    }
    s := Storing(env, l.events);
  }

  /** The steps after the plugin has loaded: open the database and
      allocate the two buffers. */
  method Storing(env: Env, t: seq<Event>) returns (s: Ready)
    requires Proper(t) && Held(t) == Before(2)
    ensures s.failed.Some? ==> !s.failed.value.Ran? && !s.failed.value.LoadFailed?
    ensures s.failed == Some(OpenFailed) <==> !env.opens
    ensures s.failed == Some(KeyFailed) <==> env.opens && !env.keyMallocs
    ensures s.failed == Some(ValFailed) <==> env.opens && env.keyMallocs && !env.valMallocs
    ensures s.failed == Some(RandomFailed) <==>
      env.opens && env.keyMallocs && env.valMallocs && Create(env.keyFile, env.os).rc != 0
    ensures s.failed == Some(HistFailed) <==>
      env.opens && env.keyMallocs && env.valMallocs
      && Create(env.keyFile, env.os).rc == 0 && !env.histMallocs
    ensures Proper(s.events)
    ensures s.failed.Some? ==> Held(s.events) == SetupLeak(s.failed.value, env)
    ensures s.failed.None? ==> Held(s.events) == All && s.stream == Stream(env.keyFile, 0)
  {
    var none := Stream([], 0);
    if !env.opens {
      ErrorExit(2, t, {});
      return Ready(Some(OpenFailed), none, t + ReleaseAll(ErrorPath(2)));
    }
    Acquiring(t, Before(2), Storage);
    var t1 := t + AcquireAll([Storage]);
    if !env.keyMallocs {
      ErrorExit(3, t1, {});
      return Ready(Some(KeyFailed), none, t1 + ReleaseAll(ErrorPath(3)));
    }
    Acquiring(t1, Before(3), KeyBuffer);
    var t2 := t1 + AcquireAll([KeyBuffer]);
    if !env.valMallocs {
      ErrorExit(4, t2, {});
      return Ready(Some(ValFailed), none, t2 + ReleaseAll(ErrorPath(4)));
    }
    Acquiring(t2, Before(4), ValueBuffer);
    s := Keys(env, t2 + AcquireAll([ValueBuffer]));
  }

  /** The last setup steps: open the key stream and create the
      histogram. */
  method Keys(env: Env, t: seq<Event>) returns (s: Ready)
    requires Proper(t) && Held(t) == Before(5)
    ensures s.failed.Some? ==> s.failed.value == RandomFailed || s.failed.value == HistFailed
    ensures s.failed == Some(RandomFailed) <==> Create(env.keyFile, env.os).rc != 0
    ensures s.failed == Some(HistFailed) <==> Create(env.keyFile, env.os).rc == 0 && !env.histMallocs
    ensures Proper(s.events)
    ensures s.failed.Some? ==> Held(s.events) == SetupLeak(s.failed.value, env)
    ensures s.failed.None? ==> Held(s.events) == All && s.stream == Stream(env.keyFile, 0)
  {
    var none := Stream([], 0);
    var c := Create(env.keyFile, env.os);
    Opening(t, c);
    var t1 := t + c.events;
    if c.rc != 0 {
      ErrorExit(5, t1, Held(c.events));
      return Ready(Some(RandomFailed), none, t1 + ReleaseAll(ErrorPath(5)));
    }
    if !env.histMallocs {
      Closing(t1, env.os);
      var d := Destroy(env.os);
      ErrorExit(5, t1 + d, if env.os.unmaps then {} else {KeyFile, KeyMap});
      return Ready(Some(HistFailed), none, t1 + d + ReleaseAll(ErrorPath(5)));
    }
    Acquiring(t1, Before(5) + {KeyFile, KeyMap}, HistogramBlock);
    return Ready(None, c.stream, t1 + AcquireAll([HistogramBlock]));
  }

  /** The successful teardown is the source's sequence of calls: close the
      database, delete the histogram, destroy the key stream, free the
      value and key buffers, unload the plugin. */
  lemma TeardownCalls(os: Os)
    ensures ReleaseAll(Teardown(os))
         == [Release(Storage), Release(HistogramBlock)] + Destroy(os)
            + [Release(ValueBuffer), Release(KeyBuffer)] + Unload()
  {
  }

  /** The labels error_5 .. error_2 release what was acquired before the
      jump, in reverse order of acquisition. */
  lemma {:induction false} Reverse(level: nat)
    requires 2 <= level <= 5
    ensures ReleaseAll(ErrorPath(level)) == Unwind(Order[..level])
    decreases level
  {
    if level == 2 {
      ReverseBase();
    } else {
      var prev := ErrorPath(level - 1);
      var rs := Order[..level];
      calc {
        ReleaseAll(ErrorPath(level));
      == { ErrorPathStep(level); }
        ReleaseAll([Order[level - 1]] + prev);
      == { ReleaseCons(Order[level - 1], prev); }
        [Release(Order[level - 1])] + ReleaseAll(prev);
      == { Reverse(level - 1); }
        [Release(Order[level - 1])] + Unwind(Order[..level - 1]);
      == { assert rs[..level - 1] == Order[..level - 1] && rs[level - 1] == Order[level - 1];
           UnwindStep(rs); }
        Unwind(rs);
      }
    }
  }

  /** error_2 unloads the plugin: close the handle, free the record. */
  lemma ReverseBase()
    ensures ReleaseAll(ErrorPath(2)) == Unwind(Order[..2])
  {
    assert Order[..2] == [PluginRecord, ModuleHandle];
  }

  /** Each error label adds one release in front of the next label's. */
  lemma ErrorPathStep(level: nat)
    requires 3 <= level <= 5
    ensures ErrorPath(level) == [Order[level - 1]] + ErrorPath(level - 1)
  {
  }

  lemma ReleaseCons(r: Res, rs: seq<Res>)
    ensures ReleaseAll([r] + rs) == [Release(r)] + ReleaseAll(rs)
  {
    assert ([r] + rs)[1..] == rs;
  }

  lemma UnwindStep(rs: seq<Res>)
    requires |rs| > 0
    ensures Unwind(rs) == [Release(rs[|rs| - 1])] + Unwind(rs[..|rs| - 1])
  {
  }

  /** With munmap working, the histogram step's error path (destroy the
      key stream, then error_5) also unwinds in reverse order. */
  lemma ReverseDestroy(os: Os)
    requires os.unmaps
    ensures Destroy(os) + ReleaseAll(ErrorPath(5)) == Unwind(Order[..7])
  {
    Reverse(5);
    assert Order[..7][..6] == Order[..6] && Order[..6][..5] == Order[..5];
    assert Unwind(Order[..7]) == [Release(KeyMap)] + Unwind(Order[..6]);
    assert Unwind(Order[..6]) == [Release(KeyFile)] + Unwind(Order[..5]);
  }

  /** The normal teardown releases everything, except the key file when
      munmap fails. */
  lemma TornDown(t: seq<Event>, os: Os)
    requires Proper(t) && Held(t) == All
    ensures Proper(t + ReleaseAll(Teardown(os)))
    ensures Held(t + ReleaseAll(Teardown(os))) == if os.unmaps then {} else {KeyFile, KeyMap}
  {
    var rel := Teardown(os);
    if os.unmaps {
      assert rel == [Storage, HistogramBlock, KeyMap, KeyFile, ValueBuffer, KeyBuffer, ModuleHandle, PluginRecord];
      ReleaseExactly(t, rel, All, {});
    } else {
      assert rel == [Storage, HistogramBlock, ValueBuffer, KeyBuffer, ModuleHandle, PluginRecord];
      ReleaseExactly(t, rel, All - {KeyFile, KeyMap}, {KeyFile, KeyMap});
    }
  }

  /** What the loop promises about a run from the start of the key
      file. */
  predicate Measured(opts: Opts, op: Op, env: Env, run: Run) {
    var s0 := Stream(env.keyFile, 0);
    && run.samples == Elapsed(env.clock, run.done)
    && run.done <= opts.count && (run.stop.Done? <==> run.done == opts.count)
    && (run.stop.Exhausted? ==> !Drawable(s0, opts.keyLen, run.done))
    && (run.stop.Refused? ==> Drawable(s0, opts.keyLen, run.done) && !env.accepts(run.done))
    && |run.calls| == (if run.stop.Refused? then run.done + 1 else run.done)
    && forall i :: 0 <= i < |run.calls| ==>
         Drawable(s0, opts.keyLen, i)
         && run.calls[i] == CallOf(op, KeyAt(s0, opts.keyLen, i), opts.valLen)
  }

  /** The report's figures are ordered: min <= every percentile <= max and
      min <= average <= max. */
  predicate Ordered(s: Summary) {
    && |s.percentiles| == |Percentiles|
    && s.min <= s.avg <= s.max
    && forall i :: 0 <= i < |Percentiles| ==> s.min <= s.percentiles[i] <= s.max
  }

  /** nb_engine_run. */
  method Run(opts: Opts, op: Op, env: Env) returns (r: Outcome)
    ensures r.stage.Ran? <==> FirstFailure(opts, env).None?
    ensures !r.stage.Ran? ==> Some(r.stage) == FirstFailure(opts, env)
    ensures r.dbPath == if r.stage.LoadFailed? then None else Some(StoragePath(opts))
    ensures r.exit == Returned(1) <==>
      r.stage.LoadFailed? ||
      (r.stage.Ran? && (r.stage.run.stop.Exhausted? || (r.stage.run.stop.Refused? && op == Get)))
    ensures r.exit == Returned(2) <==>
      (!r.stage.Ran? && !r.stage.LoadFailed?) || (r.stage.Ran? && r.stage.run.stop.Refused? && op == Put)
    ensures r.exit == Returned(0) <==> r.stage.Ran? && r.stage.run.stop.Done? && opts.count > 0
    ensures r.exit == Aborted <==> r.stage.Ran? && r.stage.run.stop.Done? && opts.count == 0
    ensures r.report.Some? <==> r.exit == Returned(0)
    ensures r.report.Some? ==> Ordered(r.report.value)
    ensures r.report.Some? ==>
      && r.stage.Ran? && IsTable(Bounds) && |r.stage.run.samples| > 0
      && r.report.value == Report(Bounds, r.stage.run.samples)
    ensures r.stage.Ran? ==> Measured(opts, op, env, r.stage.run)
    ensures Proper(r.events) && Held(r.events) == Leak(r.stage, op, opts, env)
  {
    var path := StoragePath(opts);
    var s := SetUp(opts, env);
    if s.failed.Some? {
      var stage := s.failed.value;
      if stage.LoadFailed? {
        return Outcome(Returned(1), stage, None, None, s.events);
      }
      return Outcome(Returned(2), stage, Some(path), None, s.events);
    }
    var run := Loop(s.stream, Zeros(opts.keyLen), opts.keyLen, op, opts.valLen,
                    opts.count, opts.interval, env.clock, env.accepts);
    r := Finish(opts, op, env, s.events, run);
  }

  /** After the loop: return at once on a failed draw or lookup, unwind
      from error_5 on a refused write, otherwise report and tear down. */
  method Finish(opts: Opts, op: Op, env: Env, t: seq<Event>, run: Run) returns (r: Outcome)
    requires Proper(t) && Held(t) == All
    requires run.samples == Elapsed(env.clock, run.done)
    requires run.stop.Done? <==> run.done == opts.count
    ensures r.stage == Ran(run) && r.dbPath == Some(StoragePath(opts))
    ensures r.exit == Returned(1) <==> run.stop.Exhausted? || (run.stop.Refused? && op == Get)
    ensures r.exit == Returned(2) <==> run.stop.Refused? && op == Put
    ensures r.exit == Returned(0) <==> run.stop.Done? && opts.count > 0
    ensures r.exit == Aborted <==> run.stop.Done? && opts.count == 0
    ensures r.report.Some? <==> r.exit == Returned(0)
    ensures r.report.Some? ==> Ordered(r.report.value)
    ensures r.report.Some? ==>
      IsTable(Bounds) && |run.samples| > 0 && r.report.value == Report(Bounds, run.samples)
    ensures Proper(r.events) && Held(r.events) == Leak(r.stage, op, opts, env)
  {
    var path := StoragePath(opts);
    match run.stop
    case Exhausted =>
      return Outcome(Returned(1), Ran(run), Some(path), None, t);
    case Refused =>
      if op == Get {
        return Outcome(Returned(1), Ran(run), Some(path), None, t);
      }
      assert Held(t) == Before(5) + {KeyFile, KeyMap, HistogramBlock};
      ErrorExit(5, t, {KeyFile, KeyMap, HistogramBlock});
      return Outcome(Returned(2), Ran(run), Some(path), None, t + ReleaseAll(ErrorPath(5)));
    case Done =>
      if opts.count == 0 {
        return Outcome(Aborted, Ran(run), Some(path), None, t);
      }
      BoundsIsTable();
      var report := Report(Bounds, run.samples);
      TornDown(t, env.os);
      return Outcome(Returned(0), Ran(run), Some(path), Some(report), t + ReleaseAll(Teardown(env.os)));
  }
}
