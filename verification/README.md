# mininb benchmark harness: a Dafny model

mininb measures the latency of key/value storage engines. It loads a storage
driver, reads keys from a file of random bytes, times one `select` or
`replace` per key, and collects the timings in a latency histogram. At the
end it prints the histogram with min, average, max and a fixed list of
percentiles. This project models the harness's own logic and proves
properties of it. The storage engines are not modelled.

| file | module | models |
|---|---|---|
| option.dfy | Optional | the `Option` type |
| resources.dfy | Resources | what a run acquires and releases, as a trace of events; `Held` is what is still owned at the end, so a non-empty `Held` on an exit path is a leak |
| histogram.dfy | Histogram | the bucket table, `nb_histogram_new`, `_clear`, `_add` (with the bucket search as a method) |
| percentile.dfy | Percentile | `nb_histogram_percentile` as written and corrected, and the figures of `nb_histogram_dump` |
| keystream.dfy | KeyStream | the key stream of `nb_random.c` and its twin `random.c`: open, close, create, destroy, next |
| shuffle.dfy | KeyShuffle | `nb_random_shuffle` / `random_shuffle`: the Fisher–Yates loop over records, its guards and return codes |
| registry.dfy | Registry | the static driver table of `dbif.c` and `nb_db_match` |
| plugin.dfy | Plugin | `nb_plugin_load` / `nb_plugin_unload`: the path and symbol derivation, the name check, the unwinding |
| benchloop.dfy | BenchLoop | the measurement loop shared by `nb_engine_run` and mininb's `bench` |
| engine.dfy | Engine | `nb_engine_run`: setup, loop, report, teardown and the error labels |
| mininb.dfy | MiniNb | mininb's `bench` and `main` |

Everything outside the harness is an oracle that the caller passes in:
- `dlopen` and `dlsym` are a map from module paths to their exported factories.
- Each `malloc`, the driver's `open`/ctor, and each system call of the key file (open, fstat, mmap, posix_madvise, munmap, close, msync) is a boolean.
- The key file is a byte sequence.
- The clock is a function from reading number to `real`.
- The driver's answer to call i is a boolean.
- The values of `rand()` are a sequence.
- `atol` and `atoi` are functions.

Values are `real` and counters `nat`. Where `size_t` wrap-around matters, in the shuffle's loop bound and in the parsed count, it is written out with `KeyShuffle.Wrap`.

## Model

| member | source | states |
|---|---|---|
| Histogram.BoundsIncreasing | nb_histogram.c:40-58 | The table has 154 finite boundaries, from 1 to 1e200, strictly increasing. |
| Histogram.BoundsIsTable | nb_histogram.c:40-64 | The table meets the model's requirements on a table. With the unbounded catch-all bucket that replaces the INFINITY sentinel, it gives 155 buckets (NB_HISTOGRAM_BUCKETS_COUNT). |
| Histogram.BucketUnique | nb_histogram.c:101-123 | A value lies in at most one bucket `(B[k-1], B[k]]`. |
| Histogram.BucketOf | nb_histogram.c:101-123 | The linear reference for the search: it returns a bucket that holds the value. |
| Histogram.BoundaryTie | nb_histogram.c:107-122 | A value equal to boundary i is counted in bucket i, not in the next one. |
| Histogram.Locate | nb_histogram.c:103-123 | The binary search (midpoint `begin/2 + end/2`, stopping when the midpoint reaches `begin`) and the backward scan that follows it terminate. They never read `B[-1]` and return exactly the unique bucket of the value. |
| Histogram.Pow10 | nb_histogram.c:101 | The scale factor `10^power` is positive. |
| Histogram.Clear | nb_histogram.c:139-146 | All counters, size, sum, sumsq and max are zero, min is +infinity, the exponent is kept, and the counter-sum invariant holds. |
| Histogram.New | nb_histogram.c:76-90 | A new histogram has the given exponent and no samples, and is a fixed point of Clear. |
| Histogram.ClearForgets | nb_histogram.c:139-146 | Clearing any histogram gives the new histogram with the same exponent. |
| Histogram.Record | nb_histogram.c:125-136 | Exactly the counter of the value's bucket grows by one and every other counter is unchanged. Size grows by one, so the counters still sum to size. The new min is the lesser of the old min and the value, the new max the greater of the old max and the value. The value is added to sum and its square to sumsq. |
| Histogram.Add | nb_histogram.c:98-137 | `nb_histogram_add` scales the value by `10^power` and records the scaled value: it is counted in its own bucket only, and it updates min, max, sum and sumsq as in Record. The histogram stays valid. |
| Histogram.RecordKeepsMean | nb_histogram.c:125-133 | After each sample, `size*min <= sum <= size*max` still holds. |
| Histogram.AddAll | nb_histogram.c:98-137 | Adding a sequence grows size by its length, and every scaled sample lies between the final min and max. |
| Histogram.AddAllKeepsMean | nb_histogram.c:125-133 | The average stays between min and max over any sequence of adds. |
| Histogram.AddAllSum | nb_histogram.c:131 | After a sequence of adds, sum has grown by the sum of the scaled samples. |
| Histogram.AddAllCounts | nb_histogram.c:103-135 | After a sequence of adds, each counter has grown by the number of scaled samples in its bucket. |
| Histogram.AddAllExtremes | nb_histogram.c:125-130 | After a sequence of adds, min and max are either the old ones or one of the scaled samples. Together with AddAll, min is the least and max the greatest of the old value and the samples. |
| Histogram.AddAllSnoc | nb_histogram.c:98-137 | Adding samples one at a time is adding the whole sequence. |
| Percentile.Threshold | nb_histogram.c:151 | The threshold is `floor(size * p)`. |
| Percentile.Walk | nb_histogram.c:154-156 | The walk stops at the first bucket whose cumulative count reaches the threshold. It runs off the table only when no bucket does. |
| Percentile.WalkReaches | nb_histogram.c:154-175 | The walk stops inside the table exactly when the threshold is at most the number of samples. |
| Percentile.WalkMono | nb_histogram.c:154-156 | A larger threshold stops at the same bucket or a later one. |
| Percentile.Interpolate | nb_histogram.c:157-164 | The interpolated value lies between the lower and upper edge of its bucket, with bucket 0 starting at 0. |
| Percentile.InterpolateMono | nb_histogram.c:157-164 | Within one bucket, the interpolation is non-decreasing in the threshold. |
| Percentile.Clamp | nb_histogram.c:165-171 | The clamp lands in `[min, max]` and leaves values already inside unchanged. |
| Percentile.PercentileAsWritten | nb_histogram.c:148-176 | The source's percentile: every numeric result lies in `[min, max]`, but the result can be NaN. |
| Percentile.NaNIff | nb_histogram.c:151-164 | The source's percentile is NaN exactly when `floor(size*p) == 0` and bucket 0 is empty. |
| Percentile.FewSamplesNaN | nb_engine.c:149-154 | The 5th percentile of fewer than 20 samples, none of them in bucket 0, comes out NaN. |
| Percentile.OneSampleNaN | nb_engine.c:85-154 | Concretely, the engine's histogram after one 5 µs operation reports NaN as its 5th percentile. |
| Percentile.Percentile | nb_histogram.c:148-176 | The corrected estimate always lies in `[min, max]`. It reads the 0/0 as a scale of 0, which gives the clamped lower edge of bucket 0. |
| Percentile.AgreeWhenNumber | nb_histogram.c:148-176 | On every input where the source's percentile is a number, the corrected estimate is that number. The two differ only where the source prints NaN. |
| Percentile.NoFallback | nb_histogram.c:154-175 | For `0 <= p <= 1` the walk always stops inside the table, so the final `return max` is dead code. |
| Percentile.CatchAllIsMax | nb_histogram.c:159-168 | When the walk stops in the catch-all bucket, the result is max. |
| Percentile.PercentileMono | nb_histogram.c:151-171 | The corrected estimate is non-decreasing in p. |
| Percentile.AverageWithin | nb_histogram.c:204 | The average `sum/size` lies between min and max. |
| Percentile.Dump | nb_histogram.c:178-223 | The dump requires a non-empty histogram (the assertion at line 182). It reports the histogram's min and max, and an average that times size gives the sum, between min and max whenever the sum lies between `size*min` and `size*max`. It reports one estimate in `[min, max]` per requested percentile, equal to `nb_histogram_percentile`'s wherever that is a number. |
| Percentile.DumpOfSamples | nb_histogram.c:98-223 | For the histogram of a non-empty sequence of samples, the dump's min is the least scaled sample. Its max is the greatest of 0 and the scaled samples, because the histogram starts with max 0. The average is the mean of the scaled samples, and each bucket counts the scaled samples that fall in it. |
| KeyStream.OpenFile | nb_random.c:42-83 | Return codes: -1 for open or fstat, -2 for mmap. Success sets `cur = 0` and the end to the file length, and holds the descriptor and the mapping. On failure the structure is unchanged and nothing is held. `random.c:13-54` is the same. |
| KeyStream.CloseFile | nb_random.c:85-110 | A failed munmap returns -1 and skips the close, so both stay held. Otherwise both are released, and a failed close returns -2. |
| KeyStream.Create | nb_random.c:112-136 | Returns 0 exactly when open, fstat, mmap and madvise succeed. Returns -1 when opening fails, leaving nothing held. Returns -2 when madvise fails, after closing the file again. |
| KeyStream.Destroy | nb_random.c:138-142 | Destroying a created stream releases the file and its mapping unless munmap fails. |
| KeyStream.Next | nb_random.c:144-154 | Succeeds exactly when `cur + key_size < end`. On success it copies `map[cur..cur+key_size)` into the buffer and advances `cur` by `key_size`. On failure the stream and the buffer are unchanged. `random.c:115-125` is the same. |
| KeyStream.DrawCount | nb_random.c:147-152 | With key size `s >= 1` and file length `L >= 1`, exactly the first `(L-1)/s` draws succeed and every later one fails. |
| KeyShuffle.SwapIndex | nb_random.c:190 | For every `r` in `[0, RAND_MAX]`, `i + r/(RAND_MAX/(n-i) + 1)` lies in `[i, n-1]`. |
| KeyShuffle.Records | nb_random.c:171-179 | The number of records shuffled, `min(end/bs, count)`, fits in the file and is at most `count`. It is the largest such number: either it is `count`, or one more record would not fit. |
| KeyShuffle.FlattenSplit | nb_random.c:191-196 | Cutting the file into records of `bs` bytes and laying them end to end again gives back the first `n*bs` bytes. |
| KeyShuffle.SplitFlatten | nb_random.c:191-196 | Records laid end to end cut back into the same records. |
| KeyShuffle.Permute | nb_random.c:188-197 | The swap loop leaves a permutation (multiset-equal sequence) of the records. |
| KeyShuffle.ShuffleRecords | nb_random.c:188-197 | After the loop, the file length is unchanged, every byte from `n*bs` on is untouched, and the first n records are a permutation of the original ones. |
| KeyShuffle.PlanOf | nb_random.c:171-188 | The corrected guard skips exactly when no record is to be shuffled, and never divides by zero. |
| KeyShuffle.CountZeroDividesByZero | nb_random.c:171-190 | With `count = 0` and a file holding at least one record, the guard as written reaches `RAND_MAX / 0`, while the corrected one skips. `random.c:142-161` has the same code. |
| KeyShuffle.PlanAgrees | nb_random.c:171-188 | Apart from that case, the guard as written and the corrected guard take the same branch. |
| KeyShuffle.ShuffleTrace | nb_random.c:166-216 | An opened shuffle releases the file again (unless munmap fails) and frees its record buffer. |
| KeyShuffle.Shuffle | nb_random.c:156-219 | Return codes, each stated in both directions: -1 exactly when the file cannot be opened, or cannot be closed after nothing was shuffled. -2 exactly when the record buffer cannot be allocated. -3 exactly when msync fails, or the file cannot be closed after a shuffle. 0 otherwise. Bytes beyond the shuffled records are unchanged, and the first n records are permuted. The file is untouched when there is nothing to shuffle. What stays held is exactly the mapping whose munmap failed. |
| Registry.Table | dbif.c:52-70 | In every build configuration, the table ends with its NULL sentinel and every entry before it is a driver with one of the five compiled-in names. |
| Registry.LookupFirst | dbif.c:72-81 | The lookup returns the first entry before the sentinel whose name matches. It returns NULL exactly when no such entry exists. |
| Registry.Match | dbif.c:72-81 | The scan returns the same entry as the lookup, a found entry carries the requested name, and no entry past the sentinel is read. |
| Registry.TokuNeverMatched | dbif.c:52-70 | No build configuration can select "tokukv". |
| Plugin.Bounded | nb_plugin.c:50-52 | The snprintf into a PATH_MAX buffer keeps a prefix of at most PATH_MAX−2 characters. It keeps all of a string that fits. |
| Plugin.Derivation | nb_plugin.c:51-62 | For names that fit, the module path `plugins/NAME/libnb_db_NAME.so` and the symbol `nb_db_NAME_plugin` both give back the name. So distinct drivers never share a module or a factory. |
| Plugin.Load | nb_plugin.c:41-89 | A load succeeds exactly when malloc succeeds, the module opens, it exports the factory, and the table the factory returns has the requested name. A successful load returns the handle and that table, and holds the record and the handle. Every failure frees the record, and the handle is closed exactly when it had been opened. |
| Plugin.Unload | nb_plugin.c:91-96 | Unloading closes the handle, then frees the record. |
| Plugin.LoadUnload | nb_plugin.c:41-96 | A load followed by an unload leaves nothing held. |
| Plugin.LevelDbLoads | plugins/leveldb/nb_db_leveldb.c:176-191 | The LevelDB plugin as built is found under the derived path and symbol, and is accepted. |
| BenchLoop.CountStep | nb_engine.c:137-144 | One more iteration either increments `prev_count`, or completes an interval: `prev_count` wraps to 0 and one more progress line is printed. |
| BenchLoop.DrawStep | nb_engine.c:101-109 | Draw i succeeds exactly when key i fits strictly before the end of the file. It then yields key i and moves the cursor to key i+1. |
| BenchLoop.Elapsed | nb_engine.c:111-134 | The samples of the first k iterations are k values, and sample i is the clock reading after call i minus the reading before it. |
| BenchLoop.Timed | nb_engine.c:133-135 | Each iteration adds its elapsed time to the histogram, so size grows by one per iteration. |
| BenchLoop.TimedAll | nb_engine.c:95-145 | The histogram after k iterations is the histogram of their k elapsed times, added in order. |
| BenchLoop.Loop | nb_engine.c:95-145 | The loop stops after `count` iterations, at the first failed draw, or at the first refused call. Call i uses key i of the stream; a GET passes no output buffer. Sample i is the clock difference around call i. The loop prints `floor(done/interval)` progress lines (one per iteration when the interval is 0) and ends with `prev_count = done mod interval`. mininb.c:55-108 is the same loop. |
| Engine.Report | nb_engine.c:149-154 | The report of a non-empty run has min equal to the least sample scaled to microseconds. Its max is the greatest of 0 and the scaled samples, and its average is their mean. It lists eleven percentiles, each between min and max and equal to `nb_histogram_percentile`'s wherever that is a number. |
| Engine.ErrorExit | nb_engine.c:168-180 | The labels error_5 down to error_2 release exactly what had been acquired before the jump. |
| Engine.SetUp | nb_engine.c:44-89 | The setup fails at the first failing step: plugin, open, key buffer, value buffer, key stream, then histogram. A failed step leaks nothing, except the key file when its munmap fails. A complete setup holds all eight resources and a fresh key stream. |
| Engine.Storing | nb_engine.c:58-75 | The open and the two buffer allocations, each with its error label. |
| Engine.Keys | nb_engine.c:77-89 | The key stream and the histogram. error_6 destroys the stream before falling into error_5. |
| Engine.Reverse | nb_engine.c:168-180 | For each of error_5 down to error_2, the releases from that label on are the resources acquired before the jump, in reverse order of acquisition. |
| Engine.ReverseDestroy | nb_engine.c:168-180 | With munmap working, error_6 (destroy the key stream, then fall into error_5) also releases everything acquired before the histogram, in reverse order. |
| Engine.TeardownCalls | nb_engine.c:156-164 | The successful teardown performs exactly these calls, in order: close, delete, destroy, free, free, unload. |
| Engine.TornDown | nb_engine.c:156-166 | The successful teardown releases everything, except the key file when munmap fails. |
| Engine.Run | nb_engine.c:41-181 | The return code is 1 for a failed load, an exhausted key file or a refused GET, and 2 for any other setup failure or a refused PUT. It is 0 after `count` iterations, when `count > 0`. With `count = 0` the dump's assertion aborts. The storage path is `path/driver`, and a report is printed only with 0. The loop's guarantees hold from the start of the key file. The printed report is Report of the run's samples. Exactly the documented leaks remain: everything on the early returns, the histogram and the key file after a refused PUT. |
| Engine.Finish | nb_engine.c:95-166 | After the loop, the exit and the remaining resources per way of stopping. A report is printed only after `count > 0` iterations, and it is Report of the loop's samples. |
| MiniNb.SetUp | mininb.c:15-49 | bench's setup fails at the first failing step: lookup, ctor, key buffer, key stream, then histogram. A complete setup holds the five resources. |
| MiniNb.Streaming | mininb.c:37-49 | The key stream and the histogram, with error_4 and error_5. |
| MiniNb.CreateFailed | mininb.c:37-43 | A failed `random_create` leads to error_4, which frees the key buffer and destroys the database. |
| MiniNb.Unwound | mininb.c:122-128 | error_5 destroys the key stream, frees the key buffer and destroys the database. Anything else stays held. |
| MiniNb.Finished | mininb.c:115-120 | The normal exit never frees the key buffer. |
| MiniNb.Bench | mininb.c:12-133 | The return code is 1 when no driver matches, the key file runs out, or a select fails. It is 2 when the ctor or a later setup step fails, or a replace fails. It is 0 after `count` iterations. A failed replace leaks the histogram, and a normal exit leaks the key buffer. The loop's guarantees hold from the start of the key file. |
| MiniNb.Finish | mininb.c:55-120 | After the loop: the return code and the remaining resources per way of stopping. |
| MiniNb.ValueBytes | mininb.c:73-76 | The value slice stays inside the key buffer exactly when `value_size <= key_size`. |
| MiniNb.DefaultsOverRead | mininb.c:138-142 | With the default key size 16 and value size 100, every replace reads 84 bytes past the key buffer. |
| MiniNb.ActionOf | mininb.c:165-193 | Action 0 and only 0 is PUT, 1 and only 1 is GET, 2 and only 2 is the shuffle. Every other action runs nothing. |
| MiniNb.Parse | mininb.c:138-160 | argv[1] overrides the driver. argv[2], through `atol` and wrapped to `size_t`, overrides the count. argv[3], through `atoi`, sets the action, which is 0 by default. Every other option keeps its default. |
| MiniNb.NoArguments | mininb.c:138-168 | Without arguments, main runs the PUT benchmark with the defaults: "cascadedb", "./nb", 16, 100, 100000, 1000000, "keys.bin". |
| MiniNb.MainEntry | mininb.c:135-194 | main dispatches on the action. Actions 0 and 1 run bench with the parsed options and op PUT or GET, and everything bench promises holds of what ran. Action 2 shuffles the key file with the default key size and the parsed count, and everything the shuffle promises holds of the file it leaves. A non-zero result of either exits −1. Any other action returns 0 without running anything. |

## Left out

- Storage drivers (`plugins/*`, `db_*.c`): they wrap foreign libraries. A driver is an oracle that accepts or refuses each call.
- Printing: the `fprintf` text, the bucket rows and `#` bars of the dump, and the "ops done" lines, which are counted (`lines`, `pending`) but not formatted. The STR_KEYS branch of mininb.c is compiled out.
- The clock (`nb_time.c`): readings are oracle reals.
- IEEE-754: values are exact reals, and `pow(10, power)` is exact. The NaN of the percentile is modelled only in `Percentile.PercentileAsWritten`. `size_t` overflow of the histogram's counters is not modelled.
- The statistical quality of the shuffle: only index bounds and the permutation are proved.
- mininb's histogram: `histogram.h` declares a two-argument dump whose implementation is not part of this model. mininb's report is not modelled, and its `count = 0` run ends normally.
- Byte contents of values: a `Replace` call records the value length, not the bytes. The engine's value buffer is never written. In mininb those bytes lie partly past the key buffer (`MiniNb.DefaultsOverRead`).
- Percentile.Percentile: where the source prints NaN, the report shows the clamped lower edge of bucket 0 instead. That is the one input class on which the model's report differs from the program's (`Percentile.AgreeWhenNumber`).
- KeyShuffle.Shuffle: requires `bs >= 1`, because `bs = 0` divides by zero at nb_random.c:171. It models the corrected guard; the guard as written is `KeyShuffle.PlanAsWritten`.
- MiniNb.MainEntry: the shuffle it calls uses the corrected guard. The exit status −1 is the returned int, not the 255 a shell sees.
- A failed `close` still releases the descriptor (Linux semantics). `msync` and `madvise` do not change the bytes.
- `dlerror` messages and the dlopen flags are not modelled. PATH_MAX is Linux's 4096.

## Findings

| source | as written | input that shows it | evidently intended | confidence | as-written member | corrected member |
|---|---|---|---|---|---|---|
| nb_histogram.c:151-164 | The scale `(threshold - left) / (right - left)` is computed even when the bucket reached is empty. That happens with threshold 0, when the first bucket is empty: 0/0 gives NaN, which passes both clamps and is printed. | The engine's histogram after one 5 µs operation (bucket (4, 5]), asked for p = 0.05 as nb_engine.c:149 does: the threshold is 0 and bucket 0 is empty. | A percentile in [min, max]: with threshold 0, take the lower edge of bucket 0, clamped to [min, max], as the code does when bucket 0 holds samples. | high; not executed | Percentile.OneSampleNaN | Percentile.Percentile |
| nb_random.c:171-190 | `n == 0` is tested before `n` is clamped to `count`, and the loop bound `n - 1` is a `size_t`. `random.c:142-161` is the same. | `count = 0` with a key file of at least `bs` bytes: `n` becomes 0, `n - 1` wraps to 2^64−1, and the first step computes `RAND_MAX / 0`. | Skip the shuffle when the clamped `n` is 0. | high; not executed | KeyShuffle.CountZeroDividesByZero | KeyShuffle.PlanOf |
