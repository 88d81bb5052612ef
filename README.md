# wandb core: portable paths, digest encodings and the Optuna sweep scheduler

A Dafny model of three parts of the `wandb` Python client, with proofs about
that model.

- **Paths** (`wandb/sdk/lib/paths.py`): `sanitize_path`, which turns any
  path into a relative POSIX path that is legal on every platform, and
  `LogicalPath`, the POSIX-style path string used inside artifacts and runs.
  `PurePosixPath` is modelled on strings:
  - a root of `""`, `"/"` or `"//"`;
  - parts split at `/`, with empty and `.` segments dropped;
  - the empty path prints as `"."`.
  
  Module `Paths` holds the definitions and module `PathProperties` the proofs.
- **Digests** (`wandb/sdk/lib/hashutil.py`): the classes `HexMD5`
  (Base16, section 8 of RFC 4648), `B64MD5` (standard Base64, section 4 of
  RFC 4648) and `ETag`. Each class's validity check, byte form and
  construction from bytes is modelled, and so is the sorted, chunked file
  hasher behind `hash_files`. The modules are:
  - `Encodings`: the codecs;
  - `HashUtil`: the digest classes;
  - `FileHashing`: the hasher, as a class fed in 64 KiB chunks;
  - `EncodingProperties` and `HashUtilProperties`: the proofs.
- **Optuna scheduler** (`wandb/sdk/launch/sweeps/scheduler_optuna.py`): the
  ask/report/prune/tell bookkeeping of `OptunaScheduler`. The modules are:
  - `OptunaScheduler.Scheduler`: a class whose fields are the scheduler's
    `_runs`, `_job_queue` and `_optuna_runs`;
  - `OptunaStudy`: the Optuna study it drives, as a class;
  - `OptunaSpec` and `SchedulerSpec`: the specification functions the
    methods are proved against;
  - `OptunaProperties`: lemmas about those functions;
  - `OptunaTables` and `OptunaTableProperties`: the pruner and sampler name
    tables.

Things the model does not compute are parameters:
- Python's `str.isprintable` is `printable`.
- MD5 is `md5`.
- The file system is a map from path to bytes.
- Optuna's pruner and sampler decisions are `pruner` and `sampler`.
- Whether an Optuna constructor accepts given keyword arguments is `accepts`.
- A run's metric history (`_get_run_history`) is `history`.
- The base scheduler's `is_alive()` is the field `alive`.
- The id of the run the backend creates (`_encode(upsert_run(...)["id"])`) is `newId`.
- The base scheduler's `_stop_run` and `_add_to_launch_queue` calls are appended to the logs `stopped` and `launched`.

## Model

| member | source | states |
|---|---|---|
| Paths.IsReservedListed | wandb/sdk/lib/paths.py:161-165 | the shape test (CON, PRN, AUX, NUL, COM1-9, LPT1-9) holds exactly for the names in `RESERVED_NAMES` |
| Paths.ReplaceProhibited | wandb/sdk/lib/paths.py:203 | same length; each of `<>:"\|?*` becomes `_`, every other character is kept in place |
| Paths.RStrip | wandb/sdk/lib/paths.py:207 | the result is a prefix of the input, does not end in a stripped character, and everything cut off is a stripped character |
| Paths.WithName | wandb/sdk/lib/paths.py:214 | same root and number of parts, the last part replaced by the new name, the others unchanged |
| PathProperties.ParseStr | wandb/sdk/lib/paths.py:196 | parsing the printed form of a well-formed path gives back the same path |
| PathProperties.NormalizeIdempotent | wandb/sdk/lib/paths.py:196 | printing and re-parsing a path a second time changes nothing |
| PathProperties.JoinSplit | wandb/sdk/lib/paths.py:210 | joining the pieces of a split at a separator gives back the string |
| PathProperties.SplitJoin | wandb/sdk/lib/paths.py:210 | splitting a join of separator-free pieces gives back the pieces |
| PathProperties.SanitizedRelative | wandb/sdk/lib/paths.py:185-200 | `sanitize_path` never returns an absolute path: no root, and every part is a non-empty, slash-free part other than `.` |
| PathProperties.SanitizedCharacters | wandb/sdk/lib/paths.py:193-203 | the printed result has no backslash, only printable characters and none of `<>:"\|?*` |
| PathProperties.SanitizedChars | wandb/sdk/lib/paths.py:193-203 | any character class that holds for every printable character except `\` and `<>:"\|?*`, and that holds for `_`, holds for every character of the result and of each part |
| PathProperties.SanitizedEnding | wandb/sdk/lib/paths.py:207 | the printed result does not end in a space, and ends in `.` only when it is `"."` |
| PathProperties.SanitizedNotReserved | wandb/sdk/lib/paths.py:209-214 | no element of `.parts` is a reserved name, and neither is the last name's text before its first dot |
| PathProperties.SanitizedStemNotReserved | wandb/sdk/lib/paths.py:213-214 | the stem of the result's name is not a reserved name |
| PathProperties.FinishShape | wandb/sdk/lib/paths.py:209-214 | after the reserved-name steps there is no root; every part but the last is the guarded part; the last is it or it with a `_` prefix |
| PathProperties.FinishEmpty | wandb/sdk/lib/paths.py:207-216 | a path that strips to nothing sanitises to the empty path `"."` |
| PathProperties.LogicalPathConversion | wandb/sdk/lib/paths.py:117-120 | off Windows a string is kept as is; on Windows each `\` becomes `/`, every other character is kept, and no backslash remains |
| PathProperties.LogicalPathIdempotent | wandb/sdk/lib/paths.py:117-120 | applying `LogicalPath` twice equals applying it once |
| PathProperties.LogicalPathRoundTrip | wandb/sdk/lib/paths.py:122-124 | `LogicalPath(PurePosixPath(lp))` parses back to the same path |
| PathProperties.DivAbsolute | wandb/sdk/lib/paths.py:143-145 | joining with an absolute right operand gives the right operand alone |
| PathProperties.DivAbsoluteFoo | wandb/sdk/lib/paths.py:143-145 | `p / "/foo" == "/foo"` for every `p` |
| PathProperties.DivRelative | wandb/sdk/lib/paths.py:143-145 | (POSIX) joining with a relative operand keeps the left root and appends the right parts |
| Encodings.HexDecode | wandb/sdk/lib/hashutil.py:95 | `bytes.fromhex` succeeds exactly on an even number of hex digits, with two digits per byte |
| Encodings.StdB64Decode | wandb/sdk/lib/hashutil.py:79 | the strict decoder reads only text whose length is divisible by 4, and then gives between `3n-2` and `3n` bytes for `n` groups |
| EncodingProperties.HexRoundTrip | wandb/sdk/lib/hashutil.py:94-98 | `bytes.fromhex(b.hex()) == b` |
| EncodingProperties.HexDecodeEncode | wandb/sdk/lib/hashutil.py:94-98 | re-encoding decoded hex gives the lower-case form of the text |
| EncodingProperties.HexEncodeLower | wandb/sdk/lib/hashutil.py:98 | `bytes.hex()` is lower-case |
| EncodingProperties.StdB64RoundTrip | wandb/sdk/lib/hashutil.py:78-82 | standard Base64 decoding of the encoding of `b` is `b` |
| EncodingProperties.UrlSafeB64RoundTrip | wandb/sdk/lib/hashutil.py:146 | URL-safe Base64 decoding of the URL-safe encoding of `b` is `b` |
| EncodingProperties.StdDecodesUrlSafe | wandb/sdk/lib/hashutil.py:141-146 | the strict standard decoder reads URL-safe text either not at all or as the same bytes |
| EncodingProperties.StdB64Sixteen | wandb/sdk/lib/hashutil.py:72-79 | under the strict decoder, text decodes to 16 bytes iff it is 22 alphabet characters followed by `==` |
| HashUtilProperties.HexMD5Valid | wandb/sdk/lib/hashutil.py:88-95 | a `HexMD5` is valid iff its text is 32 hex digits, i.e. hex-decodes to 16 bytes |
| HashUtilProperties.B64MD5Valid | wandb/sdk/lib/hashutil.py:72-79 | a `B64MD5` is valid iff its text is 22 Base64 characters and `==`, i.e. the strict decoder gives 16 bytes |
| HashUtilProperties.ETagValid | wandb/sdk/lib/hashutil.py:115-120 | an `ETag` is valid iff its text has 24 to 128 characters |
| HashUtilProperties.ValidateKeeps | wandb/sdk/lib/hashutil.py:72-120 | a valid digest is returned unchanged; an invalid one raises the class's error |
| HashUtilProperties.FromBytesRoundTrip | wandb/sdk/lib/hashutil.py:78-98 | `from_bytes(b)` succeeds iff `b` has 16 bytes; then its class is kept and `bytes(...)` is `b` |
| HashUtilProperties.HexOfB64 | wandb/sdk/lib/hashutil.py:16-20 | `HexMD5(B64MD5(t))` is the hex encoding of the bytes `t` decodes to |
| HashUtilProperties.B64OfHex | wandb/sdk/lib/hashutil.py:16-20 | `B64MD5(HexMD5(t))` is the Base64 encoding of the bytes `t` decodes to |
| HashUtilProperties.HexB64HexLower | wandb/sdk/lib/hashutil.py:16-20 | hex to Base64 and back gives the lower-case hex text |
| HashUtilProperties.ETagRejectsBytes | wandb/sdk/lib/hashutil.py:109-111 | an `ETag` cannot be built from bytes, by the constructor or by `from_bytes` |
| HashUtilProperties.ETagKeepsText | wandb/sdk/lib/hashutil.py:109-120 | an `ETag` built from text or from another digest keeps that text, and is valid iff it has 24 to 128 characters |
| HashUtilProperties.ETagHexFirst | wandb/sdk/lib/hashutil.py:133-138 | text that is not mixed-case and hex-decodes gives its hex bytes |
| HashUtilProperties.ETagStdB64 | wandb/sdk/lib/hashutil.py:140-141 | the standard Base64 encoding of `b`, when it is not read as hex, gives `b` |
| HashUtilProperties.ETagUrlSafeB64 | wandb/sdk/lib/hashutil.py:140-146 | with strict decoders, the URL-safe encoding of `b`, when it is not read as hex, gives `b` |
| HashUtilProperties.ETagUndecodable | wandb/sdk/lib/hashutil.py:145-148 | text none of the three decoders reads raises the "unable to decode" error |
| HashUtilProperties.ETagBytesOneOf | wandb/sdk/lib/hashutil.py:133-148 | any bytes returned are the hex, the standard Base64 or the URL-safe Base64 decoding of the text |
| FileHashing.Sort | wandb/sdk/lib/hashutil.py:62 | `sorted(paths)` is ordered and a permutation of the input |
| FileHashing.SortPermutation | wandb/sdk/lib/hashutil.py:62 | two permutations of the same paths sort to the same list |
| FileHashing.Chunk | wandb/sdk/lib/hashutil.py:64 | `f.read(64 * 1024)` returns the next bytes of the file, and nothing only at its end |
| FileHashing.FeedFile | wandb/sdk/lib/hashutil.py:63-65 | the chunk loop feeds the hasher exactly the file's contents |
| FileHashing.Md5FileHasher | wandb/sdk/lib/hashutil.py:60-66 | the hasher holds the contents of the files in sorted path order, or the first missing file raises |
| FileHashing.HashBytes | wandb/sdk/lib/hashutil.py:39-41 | `hash_bytes` gives a valid digest of the class whose bytes are the MD5 of the input |
| FileHashing.HashFiles | wandb/sdk/lib/hashutil.py:47-49 | `hash_files` returns the digest of the sorted contents, or the missing file |
| FileHashing.HashFilesOrderIndependent | wandb/sdk/lib/hashutil.py:62 | the digest does not depend on the order the paths are given in |
| FileHashing.HashFilesNone | wandb/sdk/lib/hashutil.py:60-66 | with no paths the digest is MD5 of the empty input |
| FileHashing.HashFilesSingle | wandb/sdk/lib/hashutil.py:60-66 | with one present path the digest is MD5 of that file |
| FileHashing.HashFilesMissing | wandb/sdk/lib/hashutil.py:63 | hashing fails iff some path is missing, and the error names a missing path |
| FileHashing.HashFilesThree | wandb/sdk/lib/hashutil.py:60-66 | `("c.bin", "a.bin", "b.txt")` is hashed as `a.bin`, then `b.txt`, then `c.bin` |
| OptunaStudy.Record | wandb/sdk/launch/sweeps/scheduler_optuna.py:432 | `trial.report(value, step)` sets that one step of that one trial and changes nothing else |
| OptunaTableProperties.MakePrunerSettings | wandb/sdk/launch/sweeps/scheduler_optuna.py:564-579 | only `HyperbandPruner` and `SuccessiveHalvingPruner` are made, with `min_resource` 1, `reduction_factor` 3 and `max_resource = epochs` by default; any other type raises naming it |
| OptunaTableProperties.MakeSamplerSettings | wandb/sdk/launch/sweeps/scheduler_optuna.py:584-589 | only `RandomSampler` is made, with the given `seed`; any other type raises naming it |
| OptunaTableProperties.MadePrunersLoadable | wandb/sdk/launch/sweeps/scheduler_optuna.py:564-579 | every pruner type the scheduler makes is in the loader's table |
| OptunaTableProperties.MadeSamplersLoadable | wandb/sdk/launch/sweeps/scheduler_optuna.py:584-589 | every sampler type the scheduler makes is in the loader's table |
| OptunaTableProperties.LoadPrunerTable | wandb/sdk/launch/sweeps/scheduler_optuna.py:615-633 | loading succeeds iff the type is one of the eight pruner names and Optuna accepts the arguments; the result is that class with those arguments; an unknown name raises |
| OptunaTableProperties.LoadSamplerTable | wandb/sdk/launch/sweeps/scheduler_optuna.py:636-663 | the same for the eleven sampler names |
| OptunaTableProperties.ValidatePrunerIff | wandb/sdk/launch/sweeps/scheduler_optuna.py:595-602 | `validate_optuna_pruner` is true exactly when loading with `args` does not raise |
| OptunaTableProperties.ValidateSamplerIff | wandb/sdk/launch/sweeps/scheduler_optuna.py:605-612 | `validate_optuna_sampler` is true exactly when loading with `args` does not raise |
| OptunaTableProperties.ValidateNeverHolds | wandb/sdk/launch/sweeps/scheduler_optuna.py:595-612 | as written, neither validator ever holds when no constructor takes a `type` keyword |
| OptunaTableProperties.ValidatePrunerSettingIff | wandb/sdk/launch/sweeps/scheduler_optuna.py:595-602 | the corrected pruner check holds iff `type` names a known pruner and Optuna accepts the other entries |
| OptunaTableProperties.ValidateSamplerSettingIff | wandb/sdk/launch/sweeps/scheduler_optuna.py:605-612 | the corrected sampler check holds iff `type` names a known sampler and Optuna accepts the other entries |
| OptunaTableProperties.ValidatePrunerSettingExample | wandb/sdk/launch/sweeps/scheduler_optuna.py:595-602 | `{"type": "MedianPruner"}` passes the corrected check and fails the one as written |
| OptunaProperties.TrialConfigAt | wandb/sdk/launch/sweeps/scheduler_optuna.py:487-503 | with distinct names, a parameter is in the trial's configuration iff its spec dispatches, and then its value is the sampler's suggestion for that distribution |
| OptunaProperties.TrialConfigNames | wandb/sdk/launch/sweeps/scheduler_optuna.py:487-503 | the configuration names only sweep parameters |
| OptunaProperties.DispatchExamples | wandb/sdk/launch/sweeps/scheduler_optuna.py:488-503 | truthy `values` beats `value`; a falsy `values` falls through to `value`; an int `min` is an int range; a bool `min` is skipped; a float `min` is a float range |
| OptunaProperties.DispatchLog | wandb/sdk/launch/sweeps/scheduler_optuna.py:493-498 | a range is logarithmic iff the name contains `"log"` |
| OptunaSpec.WalkStopsAtFirstPrune | wandb/sdk/launch/sweeps/scheduler_optuna.py:434-437 | the metric walk stops at a step where the pruner fires on the values recorded so far, and the pruner fires at no earlier step |
| OptunaSpec.WalkRecords | wandb/sdk/launch/sweeps/scheduler_optuna.py:425-437 | only the run's own trial changes; only new steps from the cursor to the prune point (or the end) are recorded, each with its own metric; without a prune every step is covered |
| OptunaSpec.PollOutcomePruned | wandb/sdk/launch/sweeps/scheduler_optuna.py:434-437 | on a prune the trial is told PRUNED, the run is finished and its metric cursor is unchanged |
| OptunaSpec.PollOutcomeWithoutPrune | wandb/sdk/launch/sweeps/scheduler_optuna.py:439-460 | without a prune: a non-empty history moves the cursor to its length and is not finished; an empty history with cursor 0 changes nothing; otherwise COMPLETE is told with the value at step `num_metrics - 1` |
| OptunaSpec.PollOutcomeNothingNew | wandb/sdk/launch/sweeps/scheduler_optuna.py:425-460 | with no metric past the cursor nothing is recorded, and the run is finished iff the history is empty and the cursor is past 0 |
| OptunaSpec.PollOutcomeFacts | wandb/sdk/launch/sweeps/scheduler_optuna.py:420-460 | polling keeps the run's trial and sweep run, tells at most once and only for that trial, and keeps every recorded value |
| OptunaProperties.SweepKeepsRuns | wandb/sdk/launch/sweeps/scheduler_optuna.py:470-476 | polling every run keeps the set of tracked runs and each run's trial, and previously recorded values |
| OptunaProperties.SweepKills | wandb/sdk/launch/sweeps/scheduler_optuna.py:470-478 | the ids returned are tracked ids, each once |
| OptunaProperties.SweepTells | wandb/sdk/launch/sweeps/scheduler_optuna.py:470-478 | each tell of the sweep belongs to a returned run, one per returned run, in order |
| OptunaProperties.SweepToldOnce | wandb/sdk/launch/sweeps/scheduler_optuna.py:420-478 | when every tracked run has its own untold trial, no trial is told twice |
| OptunaProperties.SweepKeptNotTold | wandb/sdk/launch/sweeps/scheduler_optuna.py:470-478 | a run that is not returned has a trial that was not told |
| SchedulerSpec.BeatCreates | wandb/sdk/launch/sweeps/scheduler_optuna.py:320-348 | `_heartbeat` adds a trial iff the scheduler is alive, the queue is empty and there are fewer runs than workers; the new run, with the worker id and the trial's configuration, is in `_runs`, is the only queued run and is tracked with no metrics seen, every other entry of `_runs` and `_optuna_runs` is kept and that trial is untold; otherwise nothing changes |
| SchedulerSpec.BeatOnce | wandb/sdk/launch/sweeps/scheduler_optuna.py:365-366 | a second heartbeat right after one that created a run changes nothing, so one round creates at most one run |
| SchedulerSpec.BeatKeeps | wandb/sdk/launch/sweeps/scheduler_optuna.py:320-348 | `_heartbeat` keeps the bookkeeping invariant: at most one queued run, never more runs than workers, each tracked run with its own open trial |
| SchedulerSpec.KillKeeps | wandb/sdk/launch/sweeps/scheduler_optuna.py:360-363 | polling and forgetting the finished runs keeps the invariant |
| SchedulerSpec.UnregisterDrops | wandb/sdk/launch/sweeps/scheduler_optuna.py:361-362 | `del _optuna_runs[id]` for the ids given removes exactly those and leaves every other entry and the rest of the state untouched |
| SchedulerSpec.RunKeeps | wandb/sdk/launch/sweeps/scheduler_optuna.py:350-391 | a whole `_run` round keeps the invariant and empties the queue |
| SchedulerSpec.RunLaunches | wandb/sdk/launch/sweeps/scheduler_optuna.py:365-391 | a round submits the run that was queued, or else the one run its heartbeats created (with the given id and the trial's configuration), or nothing |
| OptunaScheduler.Scheduler.MakeTrial | wandb/sdk/launch/sweeps/scheduler_optuna.py:480-504 | `_make_trial` asks for the next trial, with no values recorded, and returns the configuration the dispatch describes |
| OptunaScheduler.Scheduler.Heartbeat | wandb/sdk/launch/sweeps/scheduler_optuna.py:320-348 | the new state is the heartbeat specification of the old one |
| OptunaScheduler.Scheduler.ReportMetrics | wandb/sdk/launch/sweeps/scheduler_optuna.py:425-437 | the report loop records and stops as the metric walk says |
| OptunaScheduler.Scheduler.PollRun | wandb/sdk/launch/sweeps/scheduler_optuna.py:420-460 | `_poll_run` returns, records and tells what the poll outcome describes |
| OptunaScheduler.Scheduler.PollRunningRuns | wandb/sdk/launch/sweeps/scheduler_optuna.py:462-478 | returns exactly the ids whose poll returned true, in order, and leaves the runs and study as the sweep describes |
| OptunaScheduler.Scheduler.StopRuns | wandb/sdk/launch/sweeps/scheduler_optuna.py:361-363 | each id given is forgotten and passed to `_stop_run`, in order |
| OptunaScheduler.Scheduler.HeartbeatAll | wandb/sdk/launch/sweeps/scheduler_optuna.py:365-366 | one heartbeat per worker, in order |
| OptunaScheduler.Scheduler.LaunchNext | wandb/sdk/launch/sweeps/scheduler_optuna.py:368-391 | the queued run, if any, is dequeued and submitted with its args unless it is DEAD or UNKNOWN |
| OptunaScheduler.Scheduler.Run | wandb/sdk/launch/sweeps/scheduler_optuna.py:350-391 | `_run` leaves the state one round of the specification says and keeps the invariant; the ids stopped are the ones the sweep returned |
| OptunaScheduler.Scheduler.RunRound | wandb/sdk/launch/sweeps/scheduler_optuna.py:359-391 | poll, stop, heartbeat and launch, in that order, end in the round of the specification |

## Left out

- Windows hosts: `sanitize_path` is modelled on a POSIX host, where the native path is a `PurePosixPath`. Drive letters, UNC anchors and the `ValueError` fallback at wandb/sdk/lib/paths.py:188-190 are not modelled.
- Path objects, bytes and `__fspath__` inputs to `sanitize_path` and `LogicalPath` are not modelled: only string inputs are.
- `LocalPath` and the `__getattr__` delegation of both path classes are not modelled. `LogicalPath.__eq__` / `__ne__` are not modelled either, because they depend on Python's type dispatch.
- `str.isprintable` is the parameter `printable`, because Unicode character classes are not modelled.
- The awful-input example (`'\r/foo\u0000/AUX/<:?"*>/\0/\n\\\tCOM5.tar.gz /'` sanitises to `foo/_AUX/______/_COM5.tar.gz`) is not proved as a concrete case, because evaluating the whole pipeline on a 40-character literal exceeds the verifier's resource limit. The general lemmas cover each property that example checks.
- The constructor plumbing of `Digest.__new__` does not run as written: it calls `isinstance(digest, "Digest")` with a string, calls the instance method `from_bytes` on the class, and defines an argument-less `__init__`. `HashUtil.NewDigest` models the intended dispatch instead.
- FileHashing.HashBytes and FileHashing.HashFiles model the intended `from_bytes` call on a new digest: as written, `hash_bytes` and `hash_files` call `cls.from_bytes` with the digest bytes as `self` (wandb/sdk/lib/hashutil.py:41 and :49), which raises instead of returning a digest.
- Error message texts are not modelled; only the kind of each `ValueError` is.
- The decoders are strict. Python's `b64decode` without validation discards characters outside the alphabet, stops at the first complete padding and ignores the text after it, and `bytes.fromhex` skips whitespace; none of this leniency is modelled. As in Python, the unused bits of the last Base64 group are not checked.
- Encodings.StdB64Decode rejects text after padding. Python's decoder stops at the first complete padding instead, so `"QQ==AAA"` gives `b"A"` in the source and no decoding in the model.
- EncodingProperties.StdB64Sixteen holds for the strict decoder only. In the source, text that starts with 22 alphabet characters and `==` also gives 16 bytes when more text follows, e.g. `"A"*22 + "==AAAA"`.
- HashUtilProperties.B64MD5Valid holds for the strict decoder only. In the source, a `B64MD5` such as `"A"*22 + "==AAAA"` is also valid, because the decoder ignores the text after the padding.
- EncodingProperties.StdDecodesUrlSafe holds for the strict decoder only. Python's non-validating standard decoder drops `-` and `_`, so it can read URL-safe text as other bytes: for `"-_-_" * 6` it gives empty bytes.
- HashUtilProperties.ETagUrlSafeB64 holds for strict decoders only. In the source, the standard decoder tried before the URL-safe one drops `-` and `_`, so a URL-safe ETag such as `"-_-_" * 6` is returned as the bytes the standard branch gives (here empty bytes), and the URL-safe branch is not reached.
- MD5 itself, the FIPS flag and `hash_string`'s UTF-8 encoding are not modelled: MD5 is the parameter `md5`. Opening and reading files is a map from path to contents; a missing path is the only I/O error.
- The `RefDigest` class is not modelled.
- `OptunaProperties.TrialConfigAt`: the configuration maps a parameter to its suggested value. The source stores it as `{"value": v}` (scheduler_optuna.py:489), a uniform wrapping that is not modelled.
- The launch command built by `_create_sweep_command_args` is not modelled. `launched` records the run id and its args.
- Optuna itself is not modelled: `ask` numbers trials consecutively; `should_prune` and `suggest_*` are the parameters `pruner` and `sampler`. Storage, artifacts and `_load_optuna*` are not modelled.
- `_get_run_history` (public API, `wait_until_running`), `upsert_run`, `_encode`, `register_agent`, sleeps and queue timeouts are not modelled: the history is the parameter `history` and the new id is `newId`.
- `_make_trial_from_objective`, `trials_pretty`, `_start`, `_save_state` and `_exit` are not modelled.
- The base scheduler is not part of this model. Its workers are numbered 0 to `numWorkers - 1`; `_runs` only grows here; `is_alive()` is the field `alive`.
- `_job_queue` holds run values. A run queued and then changed elsewhere is not modelled (no aliasing). Concurrency of the poll thread is not modelled.
- `wandb/sdk/wandb_run_printer.py` (terminal output) is not modelled.

## Findings

| source | as written | input that shows it | evidently intended | confidence | as-written member | corrected member |
|---|---|---|---|---|---|---|
| wandb/sdk/launch/sweeps/scheduler_optuna.py:595-612 | `validate_optuna_pruner` / `validate_optuna_sampler` pass the whole `args`, including `type`, as keyword arguments to the constructor | `{"type": "MedianPruner"}`: `MedianPruner(type="MedianPruner")` raises `TypeError`, so validation fails; without `type` the name is `None` and loading raises | the constructor gets `args` without `type` | medium, not executed | OptunaTableProperties.ValidateNeverHolds | OptunaTableProperties.ValidatePrunerSettingIff |
