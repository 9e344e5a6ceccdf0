# vupdaters in Dafny

A model of the core of `vupdaters`. This is a daemon (`vupdated`) and a command-line tool (`dialctl`) that drive VU1 analogue dials through the dial server's HTTP API.

- **The daemon** reads a configuration that assigns a system metric to each dial index. It starts one dial manager task per configured dial. Each manager configures its dial, then repeatedly samples the host and sets the needle. A SIGHUP reloads the configuration. SIGINT, SIGTERM or SIGQUIT shut the daemon down, and so does a finished task.
- **`gen_config`** writes a configuration from the connected dials.
- **`dialctl set`** selects a dial by UID or index, then sets its value and patches its backlight.

The model covers:

- the API's value types: `Percent`, `Backlight`, `Id`, the response `Status` and their parsers and printers;
- the hub's serial command codes;
- `MultiError`;
- the retry classification `backoff_error`;
- the usage arithmetic;
- `spawn_dial_managers`, `DialManager::run`, the `run_daemon` event loop and `gen_config`;
- `select_dial` and `SetValues::run`.

One module per source concern:

| file | models |
|---|---|
| `wrappers.dfy` | `Option`, `Result`, `Outcome` |
| `text.dfy` | the Rust standard-library string and integer routines the parsers use |
| `dial.dfy` | `api/src/dial.rs` |
| `api.dfy` | `api/src/api.rs` |
| `client.dfy` | the API error and the requests a dial accepts |
| `multi_error.dfy` | `vupdaters/src/lib.rs` |
| `hub_protocol.dfy` | `protocol/src/v1.rs` |
| `metrics.dfy`, `usage.dfy`, `retry.dfy`, `spawn.dfy`, `dial_manager.dfy`, `supervisor.dfy`, `gen_config.dfy` | `vupdaters/src/daemon.rs` |
| `dialctl.dfy` | `vupdaters/src/dialctl.rs` |

The world outside the program becomes input to the model:

- **The dial server** is an oracle. A listing is a `Result<seq<Listed>, ApiError>`, where each `Listed` carries what that dial's `status()` call returns. A dial manager's device is a function from the k-th retried call to the outcomes of its attempts.
- **The host's sensors** are a `Host` sample per loop iteration.
- **The `running` watch channel** is a `Pause` value per iteration.
- **Signals and task completions** form one sequence of events, in the order `select!` takes them.
- **The configurations loaded on reload** are a function from the reload's number to what that load returns.

`MultiError` is a class updated in place. The loops are methods with loop invariants:

- `spawn_dial_managers`
- `DialManager::run`
- `run_daemon`
- `gen_config`
- `select_dial`

Each such method is proved equal to a recursive specification function, and the properties are lemmas about that function. `SetValues::run` has no loop: it is a straight-line method, `DialCtl.SetValuesRun`, proved equal to `DialCtl.SetAfterSelect` applied to the result of `DialCtl.Selection`.

## Model

| member | source | states |
|---|---|---|
| Text.Trim | api/src/api.rs:52 | `str::trim`: the result starts and ends with no whitespace and is a middle slice of the input with only whitespace around it |
| Text.TrimPadded | api/src/api.rs:52 | trimming whitespace-padded text that does not itself start or end with whitespace gives exactly that text |
| Text.TrimEndMatches | api/src/dial.rs:166 | `trim_end_matches('%')`: a prefix of the input, everything removed is `%`, and the result does not end in `%` |
| Text.ParseU8 | api/src/dial.rs:166 | `u8::from_str`: `Empty` exactly for empty text; a success means only digits after an optional `+`, with the result equal to their value |
| Text.DecimalValue | api/src/dial.rs:155-160 | the digits that a `u8`'s `Display` prints read back as the number |
| Text.ParseU8Decimal | api/src/dial.rs:155-169 | `u8::from_str` reads back every `u8` that `Display` prints |
| Text.DecimalInjective | api/src/dial.rs:155-160 | distinct numbers print differently |
| Dial.NewPercent | api/src/dial.rs:115-123 | `Ok` exactly for values up to 100, holding that value; otherwise `PercentError` of the value |
| Dial.PercentToU8 | api/src/dial.rs:135-139 | the `u8` is at most 100, and `Percent::new` rebuilds the same `Percent` from it |
| Dial.PercentTryFrom | api/src/dial.rs:141-147 | `TryFrom<u8>` is `Percent::new`, and converting back gives the input |
| Dial.PercentU8RoundTrip | api/src/dial.rs:135-147 | every `u8` up to 100 round-trips through `Percent` |
| Dial.FormatPercent | api/src/dial.rs:149-160 | the `Display` is the decimal digits of the value followed by exactly one `%` |
| Dial.PercentDigits | api/src/dial.rs:166 | the text handed to `u8::from_str` never ends in `%` |
| Dial.ParsePercent | api/src/dial.rs:162-169 | a success is the `u8` parse of the trimmed text with trailing `%` removed; `NotAU8` carries the parse error; `InvalidPercent` only for a parsed value above 100 |
| Dial.ParseFormatPercent | api/src/dial.rs:149-169 | parsing a printed `Percent` gives it back |
| Dial.ParsePercentPadded | api/src/dial.rs:162-169 | surrounding whitespace and any number of trailing `%` are ignored; a number above 100 is `InvalidPercent` |
| Dial.ParsePercentTooLarge | api/src/dial.rs:162-169 | a number above 100 is rejected as `InvalidPercent`, not as a parse error |
| Dial.ParsePercentBlank | api/src/dial.rs:162-169 | whitespace and `%` alone is `NotAU8(Empty)` |
| Dial.ParsePercentInvalidDigit | api/src/dial.rs:162-169 | a non-digit is `NotAU8(InvalidDigit)` |
| Dial.ParsePercentOverflow | api/src/dial.rs:162-169 | `256` is `NotAU8(PosOverflow)` |
| Dial.DeserializePercent | api/src/dial.rs:125-133 | accepts exactly the readable `u8` values up to 100; a larger value is `PercentError` of it; a deserializer failure is passed on |
| Dial.NewBacklight | api/src/dial.rs:102-111 | `Ok` exactly when all three channels are at most 100, with those values; otherwise the first bad channel, checked in the order red, green, blue, with its name |
| Dial.ParseId | api/src/dial.rs:94-100 | parsing never fails, and the `Id` prints as the input |
| Dial.ParseFormatId | api/src/dial.rs:88-100 | parsing a printed `Id` gives it back |
| Api.FormatStatus | api/src/api.rs:39-46 | `ok` or `fail`, with no surrounding whitespace |
| Api.ParseStatus | api/src/api.rs:48-58 | `Ok` iff the trimmed text equals `ok` ignoring ASCII case; `Fail` iff it equals `fail`; an error iff neither |
| Api.ParseFormatStatus | api/src/api.rs:39-58 | parsing a printed status gives it back |
| Api.ParseStatusPadded | api/src/api.rs:48-58 | any ASCII-case variant of `ok`/`fail`, padded with whitespace, parses to that status |
| Api.ParseStatusUpperPadded | api/src/api.rs:48-58 | `" OK "` parses as `Ok` |
| Api.ParseStatusRejects | api/src/api.rs:48-58 | `okay` is rejected |
| MultiErrors.Push | vupdaters/src/lib.rs:25-38 | the error is appended; an unbounded collector always returns `Ok`; `Err` exactly when the new count reaches the bound, carrying all errors in a fresh unbounded report and leaving the collector empty with the same message and bound; staying below the bound is preserved |
| MultiErrors.PushAllKeepsEverything | vupdaters/src/lib.rs:25-38 | over any number of pushes, the errors handed back followed by those still held are the errors held before followed by the pushed ones, in order; message and bound never change |
| MultiErrors.PushAllBatches | vupdaters/src/lib.rs:25-38 | a bounded collector hands errors back in batches of exactly its bound (one for bound zero), each unbounded and under its message, and stays below its bound |
| MultiErrors.MultiError.WithMaxErrors | vupdaters/src/lib.rs:17-23 | no errors, the given message and bound; below the bound |
| MultiErrors.MultiError.PushError | vupdaters/src/lib.rs:25-38 | the new state and the returned value are what `Push` gives for the old state; staying below the bound is preserved |
| MultiErrors.MultiError.Clear | vupdaters/src/lib.rs:40-42 | drops the errors and keeps message and bound |
| MultiErrors.FromVec | vupdaters/src/lib.rs:44-59 | `Ok` iff there are no errors; one error is returned as itself; two or more become one unbounded report under the message; the errors carried are exactly the input |
| HubProtocol.Code | protocol/src/v1.rs:3-54 | each command's byte follows its declaration position: three runs 0x01-0x19, 0x20-0x22 and 0xF3-0xFD |
| HubProtocol.Position | protocol/src/v1.rs:3-54 | the position is within the declaration and names the command |
| HubProtocol.CodeOrdered | protocol/src/v1.rs:3-54 | a command declared earlier has a smaller code |
| HubProtocol.CodeInjective | protocol/src/v1.rs:3-54 | no two commands share a byte |
| HubProtocol.GroupRanges | protocol/src/v1.rs:4-34 | set-value, hub, display and easing commands are exactly the codes 0x01-0x06, 0x07-0x0C, 0x0D-0x13 and 0x14-0x18 |
| HubProtocol.UnusedCodes | protocol/src/v1.rs:3-54 | no command uses 0x00 or 0x1A-0x1F |
| HubProtocol.BootloaderRange | protocol/src/v1.rs:43-53 | the bootloader commands are exactly 0xF4-0xFD, consecutive in declaration order |
| Metrics.DialName | vupdaters/src/daemon.rs:267-277 | every metric has a non-empty dial name |
| Metrics.DialNameInjective | vupdaters/src/daemon.rs:267-277 | two metrics have the same dial name iff they are equal |
| Metrics.ImgFileOf | vupdaters/src/daemon.rs:279-303 | every metric has an image |
| Metrics.ImgFileDistinct | vupdaters/src/daemon.rs:279-303 | each metric has its own image, and every image name ends in `.png` |
| Usage.AsWritten | vupdaters/src/daemon.rs:589-612 | the memory/swap arithmetic as written: a division by zero iff total < 100; otherwise a value iff the wrapped, truncated `100 - percent_free` is at most 100, and then that value |
| Usage.UsedPercent | vupdaters/src/daemon.rs:594-597 | the corrected arithmetic: no reading iff total < 100 |
| Usage.UsedPercentAgrees | vupdaters/src/daemon.rs:594-597 | wherever the code as written is defined and in range, it shows what the corrected arithmetic shows |
| Usage.AsWrittenNeverMisreports | vupdaters/src/daemon.rs:594-597 | with free at most total, any value the code as written shows equals the corrected reading |
| Usage.UsedPercentNothingFree | vupdaters/src/daemon.rs:594-597 | nothing free reads 100 |
| Usage.UsedPercentAllFree | vupdaters/src/daemon.rs:594-597 | everything free reads 0 |
| Usage.UsedPercentAntitone | vupdaters/src/daemon.rs:594-597 | more free space never reads as more used |
| Usage.NoSwapDividesByZero | vupdaters/src/daemon.rs:605-612 | a swap total of 0 divides by zero as written; the corrected arithmetic gives no reading |
| Usage.SmallTotalWraps | vupdaters/src/daemon.rs:594-597 | total 199 with 199 free is rejected as written with `PercentError(157)`; the corrected arithmetic reads 0 |
| Usage.DiskTotals | vupdaters/src/daemon.rs:656-666 | the fold's totals are the sums of all mounts' sizes and free space, modulo 2^64 |
| Usage.NoMountsDividesByZero | vupdaters/src/daemon.rs:647-671 | with no mounts the total is 0, and the code as written divides by zero |
| Usage.ReadMetric | vupdaters/src/daemon.rs:565-672 | a failed sensor skips; a direct reading above 100 ends the task with `PercentError` of it; otherwise a direct reading is shown as is. A total/free reading is shown as the corrected used percentage (`Usage.UsedPercent`), not by the arithmetic as written, and a total below 100 skips where the source divides by zero (see Left out) |
| Usage.ReadMetricMatchesSource | vupdaters/src/daemon.rs:589-672 | for memory, swap and disk with free at most total, wherever the code as written shows a value the reading shows the same one, and the reading skips exactly where the code as written divides by zero |
| Usage.FreeAboveTotalShowsWrapped | vupdaters/src/daemon.rs:594-597 | with free above total (total 100, free 300), the code as written shows 56% used where the corrected reading shows 0% |
| Usage.SensorErrorSkips | vupdaters/src/daemon.rs:565-672 | when the metric's sensor fails, the iteration is skipped |
| Retry.BackoffError | vupdaters/src/daemon.rs:728-737 | the error is kept; it is permanent exactly for build-URL, build-request, invalid-backlight and invalid-value errors |
| Retry.Retry | vupdaters/src/daemon.rs:483-499 | attempts are made in order; every attempt before the last was a retriable failure; the result is the last attempt's; stopping early means that attempt was not retriable |
| Retry.RetrySucceeds | vupdaters/src/daemon.rs:483-499 | a retried call succeeds iff some attempt succeeds after nothing but retriable failures |
| Retry.RetryStopsAtPermanent | vupdaters/src/daemon.rs:491-493 | a permanent error after retriable failures ends the call with that error |
| Spawn.Spawning | vupdaters/src/daemon.rs:410-452 | a success always starts at least one manager |
| Spawn.SpawnDialManagers | vupdaters/src/daemon.rs:410-452 | the two loops start exactly the managers `Spawning` describes, or fail as it does |
| Spawn.IndexFromFails | vupdaters/src/daemon.rs:418-425 | indexing succeeds iff every listed dial's status does; otherwise it fails with the first failing dial and its error |
| Spawn.IndexFromLastWins | vupdaters/src/daemon.rs:416-425 | the map holds exactly the reported indices; each maps to the last dial that reported it |
| Spawn.AssignSound | vupdaters/src/daemon.rs:430-448 | every manager started is a configured entry driving the dial listed under its index; no two drive the same index |
| Spawn.AssignClaims | vupdaters/src/daemon.rs:430-448 | the indices claimed are exactly the configured indices that have a dial |
| Spawn.AssignCount | vupdaters/src/daemon.rs:426-448 | the number of managers equals the number of configured indices with a dial, and never exceeds the number of dials |
| Spawn.NoDialsConnectedIff | vupdaters/src/daemon.rs:450 | "no dials are connected" iff every status came back but no configured index has a dial |
| Spawn.StatusFailureStartsNothing | vupdaters/src/daemon.rs:418-423 | a failing status aborts with `StatusFailed` before any manager starts |
| DialManager.MidGrayIsValid | vupdaters/src/daemon.rs:521 | `Backlight::new(50, 50, 50)` always succeeds |
| DialManager.Execute | vupdaters/src/daemon.rs:501-536 | carrying out steps only extends the calls made; once a call has failed for good or the task has stopped, nothing after it happens |
| DialManager.Perform | vupdaters/src/daemon.rs:483-502 | one retried call or stop, as `Do` describes it; a stop makes no call |
| DialManager.Configure | vupdaters/src/daemon.rs:501-536 | the setup code does exactly what `Execute` does with the setup steps |
| DialManager.Iterate | vupdaters/src/daemon.rs:542-680 | one loop iteration, with the metric read from the host's sensors by `Usage.ReadMetric`, does exactly what `Execute` does with that iteration's steps |
| DialManager.RunDialManager | vupdaters/src/daemon.rs:463-682 | the whole run is `Execute` of the plan: setup, then each iteration, readings as `Usage.ReadMetric` gives them |
| DialManager.ExecuteFollowsSteps | vupdaters/src/daemon.rs:463-682 | the calls made are a prefix of the planned calls, and all of them when the task has not ended |
| DialManager.ExecuteSucceedsUntilEnd | vupdaters/src/daemon.rs:483-502 | every call made succeeded, except possibly the last, which then ended the task with its error |
| DialManager.SetupStepsCalls | vupdaters/src/daemon.rs:501-536 | the setup steps contain no stop, and the calls they make are exactly `SetupCalls`: the name, the configured easings, the backlight, the image |
| DialManager.SetupOrder | vupdaters/src/daemon.rs:501-536 | setup calls: the name; the dial easing if configured; the backlight easing if configured; the mid-gray backlight; the image; no value is set |
| DialManager.NoValueBeforeSetup | vupdaters/src/daemon.rs:501-677 | a value is only ever set after the whole setup has been made, in order, and succeeded |
| DialManager.RunThrough | vupdaters/src/daemon.rs:542-681 | the run goes through iteration i from where the previous iterations left it |
| DialManager.ResumeSetsBacklightFirst | vupdaters/src/daemon.rs:542-563 | after a pause ends with the flag up, the next call resets the mid-gray backlight; if that succeeds and a value was read, setting it is the call after |
| DialManager.ClosedWhilePausedEnds | vupdaters/src/daemon.rs:545-551 | a watch channel closing during a pause ends the task there, with no further call |
| DialManager.SkippedSampleSetsNothing | vupdaters/src/daemon.rs:565-672 | a running iteration whose sample is skipped makes no call |
| DialManager.InvalidSampleEnds | vupdaters/src/daemon.rs:565-646 | a reading that `Percent::new` rejects ends the task with that error, with no further call |
| Supervisor.ActionOf | vupdaters/src/daemon/signal.rs:55-75 | a hang-up reloads; interrupt, terminate and quit shut down |
| Supervisor.Respawn | vupdaters/src/daemon.rs:332-336 | a success starts at least one task; a failure is a config-load or spawn error |
| Supervisor.LoadAndSpawn | vupdaters/src/daemon.rs:332-336 | load then spawn, as `Respawn` describes |
| Supervisor.RunDaemon | vupdaters/src/daemon.rs:311-373 | the event loop ends in the state `Supervise` gives for the start and the events |
| Supervisor.StillRunning | vupdaters/src/daemon.rs:338-351 | a daemon still running has seen only reloads, runs at least one task, and runs the tasks the last reload spawned |
| Supervisor.RunningAfterStart | vupdaters/src/daemon.rs:332-351 | the same, from the first load |
| Supervisor.FirstStopDecides | vupdaters/src/daemon.rs:352-367 | the first event that is not a reload ends the daemon: a shutdown with `Ok`, a finished task with its panic, error or `Ok`; later events do not matter |
| Supervisor.FailedReloadEnds | vupdaters/src/daemon.rs:342-350 | a reload whose load or spawn fails ends the daemon with that error |
| Supervisor.ReloadReplacesTasks | vupdaters/src/daemon.rs:342-350 | a successful reload replaces every task with the newly spawned ones |
| Supervisor.FailedStartEnds | vupdaters/src/daemon.rs:332-336 | a failed first load or spawn ends the daemon with that error, whatever follows |
| GenConfig.ConfigFor | vupdaters/src/daemon.rs:229-243 | the entry has the dial's index, the metric, a one-second interval and both easings copied from the dial's status |
| GenConfig.GenerateConfig | vupdaters/src/daemon.rs:204-245 | the zip loop builds exactly `Generated`, or fails as it does |
| GenConfig.GenFromOk | vupdaters/src/daemon.rs:222-226 | the loop succeeds iff every dial paired with a metric reports its status; dials beyond the last metric are never asked |
| GenConfig.GenFromKeys | vupdaters/src/daemon.rs:222-245 | on success, the entries are the ones held before plus one per paired metric's name; the others are untouched |
| GenConfig.GenFromValues | vupdaters/src/daemon.rs:222-245 | each paired metric has an entry, built from the status of the dial paired with its last request |
| GenConfig.GeneratedEntries | vupdaters/src/daemon.rs:204-245 | the generated configuration is keyed by the paired metrics' dial names, with a one-second interval and the paired dial's index; with no metric requested twice, there are as many entries as pairs |
| DialCtl.FormatSelection | vupdaters/src/dialctl.rs:165-172 | prints `ID …` or `index …` |
| DialCtl.FormatSelectionInjective | vupdaters/src/dialctl.rs:165-172 | two selections print alike iff they have the same UID, and, when they have none, the same index |
| DialCtl.SelectDial | vupdaters/src/dialctl.rs:133-163 | the search loop returns exactly what `Selection` describes |
| DialCtl.FindIndexFirstMatch | vupdaters/src/dialctl.rs:143-160 | the result is the first listed dial reporting the index, with its status; a status failure is the first one met; "no dial found" iff every dial reported another index |
| DialCtl.SelectByUid | vupdaters/src/dialctl.rs:138-142 | with a UID, the dial is taken without listing and without a status |
| DialCtl.SelectByIndexHasStatus | vupdaters/src/dialctl.rs:143-160 | a selection by index carries the status the search read |
| DialCtl.PatchBacklight | vupdaters/src/dialctl.rs:187-209 | each channel given replaces the current one; the others are kept |
| DialCtl.PatchBacklightLaws | vupdaters/src/dialctl.rs:196-209 | patching with nothing is the identity; patching is idempotent; with all three given, the result does not depend on the current backlight |
| DialCtl.SetValuesRun | vupdaters/src/dialctl.rs:174-224 | `set` selects the dial as `Selection` does, then makes the requests after the selection and ends as `SetAfterSelect` describes |
| DialCtl.SetOrder | vupdaters/src/dialctl.rs:180-216 | of the requests made after the selection, the value, if given, is set first; the status is fetched iff a channel is given, the selection brought none and setting the value did not fail; the backlight is set iff a channel is given and every earlier request succeeded, as the last request, patched onto the current backlight |
| DialCtl.SetSucceeds | vupdaters/src/dialctl.rs:174-224 | once the selection has succeeded, `set` succeeds iff every request it makes after the selection succeeds |
| DialCtl.ImageIgnored | vupdaters/src/dialctl.rs:218-220 | the image option makes no request and changes nothing |

## Left out

- HTTP, JSON and the server itself.
  - The `Client`, `Dial` request building, `list_dials`, `status` and the set endpoints are not part of this model. Their results are inputs, given as `Listed` entries, device attempt outcomes and `Replies`.
  - Whether `Client::dial` accepts a UID is an input (`build`).
- Backoff timing.
  - The exponential backoff policy, its jitter, intervals and elapsed-time limit are not modelled. The policy is represented only by how many attempts it allows, given as the `Attempts` of each call.
  - `RetryConfig` defaults and `backoff_builder` are left out.
- Floating point.
  - The CPU load, CPU temperature and battery readings are given after their `as u8` conversion. The float arithmetic and saturating cast before it are not modelled.
- Concurrency and time.
  - The `JoinSet`, `select!`, the `watch` channel and `tokio::time::interval` are flattened into sequences of events and iterations. How long a tick takes, and what a manager does while other tasks run, are not modelled.
  - `tasks.shutdown()` is modelled only as the old tasks being replaced.
- Hotplug support (`hotplug.rs`) and the `hotplug.enabled` check in `run_daemon` are not modelled. They are platform- and feature-dependent setup.
- Signal registration is not modelled. `SignalListener::new` can fail, and the Windows Ctrl-C listener exists. Only the mapping from a signal to its action is modelled.
- Configuration files. `Config::load` (reading and TOML parsing), the TOML writing and file creation at the end of `gen_config`, and `config.rs` are not modelled. A load is an input that succeeds with the entries, in the map's iteration order, or fails with a message.
- The `vupdate` crate, the command-line parsers (`cli.rs`), `docs/build.rs` and all logging and printing are not modelled.
  - This includes the `list` and `status` commands of `dialctl`, whose effect is printing.
  - It includes the "not enough dials" warnings.
- The `unsupported Metric` branch of `DialManager::run` is not modelled. Every `Metric` variant is handled before it, so it cannot be reached.
- `DialCtl.SelectDial`, `DialCtl.FormatSelection`, `DialCtl.SetValuesRun` require a UID or an index. Without one, the source panics through `expect`. The command line's `selection` group requires exactly one.
- Metrics.DialName: states only that a name is non-empty. `Metrics.DialNameInjective` states what the names are for.
- Spawn.Spawning: states only that a success is non-empty. Its failures are stated by `Spawn.IndexFromFails`, `Spawn.NoDialsConnectedIff` and `Spawn.StatusFailureStartsNothing`.
- Usage.ReadMetric: computes memory, swap and disk usage with the corrected `Usage.UsedPercent`, not with the arithmetic as written (`Usage.AsWritten`; both bugs are under Findings). For a total below 100 the source divides by zero and the manager task panics; the model skips the iteration. Where the source's subtraction wraps and `Percent::new` ends the task with `PercentError`, the model shows 0% used. Free above total is allowed by the input, and a disk total, summed with wrap-around, can fall below the free sum. There the source's wrapped subtraction can land in range and show a wrong percentage: 56% used for a total of 100 with 300 free (`Usage.FreeAboveTotalShowsWrapped`). The model shows 0%. For free at most total, `Usage.ReadMetricMatchesSource` states that everywhere else the two agree.
- DialManager.Iterate: inherits this from `Usage.ReadMetric`. A manager in the model never panics on a small total, never ends with `PercentError` of a wrapped memory, swap or disk value, and never shows a wrapped in-range value when free exceeds total.
- DialManager.RunDialManager: inherits all three gaps from `Usage.ReadMetric`. In the model a manager is never the cause of the daemon's "a dial manager task panicked" exit (`Supervisor.TaskPanicked`); that join outcome stays an input.
- The image bytes are not modelled. Only an image's file name is.
- The `force` flag is always `false`.
- Integer widths. Byte counts are `u64` and wrap modulo 2^64 as in a release build. A debug build's overflow panic is not modelled. Dial indices and periods are unbounded naturals.

## Findings

| source | as written | input that shows it | evidently intended | confidence | as-written member | corrected member |
|---|---|---|---|---|---|---|
| vupdaters/src/daemon.rs:609 | `free.0 / (total.0 / 100)` divides by `total / 100`, which is 0 for a total below 100; the same holds at lines 594 and 668 | a host with no swap configured (swap total 0), or no filesystem mounted (disk total 0): the manager task panics | skip the reading when there is nothing to measure | not executed | Usage.NoSwapDividesByZero | Usage.UsedPercent |
| vupdaters/src/daemon.rs:594-597 | `100 - percent_free` is computed in `u64` and cast with `as u8`; `percent_free` exceeds 100 when `total / 100` rounds down far enough | total 199 bytes, 199 free: `percent_free` is 199, the subtraction wraps, the cast gives 157, and `Percent::new` ends the task with `PercentError(157)` | cap `percent_free` at 100, reading 0% used | not executed | Usage.SmallTotalWraps | Usage.UsedPercent |
