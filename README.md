# Circuit-breaker protection relay: decision and supervision core

This project is a Dafny model of the control core of a small C protection
relay. The relay measures a current and a voltage channel. Each channel
trips when its reading stays strictly above a threshold for a time delay
(TMS). The relay drives a breaker indicator, sends an alert on every
tripping cycle, and records transitions in an audit log. Three tasks share
a cooperative periodic scheduler:

- protection, every 100 ms;
- configuration reload, every 500 ms;
- a watchdog check, every 500 ms.

A small configuration service accepts new settings, writes them to a file
and raises a reload flag. The relay's reload task picks that flag up.

The model has one module per component:

| module | file | models |
|---|---|---|
| `Timing` | timing.dfy | `struct timespec` and `ts_diff_ms`, with C's truncating division |
| `Protection` | protection.dfy | the channel state machine of src/bom.c, as class `Channel` plus the step function `Step` |
| `Supervision` | supervision.dfy | the watchdog statics of src/watchdog.c, as class `Watchdog` |
| `Scheduling` | scheduling.dfy | the task array of src/scheduler.c and one pass of the `aps_run` loop |
| `AuditLog` | auditlog.dfy | the 256-slot log ring buffer of src/ArkStudio.c |
| `CStrings` | cstrings.dfy | C strings: `strlen` and `strstr` |
| `FormCodec` | formcodec.dfy | `hexval`, the in-place `urldecode` and `kv_get` |
| `Config` | config.dfy | the configuration statics of src/config.c, `trim`, `unquote`, `strtok`, the key dispatch, `clamp_all` and `config_load` |
| `ConfService` | conf_service.dfy | the reload flag, `is_probably_json`, form validation, and the two POST handlers once the body has been received |
| `Relay` | relay.dfy | the tasks of src/main.c, start-up and task registration |
| `DigitalInput` | digitalinput.dfy | the debounced logic input of src/bel.c |

A few conventions hold throughout the model:

- Clock readings, sensor readings, configuration file lines, log time
  stamps and raw GPIO values are parameters.
- The breaker actuator and the alert channel are recorded as the
  sequences of values sent to them (`Relay.commands`, `Relay.alerts`).
- Code that updates state in place is modelled as classes whose methods
  are proved against specification functions: `Step`, `Keep`, `Clamp`,
  `ApplyLines`, `RunOrder`, `Advance`, `UrlDecoded`, `Lookup` and
  `Debounced`.

The model follows the code on these points:

- The trip logic is fixed. `task_protection` always combines the
  channels with OR. The stored `trip_logic` setting is validated and kept
  but never consulted (src/main.c:73).
- `config_load` fails (-1) only when the file cannot be opened. Malformed
  lines are skipped and the lines before and after them still take
  effect, so there is no "parse failure keeps the previous configuration"
  path (src/config.c:86-118).
- A failed reload writes no warning entry to the audit log. It only
  prints.
- The legacy keys `threshold` and `tms_ms` assign channel A whenever they
  appear, not only when the extended keys are absent. File order decides.
- A form accepted by `POST /apply` does not reload as it was entered. The
  handler writes `"samples"` and then `"sleep_between_samples_ms"`
  (src/ArkStudio.c:427-437). The loader's `samples` test also catches the
  second name, so the reload sets `samples` to the sleep value and leaves
  `sleep_ms` alone; clamping then resets `samples` to 10 when the sleep
  value is 0 or above 128. `ConfService.ReloadOfAppliedForm` proves this.

## Model

| member | source | states |
|---|---|---|
| Timing.CDiv | src/scheduler.h:48-49 | C signed division by a positive divisor truncates toward zero: the remainder has the sign of the dividend and is smaller than the divisor |
| Timing.CDivNeg | src/scheduler.h:48-49 | truncating division is symmetric about zero |
| Timing.DiffMs | src/scheduler.h:46-50 | `ts_diff_ms` is within one millisecond of the exact time difference, whatever the fields |
| Timing.DiffMsSelf | src/scheduler.h:46-50 | `ts_diff_ms(a, a) == 0` |
| Timing.DiffMsWholeSeconds | src/scheduler.h:47-49 | with equal nanosecond fields the difference is 1000 per second |
| Timing.DiffMsAntisymmetric | src/scheduler.h:46-50 | swapping the arguments negates the result |
| Timing.DiffMsTruncatesTowardZero | src/scheduler.h:48-49 | one nanosecond across a second boundary counts as 1 ms either way, as C truncation gives and flooring would not |
| Protection.RunTracksStreak | src/bom.c:29-46 | a valid channel fed a sequence of samples keeps threshold, delay and validity, and holds exactly the time of the first sample of the current unbroken exceedance streak (unset when the last sample does not exceed) |
| Protection.TripExactlyAfterDelay | src/bom.c:25-47 | the channel trips on a sample iff that sample exceeds and at least `tms_ms` have passed since the start of the current streak; one non-exceeding sample restarts the count |
| Protection.ConstantOverloadTripsAfterTwentyPeriods | src/main.c:42-45 | a constant 560 against the default 550 threshold and 2000 ms delay, sampled every 100 ms, first trips on the sample taken 2000 ms after the first |
| Protection.Channel.constructor | src/bom.c:13-18 | a fresh channel holds the threshold and delay, is valid, and has its timer unset |
| Protection.Channel.Init | src/bom.c:13-18 | `bom_init` sets threshold and delay, clears `invalid` and unsets the timer |
| Protection.Channel.Check | src/bom.c:20-23 | never exceeds when invalid; otherwise exceeds iff the value is strictly above the threshold |
| Protection.Channel.CheckWithTms | src/bom.c:25-47 | the new state and output are `Step`: a non-exceeding sample unsets the timer and returns no trip; an exceeding one starts the timer only if it was unset and trips iff the elapsed time reaches the delay; threshold, delay and validity are untouched |
| Protection.Channel.SetInvalid | src/bom.c:49-51 | stores the flag normalised to a boolean and changes no other field |
| Supervision.EffectiveTimeout | src/watchdog.c:18-24 | a non-positive timeout becomes the default 1500 ms, a positive one is kept; the result is positive |
| Supervision.FreshKickStaysHealthy | src/watchdog.c:31-49 | after a kick, a check at any reading from the kick up to and including the timeout later reports no fault and leaves the fault flag clear, whatever it held before |
| Supervision.Watchdog.constructor | src/watchdog.c:7-9 | the static initial values: default timeout, zero time stamp, no fault |
| Supervision.Watchdog.Init | src/watchdog.c:17-29 | stores the effective timeout, sets the last kick to now, clears the fault, returns 0 |
| Supervision.Watchdog.Kick | src/watchdog.c:31-34 | changes only the last kick, setting it to now |
| Supervision.Watchdog.Check | src/watchdog.c:36-49 | reports a fault iff strictly more than the timeout has passed since the last kick, and stores that result, so a healthy check clears the fault |
| Supervision.Watchdog.IsFault | src/watchdog.c:51-53 | the stored fault flag, which every check sets to its own result |
| Supervision.Watchdog.GetTimeoutMs | src/watchdog.c:55-57 | the stored timeout, always positive |
| Supervision.KickClearsFault | src/watchdog.c:36-53 | a check 1600 ms after a kick with a 1500 ms timeout faults; a kick and an immediate check clear it; `watchdog_is_fault` follows the last check |
| Scheduling.RunOrderIsDueTasksInOrder | src/scheduler.c:44-64 | one pass runs exactly the due tasks, in strictly increasing index order, so each at most once and in registration order |
| Scheduling.OffsetConsumedOnce | src/scheduler.c:48-55 | an unconsumed offset is consumed iff it has elapsed since start, the consuming run records `now`, a consumed offset stays consumed, and a task not due is unchanged |
| Scheduling.RunNotBeforeNow | src/scheduler.c:48-62 | a task that runs leaves its offset consumed and records a time no earlier than the pass's `now`: the offset run records `now` itself, a periodic run a later clock reading |
| Scheduling.PeriodRestartsAtRun | src/scheduler.c:52-62 | after a run, the task is due at a later pass exactly when a full period has passed since the time the run recorded |
| Scheduling.Scheduler.constructor | src/scheduler.c:15-20 | adopts the buffer and capacity, no tasks, start time now |
| Scheduling.Scheduler.AddTask | src/scheduler.c:22-36 | -1 and no change when full; otherwise 0, the new task (offset unconsumed, last run at start) in slot `count`, `count` incremented, every other slot untouched; `count <= max_tasks` is kept |
| Scheduling.Scheduler.Tick | src/scheduler.c:41-64 | one pass runs `RunOrder` of the tasks and leaves each task as `Advance` says; given clock readings that do not go backwards, every task that ran has its offset consumed and a last run time no earlier than `now`; slots beyond `count` are untouched |
| AuditLog.Stored | src/ArkStudio.c:64-67 | a null action or detail is stored as "-", otherwise its first 31 (or 127) characters |
| AuditLog.ReplayKeepsLatest | src/ArkStudio.c:57-70 | after any number of appends to an empty log, the log reads the last 256 entries in insertion order |
| AuditLog.Ring.constructor | src/ArkStudio.c:47-48 | the zero-initialised ring is empty |
| AuditLog.Ring.Append | src/ArkStudio.c:57-70 | the log contents become `Keep` (oldest dropped at capacity); `head` advances only when full; the new entry goes to the old `tail`, which advances modulo 256; no other slot changes; `tail == (head + count) % 256` |
| AuditLog.Ring.DropOldest | src/ArkStudio.c:58-61 | at capacity, `head` advances modulo 256, `count` drops by one and the oldest entry leaves the contents; `tail` and the slots are untouched |
| AuditLog.Ring.Push | src/ArkStudio.c:62-69 | with room left, the entry is written at the old `tail`, which advances modulo 256; `count` grows by one, the entry joins the contents, no other slot changes |
| AuditLog.Ring.Snapshot | src/ArkStudio.c:79-90 | walking `count` slots from `head` with wrap-around yields the contents oldest to newest |
| FormCodec.HexVal | src/ArkStudio.c:244 | the digit's value for each of `0`-`9`, `a`-`f` and `A`-`F`, and -1 exactly for any other character |
| FormCodec.UrlDecoded | src/ArkStudio.c:245-253 | decoding never lengthens the text |
| FormCodec.PlainTextUnchanged | src/ArkStudio.c:245-253 | text without `+` or `%` decodes to itself |
| FormCodec.DecodeEncoded | src/ArkStudio.c:245-253 | decoding a form-encoded text gives the text back |
| FormCodec.ReadEscape | src/ArkStudio.c:247-251 | one decoding step reads `+` as a space, `%XY` as one character, and copies anything else, a lone `%` included |
| FormCodec.UrlDecode | src/ArkStudio.c:245-253 | the in-place decode leaves `UrlDecoded` of the original string followed by a terminator and touches nothing past the old terminator |
| FormCodec.Scan | src/ArkStudio.c:257-267 | the occurrence the search settles on stands at the body start or after `&` and is followed by `=` |
| FormCodec.ScanFindsFirstField | src/ArkStudio.c:257-267 | for a key without `&`, the search finds the first such occurrence, and none only when there is none |
| FormCodec.RawValue | src/ArkStudio.c:261 | the copied value holds no `&` and is at most `outsz - 1` characters |
| FormCodec.RawValueIsCutValue | src/ArkStudio.c:261 | the copied value is the body's text from the value start on, cut at the first `&`, at the end of the body or after `outsz - 1` characters, whichever comes first |
| FormCodec.CopyValue | src/ArkStudio.c:259-262 | the copy loop leaves the raw value as a C string in the output buffer |
| FormCodec.CopyDecoded | src/ArkStudio.c:259-263 | the output buffer ends up holding the decoded raw value, terminated |
| FormCodec.SearchField | src/ArkStudio.c:255-268 | the `strstr` loop returns the occurrence `Scan` describes |
| FormCodec.LookupFindsFirstField | src/ArkStudio.c:254-269 | for a key without `&`, `kv_get` finds a field exactly when the key stands somewhere at the body start or after `&` and is followed by `=`, and then reads the value of the first such place, cut to `outsz - 1` and decoded |
| FormCodec.InsideKeyNotField | src/ArkStudio.c:258 | an index strictly inside an occurrence of a key without `&` never passes the field test |
| FormCodec.KvGet | src/ArkStudio.c:254-269 | returns 1 iff the key stands as a field name; then the buffer holds the value up to the next `&`, cut to `outsz - 1`, decoded; otherwise the buffer is untouched |
| Config.Clamp | src/config.c:55-67 | every field ends in range, fields already in range are unchanged, `mode` is never touched |
| Config.ClampIdempotent | src/config.c:55-67 | clamping in-range settings is the identity, so clamping twice is clamping once |
| Config.Trim | src/config.c:34-42 | the result occurs in the input between runs of white space and neither begins nor ends with white space |
| Config.TrimNoop | src/config.c:34-42 | a string without surrounding white space is its own trim |
| Config.TrimIdempotent | src/config.c:34-42 | trimming twice is trimming once |
| Config.Unquote | src/config.c:44-52 | the trimmed string, with one enclosing pair of `"` removed exactly when it has length at least 2 and quotes at both ends |
| Config.UnquoteQuoted | src/config.c:44-52 | quoting then unquoting gives the text back, whatever is inside |
| Config.UnquotePlain | src/config.c:44-52 | a value not starting with a quote is only trimmed |
| CStrings.StrLen | src/ArkStudio.c:246 | the walk to the end of a C string stops at the first terminator, and the text before it is what C reads as the string |
| CStrings.Find | src/config.c:94-116 | `strstr`: an occurrence found is an occurrence at or after the start |
| CStrings.FindIsFirst | src/ArkStudio.c:257 | the occurrence `strstr` finds is the first, and it finds none only when there is none |
| CStrings.Truncate | src/config.c:100-101 | `strncpy` into a fixed array and its terminator keeps exactly the first `n` characters of a longer string and a shorter string whole |
| Config.Strtok | src/config.c:87-88 | none exactly when only delimiters remain; otherwise the token runs from the first non-delimiter to the next delimiter or the end, and the next call resumes past that delimiter |
| Config.SplitLine | src/config.c:87-92 | the key holds no `:` and the value none of `,`, `}` and newline, and both are already trimmed |
| Config.Target | src/config.c:94-117 | a key selects no field exactly when it contains none of the tested names |
| Config.NoColonSkipped | src/config.c:87-90 | a line without `:` is skipped |
| Config.EmptyValueSkipped | src/config.c:87-90 | a line whose key is followed only by value delimiters is skipped |
| Config.SleepKeyNeverReached | src/config.c:106-107 | no key reaches the `sleep_between_samples_ms` branch, since every such key contains `samples`, which is tested first |
| Config.FirstMatchWins | src/config.c:94-111 | the first matching test wins: `threshold_A` and `threshold_V` keys never reach the legacy branches, and the V fields are assigned only by keys naming them |
| Config.LineField | src/config.c:86-117 | a line never assigns `sleep_ms` |
| Config.LastLineWins | src/config.c:86-118 | each numeric field ends with the value of its last assigning line, or keeps its value when no line assigns it; `sleep_ms` is never assigned from the file |
| Config.LineStringsFit | src/config.c:98-116 | one line keeps the mode and trip logic within their arrays |
| Config.LoadedStringsFit | src/config.c:98-116 | the loaded mode and trip logic fit their 16- and 8-byte arrays |
| Config.Config.constructor | src/config.c:15-28 | the statics start at the defaults of src/config.h and are in range |
| Config.Config.ClampAll | src/config.c:55-67 | the stored settings become `Clamp` of the old ones |
| Config.Config.ClampNumberFields | src/config.c:56-61 | the six numeric tests of `clamp_all` |
| Config.Config.Load | src/config.c:73-132 | -1 exactly when the file cannot be opened, then the old settings clamped; otherwise 0 and the lines applied in order, then clamped; the store stays in range |
| Config.Config.LoadLine | src/config.c:87-117 | one loop iteration applies `ApplyLine` and keeps the strings within their arrays |
| Config.Config.AssignField | src/config.c:94-117 | the branch a field selects assigns exactly that field as `Assign` says and keeps the strings within their arrays |
| Config.Config.ThresholdA | src/config.c:148 | the stored channel-A threshold, non-negative in a valid store |
| Config.Config.ThresholdV | src/config.c:149 | the stored channel-V threshold, non-negative in a valid store |
| Config.Config.TmsAMs | src/config.c:150 | the stored channel-A delay, positive in a valid store |
| Config.Config.TmsVMs | src/config.c:151 | the stored channel-V delay, positive in a valid store |
| Config.Config.Samples | src/config.c:140 | the stored sample count, within 1..128 in a valid store |
| Config.Config.SleepMs | src/config.c:141 | the stored sleep, within 0..1000 in a valid store |
| Config.Config.Mode | src/config.c:142 | the stored mode, fitting its array in a valid store |
| Config.Config.TripLogic | src/config.c:152 | the stored trip logic, "any" or "both" in a valid store |
| Config.Config.Threshold | src/config.c:138 | the legacy getter returns the channel-A threshold |
| Config.Config.TmsMs | src/config.c:139 | the legacy getter returns the channel-A delay |
| ConfService.ReloadFlag.constructor | src/ArkStudio.c:26 | the flag starts clear |
| ConfService.ReloadFlag.NeedReload | src/ArkStudio.c:533 | true iff the flag is raised |
| ConfService.ReloadFlag.Clear | src/ArkStudio.c:534 | the flag is clear afterwards |
| ConfService.ReloadFlag.Raise | src/ArkStudio.c:453 | the flag is raised afterwards |
| ConfService.IsProbablyJson | src/ArkStudio.c:176-180 | true iff the first character that is not space, tab, CR or LF is `{` |
| ConfService.OpensObjectAfterBlanks | src/ArkStudio.c:176-180 | any run of blanks before `{` is accepted; a body starting with another character is not |
| ConfService.FormValid | src/ArkStudio.c:412-418 | the form's values are valid exactly when they are within the bounds `clamp_all` enforces |
| ConfService.FormValidIsInRange | src/ArkStudio.c:412-418 | for any mode, the form accepts exactly the values `clamp_all` leaves alone, and clamping accepted values changes nothing |
| ConfService.MissingFieldRejected | src/ArkStudio.c:387-401 | any one of the seven fields missing makes the form fail, whatever else the body holds |
| ConfService.ReloadOfAppliedForm | src/ArkStudio.c:425-437 | loading the JSON text the form handler writes assigns both thresholds, both delays and the trip logic, but gives `samples` the sleep value and leaves `sleep_ms` and the mode as they were |
| ConfService.ReadField | src/ArkStudio.c:384-393 | `kv_get` into a zeroed buffer reads back the field's text |
| ConfService.ReadLogic | src/ArkStudio.c:394-410 | the trip logic field is read and then decoded a second time |
| ConfService.DecodeAgain | src/ArkStudio.c:410 | the buffer, read as a C string, is replaced by its decoding |
| ConfService.Accept | src/ArkStudio.c:453-458 | the reload flag is raised and one entry is appended to the log |
| ConfService.ReadForm | src/ArkStudio.c:383-409 | the seven reads give the parsed form, or none when a field is missing |
| ConfService.ApplyForm | src/ArkStudio.c:356-464 | 302 iff the body size is acceptable, every field is present, the values are valid, the JSON fits and the write succeeds, otherwise 400; only on 302 is the flag raised and `CONFIG_APPLY_EXT` logged |
| ConfService.PostConfig | src/ArkStudio.c:468-490 | 201 iff the body size is acceptable, the body opens a JSON object and the write succeeds, otherwise 400; only on 201 is the flag raised and `CONFIG_JSON` logged |
| Relay.Indicate | src/main.c:73-104 | the indicator becomes 1 iff the cycle trips, and a log entry is due iff that differs from the last state |
| Relay.LogOnTransitionOnly | src/main.c:38-102 | the first valid cycle always logs; a cycle repeating the previous decision never does; a cycle reversing it always does |
| Relay.Relay.constructor | src/main.c:155-189 | start-up loads and clamps the configuration, initialises both channels from it, and starts the watchdog with the 1500 ms default at now |
| Relay.Relay.TaskProtection | src/main.c:35-108 | a negative reading on either channel marks both invalid and leaves indicator, commands, alerts and log alone; otherwise both channels are marked valid and stepped, the command is OR of their trips, a transition is logged, every tripping cycle alerts with the channel-A value; the watchdog is kicked either way |
| Relay.Relay.Signal | src/main.c:73-104 | the actuator command every cycle, `TRIP_ON`/`TRIP_OFF` logged only on a change of state, an alert on every tripping cycle |
| Relay.Relay.TaskReloadConfig | src/main.c:111-135 | nothing when the flag is clear; otherwise the configuration is reloaded, on success both channels are re-initialised from it and `CONFIG_APPLIED` is logged, on failure the channels are kept; the flag ends clear |
| Relay.Relay.TaskWatchdog | src/main.c:138-146 | the result of the watchdog check |
| Relay.RegisterTasks | src/main.c:192-201 | an 8-slot scheduler holding protection (100 ms), reload (500 ms) and watchdog (500 ms), in that order, without offsets |
| Relay.FirstPassRunsAll | src/main.c:196-201 | the first pass at or after start-up runs all three tasks in registration order |
| DigitalInput.Level | src/bel.c:18-23 | -1 exactly for a missing line or a failed read; otherwise the raw value when active high, and its C negation when active low |
| DigitalInput.PolaritiesComplement | src/bel.c:22 | for a binary line the two polarities read complementary levels |
| DigitalInput.Tally | src/bel.c:27-33 | the two counters add up to the number of samples |
| DigitalInput.DebouncedMeaning | src/bel.c:25-35 | -1 iff the sample count is not positive, the line is missing or a read fails; otherwise 1 iff at least half the samples read true |
| DigitalInput.TieReadsTrue | src/bel.c:34 | a tie resolves to 1 |
| DigitalInput.TallySwapsWithPolarity | src/bel.c:22-31 | on a binary line, swapping the polarity swaps the two counters |
| DigitalInput.PolarityFlipsVote | src/bel.c:22-34 | on a binary line without a tie, the two polarities vote opposite ways |
| DigitalInput.Bel.constructor | src/bel.h:16-19 | a `bel_t` without a line |
| DigitalInput.Bel.Init | src/bel.c:7-16 | 0 iff a chip is given, the line is found and the request succeeds; the polarity is then normalised to 0 or 1; on failure it is untouched |
| DigitalInput.Bel.ReadDebounced | src/bel.c:25-35 | the loop returns `Debounced` of the reads, stopping at the first failed read |

## Left out

- The HTTP server of src/ArkStudio.c is not modelled. That covers sockets, request parsing, `recv` of the body and its "incomplete body" answer, page rendering, `send_http_response`/`send_http_redirect`, and `conf_start`/`conf_stop`. These are network I/O. The handlers are modelled from the size check on, with the body fully received.
- The log mutex, the thread running the service, and the `volatile` reload flag are not modelled. Operations are modelled as a single-threaded sequence. Concurrency is out of scope.
- `write_atomic_json` is not modelled. Its outcome is the parameter `writeOk`. It is file system I/O.
- The JSON and HTML text built with `snprintf` is not modelled: `build_logs_json` text and truncation, `build_current_config_json`, and the `%.3f` JSON of the form handler. Whether that JSON fits its 256-byte buffer is the parameter `jsonFits`. The log summary strings are the parameter `summary`. This is floating-point formatting.
- `fmt_now` and `strftime` are not modelled. Time stamps of log entries are the parameter `stamp`.
- Config.Config.Load: lines longer than 511 characters are not modelled. `fgets` would split them into several reads. Each element of the line sequence is one `fgets` result.
- `atof` and `atoi` are not looked into. They are the opaque functions of `Config.NumberParser`. This is C library number parsing, including its floating-point rounding and integer overflow.
- Timing.DiffMs: 64-bit overflow of the computation is not modelled. Integers are unbounded. No monotonic clock reading comes near the limit.
- Protection.Channel.CheckWithTms: "timer unset" is written as `None`. In C it is `tv_sec == 0`. The model therefore does not capture that a streak starting at a clock reading whose `tv_sec` is 0 would look unset on the next call and restart.
- The clock reads inside the C functions are parameters: `nowA`, `nowV` and `kickAt` in `task_protection`, and `readings` for the fresh reading after a periodic run.
- Scheduling.Scheduler.Tick: the callbacks are reported by index rather than executed. The infinite `aps_run` loop and its 1 ms sleep are not modelled. One pass of the loop body is.
- Scheduling.Scheduler.constructor: it requires the capacity to fit the buffer. The C code trusts its caller for that.
- The `SIMULATION` readings of `task_protection` are parameters (`rmsA`, `rmsV`), as are the real measurements of src/bea.c. src/bea.c is hardware timing and floating-point RMS.
- The breaker actuator (src/bts.c) and the alert sender (src/mms.c) are not modelled. They become the recorded sequences `commands` and `alerts`. They are GPIO and UDP I/O.
- The GPIO set-up at the start of `main` is not modelled: chip open, `bea_init`, `bel_init`, `bts_init` and their early `return 1`. It is hardware I/O.
- DigitalInput.Bel.Init: the chip and driver results are the booleans `chipPresent`, `lineFound` and `requestOk`.
- DigitalInput.Bel.ReadDebounced: the `usleep` between samples is not modelled. A null `bel_t` pointer is not modelled, since Dafny references are never null.
- `printf` and `fprintf` diagnostics are not modelled. This includes the watchdog fault message of `task_watchdog`.
- The Python GPIO demo (projet/main.py) and its tests are not part of the C relay.
