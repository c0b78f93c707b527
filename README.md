# Clock-tamper detection: trusted timeline, ingestion and file correlation

This project models in Dafny the decision logic of a small Linux/Android tool that
detects when somebody sets the wall clock. A kernel probe on `raw_syscalls/sys_enter`
sees every `settimeofday` (syscall 170) and passes its arguments to user space. A
user-space program keeps a *trusted anchor*: a wall-clock second count paired with
a `CLOCK_BOOTTIME` reading, a clock that setting the time does not move. From the
anchor it computes

    expected = anchor_wall + (boot_now - anchor_boot)

and classifies the requested value as FUTURE (`diff > 60`), PAST (`diff < -60`) or
CURRENT, where `diff = new_wall - expected`. A third program watches one file. It
classifies every changed mtime and atime against its own fixed anchor, and tags
each alert with the last verdict it finds in a log.

Modules, one per source file, plus two shared ones:

- `Abi` (abi.dfy): the layouts the probes and loaders share (`struct event`,
  `struct last_args_val`, `struct sys_enter_args`, `struct timezone`), `__u64` with
  its wrap-around, and an `Option` type.
- `Timeline` (timeline.dfy): the anchor, `expected_wall` and `classify`.
  src/perfbuffer_settimeofday.c and src/how_much_count.c hold identical copies of
  these, so both programs' models use this one module.
- `Stream` (stream.dfy): src/perfbuffer_settimeofday.c, which ingests samples from
  a perf buffer. Each accepted sample writes one record. Only a CURRENT verdict
  re-anchors, and it re-anchors to the observed `new_wall`.
- `Poll` (poll.dfy): src/how_much_count.c, which polls a counter. It acts only when
  the counter has changed (`cnt != prev_cnt`). On every such change, whatever the
  verdict, it re-anchors to `(expected, now_boot)`.
- `Correlator` (correlator.dfy): src/inotify.c. It holds `check_file_time`,
  `file_state_str` and `read_time_state`, a log scan whose result persists across
  calls. It also holds the walk over an inotify read buffer, with the
  recreate-branch and file-change-branch handling.
- `SnapshotProbe` (snapshot_probe.dfy): src/probe.bpf.c. It keeps a counter and a
  snapshot of the latest call's arguments.
- `StreamProbe` (stream_probe.dfy): src/perfbuffer_settimeofday.bpf.c. It keeps a
  counter and emits one `struct event` per call.

Each piece of state the C code updates in place is a class. A program's globals
or a probe's map slots are its fields, and its log is a `seq` field that the
methods append to. Each method is proved against a pure step function, and a run
function folds that step over a sequence of inputs. The lemmas state the
properties about those functions. The environment is passed in as parameters:
clock readings, map lookups, user-memory reads, `stat` results, watch ids and the
lines of the time log.

The two ingestion programs disagree on re-anchoring, and each is modelled as
written. Re-anchoring only on CURRENT, and then to the *expected* value, would
keep the timeline fixed against slow drift; neither program does exactly that. The
streaming program re-anchors only on CURRENT, but to the observed value.
`Stream.CreepingDriftGoesUndetected` proves that this lets k samples, each 60 s
ahead, shift the timeline by 60·k s without one PAST or FUTURE verdict. The polling program
re-anchors on every edge, but to the expected value, so its timeline never moves
(`Poll.RunKeepsTimeline`). All three programs hard-code the 60 s window
(`EPSILON_SEC`, `EPSILON`), and so does the model.

Both probes define `__NR_settimeofday` as 170. That is its number in the generic
Linux syscall table, which arm64 uses; src/probe.bpf.c:12 calls it the x86_64
number, where 170 is `sethostname`. The model keeps 170.

## Model

| member | source | states |
|---|---|---|
| `Abi.WrappingInc` | src/probe.bpf.c:71 | a `__u64` increment is `x + 1` below the maximum and wraps to 0 at it |
| `Abi.TzLongAsWritten` | src/probe.bpf.c:96 | the 8-byte read of a `struct timezone` is `tz_minuteswest`'s bit pattern in the low 32 bits plus `tz_dsttime` times 2^32, a signed 64-bit value |
| `Abi.TzLongAsWrittenLosesSign` | src/probe.bpf.c:96 | as written, the 8-byte read of `struct timezone {-540, 0}` gives 4294966756, not -540 |
| `Abi.TzReadsAgree` | src/probe.bpf.c:91-99 | the as-written 8-byte read equals `tz_minuteswest` iff `tz_dsttime` is the sign extension of `tz_minuteswest` (0 after a non-negative offset, -1 after a negative one) |
| `Timeline.ExpectedWall` | src/perfbuffer_settimeofday.c:54-58 | definition of `expected_wall`; its properties are `Timeline.ExpectedWallTracksBootClock` and `Timeline.SameTimelineIffSameOffset` |
| `Timeline.ExpectedWallTracksBootClock` | src/perfbuffer_settimeofday.c:54-58 | the expected wall clock advances exactly with the boot clock, equals the anchor's wall value at the anchor's boot value, and is offset + boot |
| `Timeline.SameTimelineIffSameOffset` | src/how_much_count.c:50-53 | two anchors predict the same wall clock at every boot reading iff their wall−boot offsets are equal |
| `Timeline.Classify` | src/perfbuffer_settimeofday.c:60-73 | `diff = new_wall - expected`; FUTURE iff `diff > 60`, PAST iff `diff < -60`, CURRENT iff `-60 <= diff <= 60` (exactly one holds) |
| `Timeline.StateName` | src/perfbuffer_settimeofday.c:68-72 | the verdict strings "FUTURE", "PAST", "CURRENT" name exactly one verdict each, so `strcmp(cls, "CURRENT") == 0` iff CURRENT |
| `Timeline.ClassifyWindowEdges` | src/how_much_count.c:55-62 | the same threshold semantics in the poller: equal values give CURRENT with diff 0, ±60 is CURRENT, ±61 is FUTURE/PAST |
| `Stream.OnEvent` | src/perfbuffer_settimeofday.c:93-147 | definition of `handle_event` on the anchor and log; its properties are `Stream.ShortPayloadIgnored`, `Stream.AcceptedEventRecord`, `Stream.ReanchorOnlyOnCurrent` and `Stream.ReanchorIsSmall` |
| `Stream.OnLost` | src/perfbuffer_settimeofday.c:148-153 | definition of `handle_lost`; its property is `Stream.LostEventsRecord` |
| `Stream.Run` | src/perfbuffer_settimeofday.c:233-240 | the callbacks over a sequence of deliveries; its properties are `Stream.RunAppend`, `Stream.RunReportsEachDelivery`, `Stream.DriftBoundedByCurrentVerdicts` and `Stream.CreepingDriftGoesUndetected` |
| `Stream.ShortPayloadIgnored` | src/perfbuffer_settimeofday.c:98-99 | a payload smaller than `struct event` writes no record and leaves the anchor unchanged |
| `Stream.AcceptedEventRecord` | src/perfbuffer_settimeofday.c:104-124 | an accepted sample writes exactly one record with cnt, new, expected, diff, state, tz and ktime |
| `Stream.ReanchorOnlyOnCurrent` | src/perfbuffer_settimeofday.c:132-146 | on CURRENT the anchor becomes `(new_wall, now_boot)`; on PAST or FUTURE it is exactly the old anchor |
| `Stream.ReanchorIsSmall` | src/perfbuffer_settimeofday.c:132-135 | after a CURRENT re-anchor the same value at the same boot reading classifies CURRENT with diff 0, and the expected timeline moved by at most 60 s at every boot reading |
| `Stream.LostEventsRecord` | src/perfbuffer_settimeofday.c:148-153 | `handle_lost` writes one LOST_EVENTS record with the given cpu and count and leaves the anchor |
| `Stream.RunReportsEachDelivery` | src/perfbuffer_settimeofday.c:93-153 | over any delivery sequence, records correspond one-to-one, in order, to the accepted samples and lost notices, each carrying that delivery's fields |
| `Stream.RunAppend` | src/perfbuffer_settimeofday.c:234-240 | handling two delivery batches one after the other equals handling their concatenation |
| `Stream.DriftBoundedByCurrentVerdicts` | src/perfbuffer_settimeofday.c:132-135 | over any run the timeline offset moves by at most 60 s × the number of CURRENT records; no CURRENT means no move |
| `Stream.CreepingDriftGoesUndetected` | src/perfbuffer_settimeofday.c:132-135 | k samples each 60 s ahead of expectation are all CURRENT and shift the timeline by exactly 60·k s |
| `Stream.Monitor.constructor` | src/perfbuffer_settimeofday.c:182-184 | the anchor is the startup wall/boot reading and the log holds the INIT record |
| `Stream.Monitor.HandleEvent` | src/perfbuffer_settimeofday.c:93-147 | the new anchor and the appended records are those of the `OnEvent` step |
| `Stream.Monitor.HandleLost` | src/perfbuffer_settimeofday.c:148-153 | appends one LOST_EVENTS record and modifies nothing but the log |
| `Stream.Monitor.Poll` | src/perfbuffer_settimeofday.c:233-240 | dispatching a batch of deliveries leaves the anchor and log given by `Run` |
| `Poll.Iteration` | src/how_much_count.c:126-163 | definition of one turn of the poll loop; its properties are `Poll.CounterLookupFailureIsNoop`, `Poll.EdgeTriggered`, `Poll.RepeatedCounterIsSilent`, `Poll.MissingSnapshotReadsZero`, `Poll.FirstZeroReadIsSilent` and `Poll.ReanchorKeepsTimeline` |
| `Poll.Run` | src/how_much_count.c:126-163 | the loop over a sequence of reads; its properties are `Poll.RunKeepsTimeline`, `Poll.LinesInCounterOrder` and `Poll.RunAppend` |
| `Poll.CounterLookupFailureIsNoop` | src/how_much_count.c:131-134 | a failed counter lookup prints nothing and keeps `prev_cnt` and the anchor |
| `Poll.EdgeTriggered` | src/how_much_count.c:137-160 | a line is printed iff the counter was read and differs from `prev_cnt`; then exactly one, carrying cnt, the snapshot's `tv_sec` and tz, `expected` from the anchor, `diff = new - expected` and the verdict, and `prev_cnt = cnt`; otherwise nothing changes |
| `Poll.RepeatedCounterIsSilent` | src/how_much_count.c:137 | a second poll reading the same counter prints nothing and changes nothing |
| `Poll.MissingSnapshotReadsZero` | src/how_much_count.c:128-135 | a failed snapshot lookup reports `new_wall = 0` and tz 0 |
| `Poll.FirstZeroReadIsSilent` | src/how_much_count.c:75 | from the initial `prev_cnt = 0`, a first counter read of 0 prints nothing |
| `Poll.ReanchorKeepsTimeline` | src/how_much_count.c:155-156 | every edge, whatever the verdict, re-anchors to `(expected, now_boot)`, and every later boot reading gets the same expected value as before |
| `Poll.RunKeepsTimeline` | src/how_much_count.c:126-163 | over any sequence of polls the anchor's offset never changes |
| `Poll.LinesInCounterOrder` | src/how_much_count.c:137-158 | if the counter is read non-decreasing, the printed lines have strictly increasing counters, all above the starting `prev_cnt` |
| `Poll.RunAppend` | src/how_much_count.c:126-163 | two sequences of polls run one after the other equal the run of their concatenation |
| `Poll.Monitor.constructor` | src/how_much_count.c:42-48 | the state starts at `prev_cnt = 0` and the startup anchor, with no output |
| `Poll.Monitor.Iterate` | src/how_much_count.c:126-163 | one loop turn leaves the state and output given by `Iteration` |
| `Poll.Monitor.Loop` | src/how_much_count.c:126-163 | the loop over a sequence of reads leaves the state and output given by `Run` |
| `Correlator.CheckFileTime` | src/inotify.c:52-63 | FILE_FUTURE iff `diff > 60`, FILE_PAST iff `diff < -60`, FILE_NORMAL otherwise, against `wall_anchor + (boot_now - boot_anchor)` |
| `Correlator.CheckFileTimeAgreesWithClassify` | src/inotify.c:55-62 | the file classifier gives the verdict the clock classifier gives the same value |
| `Correlator.CheckFileTimeExample` | src/inotify.c:36-41 | anchor (1000, 0), boot 100: expected 1100, mtime 1500 is FUTURE with diff 400, 1105 is NORMAL |
| `Correlator.FileStateStr` | src/inotify.c:65-72 | PAST and FUTURE map to their names, the remaining state to "FILE_NORMAL", each name to one state |
| `Correlator.Contains` | src/inotify.c:87 | `Contains(s, t)` holds iff `t` occurs at some index of `s` (`strstr` finds it) |
| `Correlator.LineTag` | src/inotify.c:86-93 | definition of the per-line test of `read_time_state`; its properties are `Correlator.TagPrecedence` and `Correlator.TagFoundInsideLine` |
| `Correlator.LastTag` | src/inotify.c:79-93 | definition of the scan over the lines; its properties are `Correlator.LastTagIsLastTaggedLine`, `Correlator.LastTagKeepsPreviousWithoutTags` and `Correlator.LastTagRange` |
| `Correlator.TimeStateAfter` | src/inotify.c:77-97 | definition of the static buffer after `read_time_state`; `Correlator.Watcher.ReadTimeState` is proved against it |
| `Correlator.TagPrecedence` | src/inotify.c:86-93 | within one line "[FUTURE]" wins over "[PAST]", which wins over "[CURRENT]"; a line with none has no tag |
| `Correlator.TagFoundInsideLine` | src/inotify.c:89-90 | every line `p + "[PAST]" + q` that holds no "[FUTURE]" is tagged PAST, wherever the tag sits |
| `Correlator.PollerLineTagged` | src/inotify.c:89-90 | the concrete line "=> [PAST]" is tagged PAST |
| `Correlator.LastTagIsLastTaggedLine` | src/inotify.c:86-93 | the result is the tag of the last tagged line, whatever untagged lines follow |
| `Correlator.LastTagKeepsPreviousWithoutTags` | src/inotify.c:79-93 | with no tagged line the previously retained result is returned |
| `Correlator.LastTagRange` | src/inotify.c:79-93 | the result is the previous one or one of FUTURE, PAST, CURRENT |
| `Correlator.Dispatch` | src/inotify.c:201-250 | definition of one event of the buffer walk, as written; its properties are `Correlator.RecreateRefreshesWatch`, `Correlator.StatFailureSkips`, `Correlator.OtherEventsIgnored`, `Correlator.SelfEventsIgnored`, `Correlator.FileChangeAlertsIndependently`, `Correlator.ChangeAfterRecreateObserved` and `Correlator.CreateEndsMonitoring` |
| `Correlator.DispatchAll` | src/inotify.c:197-253 | the events of one buffer handled in order; its properties are `Correlator.UnhandledEventsChangeNothing` and `Correlator.CreateEndsMonitoring` |
| `Correlator.RecreateNeedsMovedTo` | src/inotify.c:202-204 | the recreate branch needs `wd == dir_wd`, `len > 0`, matching name and `IN_MOVED_TO`; `IN_CREATE` alone never fires it |
| `Correlator.RecreateRefreshesWatch` | src/inotify.c:202-218 | recreation logs one alert, replaces `file_wd` only by an id >= 0, refreshes `prev_st` when stat succeeds |
| `Correlator.StatFailureSkips` | src/inotify.c:224-225 | a file event whose stat fails emits nothing and keeps `prev_st` and the retained verdict |
| `Correlator.OtherEventsIgnored` | src/inotify.c:201-222 | events matching neither branch (delete, move, `IN_IGNORED`, other names) change nothing |
| `Correlator.SelfEventsIgnored` | src/inotify.c:164-169 | `IN_DELETE_SELF`, `IN_MOVE_SELF` and `IN_IGNORED`, which the file watch subscribes to, change nothing |
| `Correlator.UnhandledEventsChangeNothing` | src/inotify.c:197-253 | a buffer whose events take neither branch leaves the state and the alerts as they were |
| `Correlator.FileChangeAlertsIndependently` | src/inotify.c:221-249 | an mtime alert iff mtime changed and an atime alert iff atime changed, exactly one line per changed field with mtime first, each classified from its own value and tagged with the verdict just read; `prev_st` becomes the new stat |
| `Correlator.ChangeAfterRecreateObserved` | src/inotify.c:202-249 | after a recreate with a valid new watch, the next mtime change on that watch is alerted and classified |
| `Correlator.CreateEndsMonitoring` | src/inotify.c:202-204 | as written, an `IN_CREATE` of the target is ignored and `file_wd` keeps the removed watch; no later event short of an `IN_MOVED_TO` then alerts or changes anything, other than a change reported on the removed watch, which the kernel no longer sends |
| `Correlator.CorrectedDispatchExtendsWritten` | src/inotify.c:171-175 | re-watching on `IN_CREATE` too takes the recreate branch on every event the written code does, and differs from it only on an `IN_CREATE` of the target |
| `Correlator.CorrectedChangeAfterCreateObserved` | src/inotify.c:171-175 | with `IN_CREATE` re-watching, a deleted and recreated file is alerted as recreated, re-watched, and its next mtime change is classified and alerted |
| `Correlator.EventOffsetsIncrease` | src/inotify.c:252 | advancing by `EVENT_SIZE + len` moves from each event's offset to the next one's, and every event starts inside the buffer |
| `Correlator.Watcher.constructor` | src/inotify.c:150-180 | setup fixes the anchor and directory watch, and starts with the initial stat, the file watch and "UNKNOWN" |
| `Correlator.Watcher.ReadTimeState` | src/inotify.c:77-97 | the static buffer becomes the last tagged line's verdict, or stays as it was when the log is unreadable or untagged; the return value is that buffer |
| `Correlator.Watcher.HandleEvent` | src/inotify.c:201-250 | one event leaves the state and alerts given by `Dispatch` |
| `Correlator.Watcher.HandleBuffer` | src/inotify.c:197-253 | the offset walk visits every event of the buffer once, in order, leaving the state and alerts given by `DispatchAll` |
| `SnapshotProbe.OnSysEnter` | src/probe.bpf.c:58-102 | definition of `handle_sys_enter` on the two maps; its properties are `SnapshotProbe.OtherSyscallsIgnored`, `SnapshotProbe.CounterIncrements`, `SnapshotProbe.SnapshotOverwritten`, `SnapshotProbe.CounterCountsCalls` and `SnapshotProbe.SnapshotIsLatestCall` |
| `SnapshotProbe.Snapshot` | src/probe.bpf.c:66-99 | definition of `new_args`; its property is `SnapshotProbe.SnapshotSentinels` |
| `SnapshotProbe.OtherSyscallsIgnored` | src/probe.bpf.c:60-62 | a syscall id other than 170 leaves both maps unchanged |
| `SnapshotProbe.CounterIncrements` | src/probe.bpf.c:69-76 | a settimeofday entry adds exactly 1 (mod 2^64) to the counter, a missing slot becomes 1, and below the maximum the counter grows |
| `SnapshotProbe.SnapshotSentinels` | src/probe.bpf.c:82-99 | each snapshot field is 0 for a NULL pointer, -1 for a failed read, else the value read: `tv_sec`, and for `tz` the 8-byte read of `struct timezone` |
| `SnapshotProbe.SnapshotLosesUtc9Offset` | src/probe.bpf.c:96 | as written, a call from UTC+9 (`{-540, 0}`) is recorded as 4294966756, while the corrected snapshot records -540 |
| `SnapshotProbe.CorrectedSnapshotRecordsMinuteswest` | src/probe.bpf.c:91-99 | the corrected snapshot keeps the sentinels and records `tz_minuteswest` itself; it differs from the written one iff a timezone was read whose 8-byte value is not its `tz_minuteswest` |
| `SnapshotProbe.SnapshotOverwritten` | src/probe.bpf.c:102 | the written snapshot does not depend on the previous one |
| `SnapshotProbe.CounterCountsCalls` | src/probe.bpf.c:69-76 | over any trace the counter advances by the number of settimeofday entries (mod 2^64), untouched if there were none |
| `SnapshotProbe.SnapshotIsLatestCall` | src/probe.bpf.c:102 | after a trace, the snapshot is that of the latest settimeofday, whatever other syscalls followed |
| `SnapshotProbe.Maps.constructor` | src/probe.bpf.c:38-51 | the maps start with the given counter slot and a zeroed snapshot |
| `SnapshotProbe.Maps.HandleSysEnter` | src/probe.bpf.c:58-105 | the handler returns 0 and leaves the maps given by `OnSysEnter` |
| `StreamProbe.OnSysEnter` | src/perfbuffer_settimeofday.bpf.c:46-81 | definition of `handle_sys_enter` on the counter slot and the event stream; its properties are `StreamProbe.OtherSyscallsIgnored`, `StreamProbe.EventCarriesPostIncrement`, `StreamProbe.EventSentinels`, `StreamProbe.OneEventPerCall` and `StreamProbe.EventCountersIncreaseByOne` |
| `StreamProbe.EmittedEvent` | src/perfbuffer_settimeofday.bpf.c:60-77 | definition of the `struct event` filled in for one call; its property is `StreamProbe.EventSentinels` |
| `StreamProbe.OtherSyscallsIgnored` | src/perfbuffer_settimeofday.bpf.c:48-49 | a syscall id other than 170 changes no state and emits no event |
| `StreamProbe.EventCarriesPostIncrement` | src/perfbuffer_settimeofday.bpf.c:52-62 | one event is appended; with the slot it carries the incremented counter, without it cnt 0 and no increment |
| `StreamProbe.EventSentinels` | src/perfbuffer_settimeofday.bpf.c:63-77 | `tv_sec` is -1 for NULL or a failed read; `tz_minuteswest` is 0 for NULL, -1 for a failed read; otherwise the value read (for `tz`, the 8-byte read of `struct timezone`) |
| `StreamProbe.EventLosesUtc9Offset` | src/perfbuffer_settimeofday.bpf.c:71-73 | as written, a call from UTC+9 (`{-540, 0}`) is emitted with `tz_minuteswest` 4294966756, while the corrected event carries -540 |
| `StreamProbe.CorrectedEventRecordsMinuteswest` | src/perfbuffer_settimeofday.bpf.c:71-77 | the corrected event keeps every other field and the sentinels and carries `tz_minuteswest` itself; it differs from the written one iff a timezone was read whose 8-byte value is not its `tz_minuteswest` |
| `StreamProbe.OneEventPerCall` | src/perfbuffer_settimeofday.bpf.c:79 | over any trace exactly one event per settimeofday is appended, earlier events kept |
| `StreamProbe.EventCountersIncreaseByOne` | src/perfbuffer_settimeofday.bpf.c:55-58 | with the slot present and no wrap, successive events carry c+1, c+2, … |
| `StreamProbe.Probe.constructor` | src/perfbuffer_settimeofday.bpf.c:25-30 | the probe starts with the given counter slot and no events |
| `StreamProbe.Probe.HandleSysEnter` | src/perfbuffer_settimeofday.bpf.c:46-81 | the handler returns 0 and leaves the state given by `OnSysEnter` |

## Left out

- libbpf plumbing is not modelled: object open/load, program lookup, tracepoint
  attach, map fd resolution, `perf_buffer__new`, the `goto out` cleanup, rlimits and
  exit codes. `perf_buffer__poll` appears only as the sequence of deliveries handed
  to the callbacks, and the poll-error exit is left out.
- Signals, `exiting`, `usleep` and the timed waits are left out. The poll loop is
  modelled one iteration per read; the sleep on a failed lookup does not change the
  state.
- Clock readings (`time`, `clock_gettime`, `bpf_ktime_get_ns`) are parameters.
  Only the `tv_sec` part of `CLOCK_BOOTTIME` is kept, because `tv_nsec` is never
  read.
- `time_t`/`long` arithmetic is on unbounded integers. The C subtraction
  `new_wall - expected` could overflow (undefined behaviour) only for
  attacker-chosen `tv_sec` values near ±2^63, which the model does not capture.
  `__u64` counters do wrap modulo 2^64 in the model.
- Text output is left out. `log_alert`/`printf` formatting, the 512-byte
  `vsnprintf` truncation and `fflush` are not modelled; a log line is a record of
  its fields. `alert_fd` is always open while the callbacks run.
- Correlator.Watcher.ReadTimeState: the log is given as a sequence of whole lines.
  The `fgets` split of lines longer than 511 bytes is not modelled, and neither is
  a tag cut by that split.
- Filesystem and inotify calls are inputs. `realpath`, `dirname`/`basename`,
  `stat`, `inotify_init1`, `inotify_add_watch` and `read` appear as a `stat`
  result, a new watch id and a buffer of events. The buffer is given as already
  decoded events; the walk's byte offset is computed from their lengths.
- Correlator.Dispatch: when the `stat` in the recreate branch fails, `prev_st` is
  kept. This follows `stat`'s usual behaviour of not writing its buffer on failure.
- Correlator.Watcher.constructor: setup failures (usage, `open`, `realpath`, the
  first `stat`, `inotify_init1`, either watch) exit with status 1 and are not
  modelled.
- The outer `while (1)` read loop of src/inotify.c is left out. Retrying on
  `EAGAIN` and stopping on other read errors are I/O. One buffer is modelled by
  `HandleBuffer`.
- `FileStateStr`: `enum file_time_state` is a datatype with three values, so the
  C `default:` label is reached only by FILE_NORMAL.
- Concurrency is left out: the atomic `__sync_fetch_and_add` and the plain `++`
  are both modelled as one sequential increment.
- The startup banners the poller prints ("Attached.", "Initial trusted: ...") are
  left out of its output; only the `settimeofday:` lines are modelled.
- Abi.TzLongAsWritten: the 8-byte read is modelled for a little-endian target
  (arm64, whose syscall table gives `settimeofday` the number 170). BPF code always
  has an 8-byte `long`; on a big-endian target the two ints arrive in the other
  order, which the model does not cover.
- src/call_settimfoday.c is not part of this model. It drives `settimeofday`
  calls and holds no decision logic.

## Findings

| source | as written | input that shows it | evidently intended | confidence | as-written member | corrected member |
|---|---|---|---|---|---|---|
| src/probe.bpf.c:96 | `bpf_probe_read_user` copies `sizeof(long)` = 8 bytes from a `struct timezone *`, and that struct holds two 4-byte ints; the snapshot gets `tz_minuteswest` in the low word and `tz_dsttime` in the high word | a `settimeofday` with `tz = {tz_minuteswest = -540, tz_dsttime = 0}` (UTC+9) leaves 4294966756 in `last_args` | record the caller's `tz_minuteswest` (-540); src/probe.bpf.c:93-94 itself calls the field a 4-byte `int` | not executed; high on little-endian 64-bit targets | `SnapshotProbe.SnapshotLosesUtc9Offset` | `SnapshotProbe.CorrectedSnapshotRecordsMinuteswest` |
| src/perfbuffer_settimeofday.bpf.c:72 | the same 8-byte read, `sizeof(ev.tz_minuteswest)` with a `long` field, from a `struct timezone *` | the same call emits an event with `tz_minuteswest` 4294966756 | emit the caller's `tz_minuteswest` (-540) | not executed; high on little-endian 64-bit targets | `StreamProbe.EventLosesUtc9Offset` | `StreamProbe.CorrectedEventRecordsMinuteswest` |
| src/inotify.c:204 | only `IN_MOVED_TO` takes the recreate branch, although the directory watch at lines 171-175 also subscribes to `IN_CREATE` | delete the watched file, then create it again under the same name: the old watch goes (`IN_DELETE_SELF`, `IN_IGNORED`), the directory reports `IN_CREATE`, no watch is placed on the new file and no later change to it is alerted (an `IN_ATTRIB` from the unlink still queued on the old watch is the one event that can still stat the new file) | re-watch on `IN_CREATE` as well as `IN_MOVED_TO` | not executed; high | `Correlator.CreateEndsMonitoring` | `Correlator.CorrectedChangeAfterCreateObserved` |

The probe models and `Correlator.Dispatch`, with the `Watcher` class built on
it, follow the code as written. The corrected behaviour is defined beside them:
`SnapshotProbe.CorrectedSnapshot`, `StreamProbe.CorrectedEvent` (both reading
`Abi.TzMinuteswest`) and `Correlator.DispatchCorrected`. `Abi.TzReadsAgree`
states exactly when the written and the corrected timezone reads agree.
