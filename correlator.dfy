/** The file correlator, src/inotify.c: it watches one file and its directory,
    classifies every changed mtime and atime against a boot-clock anchor fixed at
    startup, and tags each alert with the last clock verdict found in a log. */
module Correlator {
  import opened Abi
  import Timeline

  /** `EPSILON` of src/inotify.c, in seconds. */
  const Epsilon: int := 60

  /** `EVENT_SIZE`: `sizeof(struct inotify_event)` (wd, mask, cookie, len). */
  const InotifyEventSize: nat := 16

  const InModify: bv32 := 0x0000_0002
  const InAttrib: bv32 := 0x0000_0004
  const InCloseWrite: bv32 := 0x0000_0008
  const InMovedTo: bv32 := 0x0000_0080
  const InCreate: bv32 := 0x0000_0100
  const InDeleteSelf: bv32 := 0x0000_0400
  const InMoveSelf: bv32 := 0x0000_0800
  const InIgnored: bv32 := 0x0000_8000

  /** `struct inotify_event`: `len` is the size of the NUL-padded name field and
      `name` the string up to its first NUL (empty when `len` is 0). */
  datatype InotifyEvent = InotifyEvent(wd: int, mask: bv32, len: nat, name: string)

  /** The two `struct stat` fields the correlator reads. */
  datatype Stat = Stat(mtime: int, atime: int)

  /** `enum file_time_state`. */
  datatype FileTimeState = FileNormal | FilePast | FileFuture

  // ----- classification -----

  /** `check_file_time`: where the file time lies against the anchor's expected
      wall clock at the boot reading taken inside the call. */
  function CheckFileTime(a: Timeline.Anchor, bootNow: int, fileTime: int): (s: FileTimeState)
    ensures s == FileFuture <==> fileTime - Timeline.ExpectedWall(a, bootNow) > Epsilon
    ensures s == FilePast <==> fileTime - Timeline.ExpectedWall(a, bootNow) < -Epsilon
    ensures s == FileNormal <==> -Epsilon <= fileTime - Timeline.ExpectedWall(a, bootNow) <= Epsilon
  {
    var expected := Timeline.ExpectedWall(a, bootNow);
    var diff := fileTime - expected;
    if diff > Epsilon then FileFuture
    else if diff < -Epsilon then FilePast
    else FileNormal
  }

  function FromTimeState(s: Timeline.TimeState): FileTimeState
  {
    match s
    case Future => FileFuture
    case Past => FilePast
    case Current => FileNormal
  }

  /** The file classifier and the clock classifier agree: a file time gets the
      verdict `classify` would give a clock value equal to it. */
  lemma CheckFileTimeAgreesWithClassify(a: Timeline.Anchor, bootNow: int, fileTime: int)
    ensures CheckFileTime(a, bootNow, fileTime)
         == FromTimeState(Timeline.Classify(fileTime, Timeline.ExpectedWall(a, bootNow)).state)
  {
  }

  /** With anchor (wall 1000, boot 0) and boot reading 100 the expected wall clock is
      1100: an mtime of 1500 is 400 s in the future, one of 1105 is normal. */
  lemma CheckFileTimeExample()
    ensures Timeline.ExpectedWall(Timeline.Anchor(1000, 0), 100) == 1100
    ensures CheckFileTime(Timeline.Anchor(1000, 0), 100, 1500) == FileFuture
    ensures Timeline.Classify(1500, 1100).diff == 400
    ensures CheckFileTime(Timeline.Anchor(1000, 0), 100, 1105) == FileNormal
  {
  }

  /** `file_state_str`. */
  function FileStateStr(s: FileTimeState): (r: string)
    ensures r == "FILE_PAST" <==> s == FilePast
    ensures r == "FILE_FUTURE" <==> s == FileFuture
    ensures r == "FILE_NORMAL" <==> s == FileNormal
  {
    match s
    case FilePast => "FILE_PAST"
    case FileFuture => "FILE_FUTURE"
    case _ => "FILE_NORMAL"
  }

  // ----- the system verdict read back from the log -----

  /** The initial content of `read_time_state`'s static buffer. */
  const Unknown: string := "UNKNOWN"

  /** `t` occurs in `s` starting at index `i`. */
  predicate OccursAt(s: string, t: string, i: int)
  {
    0 <= i && i + |t| <= |s| && s[i..i + |t|] == t
  }

  /** `strstr(s, t) != NULL`. */
  function Contains(s: string, t: string): (b: bool)
    ensures b <==> exists i :: OccursAt(s, t, i)
    decreases |s|
  {
    if |s| < |t| then false
    else if s[..|t|] == t then assert OccursAt(s, t, 0); true
    else
      var r := Contains(s[1..], t);
      assert r ==> exists i :: OccursAt(s, t, i) by {
        if r {
          var j :| OccursAt(s[1..], t, j);
          assert s[j + 1..j + 1 + |t|] == s[1..][j..j + |t|];
          assert OccursAt(s, t, j + 1);
        }
      }
      assert (exists i :: OccursAt(s, t, i)) ==> r by {
        if exists i :: OccursAt(s, t, i) {
          var j :| OccursAt(s, t, j);
          assert j != 0;
          assert s[1..][j - 1..j - 1 + |t|] == s[j..j + |t|];
          assert OccursAt(s[1..], t, j - 1);
        }
      }
      r
  }

  /** The verdict one log line carries: "[FUTURE]" before "[PAST]" before "[CURRENT]". */
  function LineTag(line: string): Option<string>
  {
    if Contains(line, "[FUTURE]") then Some("FUTURE")
    else if Contains(line, "[PAST]") then Some("PAST")
    else if Contains(line, "[CURRENT]") then Some("CURRENT")
    else None
  }

  /** The tag of the last tagged line, or `prev` when no line carries one. */
  function LastTag(lines: seq<string>, prev: string): string
    decreases |lines|
  {
    if lines == [] then prev
    else
      match LineTag(lines[|lines| - 1])
      case Some(t) => t
      case None => LastTag(lines[..|lines| - 1], prev)
  }

  /** What `read_time_state` leaves in its static buffer: the old content when the
      log cannot be opened. */
  function TimeStateAfter(state: string, log: Option<seq<string>>): string
  {
    if log.None? then state else LastTag(log.value, state)
  }

  /** Within one line the tags take precedence FUTURE, then PAST, then CURRENT. */
  lemma TagPrecedence(line: string)
    ensures Contains(line, "[FUTURE]") ==> LineTag(line) == Some("FUTURE")
    ensures !Contains(line, "[FUTURE]") && Contains(line, "[PAST]") ==> LineTag(line) == Some("PAST")
    ensures LineTag(line) == Some("CURRENT")
            <==> !Contains(line, "[FUTURE]") && !Contains(line, "[PAST]") && Contains(line, "[CURRENT]")
    ensures LineTag(line).None?
            <==> !Contains(line, "[FUTURE]") && !Contains(line, "[PAST]") && !Contains(line, "[CURRENT]")
  {
  }

  /** A tag is found anywhere inside a line: every line holding "[PAST]" and no
      "[FUTURE]" is tagged PAST, whatever surrounds the tag. */
  lemma TagFoundInsideLine(p: string, q: string)
    requires !Contains(p + "[PAST]" + q, "[FUTURE]")
    ensures LineTag(p + "[PAST]" + q) == Some("PAST")
  {
    var line := p + "[PAST]" + q;
    assert line[|p|..|p| + 6] == "[PAST]";
    assert OccursAt(line, "[PAST]", |p|);
  }

  /** The line the poller prints for a backward jump, ending "=> [PAST]", is tagged PAST. */
  lemma PollerLineTagged()
    ensures LineTag("=> [PAST]") == Some("PAST")
  {
    var line := "=> [PAST]";
    assert line[..8][0] != "[FUTURE]"[0];
    assert line[1..][..8][0] != "[FUTURE]"[0];
    assert !Contains(line[2..], "[FUTURE]");
    assert line == "=> " + "[PAST]" + "";
    TagFoundInsideLine("=> ", "");
  }

  /** The result is the tag of the LAST tagged line; untagged lines after it do not matter. */
  lemma {:induction false} LastTagIsLastTaggedLine(lines: seq<string>, prev: string, j: nat)
    requires j < |lines| && LineTag(lines[j]).Some?
    requires forall k :: j < k < |lines| ==> LineTag(lines[k]).None?
    ensures LastTag(lines, prev) == LineTag(lines[j]).value
    decreases |lines|
  {
    if j < |lines| - 1 {
      var init := lines[..|lines| - 1];
      assert init[j] == lines[j];
      LastTagIsLastTaggedLine(init, prev, j);
    }
  }

  /** With no tagged line, the previous result is kept. */
  lemma {:induction false} LastTagKeepsPreviousWithoutTags(lines: seq<string>, prev: string)
    requires forall k :: 0 <= k < |lines| ==> LineTag(lines[k]).None?
    ensures LastTag(lines, prev) == prev
    decreases |lines|
  {
    if lines != [] {
      var init := lines[..|lines| - 1];
      assert forall k :: 0 <= k < |init| ==> init[k] == lines[k];
      LastTagKeepsPreviousWithoutTags(init, prev);
    }
  }

  /** The result is always either the previous one or one of the three verdict names. */
  lemma {:induction false} LastTagRange(lines: seq<string>, prev: string)
    ensures var r := LastTag(lines, prev); r == prev || r == "FUTURE" || r == "PAST" || r == "CURRENT"
    decreases |lines|
  {
    if lines != [] {
      LastTagRange(lines[..|lines| - 1], prev);
    }
  }

  // ----- event dispatch -----

  /** What the event handling changes: `file_wd`, `prev_st` and the static buffer. */
  datatype WatchState = WatchState(fileWd: int, prevSt: Stat, sysState: string)

  /** What setup fixes: the directory's watch id, the target's basename and the
      anchor `init_anchor` recorded. */
  datatype Config = Config(dirWd: int, baseName: string, anchor: Timeline.Anchor)

  /** What the environment answers while one event is handled: the id
      `inotify_add_watch` returns, the `stat` of the target (`None` when it fails),
      the lines of the time log (`None` when it cannot be opened) and the boot
      clock read by each `check_file_time` call. */
  datatype Env = Env(newWd: int, stat: Option<Stat>, timeLog: Option<seq<string>>, mtimeBoot: int, atimeBoot: int)

  datatype TimeField = Mtime | Atime

  /** A line of alerts.log. */
  datatype Alert =
    | FileRecreated
    | TimeChanged(field: TimeField, system: string, fileState: string)

  datatype Step = Step(state: WatchState, alerts: seq<Alert>)

  /** The directory reports an event, among `recreateMask`, for the target's name. */
  predicate IsRecreateOn(recreateMask: bv32, c: Config, e: InotifyEvent)
  {
    e.wd == c.dirWd && e.len > 0 && e.name == c.baseName && e.mask & recreateMask != 0
  }

  /** The recreate test as written: something named like the target was moved in. */
  predicate IsRecreate(c: Config, e: InotifyEvent)
  {
    IsRecreateOn(InMovedTo, c, e)
  }

  /** The events the directory watch subscribes to, all of which put a new file
      under the target's name. */
  const CorrectedRecreateMask: bv32 := InCreate | InMovedTo

  /** The file's own watch reports an attribute change, a modification or a close
      after writing. */
  predicate IsFileChange(ws: WatchState, e: InotifyEvent)
  {
    e.wd == ws.fileWd && e.mask & (InAttrib | InModify | InCloseWrite) != 0
  }

  function TimeAlert(c: Config, f: TimeField, sys: string, bootNow: int, t: int): Alert
  {
    TimeChanged(f, sys, FileStateStr(CheckFileTime(c.anchor, bootNow, t)))
  }

  /** The body of the buffer walk for one event, with the recreate branch taken on
      the directory events in `recreateMask`. */
  function DispatchOn(recreateMask: bv32, c: Config, ws: WatchState, e: InotifyEvent, env: Env): Step
  {
    if IsRecreateOn(recreateMask, c, e) then
      var wd := if env.newWd >= 0 then env.newWd else ws.fileWd;
      var st := if env.stat.Some? then env.stat.value else ws.prevSt;
      Step(WatchState(wd, st, ws.sysState), [FileRecreated])
    else if IsFileChange(ws, e) then
      match env.stat
      case None => Step(ws, [])
      case Some(cur) =>
        var sys := TimeStateAfter(ws.sysState, env.timeLog);
        var m := if cur.mtime != ws.prevSt.mtime then [TimeAlert(c, Mtime, sys, env.mtimeBoot, cur.mtime)] else [];
        var at := if cur.atime != ws.prevSt.atime then [TimeAlert(c, Atime, sys, env.atimeBoot, cur.atime)] else [];
        Step(WatchState(ws.fileWd, cur, sys), m + at)
    else Step(ws, [])
  }

  /** The body of the buffer walk as written: only `IN_MOVED_TO` re-watches. */
  function Dispatch(c: Config, ws: WatchState, e: InotifyEvent, env: Env): Step
  {
    DispatchOn(InMovedTo, c, ws, e, env)
  }

  /** The body of the buffer walk with `IN_CREATE` re-watching too. */
  function DispatchCorrected(c: Config, ws: WatchState, e: InotifyEvent, env: Env): Step
  {
    DispatchOn(CorrectedRecreateMask, c, ws, e, env)
  }

  /** The recreate branch fires only when all four conditions hold; `IN_CREATE`
      without `IN_MOVED_TO` never fires it. */
  lemma RecreateNeedsMovedTo(c: Config, e: InotifyEvent)
    ensures IsRecreate(c, e) ==> e.wd == c.dirWd && e.len > 0 && e.name == c.baseName && e.mask & InMovedTo != 0
    ensures e.mask == InCreate ==> !IsRecreate(c, e)
    ensures e.mask == InCreate | InMovedTo && e.wd == c.dirWd && e.len > 0 && e.name == c.baseName ==> IsRecreate(c, e)
  {
  }

  /** On recreation: one "File recreated" alert, `file_wd` replaced only by a watch
      id >= 0, `prev_st` refreshed when the stat succeeds, the static buffer kept. */
  lemma RecreateRefreshesWatch(c: Config, ws: WatchState, e: InotifyEvent, env: Env)
    requires IsRecreate(c, e)
    ensures var s := Dispatch(c, ws, e, env);
      s.alerts == [FileRecreated]
      && (env.newWd >= 0 ==> s.state.fileWd == env.newWd)
      && (env.newWd < 0 ==> s.state.fileWd == ws.fileWd)
      && (env.stat.Some? ==> s.state.prevSt == env.stat.value)
      && s.state.sysState == ws.sysState
  {
  }

  /** A file event whose stat fails emits nothing and keeps everything. */
  lemma StatFailureSkips(c: Config, ws: WatchState, e: InotifyEvent, env: Env)
    requires !IsRecreate(c, e) && IsFileChange(ws, e) && env.stat.None?
    ensures Dispatch(c, ws, e, env) == Step(ws, [])
  {
  }

  /** Any other event (a delete, a move, `IN_IGNORED`, another name, an unknown
      watch) changes nothing. */
  lemma OtherEventsIgnored(c: Config, ws: WatchState, e: InotifyEvent, env: Env)
    requires !IsRecreate(c, e) && !IsFileChange(ws, e)
    ensures Dispatch(c, ws, e, env) == Step(ws, [])
  {
  }

  /** What the file's own watch reports once the file is deleted or moved away
      (`IN_DELETE_SELF`, `IN_MOVE_SELF`, then `IN_IGNORED` as the watch goes) is
      subscribed to but changes nothing. */
  lemma SelfEventsIgnored(c: Config, ws: WatchState, e: InotifyEvent, env: Env)
    requires e.mask == InDeleteSelf || e.mask == InMoveSelf || e.mask == InIgnored
    ensures Dispatch(c, ws, e, env) == Step(ws, [])
  {
  }

  /** A sequence of events none of which takes either branch leaves everything as it was. */
  lemma {:induction false} UnhandledEventsChangeNothing(c: Config, ws: WatchState, es: seq<InotifyEvent>, envs: seq<Env>)
    requires |envs| == |es|
    requires forall i :: 0 <= i < |es| ==> !IsRecreate(c, es[i]) && !IsFileChange(ws, es[i])
    ensures DispatchAll(c, ws, es, envs) == Step(ws, [])
    decreases |es|
  {
    if es != [] {
      var n := |es| - 1;
      UnhandledEventsChangeNothing(c, ws, es[..n], envs[..n]);
      assert !IsRecreate(c, es[n]) && !IsFileChange(ws, es[n]);
    }
  }

  /** As written, a file deleted and then created anew under the same name is no
      longer monitored: `IN_CREATE` does not take the recreate branch, so no watch is
      placed on the new file, `file_wd` keeps naming the removed watch, and from then
      on every event that does not move a file in under the name (other directory
      events, the old watch's `IN_IGNORED`) yields no alert and no change. */
  lemma CreateEndsMonitoring(c: Config, ws: WatchState, e: InotifyEvent, env: Env, es: seq<InotifyEvent>, envs: seq<Env>)
    requires e.wd == c.dirWd && e.len > 0 && e.name == c.baseName && e.mask == InCreate
    requires |envs| == |es|
    requires forall i :: 0 <= i < |es| ==> !IsRecreate(c, es[i]) && !IsFileChange(ws, es[i])
    ensures Dispatch(c, ws, e, env) == Step(ws, [])
    ensures DispatchAll(c, ws, [e] + es, [env] + envs) == Step(ws, [])
  {
    var es' := [e] + es;
    var envs' := [env] + envs;
    forall i | 0 <= i < |es'|
      ensures !IsRecreate(c, es'[i]) && !IsFileChange(ws, es'[i])
    {
      if i > 0 { assert es'[i] == es[i - 1]; }
    }
    UnhandledEventsChangeNothing(c, ws, es', envs');
  }

  /** The corrected dispatch takes the recreate branch on every event the written
      one does, and differs from it only on an `IN_CREATE` of the target. */
  lemma CorrectedDispatchExtendsWritten(c: Config, ws: WatchState, e: InotifyEvent, env: Env)
    ensures IsRecreate(c, e) ==> IsRecreateOn(CorrectedRecreateMask, c, e)
    ensures DispatchCorrected(c, ws, e, env) != Dispatch(c, ws, e, env)
            ==> !IsRecreate(c, e) && IsRecreateOn(CorrectedRecreateMask, c, e) && e.mask & InCreate != 0
  {
    assert (e.mask & InMovedTo != 0) ==> (e.mask & (InCreate | InMovedTo) != 0);
    assert (e.mask & (InCreate | InMovedTo) != 0) && (e.mask & InMovedTo == 0) ==> e.mask & InCreate != 0;
  }

  /** With `IN_CREATE` re-watching, a file deleted and created anew stays monitored:
      the creation is alerted, and the next mtime change reported on the new watch is
      classified and alerted. */
  lemma CorrectedChangeAfterCreateObserved(c: Config, ws: WatchState, e1: InotifyEvent, env1: Env,
                                           e2: InotifyEvent, env2: Env, st1: Stat, st2: Stat)
    requires e1.wd == c.dirWd && e1.len > 0 && e1.name == c.baseName && e1.mask == InCreate
    requires env1.newWd >= 0 && env1.stat == Some(st1)
    requires e2.wd == env1.newWd && e2.mask & InAttrib != 0 && !IsRecreateOn(CorrectedRecreateMask, c, e2)
    requires env2.stat == Some(st2) && st2.mtime != st1.mtime
    ensures var d1 := DispatchCorrected(c, ws, e1, env1);
      var d2 := DispatchCorrected(c, d1.state, e2, env2);
      d1.alerts == [FileRecreated] && d1.state.fileWd == env1.newWd
      && |d2.alerts| >= 1
      && d2.alerts[0] == TimeAlert(c, Mtime, TimeStateAfter(ws.sysState, env2.timeLog), env2.mtimeBoot, st2.mtime)
  {
    assert InCreate & CorrectedRecreateMask != 0;
    var s1 := DispatchCorrected(c, ws, e1, env1).state;
    assert (e2.mask & (InAttrib | InModify | InCloseWrite)) & InAttrib == e2.mask & InAttrib;
    assert IsFileChange(s1, e2);
  }

  /** On a file event whose stat succeeds, mtime and atime are judged independently:
      there is an mtime alert exactly when mtime changed and an atime alert exactly
      when atime changed, each classified from its own new value, one line per
      changed field with mtime first; every alert carries the system verdict just
      read; `prev_st` becomes the new stat. */
  lemma FileChangeAlertsIndependently(c: Config, ws: WatchState, e: InotifyEvent, env: Env, cur: Stat)
    requires !IsRecreate(c, e) && IsFileChange(ws, e) && env.stat == Some(cur)
    ensures var s := Dispatch(c, ws, e, env);
      var sys := TimeStateAfter(ws.sysState, env.timeLog);
      s.state == WatchState(ws.fileWd, cur, sys)
      && ((exists i :: 0 <= i < |s.alerts| && s.alerts[i] == TimeAlert(c, Mtime, sys, env.mtimeBoot, cur.mtime))
          <==> cur.mtime != ws.prevSt.mtime)
      && ((exists i :: 0 <= i < |s.alerts| && s.alerts[i] == TimeAlert(c, Atime, sys, env.atimeBoot, cur.atime))
          <==> cur.atime != ws.prevSt.atime)
      && (forall i :: 0 <= i < |s.alerts| ==>
           s.alerts[i] == TimeAlert(c, Mtime, sys, env.mtimeBoot, cur.mtime)
           || s.alerts[i] == TimeAlert(c, Atime, sys, env.atimeBoot, cur.atime))
      && |s.alerts| == (if cur.mtime != ws.prevSt.mtime then 1 else 0) + (if cur.atime != ws.prevSt.atime then 1 else 0)
      && (cur.mtime != ws.prevSt.mtime ==> s.alerts[0] == TimeAlert(c, Mtime, sys, env.mtimeBoot, cur.mtime))
  {
    var s := Dispatch(c, ws, e, env);
    var sys := TimeStateAfter(ws.sysState, env.timeLog);
    var ma := TimeAlert(c, Mtime, sys, env.mtimeBoot, cur.mtime);
    var aa := TimeAlert(c, Atime, sys, env.atimeBoot, cur.atime);
    assert ma != aa;
    if cur.mtime != ws.prevSt.mtime { assert s.alerts[0] == ma; }
    if cur.atime != ws.prevSt.atime { assert s.alerts[|s.alerts| - 1] == aa; }
  }

  /** Recreation does not end monitoring: once the file is recreated and re-watched,
      a change of its mtime reported on the new watch is classified and alerted. */
  lemma ChangeAfterRecreateObserved(c: Config, ws: WatchState, e1: InotifyEvent, env1: Env,
                                    e2: InotifyEvent, env2: Env, st1: Stat, st2: Stat)
    requires IsRecreate(c, e1) && env1.newWd >= 0 && env1.stat == Some(st1)
    requires e2.wd == env1.newWd && e2.mask & InAttrib != 0 && !IsRecreate(c, e2)
    requires env2.stat == Some(st2) && st2.mtime != st1.mtime
    ensures var s1 := Dispatch(c, ws, e1, env1).state;
      var s2 := Dispatch(c, s1, e2, env2);
      |s2.alerts| >= 1
      && s2.alerts[0] == TimeAlert(c, Mtime, TimeStateAfter(ws.sysState, env2.timeLog), env2.mtimeBoot, st2.mtime)
  {
    var s1 := Dispatch(c, ws, e1, env1).state;
    assert (e2.mask & (InAttrib | InModify | InCloseWrite)) & InAttrib == e2.mask & InAttrib;
    assert IsFileChange(s1, e2);
  }

  // ----- the buffer walk -----

  /** The bytes one event occupies in the read buffer. */
  function EventBytes(e: InotifyEvent): nat
  {
    InotifyEventSize + e.len
  }

  /** The bytes a sequence of events occupies when laid out back to back. */
  function BufferLength(es: seq<InotifyEvent>): nat
    decreases |es|
  {
    if es == [] then 0 else BufferLength(es[..|es| - 1]) + EventBytes(es[|es| - 1])
  }

  /** Every event starts strictly inside the buffer and the next one after it. */
  lemma {:induction false} EventOffsetsIncrease(es: seq<InotifyEvent>, k: nat)
    requires k < |es|
    ensures BufferLength(es[..k]) + EventBytes(es[k]) == BufferLength(es[..k + 1])
    ensures BufferLength(es[..k]) < BufferLength(es)
    decreases |es|
  {
    assert es[..k + 1][..k] == es[..k];
    if k < |es| - 1 {
      var init := es[..|es| - 1];
      assert init[..k] == es[..k] && init[k] == es[k] && init[..k + 1] == es[..k + 1];
      EventOffsetsIncrease(init, k);
    } else {
      assert es[..k + 1] == es;
    }
  }

  /** The events handled one after the other, each with its own environment answers. */
  function DispatchAll(c: Config, ws: WatchState, es: seq<InotifyEvent>, envs: seq<Env>): Step
    requires |envs| == |es|
    decreases |es|
  {
    if es == [] then Step(ws, [])
    else
      var n := |es| - 1;
      var p := DispatchAll(c, ws, es[..n], envs[..n]);
      var d := Dispatch(c, p.state, es[n], envs[n]);
      Step(d.state, p.alerts + d.alerts)
  }

  /** The correlator's process state. The anchor and the directory watch are
      constants: only setup (`init_anchor`) writes them. */
  class Watcher {
    const dirWd: int
    const baseName: string
    const wallAnchor: int
    const bootAnchor: int
    var fileWd: int
    var prevSt: Stat
    var sysState: string
    var alerts: seq<Alert>

    function Setup(): Config
    {
      Config(dirWd, baseName, Timeline.Anchor(wallAnchor, bootAnchor))
    }

    function State(): WatchState
      reads this
    {
      WatchState(fileWd, prevSt, sysState)
    }

    /** Setup after a successful initial stat and watch registration, with
      `init_anchor` reading `wallNow` and `bootNow`. */
    constructor (initial: Stat, wallNow: int, bootNow: int, fileWd0: int, dirWd0: int, base: string)
      ensures Setup() == Config(dirWd0, base, Timeline.Anchor(wallNow, bootNow))
      ensures State() == WatchState(fileWd0, initial, Unknown)
      ensures alerts == []
    {
      dirWd := dirWd0;
      baseName := base;
      wallAnchor := wallNow;
      bootAnchor := bootNow;
      fileWd := fileWd0;
      prevSt := initial;
      sysState := Unknown;
      alerts := [];
    }

    /** `read_time_state`: scan the log line by line, overwriting the static buffer
      with every tagged line's verdict. */
    method ReadTimeState(log: Option<seq<string>>) returns (r: string)
      modifies this`sysState
      ensures sysState == TimeStateAfter(old(sysState), log)
      ensures r == sysState
    {
      if log.None? {
        return sysState;
      }
      var lines := log.value;
      ghost var s0 := sysState;
      var i := 0;
      while i < |lines|
        invariant 0 <= i <= |lines|
        invariant sysState == LastTag(lines[..i], s0)
      {
        var line := lines[i];
        if Contains(line, "[FUTURE]") {
          sysState := "FUTURE";
        } else if Contains(line, "[PAST]") {
          sysState := "PAST";
        } else if Contains(line, "[CURRENT]") {
          sysState := "CURRENT";
        }
        assert lines[..i + 1][..i] == lines[..i];
        i := i + 1;
      }
      assert lines[..i] == lines;
      return sysState;
    }

    /** One event of the buffer walk. */
    method HandleEvent(e: InotifyEvent, env: Env)
      modifies this
      ensures State() == Dispatch(Setup(), old(State()), e, env).state
      ensures alerts == old(alerts) + Dispatch(Setup(), old(State()), e, env).alerts
    {
      if e.wd == dirWd && e.len > 0 && e.name == baseName && e.mask & InMovedTo != 0 {
        alerts := alerts + [FileRecreated];
        var newWd := env.newWd;
        if newWd >= 0 {
          fileWd := newWd;
        }
        if env.stat.Some? {
          prevSt := env.stat.value;
        }
      } else if e.wd == fileWd && e.mask & (InAttrib | InModify | InCloseWrite) != 0 {
        if env.stat.Some? {
          var cur := env.stat.value;
          var sys := ReadTimeState(env.timeLog);
          var anchor := Timeline.Anchor(wallAnchor, bootAnchor);
          if cur.mtime != prevSt.mtime {
            var fs := CheckFileTime(anchor, env.mtimeBoot, cur.mtime);
            alerts := alerts + [TimeChanged(Mtime, sys, FileStateStr(fs))];
          }
          if cur.atime != prevSt.atime {
            var fs := CheckFileTime(anchor, env.atimeBoot, cur.atime);
            alerts := alerts + [TimeChanged(Atime, sys, FileStateStr(fs))];
          }
          prevSt := cur;
        }
      }
    }

    /** The walk over one `read` buffer holding `es` back to back: the byte offset
      `i` advances by `EVENT_SIZE + len` per event, so every event is handled once,
      in buffer order. */
    method HandleBuffer(es: seq<InotifyEvent>, envs: seq<Env>) returns (ghost visited: seq<InotifyEvent>)
      requires |envs| == |es|
      modifies this
      ensures visited == es
      ensures State() == DispatchAll(Setup(), old(State()), es, envs).state
      ensures alerts == old(alerts) + DispatchAll(Setup(), old(State()), es, envs).alerts
    {
      ghost var ws0 := State();
      ghost var alerts0 := alerts;
      var len := BufferLength(es);
      var i := 0;
      var k := 0;
      visited := [];
      while i < len
        invariant 0 <= k <= |es| && i == BufferLength(es[..k])
        invariant k == |es| ==> i == len
        invariant visited == es[..k]
        invariant State() == DispatchAll(Setup(), ws0, es[..k], envs[..k]).state
        invariant alerts == alerts0 + DispatchAll(Setup(), ws0, es[..k], envs[..k]).alerts
        decreases len - i
      {
        EventOffsetsIncrease(es, k);
        var e := es[k];
        HandleEvent(e, envs[k]);
        assert es[..k + 1][..k] == es[..k] && envs[..k + 1][..k] == envs[..k];
        visited := visited + [e];
        i := i + InotifyEventSize + e.len;
        k := k + 1;
      }
      if k < |es| {
        EventOffsetsIncrease(es, k);
      }
      assert es[..k] == es && envs[..k] == envs;
    }
  }
}
