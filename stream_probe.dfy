/** The streaming probe, src/perfbuffer_settimeofday.bpf.c: `handle_sys_enter` on
    the `raw_syscalls/sys_enter` tracepoint bumps the counter in `syscall_cnt` and
    emits one `struct event` per `settimeofday` through the `events` perf array. */
module StreamProbe {
  import opened Abi

  /** The counter slot (`None` when the lookup returns NULL) and the events emitted so far. */
  datatype ProbeState = ProbeState(cnt: Option<U64>, events: seq<Event>)

  /** One tracepoint hit: the syscall's arguments, what reading the two user
      pointers yields (the `long` at `args[0]`, the `struct timezone` at `args[1]`)
      and `bpf_ktime_get_ns()`. */
  datatype Entry = Entry(ctx: SysEnterArgs, tvRead: UserRead, tzRead: Option<Timezone>, ktimeNs: U64)

  /** `ev.tv_sec`: -1 for a NULL pointer or a failed read. */
  function TvField(ptr: U64, read: UserRead): int
  {
    if ptr != 0 then (if read.Some? then read.value else -1) else -1
  }

  /** `ev.tz_minuteswest`: 0 for a NULL pointer, -1 for a failed read. */
  function TzField(ptr: U64, read: UserRead): int
  {
    if ptr != 0 then (if read.Some? then read.value else -1) else 0
  }

  /** `handle_sys_enter`. */
  function OnSysEnter(s: ProbeState, e: Entry): ProbeState
  {
    if e.ctx.id != NrSettimeofday then s
    else
      var cnt := if s.cnt.Some? then Some(WrappingInc(s.cnt.value)) else None;
      var evCnt := if cnt.Some? then cnt.value else 0;
      ProbeState(cnt, s.events + [EmittedEvent(e, evCnt)])
  }

  /** The `struct event` emitted for entry `e` with counter value `evCnt`. */
  function EmittedEvent(e: Entry, evCnt: U64): Event
  {
    Event(e.ktimeNs, evCnt, TvField(e.ctx.arg0, e.tvRead), TzField(e.ctx.arg1, TzRead(e.tzRead)))
  }

  /** The event the probe means to emit: the same, but with the `tz_minuteswest`
      field alone read from `args[1]`. */
  function CorrectedEvent(e: Entry, evCnt: U64): Event
  {
    EmittedEvent(e, evCnt).(tzMinuteswest := TzField(e.ctx.arg1, TzReadCorrected(e.tzRead)))
  }

  function Run(s: ProbeState, es: seq<Entry>): ProbeState
    decreases |es|
  {
    if es == [] then s else OnSysEnter(Run(s, es[..|es| - 1]), es[|es| - 1])
  }

  function Calls(es: seq<Entry>): nat
    decreases |es|
  {
    if es == [] then 0
    else Calls(es[..|es| - 1]) + (if es[|es| - 1].ctx.id == NrSettimeofday then 1 else 0)
  }

  /** Any other syscall changes nothing and emits nothing. */
  lemma OtherSyscallsIgnored(s: ProbeState, e: Entry)
    requires e.ctx.id != NrSettimeofday
    ensures OnSysEnter(s, e) == s
  {
  }

  /** Exactly one event per `settimeofday`. With the slot present the counter goes up
      by one (modulo 2^64) and the event carries the new value; with the slot missing
      nothing is incremented and the event carries 0. */
  lemma EventCarriesPostIncrement(s: ProbeState, e: Entry)
    requires e.ctx.id == NrSettimeofday
    ensures var s' := OnSysEnter(s, e);
      |s'.events| == |s.events| + 1 && s'.events[..|s.events|] == s.events
      && (s.cnt.Some? ==> s'.cnt == Some(WrappingInc(s.cnt.value)) && s'.events[|s.events|].cnt == s'.cnt.value)
      && (s.cnt.None? ==> s'.cnt.None? && s'.events[|s.events|].cnt == 0)
      && s'.events[|s.events|].ktimeNs == e.ktimeNs
  {
    assert (s.events + [OnSysEnter(s, e).events[|s.events|]])[..|s.events|] == s.events;
  }

  /** The two NULL cases use different sentinels: a NULL `tv` gives `tv_sec == -1`,
      a NULL `tz` gives `tz_minuteswest == 0`; a failed read gives -1 for both, and a
      successful one the value read (for `tz`, the 8 bytes at the start of the
      caller's `struct timezone`). */
  lemma EventSentinels(s: ProbeState, e: Entry)
    requires e.ctx.id == NrSettimeofday
    ensures var ev := OnSysEnter(s, e).events[|s.events|];
      (e.ctx.arg0 == 0 ==> ev.tvSec == -1)
      && (e.ctx.arg0 != 0 && e.tvRead.None? ==> ev.tvSec == -1)
      && (e.ctx.arg0 != 0 && e.tvRead.Some? ==> ev.tvSec == e.tvRead.value)
      && (e.ctx.arg1 == 0 ==> ev.tzMinuteswest == 0)
      && (e.ctx.arg1 != 0 && e.tzRead.None? ==> ev.tzMinuteswest == -1)
      && (e.ctx.arg1 != 0 && e.tzRead.Some? ==> ev.tzMinuteswest == TzLongAsWritten(e.tzRead.value))
  {
  }

  /** As written, a call from UTC+9 (`tz_minuteswest == -540`, no DST) is emitted
      with `tz_minuteswest == 4294966756`; the corrected event carries -540. */
  lemma EventLosesUtc9Offset(cnt: U64)
    ensures var e := Entry(SysEnterArgs(NrSettimeofday, 1, 1), Some(0), Some(Timezone(-540, 0)), 0);
      EmittedEvent(e, cnt).tzMinuteswest == 4294966756 && CorrectedEvent(e, cnt).tzMinuteswest == -540
  {
    TzLongAsWrittenLosesSign();
  }

  /** The corrected event keeps every other field and the sentinels and carries the
      caller's `tz_minuteswest` whatever `tz_dsttime` holds; it differs from the
      event as written exactly when a timezone was read whose second int is not
      the first one's sign extension. */
  lemma CorrectedEventRecordsMinuteswest(e: Entry, cnt: U64)
    ensures var ev := CorrectedEvent(e, cnt); var w := EmittedEvent(e, cnt);
      ev.ktimeNs == w.ktimeNs && ev.cnt == w.cnt && ev.tvSec == w.tvSec
      && (e.ctx.arg1 == 0 ==> ev.tzMinuteswest == 0)
      && (e.ctx.arg1 != 0 && e.tzRead.None? ==> ev.tzMinuteswest == -1)
      && (e.ctx.arg1 != 0 && e.tzRead.Some? ==> ev.tzMinuteswest == e.tzRead.value.minuteswest)
    ensures CorrectedEvent(e, cnt) != EmittedEvent(e, cnt)
            <==> e.ctx.arg1 != 0 && e.tzRead.Some? && TzLongAsWritten(e.tzRead.value) != e.tzRead.value.minuteswest
  {
  }

  /** Exactly one event per `settimeofday` over any trace, whether or not the
      counter slot is there. */
  lemma {:induction false} OneEventPerCall(s: ProbeState, es: seq<Entry>)
    ensures |Run(s, es).events| == |s.events| + Calls(es)
    ensures Run(s, es).events[..|s.events|] == s.events
    decreases |es|
  {
    if es != [] {
      var init := es[..|es| - 1];
      OneEventPerCall(s, init);
      var p := Run(s, init);
      var r := OnSysEnter(p, es[|es| - 1]);
      if es[|es| - 1].ctx.id == NrSettimeofday {
        assert r.events[..|p.events|] == p.events;
        assert r.events[..|s.events|] == p.events[..|s.events|];
      }
    }
  }

  /** Over any trace the events already emitted stay, and exactly one more is
      emitted per `settimeofday`; with the slot present from count `c` and no
      wrap-around, the emitted counters are `c+1, c+2, ...`, each one more than the
      last. */
  lemma {:induction false} EventCountersIncreaseByOne(s: ProbeState, es: seq<Entry>)
    requires s.cnt.Some? && s.cnt.value + Calls(es) <= U64Max
    ensures var r := Run(s, es);
      |r.events| == |s.events| + Calls(es)
      && r.events[..|s.events|] == s.events
      && r.cnt == Some(s.cnt.value + Calls(es))
      && forall i :: |s.events| <= i < |r.events| ==> r.events[i].cnt == s.cnt.value + (i - |s.events|) + 1
    decreases |es|
  {
    if es != [] {
      var init := es[..|es| - 1];
      var e := es[|es| - 1];
      EventCountersIncreaseByOne(s, init);
      var p := Run(s, init);
      if e.ctx.id == NrSettimeofday {
        var r := OnSysEnter(p, e);
        assert r.events == p.events + [r.events[|p.events|]];
        assert r.events[..|p.events|] == p.events;
        assert r.events[..|s.events|] == p.events[..|s.events|];
      }
    }
  }

  /** The probe's `syscall_cnt` slot and the stream of events it has emitted. */
  class Probe {
    var syscallCnt: Option<U64>
    var events: seq<Event>

    function State(): ProbeState
      reads this
    {
      ProbeState(syscallCnt, events)
    }

    constructor (cnt: Option<U64>)
      ensures State() == ProbeState(cnt, [])
    {
      syscallCnt := cnt;
      events := [];
    }

    /** `handle_sys_enter`. */
    method HandleSysEnter(e: Entry) returns (ret: int)
      modifies this
      ensures ret == 0
      ensures State() == OnSysEnter(old(State()), e)
    {
      if e.ctx.id != NrSettimeofday {
        return 0;
      }
      var cnt: U64 := 0;
      if syscallCnt.Some? {
        syscallCnt := Some(WrappingInc(syscallCnt.value));
        cnt := syscallCnt.value;
      }
      var ev := Event(0, 0, 0, 0);
      ev := ev.(ktimeNs := e.ktimeNs);
      ev := ev.(cnt := cnt);
      if e.ctx.arg0 != 0 {
        if e.tvRead.None? {
          ev := ev.(tvSec := -1);
        } else {
          ev := ev.(tvSec := e.tvRead.value);
        }
      } else {
        ev := ev.(tvSec := -1);
      }
      if e.ctx.arg1 != 0 {
        if e.tzRead.None? {
          ev := ev.(tzMinuteswest := -1);
        } else {
          ev := ev.(tzMinuteswest := TzLongAsWritten(e.tzRead.value));
        }
      } else {
        ev := ev.(tzMinuteswest := 0);
      }
      events := events + [ev];
      return 0;
    }
  }
}
