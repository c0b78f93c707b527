/** The counting probe, src/probe.bpf.c: `handle_sys_enter` on the
    `raw_syscalls/sys_enter` tracepoint keeps a call counter in the one slot of
    `syscall_cnt` and the arguments of the latest `settimeofday` in `last_args`. */
module SnapshotProbe {
  import opened Abi

  /** The two one-slot maps. `cnt` is `None` when the counter lookup returns NULL. */
  datatype Slots = Slots(cnt: Option<U64>, lastArgs: LastArgsVal)

  /** One tracepoint hit: the syscall's arguments and what reading the two user
      pointers yields (consulted only when the pointer is not NULL): the `long` at
      `args[0]` and the `struct timezone` at `args[1]`. */
  datatype Entry = Entry(ctx: SysEnterArgs, tvRead: UserRead, tzRead: Option<Timezone>)

  /** A snapshot field: 0 (the struct's initial value) for a NULL pointer, -1 when
      the read fails, otherwise the value read. */
  function SnapshotField(ptr: U64, read: UserRead): int
  {
    if ptr == 0 then 0 else if read.None? then -1 else read.value
  }

  /** The `new_args` value written to `last_args`. */
  function Snapshot(e: Entry): LastArgsVal
  {
    LastArgsVal(SnapshotField(e.ctx.arg0, e.tvRead), SnapshotField(e.ctx.arg1, TzRead(e.tzRead)))
  }

  /** `handle_sys_enter` on the maps. */
  function OnSysEnter(m: Slots, e: Entry): Slots
  {
    if e.ctx.id != NrSettimeofday then m
    else
      var cnt := match m.cnt
        case Some(c) => Some(WrappingInc(c))
        case None => Some(1);
      Slots(cnt, Snapshot(e))
  }

  /** The counter's value, reading a missing slot as 0. */
  function CountOf(cnt: Option<U64>): U64
  {
    if cnt.Some? then cnt.value else 0
  }

  /** The tracepoint hit by each entry in turn. */
  function Run(m: Slots, es: seq<Entry>): Slots
    decreases |es|
  {
    if es == [] then m else OnSysEnter(Run(m, es[..|es| - 1]), es[|es| - 1])
  }

  /** The number of `settimeofday` entries. */
  function Calls(es: seq<Entry>): nat
    decreases |es|
  {
    if es == [] then 0
    else Calls(es[..|es| - 1]) + (if es[|es| - 1].ctx.id == NrSettimeofday then 1 else 0)
  }

  /** Any other syscall leaves both maps exactly as they were. */
  lemma OtherSyscallsIgnored(m: Slots, e: Entry)
    requires e.ctx.id != NrSettimeofday
    ensures OnSysEnter(m, e) == m
  {
  }

  /** A `settimeofday` entry adds exactly 1 to the counter (modulo 2^64), a missing
      slot counting as 0 and becoming 1; below the largest value the counter
      strictly grows. */
  lemma CounterIncrements(m: Slots, e: Entry)
    requires e.ctx.id == NrSettimeofday
    ensures OnSysEnter(m, e).cnt.Some?
    ensures CountOf(OnSysEnter(m, e).cnt) == (CountOf(m.cnt) + 1) % U64Modulus
    ensures CountOf(m.cnt) < U64Max ==> CountOf(OnSysEnter(m, e).cnt) == CountOf(m.cnt) + 1
    ensures m.cnt.None? ==> OnSysEnter(m, e).cnt == Some(1)
  {
  }

  /** The snapshot fields: NULL pointer 0, failed read -1, otherwise the value read;
      `tv_sec` from `args[0]`, and from `args[1]` the 8 bytes at the start of the
      caller's `struct timezone`. */
  lemma SnapshotSentinels(m: Slots, e: Entry)
    requires e.ctx.id == NrSettimeofday
    ensures var s := OnSysEnter(m, e).lastArgs;
      (e.ctx.arg0 == 0 ==> s.tvSec == 0)
      && (e.ctx.arg0 != 0 && e.tvRead.None? ==> s.tvSec == -1)
      && (e.ctx.arg0 != 0 && e.tvRead.Some? ==> s.tvSec == e.tvRead.value)
      && (e.ctx.arg1 == 0 ==> s.tzMinuteswest == 0)
      && (e.ctx.arg1 != 0 && e.tzRead.None? ==> s.tzMinuteswest == -1)
      && (e.ctx.arg1 != 0 && e.tzRead.Some? ==> s.tzMinuteswest == TzLongAsWritten(e.tzRead.value))
  {
  }

  /** The snapshot the probe means to write: the same, but with the
      `tz_minuteswest` field alone read from `args[1]`. */
  function CorrectedSnapshot(e: Entry): LastArgsVal
  {
    Snapshot(e).(tzMinuteswest := SnapshotField(e.ctx.arg1, TzReadCorrected(e.tzRead)))
  }

  /** As written, a call from UTC+9 (`tz_minuteswest == -540`, no DST) is recorded
      with `tz_minuteswest == 4294966756`; the corrected snapshot records -540. */
  lemma SnapshotLosesUtc9Offset()
    ensures var e := Entry(SysEnterArgs(NrSettimeofday, 1, 1), Some(0), Some(Timezone(-540, 0)));
      Snapshot(e).tzMinuteswest == 4294966756 && CorrectedSnapshot(e).tzMinuteswest == -540
  {
    TzLongAsWrittenLosesSign();
  }

  /** The corrected snapshot keeps `tv_sec` and the sentinels and records the
      caller's `tz_minuteswest` whatever `tz_dsttime` holds; it differs from the
      snapshot as written exactly when a timezone was read whose second int is not
      the first one's sign extension. */
  lemma CorrectedSnapshotRecordsMinuteswest(e: Entry)
    ensures var s := CorrectedSnapshot(e);
      s.tvSec == Snapshot(e).tvSec
      && (e.ctx.arg1 == 0 ==> s.tzMinuteswest == 0)
      && (e.ctx.arg1 != 0 && e.tzRead.None? ==> s.tzMinuteswest == -1)
      && (e.ctx.arg1 != 0 && e.tzRead.Some? ==> s.tzMinuteswest == e.tzRead.value.minuteswest)
    ensures CorrectedSnapshot(e) != Snapshot(e)
            <==> e.ctx.arg1 != 0 && e.tzRead.Some? && TzLongAsWritten(e.tzRead.value) != e.tzRead.value.minuteswest
  {
  }

  /** The snapshot is overwritten as a whole: what it held before does not matter. */
  lemma SnapshotOverwritten(m1: Slots, m2: Slots, e: Entry)
    requires e.ctx.id == NrSettimeofday
    ensures OnSysEnter(m1, e).lastArgs == OnSysEnter(m2, e).lastArgs == Snapshot(e)
  {
  }

  /** Over any trace, the counter counts the `settimeofday` entries (modulo 2^64) and
      is untouched when there were none. */
  lemma {:induction false} CounterCountsCalls(m: Slots, es: seq<Entry>)
    ensures Calls(es) == 0 ==> Run(m, es).cnt == m.cnt
    ensures Calls(es) > 0 ==> Run(m, es).cnt == Some((CountOf(m.cnt) + Calls(es)) % U64Modulus)
    decreases |es|
  {
    if es != [] {
      var init := es[..|es| - 1];
      CounterCountsCalls(m, init);
      var e := es[|es| - 1];
      if e.ctx.id == NrSettimeofday {
        var before := CountOf(Run(m, init).cnt);
        assert before == (CountOf(m.cnt) + Calls(init)) % U64Modulus;
        ModIncrement(CountOf(m.cnt) + Calls(init));
      }
    }
  }

  lemma ModIncrement(x: nat)
    ensures (x % U64Modulus + 1) % U64Modulus == (x + 1) % U64Modulus
  {
  }

  /** The snapshot always reflects the latest `settimeofday` only: after a trace
      whose last such entry is `e`, followed by any other syscalls, it is `e`'s. */
  lemma {:induction false} SnapshotIsLatestCall(m: Slots, es: seq<Entry>, e: Entry, others: seq<Entry>)
    requires e.ctx.id == NrSettimeofday
    requires forall i :: 0 <= i < |others| ==> others[i].ctx.id != NrSettimeofday
    ensures Run(m, es + [e] + others).lastArgs == Snapshot(e)
    decreases |others|
  {
    var t := es + [e] + others;
    if others == [] {
      assert t[..|t| - 1] == es;
    } else {
      var shorter := others[..|others| - 1];
      assert t[..|t| - 1] == es + [e] + shorter;
      SnapshotIsLatestCall(m, es, e, shorter);
    }
  }

  /** The maps of src/probe.bpf.c. */
  class Maps {
    var syscallCnt: Option<U64>
    var lastArgs: LastArgsVal

    function State(): Slots
      reads this
    {
      Slots(syscallCnt, lastArgs)
    }

    /** Array maps start zeroed; `cnt` says whether the counter slot is found. */
    constructor (cnt: Option<U64>)
      ensures State() == Slots(cnt, ZeroArgs)
    {
      syscallCnt := cnt;
      lastArgs := ZeroArgs;
    }

    /** `handle_sys_enter`. */
    method HandleSysEnter(e: Entry) returns (ret: int)
      modifies this
      ensures ret == 0
      ensures State() == OnSysEnter(old(State()), e)
    {
      if e.ctx.id != NrSettimeofday {
        return 0;
      }
      if syscallCnt.Some? {
        syscallCnt := Some(WrappingInc(syscallCnt.value));
      } else {
        syscallCnt := Some(1);
      }
      var newArgs := ZeroArgs;
      if e.ctx.arg0 != 0 {
        if e.tvRead.None? {
          newArgs := newArgs.(tvSec := -1);
        } else {
          newArgs := newArgs.(tvSec := e.tvRead.value);
        }
      }
      if e.ctx.arg1 != 0 {
        if e.tzRead.None? {
          newArgs := newArgs.(tzMinuteswest := -1);
        } else {
          newArgs := newArgs.(tzMinuteswest := TzLongAsWritten(e.tzRead.value));
        }
      }
      lastArgs := newArgs;
      return 0;
    }
  }
}
