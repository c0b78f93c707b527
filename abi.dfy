/** Types shared by the kernel probes and the user-space programs that load them:
    the layouts the two sides must agree on, the 64-bit unsigned counter and the
    raw arguments of the `sys_enter` tracepoint. */
module Abi {

  datatype Option<+T> = None | Some(value: T)

  /** 2^64: the modulus of `__u64` arithmetic. */
  const U64Modulus: int := 0x1_0000_0000_0000_0000
  const U64Max: int := U64Modulus - 1

  /** `__u64`. */
  type U64 = x: int | 0 <= x < U64Modulus

  /** `x + 1` on a `__u64`: wraps around to 0 after the largest value. */
  function WrappingInc(x: U64): (r: U64)
    ensures x < U64Max ==> r == x + 1
    ensures x == U64Max ==> r == 0
  {
    (x + 1) % U64Modulus
  }

  /** `__NR_settimeofday` as both probes define it: its number in the generic
      Linux syscall table, which arm64 uses. */
  const NrSettimeofday: int := 170

  /** `struct sys_enter_args`: the syscall number and its first two raw arguments
      (the others are never read). A pointer argument is 0 when it is NULL. */
  datatype SysEnterArgs = SysEnterArgs(id: int, arg0: U64, arg1: U64)

  /** The outcome of one `bpf_probe_read_user` of a `long`: `None` when the read
      fails, otherwise the value read. */
  type UserRead = Option<int>

  /** `int`. */
  type I32 = x: int | -0x8000_0000 <= x < 0x8000_0000

  /** `struct timezone` as it sits in user memory: two 32-bit ints. */
  datatype Timezone = Timezone(minuteswest: I32, dsttime: I32)

  /** What the probes' `bpf_probe_read_user` of `sizeof(long)` bytes at a
      `struct timezone *` yields on a little-endian 64-bit machine: both ints,
      the first as the low word, read back as one signed `long`. The result is
      the first int's bit pattern in the low 32 bits and the second int, signed,
      in the high 32 bits. */
  function TzLongAsWritten(tz: Timezone): (r: int)
    ensures r == tz.minuteswest as int % 0x1_0000_0000 + tz.dsttime as int * 0x1_0000_0000
    ensures -0x8000_0000_0000_0000 <= r < 0x8000_0000_0000_0000
  {
    var lo: int := tz.minuteswest as int % 0x1_0000_0000;
    var hi: int := tz.dsttime as int % 0x1_0000_0000;
    var u := lo + hi * 0x1_0000_0000;
    if u < 0x8000_0000_0000_0000 then u else u - U64Modulus
  }

  /** The value the probes mean to record: the `tz_minuteswest` field itself. */
  function TzMinuteswest(tz: Timezone): int
  {
    tz.minuteswest
  }

  /** A timezone west offset as both probes record it: the 8-byte read; a failed
      read stays `None`. */
  function TzRead(r: Option<Timezone>): UserRead
  {
    if r.Some? then Some(TzLongAsWritten(r.value)) else None
  }

  /** The corrected read: the `tz_minuteswest` field alone. */
  function TzReadCorrected(r: Option<Timezone>): UserRead
  {
    if r.Some? then Some(TzMinuteswest(r.value)) else None
  }

  /** As written, the 8-byte read of UTC+9 (`tz_minuteswest == -540`, no DST) does
      not give -540 but 4294966756. */
  lemma TzLongAsWrittenLosesSign()
    ensures TzLongAsWritten(Timezone(-540, 0)) == 4294966756
    ensures TzLongAsWritten(Timezone(-540, 0)) != TzMinuteswest(Timezone(-540, 0))
  {
  }

  /** The 8-byte read agrees with the corrected one exactly when the second int
      happens to be the first one's sign extension (0 after a non-negative offset,
      -1 after a negative one). */
  lemma TzReadsAgree(tz: Timezone)
    ensures TzLongAsWritten(tz) == TzMinuteswest(tz)
            <==> (tz.dsttime == 0 && tz.minuteswest >= 0) || (tz.dsttime == -1 && tz.minuteswest < 0)
  {
    var m: int, d: int := tz.minuteswest, tz.dsttime;
    var lo: int := m % 0x1_0000_0000;
    var hi: int := d % 0x1_0000_0000;
    assert lo == (if m >= 0 then m else m + 0x1_0000_0000);
    assert hi == (if d >= 0 then d else d + 0x1_0000_0000);
  }

  /** `struct event`, as emitted by the streaming probe and decoded by its loader. */
  datatype Event = Event(ktimeNs: U64, cnt: U64, tvSec: int, tzMinuteswest: int)

  /** `sizeof(struct event)`: four 8-byte fields. */
  const EventSize: nat := 32

  /** `struct last_args_val`, the snapshot kept by the counting probe. */
  datatype LastArgsVal = LastArgsVal(tvSec: int, tzMinuteswest: int)

  /** The all-zero value of `struct last_args_val` (`= {0}` in the probe, `memset` in the poller). */
  const ZeroArgs: LastArgsVal := LastArgsVal(0, 0)
}
