/** The streaming ingestion program, src/perfbuffer_settimeofday.c: the perf-buffer
    callbacks `handle_event` and `handle_lost`, the trusted anchor they share and
    the alert log they append to. A sample that is classified CURRENT re-anchors
    the timeline to the OBSERVED wall clock; PAST and FUTURE leave it alone. */
module Stream {
  import opened Abi
  import opened Timeline

  /** One line of settime_alerts.log, as its fields. */
  datatype Record =
    | Init(trustedWall: int, trustedBoot: int)
    | SetTimeOfDay(cnt: U64, newWall: int, expected: int, diff: int, state: TimeState, tz: int, ktimeNs: U64)
    | LostEvents(cpu: int, lost: U64)

  /** What `perf_buffer__poll` hands to the callbacks: a sample (its payload size,
      the event it decodes to, and the boot clock `handle_event` reads) or the
      count of samples the buffer dropped on one CPU. */
  datatype Delivery =
    | Sample(size: nat, ev: Event, bootNow: int)
    | Lost(cpu: int, lostCnt: U64)

  /** The effect of callbacks on the anchor and on the log. */
  datatype Step = Step(anchor: Anchor, records: seq<Record>)

  /** `handle_event` on the anchor `a`. */
  function OnEvent(a: Anchor, size: nat, e: Event, bootNow: int): Step
  {
    if size < EventSize then Step(a, [])
    else
      var expected := ExpectedWall(a, bootNow);
      var v := Classify(e.tvSec, expected);
      var rec := SetTimeOfDay(e.cnt, e.tvSec, expected, v.diff, v.state, e.tzMinuteswest, e.ktimeNs);
      if StateName(v.state) == "CURRENT" then Step(Anchor(e.tvSec, bootNow), [rec])
      else Step(a, [rec])
  }

  /** `handle_lost`. */
  function OnLost(a: Anchor, cpu: int, lostCnt: U64): Step
  {
    Step(a, [LostEvents(cpu, lostCnt)])
  }

  function OnDelivery(a: Anchor, d: Delivery): Step
  {
    match d
    case Sample(size, e, bootNow) => OnEvent(a, size, e, bootNow)
    case Lost(cpu, n) => OnLost(a, cpu, n)
  }

  /** The callbacks run one after the other over a sequence of deliveries. */
  function Run(a: Anchor, ds: seq<Delivery>): Step
    decreases |ds|
  {
    if ds == [] then Step(a, [])
    else
      var first := OnDelivery(a, ds[0]);
      var rest := Run(first.anchor, ds[1..]);
      Step(rest.anchor, first.records + rest.records)
  }

  /** Whether a delivery produces a log record: a lost-events notice always does,
      a sample only when its payload is at least a whole `struct event`. */
  predicate Emits(d: Delivery)
  {
    d.Lost? || d.size >= EventSize
  }

  /** The deliveries that produce a record, in delivery order. */
  function Emitting(ds: seq<Delivery>): seq<Delivery>
    decreases |ds|
  {
    if ds == [] then [] else (if Emits(ds[0]) then [ds[0]] else []) + Emitting(ds[1..])
  }

  /** `r` is the record written for `d`: it carries the sample's counter, value,
      timezone and kernel timestamp, or the lost-events CPU and count. */
  predicate Reports(r: Record, d: Delivery)
  {
    match d
    case Sample(_, e, _) =>
      r.SetTimeOfDay? && r.cnt == e.cnt && r.newWall == e.tvSec
      && r.tz == e.tzMinuteswest && r.ktimeNs == e.ktimeNs
    case Lost(cpu, n) => r == LostEvents(cpu, n)
  }

  /** The number of CURRENT verdicts among some records. */
  function CurrentCount(rs: seq<Record>): nat
    decreases |rs|
  {
    if rs == [] then 0
    else (if rs[0].SetTimeOfDay? && rs[0].state == Current then 1 else 0) + CurrentCount(rs[1..])
  }

  function Abs(x: int): nat { if x < 0 then -x else x }

  // ----- one callback -----

  /** A payload shorter than `struct event` is dropped: no record, same anchor. */
  lemma ShortPayloadIgnored(a: Anchor, size: nat, e: Event, bootNow: int)
    requires size < EventSize
    ensures OnEvent(a, size, e, bootNow) == Step(a, [])
  {
  }

  /** An accepted sample writes exactly one record, holding the sample's fields,
      the expected wall clock and the classifier's verdict and difference. */
  lemma AcceptedEventRecord(a: Anchor, size: nat, e: Event, bootNow: int)
    requires size >= EventSize
    ensures var s := OnEvent(a, size, e, bootNow);
      var expected := ExpectedWall(a, bootNow);
      |s.records| == 1
      && s.records[0] == SetTimeOfDay(e.cnt, e.tvSec, expected, e.tvSec - expected,
                                      Classify(e.tvSec, expected).state, e.tzMinuteswest, e.ktimeNs)
  {
  }

  /** The anchor moves only on a CURRENT verdict, and then to `(new_wall, now_boot)`;
      after PAST or FUTURE it is exactly what it was. */
  lemma ReanchorOnlyOnCurrent(a: Anchor, size: nat, e: Event, bootNow: int)
    requires size >= EventSize
    ensures var v := Classify(e.tvSec, ExpectedWall(a, bootNow));
      OnEvent(a, size, e, bootNow).anchor == if v.state == Current then Anchor(e.tvSec, bootNow) else a
  {
  }

  /** After a CURRENT re-anchor, the same value at the same boot reading is CURRENT
      with difference 0, and the expected timeline has moved by at most `Epsilon`
      seconds at every boot reading. */
  lemma ReanchorIsSmall(a: Anchor, size: nat, e: Event, bootNow: int)
    requires size >= EventSize
    requires Classify(e.tvSec, ExpectedWall(a, bootNow)).state == Current
    ensures var a' := OnEvent(a, size, e, bootNow).anchor;
      Classify(e.tvSec, ExpectedWall(a', bootNow)) == Verdict(Current, 0)
      && forall b :: Abs(ExpectedWall(a', b) - ExpectedWall(a, b)) <= Epsilon
  {
  }

  /** `handle_lost` writes one LOST_EVENTS record with the CPU and count it is
      given, and leaves the anchor alone. */
  lemma LostEventsRecord(a: Anchor, cpu: int, lostCnt: U64)
    ensures OnLost(a, cpu, lostCnt).anchor == a
    ensures OnLost(a, cpu, lostCnt).records == [LostEvents(cpu, lostCnt)]
  {
  }

  // ----- sequences of callbacks -----

  /** Running two batches one after the other is running their concatenation. */
  lemma {:induction false} RunAppend(a: Anchor, ds1: seq<Delivery>, ds2: seq<Delivery>)
    ensures var r1 := Run(a, ds1); var r2 := Run(r1.anchor, ds2);
      Run(a, ds1 + ds2) == Step(r2.anchor, r1.records + r2.records)
    decreases |ds1|
  {
    if ds1 == [] {
      assert ds1 + ds2 == ds2;
    } else {
      assert (ds1 + ds2)[1..] == ds1[1..] + ds2;
      RunAppend(OnDelivery(a, ds1[0]).anchor, ds1[1..], ds2);
    }
  }

  /** No collapsing: every accepted sample and every lost-events notice gets its
      own record, in delivery order, and nothing else is written. */
  lemma {:induction false} RunReportsEachDelivery(a: Anchor, ds: seq<Delivery>)
    ensures var rs := Run(a, ds).records;
      |rs| == |Emitting(ds)| && forall i :: 0 <= i < |rs| ==> Reports(rs[i], Emitting(ds)[i])
    decreases |ds|
  {
    if ds != [] {
      var first := OnDelivery(a, ds[0]);
      RunReportsEachDelivery(first.anchor, ds[1..]);
      var rest := Run(first.anchor, ds[1..]);
      var em := if Emits(ds[0]) then [ds[0]] else [];
      assert Emitting(ds) == em + Emitting(ds[1..]);
      assert |first.records| == |em|;
      assert |first.records| == 1 ==> Reports(first.records[0], ds[0]);
    }
  }

  lemma CurrentCountAppend(rs1: seq<Record>, rs2: seq<Record>)
    ensures CurrentCount(rs1 + rs2) == CurrentCount(rs1) + CurrentCount(rs2)
    decreases |rs1|
  {
    if rs1 != [] {
      assert (rs1 + rs2)[0] == rs1[0];
      assert (rs1 + rs2)[1..] == rs1[1..] + rs2;
      CurrentCountAppend(rs1[1..], rs2);
    } else {
      assert rs1 + rs2 == rs2;
    }
  }

  /** The trusted timeline can drift by at most `Epsilon` seconds per CURRENT
      verdict: over any run, the anchor's offset moves by no more than `Epsilon`
      times the number of CURRENT records written. In particular a run with no
      CURRENT verdict leaves the timeline where it was. */
  lemma {:induction false} DriftBoundedByCurrentVerdicts(a: Anchor, ds: seq<Delivery>)
    ensures var r := Run(a, ds);
      Abs(Offset(r.anchor) - Offset(a)) <= Epsilon * CurrentCount(r.records)
    decreases |ds|
  {
    if ds != [] {
      var first := OnDelivery(a, ds[0]);
      DriftBoundedByCurrentVerdicts(first.anchor, ds[1..]);
      var rest := Run(first.anchor, ds[1..]);
      CurrentCountAppend(first.records, rest.records);
      assert Abs(Offset(first.anchor) - Offset(a)) <= Epsilon * CurrentCount(first.records) by {
        match ds[0]
        case Lost(_, _) =>
        case Sample(size, e, bootNow) =>
          if size >= EventSize {
            var v := Classify(e.tvSec, ExpectedWall(a, bootNow));
            assert first.records[0].state == v.state;
            assert first.records[1..] == [];
          }
      }
    }
  }

  /** A sequence of samples, one per boot reading in `boots`, each setting the
      clock exactly `Epsilon` seconds ahead of where the current anchor expects it. */
  function CreepingSamples(a: Anchor, boots: seq<int>, cnt: U64): seq<Delivery>
    decreases |boots|
  {
    if boots == [] then []
    else
      var tv := ExpectedWall(a, boots[0]) + Epsilon;
      [Sample(EventSize, Event(0, cnt, tv, 0), boots[0])]
        + CreepingSamples(Anchor(tv, boots[0]), boots[1..], cnt)
  }

  /** Re-anchoring to the observed value lets slow drift through: `k` samples that
      each stay just inside the window are all CURRENT, and together they move the
      trusted timeline by `k * Epsilon` seconds. */
  lemma {:induction false} CreepingDriftGoesUndetected(a: Anchor, boots: seq<int>, cnt: U64)
    ensures var r := Run(a, CreepingSamples(a, boots, cnt));
      |r.records| == |boots|
      && (forall i :: 0 <= i < |r.records| ==> r.records[i].SetTimeOfDay? && r.records[i].state == Current)
      && Offset(r.anchor) == Offset(a) + Epsilon * |boots|
    decreases |boots|
  {
    if boots != [] {
      var tv := ExpectedWall(a, boots[0]) + Epsilon;
      var a' := Anchor(tv, boots[0]);
      var ds := CreepingSamples(a, boots, cnt);
      assert ds[1..] == CreepingSamples(a', boots[1..], cnt);
      assert OnDelivery(a, ds[0]).anchor == a';
      CreepingDriftGoesUndetected(a', boots[1..], cnt);
    }
  }

  /** The program's state: the `trusted_wall`/`trusted_boot` globals and the log. */
  class Monitor {
    var trustedWall: int
    var trustedBoot: int
    var log: seq<Record>

    function TrustedAnchor(): Anchor
      reads this
    {
      Anchor(trustedWall, trustedBoot)
    }

    /** `init_trusted` followed by the INIT log line. */
    constructor (wallNow: int, bootNow: int)
      ensures TrustedAnchor() == Anchor(wallNow, bootNow)
      ensures log == [Init(wallNow, bootNow)]
    {
      trustedWall := wallNow;
      trustedBoot := bootNow;
      log := [Init(wallNow, bootNow)];
    }

    /** `handle_event`. */
    method HandleEvent(size: nat, e: Event, bootNow: int)
      modifies this
      ensures TrustedAnchor() == OnEvent(old(TrustedAnchor()), size, e, bootNow).anchor
      ensures log == old(log) + OnEvent(old(TrustedAnchor()), size, e, bootNow).records
    {
      if size < EventSize {
        return;
      }
      var expected := ExpectedWall(TrustedAnchor(), bootNow);
      var newWall := e.tvSec;
      var v := Classify(newWall, expected);
      log := log + [SetTimeOfDay(e.cnt, newWall, expected, v.diff, v.state, e.tzMinuteswest, e.ktimeNs)];
      if StateName(v.state) == "CURRENT" {
        trustedWall := newWall;
        trustedBoot := bootNow;
      }
    }

    /** `handle_lost`. */
    method HandleLost(cpu: int, lostCnt: U64)
      modifies this`log
      ensures log == old(log) + [LostEvents(cpu, lostCnt)]
    {
      log := log + [LostEvents(cpu, lostCnt)];
    }

    /** One `perf_buffer__poll`: the callbacks for each delivery, in order. */
    method Poll(ds: seq<Delivery>)
      modifies this
      ensures TrustedAnchor() == Run(old(TrustedAnchor()), ds).anchor
      ensures log == old(log) + Run(old(TrustedAnchor()), ds).records
    {
      ghost var a0 := TrustedAnchor();
      ghost var log0 := log;
      var i := 0;
      while i < |ds|
        invariant 0 <= i <= |ds|
        invariant TrustedAnchor() == Run(a0, ds[..i]).anchor
        invariant log == log0 + Run(a0, ds[..i]).records
      {
        ghost var before := Run(a0, ds[..i]);
        match ds[i] {
          case Sample(size, e, bootNow) => HandleEvent(size, e, bootNow);
          case Lost(cpu, n) => HandleLost(cpu, n);
        }
        RunAppend(a0, ds[..i], [ds[i]]);
        assert ds[..i + 1] == ds[..i] + [ds[i]];
        i := i + 1;
      }
      assert ds[..i] == ds;
    }
  }
}
