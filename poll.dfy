/** The polling ingestion program, src/how_much_count.c: the body of its
    `while (!exiting)` loop. It is edge-triggered on the probe's counter and, on
    every edge and whatever the verdict, re-anchors the timeline to the EXPECTED
    wall clock at the current boot reading. */
module Poll {
  import opened Abi
  import opened Timeline

  /** One `settimeofday: cnt=... => [STATE] tz_minuteswest=...` line on stdout. */
  datatype Line = Line(cnt: U64, newWall: int, expected: int, diff: int, state: TimeState, tzMinuteswest: int)

  /** What one iteration reads: the counter lookup (`None` when it fails), the
      snapshot lookup (`None` when it fails) and the boot clock. */
  datatype PollRead = PollRead(cnt: Option<U64>, args: Option<LastArgsVal>, bootNow: int)

  /** The loop's state: `prev_cnt` and the trusted anchor. */
  datatype PollState = PollState(prevCnt: U64, anchor: Anchor)

  datatype Step = Step(state: PollState, lines: seq<Line>)

  /** The state right after `init_trusted`; `prev_cnt` starts at 0. */
  function Initial(wallNow: int, bootNow: int): PollState
  {
    PollState(0, Anchor(wallNow, bootNow))
  }

  /** The snapshot the iteration uses: the looked-up one, or the zeroed struct. */
  function ArgsOrZero(args: Option<LastArgsVal>): LastArgsVal
  {
    if args.Some? then args.value else ZeroArgs
  }

  /** One iteration of the poll loop. */
  function Iteration(s: PollState, r: PollRead): Step
  {
    match r.cnt
    case None => Step(s, [])
    case Some(cnt) =>
      var a := ArgsOrZero(r.args);
      if cnt != s.prevCnt then
        var expected := ExpectedWall(s.anchor, r.bootNow);
        var v := Classify(a.tvSec, expected);
        Step(PollState(cnt, Anchor(expected, r.bootNow)),
             [Line(cnt, a.tvSec, expected, v.diff, v.state, a.tzMinuteswest)])
      else Step(s, [])
  }

  /** Successive iterations over a sequence of reads. */
  function Run(s: PollState, rs: seq<PollRead>): Step
    decreases |rs|
  {
    if rs == [] then Step(s, [])
    else
      var first := Iteration(s, rs[0]);
      var rest := Run(first.state, rs[1..]);
      Step(rest.state, first.lines + rest.lines)
  }

  // ----- one iteration -----

  /** A failed counter lookup does nothing: no line, same `prev_cnt`, same anchor. */
  lemma CounterLookupFailureIsNoop(s: PollState, args: Option<LastArgsVal>, bootNow: int)
    ensures Iteration(s, PollRead(None, args, bootNow)) == Step(s, [])
  {
  }

  /** Edge trigger: a line is printed and the state changes exactly when the counter
      was read and differs from `prev_cnt`; then there is exactly one line, it
      reports the counter, the snapshot just read, the expected wall clock and the
      difference, and `prev_cnt` becomes the counter. */
  lemma EdgeTriggered(s: PollState, r: PollRead)
    ensures var st := Iteration(s, r);
      var edge := r.cnt.Some? && r.cnt.value != s.prevCnt;
      (edge ==> |st.lines| == 1 && st.state.prevCnt == r.cnt.value
                && st.lines[0].cnt == r.cnt.value
                && st.lines[0].newWall == ArgsOrZero(r.args).tvSec
                && st.lines[0].tzMinuteswest == ArgsOrZero(r.args).tzMinuteswest
                && st.lines[0].expected == ExpectedWall(s.anchor, r.bootNow)
                && st.lines[0].diff == ArgsOrZero(r.args).tvSec - ExpectedWall(s.anchor, r.bootNow)
                && st.lines[0].state == Classify(ArgsOrZero(r.args).tvSec, ExpectedWall(s.anchor, r.bootNow)).state)
      && (!edge ==> st == Step(s, []))
  {
  }

  /** Two consecutive polls that read the same counter print at most one line:
      the second one prints nothing and changes nothing. */
  lemma RepeatedCounterIsSilent(s: PollState, r1: PollRead, r2: PollRead)
    requires r1.cnt.Some? && r2.cnt == r1.cnt
    ensures var s1 := Iteration(s, r1).state;
      Iteration(s1, r2) == Step(s1, [])
  {
  }

  /** A missing snapshot reads as the zeroed struct: observed wall clock 0, tz 0. */
  lemma MissingSnapshotReadsZero(s: PollState, cnt: U64, bootNow: int)
    requires cnt != s.prevCnt
    ensures var st := Iteration(s, PollRead(Some(cnt), None, bootNow));
      |st.lines| == 1 && st.lines[0].newWall == 0 && st.lines[0].tzMinuteswest == 0
  {
  }

  /** A first counter reading of 0 prints nothing. */
  lemma FirstZeroReadIsSilent(wallNow: int, bootNow: int, r: PollRead)
    requires r.cnt == Some(0)
    ensures Iteration(Initial(wallNow, bootNow), r) == Step(Initial(wallNow, bootNow), [])
  {
  }

  /** On every edge, whatever the verdict, the anchor becomes `(expected, now_boot)`;
      that re-anchor keeps the timeline: every later boot reading gets the same
      expected wall clock as before. */
  lemma ReanchorKeepsTimeline(s: PollState, r: PollRead)
    requires r.cnt.Some? && r.cnt.value != s.prevCnt
    ensures var a' := Iteration(s, r).state.anchor;
      a' == Anchor(ExpectedWall(s.anchor, r.bootNow), r.bootNow)
      && forall b :: ExpectedWall(a', b) == ExpectedWall(s.anchor, b)
  {
  }

  // ----- sequences of iterations -----

  /** However many edges and whatever their verdicts, the poller's timeline never
      moves: the final anchor predicts the same wall clock as the initial one at
      every boot reading (so a sequence of small forward jumps cannot drag it). */
  lemma {:induction false} RunKeepsTimeline(s: PollState, rs: seq<PollRead>)
    ensures Offset(Run(s, rs).state.anchor) == Offset(s.anchor)
    decreases |rs|
  {
    if rs != [] {
      var first := Iteration(s, rs[0]);
      RunKeepsTimeline(first.state, rs[1..]);
    }
  }

  /** The counter values that were read successfully, in order. */
  function CounterReads(rs: seq<PollRead>): seq<U64>
    decreases |rs|
  {
    if rs == [] then [] else (if rs[0].cnt.Some? then [rs[0].cnt.value] else []) + CounterReads(rs[1..])
  }

  predicate NonDecreasingFrom(c: int, xs: seq<U64>)
  {
    (forall i :: 0 <= i < |xs| ==> c <= xs[i])
    && (forall i, j :: 0 <= i < j < |xs| ==> xs[i] <= xs[j])
  }

  predicate StrictlyIncreasingAbove(c: int, ls: seq<Line>)
  {
    (forall i :: 0 <= i < |ls| ==> c < ls[i].cnt)
    && (forall i, j :: 0 <= i < j < |ls| ==> ls[i].cnt < ls[j].cnt)
  }

  /** Ordering: when the counter (which the probe only ever increments) is read as a
      non-decreasing sequence, the lines come out in strictly increasing counter
      order, each above the `prev_cnt` the run started from. */
  lemma {:induction false} LinesInCounterOrder(s: PollState, rs: seq<PollRead>)
    requires NonDecreasingFrom(s.prevCnt, CounterReads(rs))
    ensures StrictlyIncreasingAbove(s.prevCnt, Run(s, rs).lines)
    decreases |rs|
  {
    if rs != [] {
      var first := Iteration(s, rs[0]);
      var cr := CounterReads(rs);
      var tail := CounterReads(rs[1..]);
      assert cr == (if rs[0].cnt.Some? then [rs[0].cnt.value] else []) + tail;
      if rs[0].cnt.Some? {
        assert cr[0] == rs[0].cnt.value && s.prevCnt <= cr[0];
        assert first.state.prevCnt == s.prevCnt || first.state.prevCnt == cr[0];
      } else {
        assert first.state == s && tail == cr;
      }
      assert NonDecreasingFrom(first.state.prevCnt, tail) by {
        if rs[0].cnt.Some? {
          forall i | 0 <= i < |tail|
            ensures first.state.prevCnt <= tail[i]
          {
            assert tail[i] == cr[i + 1];
          }
          forall i, j | 0 <= i < j < |tail|
            ensures tail[i] <= tail[j]
          {
            assert tail[i] == cr[i + 1] && tail[j] == cr[j + 1];
          }
        }
      }
      LinesInCounterOrder(first.state, rs[1..]);
      var rest := Run(first.state, rs[1..]);
      var ls := first.lines + rest.lines;
      if |first.lines| == 1 {
        assert first.lines[0].cnt == first.state.prevCnt && s.prevCnt < first.state.prevCnt;
        forall i | 0 <= i < |ls|
          ensures s.prevCnt < ls[i].cnt
        {
          if i > 0 { assert ls[i] == rest.lines[i - 1]; }
        }
        forall i, j | 0 <= i < j < |ls|
          ensures ls[i].cnt < ls[j].cnt
        {
          assert ls[j] == rest.lines[j - 1];
          if i > 0 { assert ls[i] == rest.lines[i - 1]; }
        }
      } else {
        assert first.state == s;
        assert ls == rest.lines;
      }
    }
  }

  /** The polling program: `prev_cnt`, `trusted_wall`/`trusted_boot` and stdout. */
  class Monitor {
    var prevCnt: U64
    var trustedWall: int
    var trustedBoot: int
    var out: seq<Line>

    function State(): PollState
      reads this
    {
      PollState(prevCnt, Anchor(trustedWall, trustedBoot))
    }

    /** `prev_cnt = 0` and `init_trusted`. */
    constructor (wallNow: int, bootNow: int)
      ensures State() == Initial(wallNow, bootNow)
      ensures out == []
    {
      prevCnt := 0;
      trustedWall := wallNow;
      trustedBoot := bootNow;
      out := [];
    }

    /** One turn of the `while (!exiting)` loop (the sleeps left out). */
    method Iterate(r: PollRead)
      modifies this
      ensures State() == Iteration(old(State()), r).state
      ensures out == old(out) + Iteration(old(State()), r).lines
    {
      if r.cnt.None? {
        return;
      }
      var cnt := r.cnt.value;
      var a := ZeroArgs;
      if r.args.Some? {
        a := r.args.value;
      }
      if cnt != prevCnt {
        var expected := ExpectedWall(Anchor(trustedWall, trustedBoot), r.bootNow);
        var newWall := a.tvSec;
        var v := Classify(newWall, expected);
        out := out + [Line(cnt, newWall, expected, v.diff, v.state, a.tzMinuteswest)];
        trustedWall := expected;
        trustedBoot := r.bootNow;
        prevCnt := cnt;
      }
    }

    /** The loop, one iteration per read, until the sequence of reads runs out. */
    method Loop(rs: seq<PollRead>)
      modifies this
      ensures State() == Run(old(State()), rs).state
      ensures out == old(out) + Run(old(State()), rs).lines
    {
      ghost var s0 := State();
      ghost var out0 := out;
      var i := 0;
      while i < |rs|
        invariant 0 <= i <= |rs|
        invariant State() == Run(s0, rs[..i]).state
        invariant out == out0 + Run(s0, rs[..i]).lines
      {
        Iterate(rs[i]);
        RunAppend(s0, rs[..i], [rs[i]]);
        assert rs[..i + 1] == rs[..i] + [rs[i]];
        i := i + 1;
      }
      assert rs[..i] == rs;
    }
  }

  /** Running two sequences of reads one after the other is running their concatenation. */
  lemma {:induction false} RunAppend(s: PollState, rs1: seq<PollRead>, rs2: seq<PollRead>)
    ensures var r1 := Run(s, rs1); var r2 := Run(r1.state, rs2);
      Run(s, rs1 + rs2) == Step(r2.state, r1.lines + r2.lines)
    decreases |rs1|
  {
    if rs1 == [] {
      assert rs1 + rs2 == rs2;
    } else {
      assert (rs1 + rs2)[1..] == rs1[1..] + rs2;
      RunAppend(Iteration(s, rs1[0]).state, rs1[1..], rs2);
    }
  }
}
