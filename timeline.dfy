/** The trusted timeline and the classifier. `expected_wall`/`classify` in
    src/perfbuffer_settimeofday.c and `expected_wall_from_trusted`/`classify` in
    src/how_much_count.c are the same code, so they are modelled once here. */
module Timeline {

  /** `EPSILON_SEC`: the tolerance window in seconds. */
  const Epsilon: int := 60

  /** A trusted anchor: a wall-clock second count and the `CLOCK_BOOTTIME` second
      count read at the same moment. Only `tv_sec` of the boot reading is ever used. */
  datatype Anchor = Anchor(wall: int, boot: int)

  datatype TimeState = Future | Past | Current

  /** What `classify` produces: the verdict it returns and the difference it writes
      through `out_diff`. */
  datatype Verdict = Verdict(state: TimeState, diff: int)

  /** Where the wall clock should stand at boot reading `bootNow` had nobody set it. */
  function ExpectedWall(a: Anchor, bootNow: int): int
  {
    a.wall + (bootNow - a.boot)
  }

  /** The timeline an anchor defines, as a single number: wall minus boot. */
  function Offset(a: Anchor): int
  {
    a.wall - a.boot
  }

  /** The expected wall clock advances exactly with the boot clock and passes
      through the anchor itself. */
  lemma ExpectedWallTracksBootClock(a: Anchor, b1: int, b2: int)
    ensures ExpectedWall(a, b2) - ExpectedWall(a, b1) == b2 - b1
    ensures ExpectedWall(a, a.boot) == a.wall
    ensures ExpectedWall(a, b1) == Offset(a) + b1
  {
  }

  /** Two anchors give the same expected wall clock at every boot reading exactly
      when they have the same offset. */
  lemma SameTimelineIffSameOffset(a1: Anchor, a2: Anchor)
    ensures (forall b :: ExpectedWall(a1, b) == ExpectedWall(a2, b)) <==> Offset(a1) == Offset(a2)
  {
    if forall b :: ExpectedWall(a1, b) == ExpectedWall(a2, b) {
      assert ExpectedWall(a1, 0) == ExpectedWall(a2, 0);
    }
  }

  /** `classify(new_wall, expected, &diff)`. */
  function Classify(newWall: int, expected: int): (v: Verdict)
    ensures v.diff == newWall - expected
    ensures v.state == Future <==> v.diff > Epsilon
    ensures v.state == Past <==> v.diff < -Epsilon
    ensures v.state == Current <==> -Epsilon <= v.diff <= Epsilon
  {
    var diff := newWall - expected;
    if diff > Epsilon then Verdict(Future, diff)
    else if diff < -Epsilon then Verdict(Past, diff)
    else Verdict(Current, diff)
  }

  /** The string literal `classify` returns for each verdict. */
  function StateName(s: TimeState): (r: string)
    ensures r == "FUTURE" <==> s == Future
    ensures r == "PAST" <==> s == Past
    ensures r == "CURRENT" <==> s == Current
  {
    match s
    case Future => "FUTURE"
    case Past => "PAST"
    case Current => "CURRENT"
  }

  /** An observed value equal to the expected one is always CURRENT with diff 0,
      and one more than `Epsilon` away on either side never is. */
  lemma ClassifyWindowEdges(expected: int)
    ensures Classify(expected, expected) == Verdict(Current, 0)
    ensures Classify(expected + Epsilon, expected).state == Current
    ensures Classify(expected - Epsilon, expected).state == Current
    ensures Classify(expected + Epsilon + 1, expected).state == Future
    ensures Classify(expected - Epsilon - 1, expected).state == Past
  {
  }
}
