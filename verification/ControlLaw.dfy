/** The control law of AutomaticControlUnit.run for one gate: zones, step ladder, and where they lead. */
module ControlLaw {
  import opened Wrappers
  import opened Channels
  import opened NumberText
  import opened Commands

  const SHORT_STEP: JavaInt := 1
  const STEP: JavaInt := 5
  const LONG_STEP: JavaInt := 10

  datatype Thresholds = Thresholds(min: real, max: real, safe: real)

  predicate Ordered(th: Thresholds) { th.min <= th.max <= th.safe }

  datatype Reading = Reading(level: real, inflow: real, outflow: real)

  function Abs(x: real): real { if x < 0.0 then -x else x }

  /** The step ladder of the middle zone. */
  function Ladder(difference: real): JavaInt {
    if difference > 20.0 then LONG_STEP else if difference > 10.0 then STEP else SHORT_STEP
  }

  /** The command the unit issues for a gate; None where it issues none. */
  function Plan(th: Thresholds, r: Reading, emergency: bool): Option<Op> {
    if r.level > th.safe then Some(Set(FULL_OPEN))
    else if emergency then Some(Set(FULL_CLOSE))
    else if r.level > th.max then Some(Increase(if r.inflow > r.outflow then LONG_STEP else STEP))
    else if r.level < th.min then Some(Decrease(if r.inflow < r.outflow then LONG_STEP else STEP))
    else if r.outflow < r.inflow - 1.0 then Some(Increase(Ladder(Abs(r.outflow - r.inflow))))
    else if r.outflow > r.inflow + 1.0 then Some(Decrease(Ladder(Abs(r.outflow - r.inflow))))
    else None
  }

  function TickCell(c: Cell, th: Thresholds, r: Reading, emergency: bool, f: Fault): (Cell, Status) {
    match Plan(th, r, emergency)
    case None => (c, Skipped)
    case Some(op) => Execute(c, op, f)
  }

  /** How far the law pushes a primary gate. */
  function Push(th: Thresholds, r: Reading): int {
    var toOpen := r.inflow - r.outflow;
    if r.level > th.max then (if toOpen > 0.0 then 10 else 5)
    else if r.level < th.min then (if toOpen < 0.0 then -10 else -5)
    else
      var size := if Abs(toOpen) <= 1.0 then 0 else if Abs(toOpen) <= 10.0 then 1 else if Abs(toOpen) <= 20.0 then 5 else 10;
      if toOpen < 0.0 then -size else size
  }

  /** The opening the law wants next, for a gate that is at l. */
  function Target(th: Thresholds, r: Reading, emergency: bool, l: int): int {
    if r.level > th.safe then 100 else if emergency then 0 else Max(0, Min(100, l + Push(th, r)))
  }

  /** A failure-free tick takes a clean gate exactly to the law's opening, keeps it clean, and sends a PUT
      iff the opening changes. */
  lemma CleanTick(c: Cell, th: Thresholds, r: Reading, emergency: bool)
    requires Clean(c)
    ensures var (next, status) := TickCell(c, th, r, emergency, NoFault);
            && Clean(next)
            && next.gate.level == Target(th, r, emergency, c.gate.level)
            && (status == if next.gate.level == c.gate.level then Skipped else Done)
  {
  }

  /** A fault at a clean gate is an error of the tick unless the law has no command for the gate, or the row can be read
      and says the gate is there already. */
  lemma FaultedTick(c: Cell, th: Thresholds, r: Reading, emergency: bool, f: Fault)
    requires Clean(c)
    ensures Completed(TickCell(c, th, r, emergency, f).1)
            <==> f == NoFault || Plan(th, r, emergency).None?
                 || (f != ReadFails && Target(th, r, emergency, c.gate.level) == c.gate.level)
  {
  }

  /** The law as a table, over the level and the two flows. */
  lemma LawTable(th: Thresholds, level: real, inflow: real, outflow: real, l: int)
    requires Ordered(th) && InRange(l)
    ensures var next := Target(th, Reading(level := level, inflow := inflow, outflow := outflow), false, l);
            && (level > th.safe ==> next == 100)
            && (th.max < level <= th.safe ==> next == Min(100, l + if inflow > outflow then 10 else 5))
            && (level < th.min ==> next == Max(0, l - if inflow < outflow then 10 else 5))
            && (th.min <= level <= th.max ==>
                  next == if inflow - outflow > 20.0 then Min(100, l + 10)
                          else if inflow - outflow > 10.0 then Min(100, l + 5)
                          else if inflow - outflow > 1.0 then Min(100, l + 1)
                          else if outflow - inflow > 20.0 then Max(0, l - 10)
                          else if outflow - inflow > 10.0 then Max(0, l - 5)
                          else if outflow - inflow > 1.0 then Max(0, l - 1)
                          else l)
    ensures Target(th, Reading(level := level, inflow := inflow, outflow := outflow), true, l) == if level > th.safe then 100 else 0
  {
  }

  /** In the middle zone a primary gate follows the difference of the flows. */
  predicate FollowsFlows(th: Thresholds, level: real, inflow: real, outflow: real, l: int, next: int) {
    th.min <= level <= th.max ==>
      && (inflow > outflow + 1.0 && l < 100 ==> next > l)
      && (inflow < outflow - 1.0 && l > 0 ==> next < l)
      && (outflow - 1.0 <= inflow <= outflow + 1.0 ==> next == l)
  }

  lemma LawFollowsFlows(th: Thresholds, r: Reading, l: int)
    requires Ordered(th) && InRange(l)
    ensures FollowsFlows(th, r.level, r.inflow, r.outflow, l, Target(th, r, false, l))
  {
  }

  /** The gate after a run of failure-free ticks, and the PUTs it got. */
  function RunCell(c: Cell, th: Thresholds, rs: seq<Reading>, emergency: bool): (Cell, nat)
    decreases |rs|
  {
    if rs == [] then (c, 0)
    else
      var (next, status) := TickCell(c, th, rs[0], emergency, NoFault);
      var (last, puts) := RunCell(next, th, rs[1..], emergency);
      (last, puts + if status == Done then 1 else 0)
  }

  /** The same run on openings alone. */
  function LevelAfter(l: int, th: Thresholds, rs: seq<Reading>, emergency: bool): int
    decreases |rs|
  {
    if rs == [] then l else LevelAfter(Target(th, rs[0], emergency, l), th, rs[1..], emergency)
  }

  function Moves(l: int, th: Thresholds, rs: seq<Reading>, emergency: bool): nat
    decreases |rs|
  {
    if rs == [] then 0
    else
      var next := Target(th, rs[0], emergency, l);
      Moves(next, th, rs[1..], emergency) + if next != l then 1 else 0
  }

  lemma {:induction false} CleanRun(c: Cell, th: Thresholds, rs: seq<Reading>, emergency: bool)
    requires Clean(c)
    ensures var (last, puts) := RunCell(c, th, rs, emergency);
            && Clean(last)
            && last.gate.level == LevelAfter(c.gate.level, th, rs, emergency)
            && puts == Moves(c.gate.level, th, rs, emergency)
    decreases |rs|
  {
    if rs != [] {
      CleanTick(c, th, rs[0], emergency);
      CleanRun(TickCell(c, th, rs[0], emergency, NoFault).0, th, rs[1..], emergency);
    }
  }

  // Saturation.

  predicate AboveMax(th: Thresholds, r: Reading) { th.max < r.level <= th.safe }
  predicate BelowMin(th: Thresholds, r: Reading) { r.level < th.min }

  lemma {:induction false} RaiseSaturates(l: int, th: Thresholds, rs: seq<Reading>)
    requires InRange(l) && forall i | 0 <= i < |rs| :: AboveMax(th, rs[i])
    ensures Min(100, l + 5 * |rs|) <= LevelAfter(l, th, rs, false) <= 100
    ensures 5 * Moves(l, th, rs, false) <= 100 - l + 4
    decreases |rs|
  {
    if rs != [] {
      assert AboveMax(th, rs[0]);
      RaiseSaturates(Target(th, rs[0], false, l), th, rs[1..]);
    }
  }

  lemma {:induction false} LowerSaturates(l: int, th: Thresholds, rs: seq<Reading>)
    requires InRange(l) && Ordered(th) && forall i | 0 <= i < |rs| :: BelowMin(th, rs[i])
    ensures 0 <= LevelAfter(l, th, rs, false) <= Max(0, l - 5 * |rs|)
    ensures 5 * Moves(l, th, rs, false) <= l + 4
    decreases |rs|
  {
    if rs != [] {
      assert BelowMin(th, rs[0]);
      LowerSaturates(Target(th, rs[0], false, l), th, rs[1..]);
    }
  }

  lemma {:induction false} EmergencyMovesOnce(l: int, th: Thresholds, rs: seq<Reading>)
    requires forall i | 0 <= i < |rs| :: rs[i].level <= th.safe
    ensures rs != [] ==> LevelAfter(l, th, rs, true) == 0
    ensures Moves(l, th, rs, true) <= if l == 0 then 0 else 1
    decreases |rs|
  {
    if rs != [] { EmergencyMovesOnce(0, th, rs[1..]); }
  }

  /** An uninterrupted failure-free stay above the maximum (or below the minimum): after 20 ticks a primary gate is
      fully open (closed), it has received at most 20 PUTs, an emergency gate at most one, and a gate that has
      arrived receives none. */
  lemma StaySaturates(c: Cell, th: Thresholds, rs: seq<Reading>, high: bool, emergency: bool)
    requires Clean(c) && Ordered(th)
    requires forall i | 0 <= i < |rs| :: if high then AboveMax(th, rs[i]) else BelowMin(th, rs[i])
    ensures var (last, puts) := RunCell(c, th, rs, emergency);
            var goal := if high && !emergency then FULL_OPEN else FULL_CLOSE;
            && Clean(last)
            && (|rs| >= (if emergency then 1 else 20) ==> last.gate.level == goal)
            && puts <= (if emergency then 1 else 20)
            && (c.gate.level == goal ==> puts == 0)
  {
    CleanRun(c, th, rs, emergency);
    var l := c.gate.level;
    if emergency {
      forall i | 0 <= i < |rs|
        ensures rs[i].level <= th.safe
      {
        assert if high then AboveMax(th, rs[i]) else BelowMin(th, rs[i]);
      }
      EmergencyMovesOnce(l, th, rs);
    } else if high {
      assert forall i | 0 <= i < |rs| :: AboveMax(th, rs[i]);
      RaiseSaturates(l, th, rs);
    } else {
      assert forall i | 0 <= i < |rs| :: BelowMin(th, rs[i]);
      LowerSaturates(l, th, rs);
    }
  }

  // Convergence in the middle zone: one primary gate worth 1 m3/s per percent, a constant inflow f, and readings
  // that have settled to within NOISE of the truth.

  const NOISE := 0.15

  predicate MidZone(th: Thresholds, r: Reading) { th.min <= r.level <= th.max }

  predicate Near(r: Reading, l: int, f: real) {
    -NOISE <= r.inflow - f <= NOISE && -NOISE <= r.outflow - l as real <= NOISE
  }

  predicate Settled(l: int, th: Thresholds, rs: seq<Reading>, f: real)
    decreases |rs|
  {
    rs == [] || (MidZone(th, rs[0]) && Near(rs[0], l, f) && Settled(Target(th, rs[0], false, l), th, rs[1..], f))
  }

  function Distance(l: int, f: real): real { Abs(l as real - f) }

  /** Openings from which at most k more moves are possible. */
  function Reach(k: nat): real {
    if k < 10 then 0.7 + k as real
    else if k <= 12 then 10.3 + 5.0 * (k - 10) as real
    else 20.3 + 10.0 * (k - 12) as real
  }

  /** One tick, against any noise: a move goes towards the inflow by its full step, passes it by less than 0.3, and
      uses up one of the moves left; a rest means the gate was within 1.3 of the inflow. */
  lemma MidTick(l: int, th: Thresholds, r: Reading, f: real, k: nat)
    requires InRange(l) && 0.0 <= f <= MAX_INFLOW && Ordered(th)
    requires MidZone(th, r) && Near(r, l, f) && Distance(l, f) <= Reach(k)
    ensures var next := Target(th, r, false, l);
            && InRange(next) && next == l + Push(th, r)
            && (next == l ==> Distance(l, f) <= 1.3)
            && (next != l ==> k > 0 && Distance(next, f) <= Reach(k - 1))
            && (l as real < f + 0.3 ==> l <= next && next as real < f + 0.3)
            && (l as real > f - 0.3 ==> next <= l && next as real > f - 0.3)
  {
    var next := Target(th, r, false, l);
    var away := l as real - f;
    var p := Push(th, r);
    if p != 0 {
      assert (l + p) as real == l as real + p as real;
      assert p in {-10, -5, -1, 1, 5, 10};
      assert p < 0 ==> away > 0.7;
      assert p > 0 ==> away < -0.7;
      assert p in {-10, 10} ==> Abs(away) > 19.7;
      assert p in {-5, 5} ==> 9.7 < Abs(away) <= 20.3;
      assert p in {-1, 1} ==> Abs(away) <= 10.3;
    }
  }

  /** A gate within 1.3 of the inflow stays so. */
  lemma {:induction false} StaysClose(l: int, th: Thresholds, rs: seq<Reading>, f: real)
    requires InRange(l) && 0.0 <= f <= MAX_INFLOW && Ordered(th)
    requires Settled(l, th, rs, f) && Distance(l, f) <= 1.3
    ensures Distance(LevelAfter(l, th, rs, false), f) <= 1.3
    decreases |rs|
  {
    if rs != [] {
      MidTick(l, th, rs[0], f, 1);
      StaysClose(Target(th, rs[0], false, l), th, rs[1..], f);
    }
  }

  /** Along every settled run the gate never turns round, never passes the inflow by 0.3, moves at most k times,
      and is within 1.3 of the inflow after more than k ticks. */
  lemma {:induction false} MidRun(l: int, th: Thresholds, rs: seq<Reading>, f: real, k: nat)
    requires InRange(l) && 0.0 <= f <= MAX_INFLOW && Ordered(th)
    requires Settled(l, th, rs, f) && Distance(l, f) <= Reach(k)
    ensures var last := LevelAfter(l, th, rs, false);
            && InRange(last)
            && Moves(l, th, rs, false) <= k
            && Distance(last, f) <= Reach(k - Moves(l, th, rs, false))
            && (l as real < f + 0.3 ==> l <= last && last as real < f + 0.3)
            && (l as real > f - 0.3 ==> last <= l && last as real > f - 0.3)
            && (|rs| > k ==> Distance(last, f) <= 1.3)
    decreases |rs|
  {
    if rs != [] {
      MidTick(l, th, rs[0], f, k);
      var next := Target(th, rs[0], false, l);
      MidRun(next, th, rs[1..], f, if next == l then k else k - 1);
      if next == l { StaysClose(next, th, rs[1..], f); }
    }
  }

  /** A prefix of a settled run is settled, and what follows starts where it ended. */
  lemma {:induction false} SettledSplits(l: int, th: Thresholds, rs: seq<Reading>, f: real, i: nat)
    requires i <= |rs| && Settled(l, th, rs, f)
    ensures Settled(l, th, rs[..i], f)
    ensures Settled(LevelAfter(l, th, rs[..i], false), th, rs[i..], f)
    ensures LevelAfter(LevelAfter(l, th, rs[..i], false), th, rs[i..], false) == LevelAfter(l, th, rs, false)
    ensures Moves(l, th, rs[..i], false) + Moves(LevelAfter(l, th, rs[..i], false), th, rs[i..], false) == Moves(l, th, rs, false)
    decreases |rs|
  {
    if i == 0 {
      assert rs[..0] == [] && rs[0..] == rs;
    } else {
      SettledSplits(Target(th, rs[0], false, l), th, rs[1..], f, i - 1);
      assert rs[..i][1..] == rs[1..][..i - 1] && rs[1..][i - 1..] == rs[i..];
    }
  }

  /** The k-th opening of the slowest descent, and a reading that sends the gate from it to the one before. */
  function SlowOpening(k: nat): int { if k <= 10 then k else if k <= 12 then 10 + 5 * (k - 10) else 20 + 10 * (k - 12) }

  function SlowReading(th: Thresholds, k: nat): Reading {
    Reading(th.min, 0.0, if k == 1 then 1.1 else SlowOpening(k) as real)
  }

  function SlowRun(th: Thresholds, k: nat): seq<Reading> {
    if k == 0 then [] else [SlowReading(th, k)] + SlowRun(th, k - 1)
  }

  /** The bound of 20 is exact: with no inflow a fully open gate can take 20 moves to close. */
  lemma {:induction false} SlowRunMoves(th: Thresholds, k: nat)
    requires Ordered(th) && k <= 20
    ensures Settled(SlowOpening(k), th, SlowRun(th, k), 0.0)
    ensures Moves(SlowOpening(k), th, SlowRun(th, k), false) == k
  {
    if k > 0 {
      SlowRunMoves(th, k - 1);
      assert SlowRun(th, k)[1..] == SlowRun(th, k - 1);
      assert Target(th, SlowReading(th, k), false, SlowOpening(k)) == SlowOpening(k - 1);
    }
  }

  /** The opening after the first i ticks. */
  function OpeningAt(l: int, th: Thresholds, rs: seq<Reading>, i: nat): int
    requires i <= |rs|
  {
    LevelAfter(l, th, rs[..i], false)
  }

  lemma AnyOpeningIsNear(l: int, f: real)
    requires InRange(l) && 0.0 <= f <= MAX_INFLOW
    ensures Distance(l, f) <= Reach(20)
  {
  }

  /** Between any two moments of a settled run the gate only approaches the inflow. */
  lemma Approaches(l: int, th: Thresholds, rs: seq<Reading>, f: real, i: nat, j: nat)
    requires InRange(l) && Ordered(th) && 0.0 <= f <= MAX_INFLOW && Settled(l, th, rs, f) && i <= j <= |rs|
    ensures var (at, later) := (OpeningAt(l, th, rs, i), OpeningAt(l, th, rs, j));
            && InRange(at)
            && (l as real <= f ==> at <= later && later as real < f + 0.3)
            && (l as real >= f ==> later <= at && later as real > f - 0.3)
  {
    AnyOpeningIsNear(l, f);
    SettledSplits(l, th, rs, f, j);
    SettledSplits(l, th, rs[..j], f, i);
    assert rs[..j][..i] == rs[..i];
    var at := OpeningAt(l, th, rs, i);
    MidRun(l, th, rs[..i], f, 20);
    AnyOpeningIsNear(at, f);
    MidRun(at, th, rs[..j][i..], f, 20);
  }

  /** Each tick of a settled run moves the gate by the law's step, uncut by the ends of its range, and a gate that rests
      is within 1.3 of the inflow. */
  lemma EachStep(l: int, th: Thresholds, rs: seq<Reading>, f: real, i: nat)
    requires InRange(l) && Ordered(th) && 0.0 <= f <= MAX_INFLOW && Settled(l, th, rs, f) && i < |rs|
    ensures var at := OpeningAt(l, th, rs, i);
            && OpeningAt(l, th, rs, i + 1) == at + Push(th, rs[i])
            && (Push(th, rs[i]) == 0 ==> Distance(at, f) <= 1.3)
  {
    Approaches(l, th, rs, f, i, i);
    SettledSplits(l, th, rs, f, i);
    var at := OpeningAt(l, th, rs, i);
    AnyOpeningIsNear(at, f);
    assert rs[i..][0] == rs[i];
    MidTick(at, th, rs[i], f, 20);
    StepAt(l, th, rs, i);
  }

  lemma {:induction false} StepAt(l: int, th: Thresholds, rs: seq<Reading>, i: nat)
    requires i < |rs|
    ensures OpeningAt(l, th, rs, i + 1) == Target(th, rs[i], false, OpeningAt(l, th, rs, i))
    decreases i
  {
    var next := Target(th, rs[0], false, l);
    assert rs[..i + 1][1..] == rs[1..][..i];
    assert OpeningAt(l, th, rs, i + 1) == OpeningAt(next, th, rs[1..], i);
    if i == 0 {
      assert rs[1..][..0] == [] == rs[..0];
    } else {
      StepAt(next, th, rs[1..], i - 1);
      assert rs[..i][1..] == rs[1..][..i - 1];
    }
  }

  /** Convergence: from any opening, against any noise within the band, the gate is within 1.3 of the inflow after more
      than 20 ticks and gets at most 20 PUTs in all; it approaches the inflow without turning round and overshoots it by
      less than 0.3; no step is cut by the ends of the range; and wherever it rests it is within 1.3 already. */
  lemma Converges(c: Cell, th: Thresholds, rs: seq<Reading>, f: real)
    requires Clean(c) && Ordered(th) && 0.0 <= f <= MAX_INFLOW && Settled(c.gate.level, th, rs, f)
    ensures var (last, puts) := RunCell(c, th, rs, false);
            && Clean(last) && puts <= 20
            && last.gate.level == OpeningAt(c.gate.level, th, rs, |rs|)
            && (|rs| > 20 ==> Distance(last.gate.level, f) <= 1.3)
    ensures forall i, j | 0 <= i <= j <= |rs| ::
              var (at, later) := (OpeningAt(c.gate.level, th, rs, i), OpeningAt(c.gate.level, th, rs, j));
              && (c.gate.level as real <= f ==> at <= later && later as real < f + 0.3)
              && (c.gate.level as real >= f ==> later <= at && later as real > f - 0.3)
    ensures forall i | 0 <= i < |rs| ::
              var at := OpeningAt(c.gate.level, th, rs, i);
              && OpeningAt(c.gate.level, th, rs, i + 1) == at + Push(th, rs[i])
              && (Push(th, rs[i]) == 0 ==> Distance(at, f) <= 1.3)
  {
    var l := c.gate.level;
    CleanRun(c, th, rs, false);
    AnyOpeningIsNear(l, f);
    MidRun(l, th, rs, f, 20);
    assert rs[..|rs|] == rs;
    forall i, j | 0 <= i <= j <= |rs|
      ensures var (at, later) := (OpeningAt(l, th, rs, i), OpeningAt(l, th, rs, j));
              && (l as real <= f ==> at <= later && later as real < f + 0.3)
              && (l as real >= f ==> later <= at && later as real > f - 0.3)
    {
      Approaches(l, th, rs, f, i, j);
    }
    forall i | 0 <= i < |rs|
      ensures var at := OpeningAt(l, th, rs, i);
              && OpeningAt(l, th, rs, i + 1) == at + Push(th, rs[i])
              && (Push(th, rs[i]) == 0 ==> Distance(at, f) <= 1.3)
    {
      EachStep(l, th, rs, f, i);
    }
  }
}
