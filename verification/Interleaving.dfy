/** The commands of the shell and of the control unit on one gate, cut into their steps and interleaved at will:
    stale reads, lost and repeated requests, lost replies, failed writes, reboots and registrations in between. */
module Interleaving {
  import opened Wrappers
  import opened GateResource
  import opened Commands

  /** A command under way: its level, and whether a success reply has come back. */
  datatype Flight = Flight(level: int, acked: bool)

  datatype World = World(cell: Cell, flights: map<nat, Flight>)

  /** What becomes of the reply to a delivered request; a request that may be sent again stays in flight. */
  datatype Fate = ReplyArrives | ReplyIsLost | SentAgain

  datatype Move =
    | Begin(id: nat, op: Op)       // read the row, decide the level
    | Arrive(id: nat, fate: Fate)  // the request reaches the mote
    | GiveUp(id: nat)              // request lost, timeout, or failed write
    | Write(id: nat)               // the acknowledged level goes to the row
    | Restart
    | Post(replied: bool)          // a registration reaches the database

  predicate Enabled(w: World, m: Move) {
    match m
    case Begin(id, op) => id !in w.flights && w.cell.row.Some? && Wanted(op, w.cell.row.value).Some?
    case Arrive(id, _) => id in w.flights && !w.flights[id].acked
    case GiveUp(id) => id in w.flights
    case Write(id) => id in w.flights && w.flights[id].acked
    case Restart => true
    case Post(_) => !w.cell.active
  }

  function Next(w: World, m: Move): World
    requires Enabled(w, m)
  {
    match m
    case Begin(id, op) => w.(flights := w.flights[id := Flight(Wanted(op, w.cell.row.value).value, false)])
    case Arrive(id, fate) =>
      var (c, accepted) := Deliver(w.cell, w.flights[id].level);
      if fate == SentAgain then w.(cell := c)
      else if accepted && fate == ReplyArrives then World(c, w.flights[id := Flight(w.flights[id].level, true)])
      else World(c, w.flights - {id})
    case GiveUp(id) => w.(flights := w.flights - {id})
    case Write(id) =>
      World(if w.cell.row.Some? then w.cell.(row := Some(w.flights[id].level)) else w.cell, w.flights - {id})
    case Restart => w.(cell := w.cell.(gate := INIT_GATE, active := false))
    case Post(replied) => w.(cell := w.cell.(row := Some(0), active := replied))
  }

  const QUIET := World(FRESH, map[])

  predicate IsRun(w: World, ms: seq<Move>)
    decreases |ms|
  {
    ms == [] || (Enabled(w, ms[0]) && IsRun(Next(w, ms[0]), ms[1..]))
  }

  function After(w: World, ms: seq<Move>): World
    requires IsRun(w, ms)
    decreases |ms|
  {
    if ms == [] then w else After(Next(w, ms[0]), ms[1..])
  }

  /** Rows, actuators and acknowledged commands stay in range; commands that are only sent may ask for anything. */
  ghost predicate Safe(w: World) {
    && InRange(w.cell.gate.level)
    && (w.cell.row.Some? ==> InRange(w.cell.row.value))
    && forall id | id in w.flights && w.flights[id].acked :: InRange(w.flights[id].level)
  }

  /** Every cached and every actual level of every interleaving is between 0 and 100, whatever levels the shell asks for. */
  lemma {:induction false} RangeSafety(w: World, ms: seq<Move>)
    requires Safe(w) && IsRun(w, ms)
    ensures Safe(After(w, ms))
    decreases |ms|
  {
    if ms != [] { RangeSafety(Next(w, ms[0]), ms[1..]); }
  }

  // When row and actuator agree.

  /** The level a move gives the actuator, if it gives one: an accepted request its own, a reboot 0. */
  function Acted(w: World, m: Move): Option<int>
    requires Enabled(w, m)
  {
    match m
    case Arrive(id, _) => if w.cell.active && InRange(w.flights[id].level) then Some(w.flights[id].level) else None
    case Restart => Some(0)
    case _ => None
  }

  /** The value a move gives the row: a write its level, a registration 0. */
  function Cached(w: World, m: Move): Option<int>
    requires Enabled(w, m)
  {
    match m
    case Write(id) => if w.cell.row.Some? then Some(w.flights[id].level) else None
    case Post(_) => Some(0)
    case _ => None
  }

  function LastActed(w: World, ms: seq<Move>): Option<int>
    requires IsRun(w, ms)
    decreases |ms|
  {
    if ms == [] then None
    else LastActed(Next(w, ms[0]), ms[1..]).Or(Acted(w, ms[0]))
  }

  function LastCached(w: World, ms: seq<Move>): Option<int>
    requires IsRun(w, ms)
    decreases |ms|
  {
    if ms == [] then None
    else LastCached(Next(w, ms[0]), ms[1..]).Or(Cached(w, ms[0]))
  }

  /** The actuator ends at the level of the last request it accepted (0 after a later reboot), the row at the value of the
      last write or registration, whatever else the run contains. So row and actuator end up equal iff those two levels
      are the same. */
  lemma {:induction false} AgreesIffLastLevelsMeet(w: World, ms: seq<Move>)
    requires IsRun(w, ms)
    ensures Some(After(w, ms).cell.gate.level) == LastActed(w, ms).Or(Some(w.cell.gate.level))
    ensures After(w, ms).cell.row == LastCached(w, ms).Or(w.cell.row)
    ensures Agrees(After(w, ms).cell)
            <==> LastActed(w, ms).Or(Some(w.cell.gate.level)) == LastCached(w, ms).Or(w.cell.row)
    decreases |ms|
  {
    if ms != [] { AgreesIffLastLevelsMeet(Next(w, ms[0]), ms[1..]); }
  }

  /** Commands and registrations one at a time: each begins only when nothing is in flight. */
  predicate Serial(w: World, ms: seq<Move>)
    requires IsRun(w, ms)
    decreases |ms|
  {
    ms == [] || ((ms[0].Begin? || ms[0].Post? ==> w.flights == map[]) && Serial(Next(w, ms[0]), ms[1..]))
  }

  /** No command is given up and no reply is lost. Requests may be repeated, and the mote may reboot at any time. */
  predicate Completing(ms: seq<Move>) {
    forall i | 0 <= i < |ms| :: !ms[i].GiveUp? && (ms[i].Arrive? ==> ms[i].fate != ReplyIsLost)
  }

  /** At most one command is in flight, and it is why an active actuator may differ from its row. */
  ghost predicate Orderly(w: World) {
    && (forall a, b | a in w.flights && b in w.flights :: a == b)
    && InRange(w.cell.gate.level) && (if w.cell.active then w.cell.row.Some? else w.cell.gate.level == 0)
    && (w.cell.active && !Agrees(w.cell) ==> exists id :: id in w.flights && w.flights[id].level == w.cell.gate.level)
    && (forall id | id in w.flights && w.flights[id].acked :: w.cell.active ==> w.flights[id].level == w.cell.gate.level)
  }

  lemma MoveKeepsOrder(w: World, m: Move)
    requires Orderly(w) && Enabled(w, m)
    requires m.Begin? || m.Post? ==> w.flights == map[]
    requires !m.GiveUp? && (m.Arrive? ==> m.fate != ReplyIsLost)
    ensures Orderly(Next(w, m))
  {
    if m.Arrive? || m.Write? {
      var next := Next(w, m);
      assert forall id | id in w.flights :: id == m.id;
      if m.id in next.flights { assert next.flights[m.id].level == w.flights[m.id].level; }
    }
  }

  /** One at a time is enough: with no reply lost and no command given up, row and actuator of an active resource agree
      whenever nothing is in flight, however often requests were repeated and the mote rebooted. */
  lemma {:induction false} SerialRunsAgree(w: World, ms: seq<Move>)
    requires Orderly(w) && IsRun(w, ms) && Serial(w, ms) && Completing(ms)
    ensures Orderly(After(w, ms))
    ensures After(w, ms).flights == map[] && After(w, ms).cell.active ==> Agrees(After(w, ms).cell)
    decreases |ms|
  {
    if ms != [] {
      MoveKeepsOrder(w, ms[0]);
      assert forall i | 0 <= i < |ms| - 1 :: ms[1..][i] == ms[i + 1];
      SerialRunsAgree(Next(w, ms[0]), ms[1..]);
    }
  }

  predicate Faultless(ms: seq<Move>) {
    forall i | 0 <= i < |ms| :: !ms[i].GiveUp? && !ms[i].Restart? && (ms[i].Arrive? ==> ms[i].fate == ReplyArrives)
  }

  lemma {:induction false} AfterAppend(w: World, ms: seq<Move>, more: seq<Move>)
    requires IsRun(w, ms) && IsRun(After(w, ms), more)
    ensures IsRun(w, ms + more) && After(w, ms + more) == After(After(w, ms), more)
    decreases |ms|
  {
    if ms == [] {
      assert [] + more == more;
    } else {
      assert (ms + more)[1..] == ms[1..] + more;
      AfterAppend(Next(w, ms[0]), ms[1..], more);
    }
  }

  lemma OneMove(w: World, m: Move)
    requires Enabled(w, m)
    ensures IsRun(w, [m]) && After(w, [m]) == Next(w, m)
  {
    assert [m][1..] == [];
  }

  /** Two commands that both read row 0, act in one order and write in the other. */
  function Race(): (ms: seq<Move>)
    ensures |ms| == 7
  {
    [Post(true), Begin(1, Set(10)), Begin(2, Set(20)), Arrive(1, ReplyArrives), Arrive(2, ReplyArrives), Write(2), Write(1)]
  }

  lemma {:induction false} RaceReaches(i: nat)
    requires i <= 7
    ensures IsRun(QUIET, Race()[..i]) && After(QUIET, Race()[..i]) == RaceWorlds()[i]
  {
    if i > 0 {
      RaceReaches(i - 1);
      RaceStep(i - 1);
      OneMove(RaceWorlds()[i - 1], Race()[i - 1]);
      AfterAppend(QUIET, Race()[..i - 1], [Race()[i - 1]]);
      assert Race()[..i] == Race()[..i - 1] + [Race()[i - 1]];
    }
  }

  /** Agreement needs commands one at a time: two that overlap can leave row 10 and actuator 20 with no fault at all. */
  lemma RaceBreaksAgreement()
    ensures IsRun(QUIET, Race()) && Faultless(Race())
    ensures var w := After(QUIET, Race());
            w.flights == map[] && w.cell.active && w.cell.row == Some(10) && w.cell.gate.level == 20
  {
    RaceReaches(7);
    assert Race()[..7] == Race();
  }

  function RaceWorlds(): (ws: seq<World>)
    ensures |ws| == 8
  {
    var at0, at10, at20 := Cell(Some(0), INIT_GATE, true), Cell(Some(0), Blinked(10, 0), true), Cell(Some(0), Blinked(20, 0), true);
    [QUIET, World(at0, map[]), World(at0, map[1 := Flight(10, false)]),
     World(at0, map[1 := Flight(10, false), 2 := Flight(20, false)]),
     World(at10, map[1 := Flight(10, true), 2 := Flight(20, false)]),
     World(at20, map[1 := Flight(10, true), 2 := Flight(20, true)]),
     World(at20.(row := Some(20)), map[1 := Flight(10, true)]),
     World(at20.(row := Some(10)), map[])]
  }

  lemma RaceStep(i: nat)
    requires i < 7
    ensures Enabled(RaceWorlds()[i], Race()[i]) && Next(RaceWorlds()[i], Race()[i]) == RaceWorlds()[i + 1]
  {
  }
}
