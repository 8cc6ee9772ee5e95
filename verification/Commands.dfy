/** One gate seen from both ends: the registry row the controller reads and the actuator it drives
    (ControlLogic, CoapManager, DataManager, and the registration of mote-1). */
module Commands {
  import opened Wrappers
  import opened NumberText
  import opened GateResource

  const FULL_OPEN := 100
  const FULL_CLOSE := 0

  /** The row is the cached value, if the resource is registered; an actuator answers only once it is active. */
  datatype Cell = Cell(row: Option<int>, gate: Gate, active: bool)

  const FRESH := Cell(None, INIT_GATE, false)

  datatype Op = Set(target: JavaInt) | Increase(step: JavaInt) | Decrease(step: JavaInt)

  /** Where the environment cuts a command. */
  datatype Fault = NoFault | ReadFails | RequestLost | ReplyLost | WriteFails

  datatype Status = Done | Skipped | ReadError | CoapError | WriteError

  predicate Completed(s: Status) { s == Done || s == Skipped }

  function Min(a: int, b: int): int { if a < b then a else b }
  function Max(a: int, b: int): int { if a < b then b else a }

  /** The level a command decides to send, by the cached value alone; None skips the command. */
  function Wanted(op: Op, cached: int): Option<int> {
    match op
    case Set(t) => if cached == t then None else Some(t)
    case Increase(s) => if cached == FULL_OPEN || s <= 0 then None else Some(Min(cached + s, FULL_OPEN))
    case Decrease(s) => if cached == FULL_CLOSE || s <= 0 then None else Some(Max(cached - s, FULL_CLOSE))
  }

  /** A PUT that reaches the mote, and whether its reply is a success; see DeliverIsPut. */
  function Deliver(c: Cell, level: int): (Cell, bool) {
    if !c.active || !InRange(level) then (c, false)
    else (c.(gate := if level == c.gate.level then c.gate else Blinked(level, 0)), true)
  }

  /** Read the row, PUT, write the row: one command under one fault. */
  function Execute(c: Cell, op: Op, f: Fault): (Cell, Status) {
    if f == ReadFails || c.row.None? then (c, ReadError)
    else
      match Wanted(op, c.row.value)
      case None => (c, Skipped)
      case Some(v) => Send(c, v, f)
  }

  /** The part of a command that acts: PUT, then write the row. */
  function Send(c: Cell, v: int, f: Fault): (Cell, Status) {
    if f == RequestLost then (c, CoapError)
    else
      var (c1, accepted) := Deliver(c, v);
      if !accepted || f == ReplyLost then (c1, CoapError)
      else if f == WriteFails then (c1, WriteError)
      else (c1.(row := Some(v)), Done)
  }

  predicate InRange(level: int) { 0 <= level <= 100 }

  predicate Agrees(c: Cell) { c.row == Some(c.gate.level) }

  /** An active actuator with a truthful row: nothing is outstanding. */
  predicate Clean(c: Cell) { c.active && Agrees(c) && InRange(c.gate.level) }

  /** Delivery is what the gate's handler does with the request the controller sends; an inactive resource answers 4.04. */
  lemma DeliverIsPut(c: Cell, level: JavaInt, held: string)
    requires c.active
    ensures var (gate, code) := Put(c.gate, LevelRequest(level), held);
            Deliver(c, level) == (c.(gate := gate), Success(code))
  {
    LevelRequestMeaning(c.gate, level, held);
  }

  // The life of one gate: commands one at a time, reboots, registrations.

  /** Register: the mote posts its rows, with value 0, until a reply says they are stored. */
  datatype Event = Command(op: Op, f: Fault) | Reboot | Register(stored: bool, replied: bool)

  function Step(c: Cell, e: Event): Cell {
    match e
    case Command(op, f) => Execute(c, op, f).0
    case Reboot => c.(gate := INIT_GATE, active := false)
    case Register(stored, replied) =>
      if c.active || !stored then c else c.(row := Some(0), active := replied)
  }

  function Run(es: seq<Event>): Cell {
    if es == [] then FRESH else Step(Run(es[..|es| - 1]), es[|es| - 1])
  }

  /** The actuator took a level that the row did not get. */
  predicate CutAfterActing(c: Cell, e: Event) {
    e.Command? && c.row.Some? && e.f in {ReplyLost, WriteFails}
    && match Wanted(e.op, c.row.value)
       case Some(v) => c.active && InRange(v)
       case None => false
  }

  /** A command that was sent and completed, or a registration that reached the database. */
  predicate Restores(c: Cell, e: Event) {
    (e.Command? && Execute(c, e.op, e.f).1 == Done) || (e.Register? && !c.active && e.stored)
  }

  ghost predicate Inv(c: Cell) { InRange(c.gate.level) && (!c.active ==> c.gate.level == 0) && (c.active ==> c.row.Some?) }

  lemma StepFacts(c: Cell, e: Event)
    requires Inv(c)
    ensures Inv(Step(c, e))
    ensures c.row.Some? && InRange(c.row.value) && Step(c, e).row.Some? ==> InRange(Step(c, e).row.value)
    ensures c.row.None? && Step(c, e).row.Some? ==> InRange(Step(c, e).row.value)
    ensures Restores(c, e) ==> Agrees(Step(c, e))
    ensures CutAfterActing(c, e) ==> Step(c, e).row == c.row && Some(Step(c, e).gate.level) == Wanted(e.op, c.row.value)
    ensures Agrees(c) && !CutAfterActing(c, e) && e != Reboot ==> Agrees(Step(c, e))
    ensures c.row.None? && Step(c, e).row.Some? ==> Restores(c, e)
    ensures c.row.Some? ==> Step(c, e).row.Some?
  {
  }

  lemma {:induction false} RunFacts(es: seq<Event>)
    ensures Inv(Run(es)) && (Run(es).row.Some? ==> InRange(Run(es).row.value))
  {
    if es != [] {
      RunFacts(es[..|es| - 1]);
      StepFacts(Run(es[..|es| - 1]), es[|es| - 1]);
    }
  }

  ghost predicate Cause(es: seq<Event>, i: nat)
    requires i < |es|
  {
    es[i] == Reboot || CutAfterActing(Run(es[..i]), es[i])
  }

  ghost predicate Repair(es: seq<Event>, i: nat)
    requires i < |es|
  {
    Restores(Run(es[..i]), es[i])
  }

  /** In every run, row and actuator differ only after a command cut once the actuator had moved, or a reboot,
      with no completed command and no stored registration since. */
  lemma {:induction false} DisagreementHasCause(es: seq<Event>)
    requires Run(es).row.Some? && !Agrees(Run(es))
    ensures exists i | 0 <= i < |es| :: Cause(es, i) && forall j | i < j < |es| :: !Repair(es, j)
  {
    var n := |es| - 1;
    var init, e := es[..n], es[n];
    RunFacts(init);
    StepFacts(Run(init), e);
    assert forall j | 0 <= j < n :: init[..j] == es[..j] && init[j] == es[j];
    if Cause(es, n) {
    } else {
      assert Run(init).row.Some? && !Agrees(Run(init));
      DisagreementHasCause(init);
      var i :| 0 <= i < n && Cause(init, i) && forall j | i < j < n :: !Repair(init, j);
      assert Cause(es, i);
      forall j | i < j < |es|
        ensures !Repair(es, j)
      {
        if j < n { assert !Repair(init, j); }
      }
    }
  }

  /** Any completed command that was not skipped, and any stored registration, makes row and actuator equal. */
  lemma RepairRestoresAgreement(es: seq<Event>, e: Event)
    requires Restores(Run(es), e)
    ensures Agrees(Run(es + [e]))
  {
    RunFacts(es);
    StepFacts(Run(es), e);
    assert (es + [e])[..|es|] == es;
  }

  // What a stale row does to later commands.

  /** A fault-free command to set an admissible level brings an active actuator there iff the row is truthful
      or names another level: the row decides whether anything is sent. */
  lemma SetReachesTargetIff(c: Cell, target: JavaInt)
    requires c.active && c.row.Some? && InRange(target)
    ensures Execute(c, Set(target), NoFault).0.gate.level == target <==> c.row != Some(target) || Agrees(c)
    ensures Completed(Execute(c, Set(target), NoFault).1)
  {
  }

  /** When a command ends without an error: its row can be read, and either there is nothing to do, by the row or by a step
      that is not positive, or no fault meets the command and the actuator, active, accepts the level. */
  lemma CompletedIff(c: Cell, target: JavaInt, step: JavaInt, f: Fault)
    requires c.row.Some? ==> InRange(c.row.value)
    ensures Completed(Execute(c, Set(target), f).1)
            <==> f != ReadFails && c.row.Some? && (c.row == Some(target) || (f == NoFault && c.active && 0 <= target <= 100))
    ensures Completed(Execute(c, Increase(step), f).1)
            <==> f != ReadFails && c.row.Some? && (c.row == Some(100) || step <= 0 || (f == NoFault && c.active))
    ensures Completed(Execute(c, Decrease(step), f).1)
            <==> f != ReadFails && c.row.Some? && (c.row == Some(0) || step <= 0 || (f == NoFault && c.active))
  {
  }

  /** What an error tells: a read error that nothing was sent, a write error that the actuator has the level and the row
      has not. */
  lemma ErrorMeaning(c: Cell, op: Op, f: Fault)
    ensures var (next, status) := Execute(c, op, f);
            && (status == ReadError <==> f == ReadFails || c.row.None?)
            && (status == ReadError || status == Skipped ==> next == c)
            && (status == WriteError <==> f == WriteFails && CutAfterActing(c, Command(op, f)))
            && (status == WriteError ==> next.row == c.row && Some(next.gate.level) == Wanted(op, c.row.value))
            && (status == Done ==> Some(next.gate.level) == next.row == Wanted(op, c.row.value))
  {
  }

  function Repeat(c: Cell, op: Op, n: nat): Cell {
    if n == 0 then c else Execute(Repeat(c, op, n - 1), op, NoFault).0
  }

  /** One lost reply is enough: an emergency gate that was opened stays open under any number of close commands. */
  lemma {:induction false} LostReplyKeepsGateOpen(n: nat)
    ensures var stuck := Run([Register(true, true), Command(Set(FULL_OPEN), ReplyLost)]);
            stuck.row == Some(FULL_CLOSE) && stuck.gate.level == FULL_OPEN
            && Repeat(stuck, Set(FULL_CLOSE), n) == stuck
  {
    var es := [Register(true, true), Command(Set(FULL_OPEN), ReplyLost)];
    assert es[..1] == [Register(true, true)] && es[..1][..0] == [];
    var registered := Run(es[..1]);
    assert Run([]) == FRESH && registered == Step(FRESH, es[0]) == Cell(Some(0), INIT_GATE, true);
    if n > 0 { LostReplyKeepsGateOpen(n - 1); }
  }
}
