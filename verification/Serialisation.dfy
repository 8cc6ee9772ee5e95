/** Commands one at a time are whole commands: every serial interleaving is a run of the one-gate life of Commands, with
    the same commands in the same order. */
module Serialisation {
  import opened Wrappers
  import opened Commands
  import opened Interleaving

  /** How far the command in flight has come: sent, taken by the actuator, or taken by one that has rebooted since. */
  datatype Phase = Idle | Sent(id: nat, op: Op) | Taken(id: nat, op: Op) | Forgotten(id: nat, op: Op)

  /** The whole commands, reboots and registrations a serial run amounts to so far. */
  datatype Story = Story(es: seq<Event>, phase: Phase)

  const OPENING := Story([], Idle)

  /** The command in flight ends; a reboot it lived through comes after it. */
  function Close(s: Story, f: Fault): Story
    requires !s.phase.Idle?
  {
    Story(s.es + [Command(s.phase.op, f)] + (if s.phase.Forgotten? then [Reboot] else []), Idle)
  }

  function Fail(s: Story): Story
    requires !s.phase.Idle?
  {
    Close(s, if s.phase.Sent? then RequestLost else ReplyLost)
  }

  /** Moves that take the command in flight further. */
  predicate Continues(m: Move) { m.Arrive? || m.GiveUp? || m.Write? }

  function Told(s: Story, w: World, m: Move): Story
    requires Enabled(w, m) && (Continues(m) ==> !s.phase.Idle?)
  {
    match m
    case Begin(id, op) => s.(phase := Sent(id, op))
    case Arrive(_, fate) =>
      if Acted(w, m).None? then (if fate == SentAgain then s else Fail(s))
      else if fate == ReplyIsLost then Close(s, ReplyLost)
      else s.(phase := Taken(s.phase.id, s.phase.op))
    case GiveUp(_) => Fail(s)
    case Write(_) => Close(s, NoFault)
    case Restart =>
      if s.phase.Idle? || s.phase.Sent? then s.(es := s.es + [Reboot]) else s.(phase := Forgotten(s.phase.id, s.phase.op))
    case Post(replied) => s.(es := s.es + [Register(true, replied)])
  }

  /** The story accounts for the world. */
  ghost predicate Tells(s: Story, w: World) {
    if s.phase.Idle? then w == World(Run(s.es), map[])
    else
      && s.phase.id in w.flights && w.flights.Keys == {s.phase.id}
      && Underway(s.phase, Run(s.es), w.cell, w.flights[s.phase.id])
  }

  /** The gate before the command in flight, and what the command has done to it. */
  ghost predicate Underway(phase: Phase, before: Cell, now: Cell, flight: Flight)
    requires !phase.Idle?
  {
    && before.row.Some? && Wanted(phase.op, before.row.value) == Some(flight.level)
    && (if phase.Sent? then !flight.acked && now == before
        else
          && before.active && InRange(flight.level)
          && now == if phase.Taken? then Deliver(before, flight.level).0 else Step(before, Reboot))
  }

  lemma RunSnoc(es: seq<Event>, e: Event)
    ensures Run(es + [e]) == Step(Run(es), e)
  {
    assert (es + [e])[..|es|] == es;
  }

  /** Ending the command in flight as the events say leaves the gate as the world has it. */
  lemma RunClose(s: Story, f: Fault)
    requires !s.phase.Idle?
    ensures Run(Close(s, f).es)
            == var c := Step(Run(s.es), Command(s.phase.op, f)); if s.phase.Forgotten? then Step(c, Reboot) else c
  {
    var es := s.es + [Command(s.phase.op, f)];
    RunSnoc(s.es, Command(s.phase.op, f));
    RunSnoc(es, Reboot);
    assert es + [] == es;
  }

  lemma ArrivalIsTold(s: Story, w: World, m: Move)
    requires Tells(s, w) && Enabled(w, m) && m.Arrive?
    ensures !s.phase.Idle? && Tells(Told(s, w, m), Next(w, m))
  {
    assert m.id == s.phase.id;
    if Acted(w, m).None? {
      if m.fate != SentAgain {
        RunClose(s, if s.phase.Sent? then RequestLost else ReplyLost);
        assert w.flights - {m.id} == map[];
      }
    } else if m.fate == ReplyIsLost {
      RunClose(s, ReplyLost);
      assert w.flights - {m.id} == map[];
    }
  }

  lemma EndIsTold(s: Story, w: World, m: Move)
    requires Tells(s, w) && Enabled(w, m) && (m.GiveUp? || m.Write?)
    ensures !s.phase.Idle? && Tells(Told(s, w, m), Next(w, m))
  {
    assert m.id == s.phase.id;
    assert w.flights - {m.id} == map[];
    if m.Write? {
      RunClose(s, NoFault);
    } else {
      RunClose(s, if s.phase.Sent? then RequestLost else ReplyLost);
    }
  }

  lemma MoveIsTold(s: Story, w: World, m: Move)
    requires Tells(s, w) && Enabled(w, m) && (m.Begin? || m.Post? ==> w.flights == map[])
    ensures Continues(m) ==> !s.phase.Idle?
    ensures Tells(Told(s, w, m), Next(w, m))
  {
    match m
    case Arrive(_, _) => ArrivalIsTold(s, w, m);
    case GiveUp(_) => EndIsTold(s, w, m);
    case Write(_) => EndIsTold(s, w, m);
    case Begin(_, _) =>
    case Restart => RunSnoc(s.es, Reboot);
    case Post(replied) => RunSnoc(s.es, Register(true, replied));
  }

  /** The story of a serial run, which accounts for the world it ends in. */
  ghost function Retold(s: Story, w: World, ms: seq<Move>): (r: Story)
    requires IsRun(w, ms) && Serial(w, ms) && Tells(s, w)
    ensures Tells(r, After(w, ms))
    decreases |ms|
  {
    if ms == [] then s
    else
      MoveIsTold(s, w, ms[0]);
      Retold(Told(s, w, ms[0]), Next(w, ms[0]), ms[1..])
  }

  function Begun(ms: seq<Move>): seq<Op> {
    if ms == [] then [] else (if ms[0].Begin? then [ms[0].op] else []) + Begun(ms[1..])
  }

  function OpsIn(es: seq<Event>): seq<Op> {
    if es == [] then []
    else
      var e := es[|es| - 1];
      OpsIn(es[..|es| - 1]) + if e.Command? then [e.op] else []
  }

  function OpsOf(s: Story): seq<Op> { OpsIn(s.es) + if s.phase.Idle? then [] else [s.phase.op] }

  lemma OpsInSnoc(es: seq<Event>, e: Event)
    ensures OpsIn(es + [e]) == OpsIn(es) + if e.Command? then [e.op] else []
  {
    assert (es + [e])[..|es|] == es;
  }

  lemma OpsOfClose(s: Story, f: Fault)
    requires !s.phase.Idle?
    ensures OpsOf(Close(s, f)) == OpsOf(s)
  {
    var es := s.es + [Command(s.phase.op, f)];
    OpsInSnoc(s.es, Command(s.phase.op, f));
    OpsInSnoc(es, Reboot);
    assert es + [] == es;
  }

  lemma ToldOps(s: Story, w: World, m: Move)
    requires Enabled(w, m) && (Continues(m) ==> !s.phase.Idle?) && (m.Begin? ==> s.phase.Idle?)
    ensures OpsOf(Told(s, w, m)) == OpsOf(s) + if m.Begin? then [m.op] else []
  {
    if Continues(m) {
      OpsOfClose(s, NoFault);
      OpsOfClose(s, if s.phase.Sent? then RequestLost else ReplyLost);
      OpsOfClose(s, ReplyLost);
    } else if m.Restart? {
      OpsInSnoc(s.es, Reboot);
    } else if m.Post? {
      OpsInSnoc(s.es, Register(true, m.replied));
    }
  }

  lemma {:induction false} RetoldOps(s: Story, w: World, ms: seq<Move>)
    requires IsRun(w, ms) && Serial(w, ms) && Tells(s, w)
    ensures OpsOf(Retold(s, w, ms)) == OpsOf(s) + Begun(ms)
    decreases |ms|
  {
    if ms != [] {
      MoveIsTold(s, w, ms[0]);
      BeginsIdle(s, w, ms[0]);
      var next := Told(s, w, ms[0]);
      ToldOps(s, w, ms[0]);
      RetoldOps(next, Next(w, ms[0]), ms[1..]);
      AppendFirst(OpsOf(s), ms);
    }
  }

  lemma BeginsIdle(s: Story, w: World, m: Move)
    requires Tells(s, w) && (m.Begin? ==> w.flights == map[])
    ensures m.Begin? ==> s.phase.Idle?
  {
  }

  lemma AppendFirst(ops: seq<Op>, ms: seq<Move>)
    requires ms != []
    ensures ops + Begun(ms) == ops + (if ms[0].Begin? then [ms[0].op] else []) + Begun(ms[1..])
  {
  }

  /** A run of whole commands that ends in the cell, with these commands. */
  predicate Serialises(es: seq<Event>, end: Cell, ops: seq<Op>) { Run(es) == end && OpsIn(es) == ops }

  lemma QuietStory(s: Story, w: World, ops: seq<Op>)
    requires Tells(s, w) && w.flights == map[] && OpsOf(s) == [] + ops
    ensures exists es :: Serialises(es, w.cell, ops)
  {
    assert OpsIn(s.es) == OpsOf(s) == ops;
    assert Serialises(s.es, w.cell, ops);
  }

  /** Every serial interleaving that ends with nothing in flight leaves the gate as some run of whole commands does, the
      same commands in the same order: what is proved of those runs holds of it. */
  lemma SerialRunsAreCommandRuns(ms: seq<Move>)
    requires IsRun(QUIET, ms) && Serial(QUIET, ms) && After(QUIET, ms).flights == map[]
    ensures exists es :: Serialises(es, After(QUIET, ms).cell, Begun(ms))
  {
    RetoldOps(OPENING, QUIET, ms);
    QuietStory(Retold(OPENING, QUIET, ms), After(QUIET, ms), Begun(ms));
  }
}
