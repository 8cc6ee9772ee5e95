/** ControlLogic and AutomaticControlUnit over the whole dam: the resource table, the motes behind it,
    the thresholds, the mode, and the periodic tick with its aborts. */
module ControlUnit {
  import opened Wrappers
  import opened NumberText
  import opened GateResource
  import opened AlarmCommands
  import opened AlarmResource
  import opened Commands
  import opened ControlLaw

  datatype Mode = Auto | Manual

  predicate NoFaults(fs: seq<Fault>) { forall i | 0 <= i < |fs| :: fs[i] == NoFault }

  /** What the queries of a tick return: a reading is absent when its query fails or has no row, and the lists of alarms
      and of gates can fail as well. */
  datatype Readings = Readings(
    level: Option<real>, recent: bool, inflow: Option<real>, outflow: Option<real>, alarmsListed: bool, gatesListed: bool)

  predicate Distinct(names: seq<string>) { forall i, j | 0 <= i < j < |names| :: names[i] != names[j] }

  class Dam {
    const emergency: set<string> // gates tagged "emergency"
    var minThreshold: real
    var maxThreshold: real
    var safeThreshold: real
    var mode: Mode
    var rows: map<string, int>
    var gates: map<string, Gate>
    var alarms: map<string, Alarm>
    var active: set<string>

    ghost predicate Valid()
      reads this
    {
      Ordered(Levels())
    }

    function Levels(): Thresholds
      reads this
    {
      Thresholds(minThreshold, maxThreshold, safeThreshold)
    }

    function RowOf(name: string): Option<int>
      reads this
    {
      if name in rows then Some(rows[name]) else None
    }

    function View(name: string): Cell
      reads this
    {
      Cell(RowOf(name), if name in gates then gates[name] else INIT_GATE, name in active)
    }

    function AlarmView(name: string): AlarmCell
      reads this
    {
      AlarmCell(RowOf(name), if name in alarms then alarms[name] else INIT_ALARM, name in active)
    }

    constructor (emergency: set<string>, min: real, max: real, safe: real, mode: Mode)
      requires min <= max <= safe
      ensures Valid() && Levels() == Thresholds(min, max, safe) && this.mode == mode && this.emergency == emergency
      ensures forall n :: View(n) == FRESH
    {
      this.emergency := emergency;
      minThreshold, maxThreshold, safeThreshold, this.mode := min, max, safe, mode;
      rows, gates, alarms, active := map[], map[], map[], {};
    }

    // Thresholds and mode: a refused change changes nothing.

    method SetMaxThreshold(x: real) returns (ok: bool)
      requires Valid()
      modifies this`maxThreshold
      ensures Valid() && (ok <==> minThreshold <= x <= safeThreshold)
      ensures maxThreshold == if ok then x else old(maxThreshold)
    {
      if x > safeThreshold || x < minThreshold { return false; }
      maxThreshold := x;
      ok := true;
    }

    method SetMinThreshold(x: real) returns (ok: bool)
      requires Valid()
      modifies this`minThreshold
      ensures Valid() && (ok <==> x <= maxThreshold)
      ensures minThreshold == if ok then x else old(minThreshold)
    {
      if x > maxThreshold || x > safeThreshold { return false; }
      minThreshold := x;
      ok := true;
    }

    method SetSafeThreshold(x: real) returns (ok: bool)
      requires Valid()
      modifies this`safeThreshold
      ensures Valid() && (ok <==> x >= maxThreshold)
      ensures safeThreshold == if ok then x else old(safeThreshold)
    {
      if x < minThreshold || x < maxThreshold { return false; }
      safeThreshold := x;
      ok := true;
    }

    method SwitchMode(wanted: Mode) returns (ok: bool)
      modifies this`mode
      ensures mode == wanted && (ok <==> old(mode) != wanted)
    {
      ok := mode != wanted;
      mode := wanted;
    }

    // Gate commands.

    /** PUT, then the database, then (not modelled) the simulation message. */
    method SendLevel(name: string, level: int, f: Fault) returns (s: Status)
      requires name in rows
      modifies this`rows, this`gates
      ensures (View(name), s) == Send(old(View(name)), level, f)
      ensures forall n | n != name :: View(n) == old(View(n)) && AlarmView(n) == old(AlarmView(n))
    {
      if f == RequestLost { return CoapError; }
      var (c, accepted) := Deliver(View(name), level);
      gates := gates[name := c.gate];
      if !accepted || f == ReplyLost { return CoapError; }
      if f == WriteFails { return WriteError; }
      rows := rows[name := level];
      s := Done;
    }

    method SetGateOpening(name: string, level: JavaInt, f: Fault) returns (s: Status)
      modifies this`rows, this`gates
      ensures (View(name), s) == Execute(old(View(name)), Set(level), f)
      ensures forall n | n != name :: View(n) == old(View(n)) && AlarmView(n) == old(AlarmView(n))
    {
      if f == ReadFails || name !in rows { return ReadError; }
      if rows[name] == level { return Skipped; }
      s := SendLevel(name, level, f);
    }

    method IncreaseGateOpening(name: string, step: JavaInt, f: Fault) returns (s: Status)
      modifies this`rows, this`gates
      ensures (View(name), s) == Execute(old(View(name)), Increase(step), f)
      ensures forall n | n != name :: View(n) == old(View(n)) && AlarmView(n) == old(AlarmView(n))
    {
      if f == ReadFails || name !in rows { return ReadError; }
      if rows[name] == FULL_OPEN || step <= 0 { return Skipped; }
      s := SendLevel(name, Min(rows[name] + step, FULL_OPEN), f);
    }

    method DecreaseGateOpening(name: string, step: JavaInt, f: Fault) returns (s: Status)
      modifies this`rows, this`gates
      ensures (View(name), s) == Execute(old(View(name)), Decrease(step), f)
      ensures forall n | n != name :: View(n) == old(View(n)) && AlarmView(n) == old(AlarmView(n))
    {
      if f == ReadFails || name !in rows { return ReadError; }
      if rows[name] == FULL_CLOSE || step <= 0 { return Skipped; }
      s := SendLevel(name, Max(rows[name] - step, FULL_CLOSE), f);
    }

    /** The shell's gate command: refused in AUTO. */
    method ShellSetLevel(name: string, level: JavaInt, f: Fault) returns (refused: bool, s: Status)
      modifies this`rows, this`gates
      ensures refused <==> mode == Auto
      ensures (View(name), s) == if refused then (old(View(name)), Skipped) else Execute(old(View(name)), Set(level), f)
      ensures forall n | n != name :: View(n) == old(View(n)) && AlarmView(n) == old(AlarmView(n))
    {
      if mode == Auto { return true, Skipped; }
      refused := false;
      s := SetGateOpening(name, level, f);
    }

    // The mote's side: reboot and registration of everything it hosts.

    method RebootMote(hosted: set<string>)
      modifies this`gates, this`alarms, this`active
      ensures forall n :: View(n) == if n in hosted then Step(old(View(n)), Reboot) else old(View(n))
      ensures forall n :: AlarmView(n) == if n in hosted then AlarmStep(old(AlarmView(n)), AlarmReboot) else old(AlarmView(n))
    {
      gates := map n | n in gates :: if n in hosted then INIT_GATE else gates[n];
      alarms := map n | n in alarms :: if n in hosted then INIT_ALARM else alarms[n];
      active := active - hosted;
    }

    /** One post of the registration loop; the loop ends, and the resources are activated, with the first good reply. */
    method PostRegistration(hosted: set<string>, stored: bool, replied: bool)
      requires hosted !! active
      modifies this`rows, this`active
      ensures forall n :: View(n) == if n in hosted then Step(old(View(n)), Register(stored, replied)) else old(View(n))
      ensures forall n :: AlarmView(n) == if n in hosted then AlarmStep(old(AlarmView(n)), AlarmRegister(stored, replied))
                                          else old(AlarmView(n))
      ensures active == if stored && replied then old(active) + hosted else old(active)
    {
      if stored {
        rows := map n | n in rows.Keys + hosted :: if n in hosted then 0 else rows[n];
        if replied { active := active + hosted; }
      }
    }

    /** The whole loop of mote-1 after a boot, one reply per attempt: it ends with the first good reply, and then
        every resource it hosts is active with a truthful row. */
    method RegistrationLoop(hosted: set<string>, attempts: seq<(bool, bool)>) returns (registered: bool)
      requires hosted !! active && forall n | n in hosted :: View(n).gate.level == 0 && !AlarmView(n).alarm.on
      modifies this`rows, this`active
      ensures registered <==> (true, true) in attempts
      ensures registered ==> forall n | n in hosted :: Clean(View(n)) && Healthy(AlarmView(n))
      ensures !registered ==> active == old(active)
      ensures forall n | n !in hosted :: View(n) == old(View(n)) && AlarmView(n) == old(AlarmView(n))
      ensures gates == old(gates)
    {
      registered := false;
      var i := 0;
      while !registered && i < |attempts|
        invariant i <= |attempts| && gates == old(gates)
        invariant registered <==> (true, true) in attempts[..i]
        invariant registered ==> forall n | n in hosted :: Clean(View(n)) && Healthy(AlarmView(n))
        invariant !registered ==> active == old(active)
        invariant forall n | n !in hosted :: View(n) == old(View(n)) && AlarmView(n) == old(AlarmView(n))
      {
        var (stored, replied) := attempts[i];
        PostRegistration(hosted, stored, replied);
        registered := stored && replied;
        i := i + 1;
      }
    }

    // The tick.

    method SetAlarm(name: string, on: bool, f: Fault) returns (s: Status)
      modifies this`rows, this`alarms
      ensures (AlarmView(name), s) == ExecuteAlarm(old(AlarmView(name)), on, f)
      ensures forall n | n != name :: View(n) == old(View(n)) && AlarmView(n) == old(AlarmView(n))
    {
      if f == ReadFails || name !in rows { return ReadError; }
      var currentStatus := rows[name] == 1;
      if currentStatus == on { return Skipped; }
      if f == RequestLost || name !in active { return CoapError; }
      alarms := alarms[name := DeliverAlarm(AlarmView(name).alarm, on)];
      if f == ReplyLost { return CoapError; }
      if f == WriteFails { return WriteError; }
      rows := rows[name := if on then 1 else 0];
      s := Done;
    }

    /** The first done alarms completed their command, the next one, if any, failed, and those after it got none. */
    twostate predicate AlarmsInTurn(names: seq<string>, on: bool, faults: seq<Fault>, done: nat)
      requires |faults| == |names| && done <= |names|
      reads this
    {
      && (forall i | 0 <= i < done ::
            var (c, s) := ExecuteAlarm(old(AlarmView(names[i])), on, faults[i]);
            AlarmView(names[i]) == c && Completed(s))
      && (done < |names| ==>
            var (c, s) := ExecuteAlarm(old(AlarmView(names[done])), on, faults[done]);
            AlarmView(names[done]) == c && !Completed(s))
      && (forall i | done < i < |names| :: AlarmView(names[i]) == old(AlarmView(names[i])))
    }

    /** setAlarmStatus: the alarms in turn, up to the first error. */
    method SetAlarmStatus(names: seq<string>, on: bool, faults: seq<Fault>) returns (done: nat)
      requires |faults| == |names| && Distinct(names)
      modifies this`rows, this`alarms
      ensures done <= |names| && AlarmsInTurn(names, on, faults, done)
      ensures forall n | n !in names :: View(n) == old(View(n)) && AlarmView(n) == old(AlarmView(n))
    {
      done := 0;
      while done < |names|
        invariant done <= |names|
        invariant forall i | 0 <= i < done :: AlarmView(names[i]) == ExecuteAlarm(old(AlarmView(names[i])), on, faults[i]).0
                                              && Completed(ExecuteAlarm(old(AlarmView(names[i])), on, faults[i]).1)
        invariant forall i | done <= i < |names| :: AlarmView(names[i]) == old(AlarmView(names[i]))
        invariant forall n | n !in names :: AlarmView(n) == old(AlarmView(n))
      {
        label before:
        assert forall i | 0 <= i < |names| && i != done :: names[i] != names[done];
        var s := SetAlarm(names[done], on, faults[done]);
        assert forall i | 0 <= i < |names| && i != done :: AlarmView(names[i]) == old@before(AlarmView(names[i]));
        if !Completed(s) { break; }
        done := done + 1;
      }
    }

    /** One gate of the tick's loops. */
    method Apply(name: string, r: Reading, f: Fault) returns (s: Status)
      modifies this`rows, this`gates
      ensures (View(name), s) == TickCell(old(View(name)), Levels(), r, name in emergency, f)
      ensures forall n | n != name :: View(n) == old(View(n)) && AlarmView(n) == old(AlarmView(n))
    {
      if r.level > safeThreshold {
        s := SetGateOpening(name, FULL_OPEN, f);
      } else if name in emergency {
        s := SetGateOpening(name, FULL_CLOSE, f);
      } else if r.level > maxThreshold {
        s := IncreaseGateOpening(name, if r.inflow > r.outflow then LONG_STEP else STEP, f);
      } else if r.level < minThreshold {
        s := DecreaseGateOpening(name, if r.inflow < r.outflow then LONG_STEP else STEP, f);
      } else {
        var step := if Abs(r.outflow - r.inflow) > 20.0 then LONG_STEP
                    else if Abs(r.outflow - r.inflow) > 10.0 then STEP else SHORT_STEP;
        if r.outflow < r.inflow - 1.0 {
          s := IncreaseGateOpening(name, step, f);
        } else if r.outflow > r.inflow + 1.0 {
          s := DecreaseGateOpening(name, step, f);
        } else {
          s := Skipped;
        }
      }
    }

    /** The first done gates completed their command, the next one, if any, failed, and those after it got none. */
    twostate predicate GatesInTurn(names: seq<string>, r: Reading, faults: seq<Fault>, done: nat)
      requires |faults| == |names| && done <= |names|
      reads this
    {
      && (forall i | 0 <= i < done ::
            var (c, s) := TickCell(old(View(names[i])), Levels(), r, names[i] in emergency, faults[i]);
            View(names[i]) == c && Completed(s))
      && (done < |names| ==>
            var (c, s) := TickCell(old(View(names[done])), Levels(), r, names[done] in emergency, faults[done]);
            View(names[done]) == c && !Completed(s))
      && (forall i | done < i < |names| :: View(names[i]) == old(View(names[i])))
    }

    /** The gate loop of a tick, up to the first error. */
    method ApplyInTurn(names: seq<string>, r: Reading, faults: seq<Fault>) returns (done: nat)
      requires |faults| == |names| && Distinct(names)
      modifies this`rows, this`gates
      ensures done <= |names| && GatesInTurn(names, r, faults, done)
      ensures forall n | n !in names :: View(n) == old(View(n)) && AlarmView(n) == old(AlarmView(n))
    {
      done := 0;
      while done < |names|
        invariant done <= |names|
        invariant forall i | 0 <= i < done ::
                    View(names[i]) == TickCell(old(View(names[i])), Levels(), r, names[i] in emergency, faults[i]).0
                    && Completed(TickCell(old(View(names[i])), Levels(), r, names[i] in emergency, faults[i]).1)
        invariant forall i | done <= i < |names| :: View(names[i]) == old(View(names[i]))
        invariant forall n | n !in names :: View(n) == old(View(n))
      {
        label before:
        assert forall i | 0 <= i < |names| && i != done :: names[i] != names[done];
        var s := Apply(names[done], r, faults[done]);
        assert forall i | 0 <= i < |names| && i != done :: View(names[i]) == old@before(View(names[i]));
        if !Completed(s) { break; }
        done := done + 1;
      }
    }

    /** What the loop does to clean gates: a fault at one that is to move ends it there, and without faults every gate ends
        up at the opening the law wants; in the middle zone the primary gates follow the flows. */
    method ApplyAll(names: seq<string>, r: Reading, faults: seq<Fault>) returns (done: nat)
      requires Valid() && |faults| == |names| && Distinct(names)
      modifies this`rows, this`gates
      ensures done <= |names| && GatesInTurn(names, r, faults, done)
      ensures forall i | 0 <= i < |names| && faults[i] != NoFault && old(Clean(View(names[i]))) ::
                Target(Levels(), r, names[i] in emergency, old(View(names[i]).gate.level)) != old(View(names[i]).gate.level) ==> done <= i
      ensures NoFaults(faults) && (forall i | 0 <= i < |names| :: old(Clean(View(names[i])))) ==>
                done == |names| && forall i | 0 <= i < |names| :: GateObeys(names[i], r)
      ensures forall n | n !in names :: View(n) == old(View(n)) && AlarmView(n) == old(AlarmView(n))
    {
      done := ApplyInTurn(names, r, faults);
      forall i | 0 <= i < done && faults[i] != NoFault && old(Clean(View(names[i])))
        ensures Target(Levels(), r, names[i] in emergency, old(View(names[i]).gate.level)) == old(View(names[i]).gate.level)
      {
        FaultedTick(old(View(names[i])), Levels(), r, names[i] in emergency, faults[i]);
      }
      if NoFaults(faults) && forall i | 0 <= i < |names| :: old(Clean(View(names[i]))) {
        if done < |names| {
          CleanTick(old(View(names[done])), Levels(), r, names[done] in emergency);
          assert false;
        }
        forall i | 0 <= i < |names|
          ensures GateObeys(names[i], r)
        {
          CleanTick(old(View(names[i])), Levels(), r, names[i] in emergency);
          LawFollowsFlows(Levels(), r, old(View(names[i]).gate.level));
        }
      }
    }

    /** The gate is clean, stands where the law wants it, and follows the flows if it is a primary gate in the middle zone. */
    twostate predicate GateObeys(name: string, r: Reading)
      reads this
    {
      var before, after := old(View(name).gate.level), View(name).gate.level;
      && Clean(View(name)) && after == Target(Levels(), r, name in emergency, before)
      && (name !in emergency ==> FollowsFlows(Levels(), r.level, r.inflow, r.outflow, before, after))
    }

    /** AutomaticControlUnit.run. The two counts say how many alarms and gates the tick completed. */
    method Tick(rd: Readings, alarmNames: seq<string>, gateNames: seq<string>, alarmFaults: seq<Fault>, gateFaults: seq<Fault>)
      returns (alarmsDone: nat, gatesDone: nat)
      requires Valid() && |alarmFaults| == |alarmNames| && |gateFaults| == |gateNames|
      requires Distinct(alarmNames + gateNames)
      modifies this`rows, this`gates, this`alarms
      ensures Valid() && alarmsDone <= |alarmNames| && gatesDone <= |gateNames|
      // without fresh data, or without the list of alarms, nothing happens
      ensures rd.level.None? || !rd.recent || rd.inflow.None? || rd.outflow.None? || !rd.alarmsListed ==>
                rows == old(rows) && gates == old(gates) && alarms == old(alarms) && alarmsDone == gatesDone == 0
      ensures rd.level.Some? && rd.recent && rd.inflow.Some? && rd.outflow.Some? && rd.alarmsListed ==>
                // the alarms follow the safe threshold, up to the first error
                && AlarmsInTurn(alarmNames, rd.level.value > safeThreshold, alarmFaults, alarmsDone)
                // no gate changes in MANUAL mode, after an alarm error, or without the list of gates
                && (mode == Manual || !rd.gatesListed || alarmsDone < |alarmNames| ==>
                      gatesDone == 0 && forall i | 0 <= i < |gateNames| :: View(gateNames[i]) == old(View(gateNames[i])))
                // otherwise the gates get their commands, up to the first error
                && (mode == Auto && rd.gatesListed && alarmsDone == |alarmNames| ==>
                      GatesInTurn(gateNames, Reading(level := rd.level.value, inflow := rd.inflow.value, outflow := rd.outflow.value),
                                  gateFaults, gatesDone))
      // without faults, healthy alarms end up telling whether the level is above safe
      ensures rd.level.Some? && rd.recent && rd.inflow.Some? && rd.outflow.Some? && rd.alarmsListed && NoFaults(alarmFaults)
              && (forall i | 0 <= i < |alarmNames| :: old(Healthy(AlarmView(alarmNames[i])))) ==>
                alarmsDone == |alarmNames|
                && forall i | 0 <= i < |alarmNames| ::
                     Healthy(AlarmView(alarmNames[i])) && AlarmView(alarmNames[i]).alarm.on == (rd.level.value > safeThreshold)
      // and clean gates obey the law, read on the level and the two flows
      ensures rd.level.Some? && rd.recent && rd.inflow.Some? && rd.outflow.Some? && rd.alarmsListed
              && mode == Auto && rd.gatesListed && alarmsDone == |alarmNames| && NoFaults(gateFaults)
              && (forall i | 0 <= i < |gateNames| :: old(Clean(View(gateNames[i])))) ==>
                gatesDone == |gateNames|
                && forall i | 0 <= i < |gateNames| ::
                     && GateObeys(gateNames[i], Reading(level := rd.level.value, inflow := rd.inflow.value, outflow := rd.outflow.value))
                     && (gateNames[i] !in emergency ==>
                           FollowsFlows(Levels(), rd.level.value, rd.inflow.value, rd.outflow.value,
                                        old(View(gateNames[i]).gate.level), View(gateNames[i]).gate.level))
    {
      alarmsDone, gatesDone := 0, 0;
      if rd.level.None? || !rd.recent || rd.inflow.None? || rd.outflow.None? || !rd.alarmsListed { return; }
      var r := Reading(rd.level.value, rd.inflow.value, rd.outflow.value);
      NamesApart(alarmNames, gateNames);
      alarmsDone := SetAlarmStatus(alarmNames, r.level > safeThreshold, alarmFaults);
      forall i | 0 <= i < |alarmNames| && old(Healthy(AlarmView(alarmNames[i])))
        ensures var (c, s) := ExecuteAlarm(old(AlarmView(alarmNames[i])), r.level > safeThreshold, NoFault);
                Completed(s) && Healthy(c) && c.alarm.on == (r.level > safeThreshold)
      {
        HealthyAlarmObeys(old(AlarmView(alarmNames[i])), r.level > safeThreshold);
      }
      if alarmsDone < |alarmNames| || mode == Manual || !rd.gatesListed { return; }
      label gatesNext:
      gatesDone := ApplyAll(gateNames, r, gateFaults);
      assert forall i | 0 <= i < |gateNames| :: old@gatesNext(View(gateNames[i])) == old(View(gateNames[i]));
    }
  }

  lemma NamesApart(a: seq<string>, b: seq<string>)
    requires Distinct(a + b)
    ensures Distinct(a) && Distinct(b) && forall n | n in b :: n !in a
  {
    assert forall i | 0 <= i < |a| :: (a + b)[i] == a[i];
    assert forall i | 0 <= i < |b| :: (a + b)[|a| + i] == b[i];
  }
}
