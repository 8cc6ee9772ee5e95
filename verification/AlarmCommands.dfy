/** The alarm seen from the registry and the actuator: the protocol of the gate commands, for a value that is on or off. */
module AlarmCommands {
  import opened Wrappers
  import opened AlarmResource
  import opened Commands
  import opened GateResource
  import opened JsonFields

  datatype AlarmCell = AlarmCell(row: Option<int>, alarm: Alarm, active: bool)

  /** A PUT that reaches the alarm. */
  function DeliverAlarm(a: Alarm, on: bool): Alarm { if on == a.on then a else Alarm(on, on, on && a.led) }

  lemma DeliverAlarmIsPut(a: Alarm, on: bool, held: string)
    ensures PutAlarm(a, Json(BoolObject("state", on)), held) == (DeliverAlarm(a, on), Changed)
  {
    StateRequestMeaning(a, "state", on, held);
  }

  /** The same protocol for the alarm; a row of 1 means on. */
  function ExecuteAlarm(c: AlarmCell, on: bool, f: Fault): (AlarmCell, Status) {
    if f == ReadFails || c.row.None? then (c, ReadError)
    else if (c.row.value == 1) == on then (c, Skipped)
    else if f == RequestLost || !c.active then (c, CoapError)
    else
      var c1 := c.(alarm := DeliverAlarm(c.alarm, on));
      if f == ReplyLost then (c1, CoapError)
      else if f == WriteFails then (c1, WriteError)
      else (c1.(row := Some(if on then 1 else 0)), Done)
  }

  const FRESH_ALARM := AlarmCell(None, INIT_ALARM, false)

  predicate Truthful(c: AlarmCell) { c.row == Some(if c.alarm.on then 1 else 0) }

  predicate Healthy(c: AlarmCell) { c.active && Truthful(c) }

  lemma HealthyAlarmObeys(c: AlarmCell, on: bool)
    requires Healthy(c)
    ensures var (next, s) := ExecuteAlarm(c, on, NoFault);
            Completed(s) && Healthy(next) && next.alarm.on == on
  {
  }

  /** A fault-free command brings an active alarm to the state asked for iff its row says the other state or the truth. */
  lemma AlarmReachesIff(c: AlarmCell, on: bool)
    requires c.active && c.row.Some?
    ensures ExecuteAlarm(c, on, NoFault).0.alarm.on == on <==> (c.row.value == 1) != on || c.alarm.on == on
    ensures Completed(ExecuteAlarm(c, on, NoFault).1)
  {
  }

  /** When an alarm command ends without an error, and what its errors tell. */
  lemma AlarmCompletedIff(c: AlarmCell, on: bool, f: Fault)
    ensures var (next, status) := ExecuteAlarm(c, on, f);
            && (Completed(status) <==> f != ReadFails && c.row.Some? && ((c.row.value == 1) == on || (f == NoFault && c.active)))
            && (status == ReadError <==> f == ReadFails || c.row.None?)
            && (status == ReadError || status == Skipped ==> next == c)
            && (status == WriteError <==> f == WriteFails && AlarmCut(c, AlarmCommand(on, f)))
            && (status == WriteError ==> next.row == c.row && next.alarm.on == on)
            && (status == Done ==> next.row == Some(if on then 1 else 0) && next.alarm.on == on)
  {
  }

  /** One lost reply is enough here too: an alarm that was switched on keeps sounding under any number of commands to stop. */
  lemma {:induction false} LostReplyKeepsAlarmOn(n: nat)
    ensures var stuck := AlarmLife([AlarmRegister(true, true), AlarmCommand(true, ReplyLost)]);
            stuck.alarm.on && stuck.row == Some(0) && RepeatOff(stuck, n) == stuck
  {
    var es := [AlarmRegister(true, true), AlarmCommand(true, ReplyLost)];
    assert es[..1] == [AlarmRegister(true, true)] && es[..1][..0] == [];
    var registered := AlarmLife(es[..1]);
    assert AlarmLife([]) == FRESH_ALARM && registered == AlarmStep(FRESH_ALARM, es[0]) == AlarmCell(Some(0), INIT_ALARM, true);
    if n > 0 { LostReplyKeepsAlarmOn(n - 1); }
  }

  function RepeatOff(c: AlarmCell, n: nat): AlarmCell {
    if n == 0 then c else ExecuteAlarm(RepeatOff(c, n - 1), false, NoFault).0
  }

  // The life of one alarm: commands one at a time, reboots, registrations.

  datatype Incident = AlarmCommand(on: bool, f: Fault) | AlarmReboot | AlarmRegister(stored: bool, replied: bool)

  function AlarmStep(c: AlarmCell, e: Incident): AlarmCell {
    match e
    case AlarmCommand(on, f) => ExecuteAlarm(c, on, f).0
    case AlarmReboot => c.(alarm := INIT_ALARM, active := false)
    case AlarmRegister(stored, replied) =>
      if c.active || !stored then c else c.(row := Some(0), active := replied)
  }

  function AlarmLife(es: seq<Incident>): AlarmCell {
    if es == [] then FRESH_ALARM else AlarmStep(AlarmLife(es[..|es| - 1]), es[|es| - 1])
  }

  /** The alarm switched, the row did not. */
  predicate AlarmCut(c: AlarmCell, e: Incident) {
    e.AlarmCommand? && c.active && c.row.Some? && (c.row.value == 1) != e.on && e.f in {ReplyLost, WriteFails}
  }

  predicate AlarmRestored(c: AlarmCell, e: Incident) {
    (e.AlarmCommand? && ExecuteAlarm(c, e.on, e.f).1 == Done) || (e.AlarmRegister? && !c.active && e.stored)
  }

  ghost predicate AlarmInv(c: AlarmCell) {
    (if c.active then c.row.Some? else !c.alarm.on) && (c.row.Some? ==> 0 <= c.row.value <= 1)
  }

  lemma AlarmStepFacts(c: AlarmCell, e: Incident)
    requires AlarmInv(c)
    ensures AlarmInv(AlarmStep(c, e))
    ensures AlarmRestored(c, e) ==> Truthful(AlarmStep(c, e))
    ensures AlarmStep(c, e).row.Some? && !Truthful(AlarmStep(c, e)) ==>
              AlarmCut(c, e) || e == AlarmReboot || (c.row.Some? && !Truthful(c) && !AlarmRestored(c, e))
  {
  }

  lemma {:induction false} AlarmLifeInv(es: seq<Incident>)
    ensures AlarmInv(AlarmLife(es))
  {
    if es != [] {
      AlarmLifeInv(es[..|es| - 1]);
      AlarmStepFacts(AlarmLife(es[..|es| - 1]), es[|es| - 1]);
    }
  }

  ghost predicate AlarmCause(es: seq<Incident>, i: nat)
    requires i < |es|
  {
    es[i] == AlarmReboot || AlarmCut(AlarmLife(es[..i]), es[i])
  }

  ghost predicate AlarmRepair(es: seq<Incident>, i: nat)
    requires i < |es|
  {
    AlarmRestored(AlarmLife(es[..i]), es[i])
  }

  /** In every run the row misstates the alarm only after a command cut once the alarm had switched, or a reboot, with no
      completed command and no stored registration since. */
  lemma {:induction false} AlarmDisagreementHasCause(es: seq<Incident>)
    requires AlarmLife(es).row.Some? && !Truthful(AlarmLife(es))
    ensures exists i | 0 <= i < |es| :: AlarmCause(es, i) && forall j | i < j < |es| :: !AlarmRepair(es, j)
  {
    var n := |es| - 1;
    var init := es[..n];
    AlarmLifeInv(init);
    AlarmStepFacts(AlarmLife(init), es[n]);
    assert forall j | 0 <= j < n :: init[..j] == es[..j] && init[j] == es[j];
    if AlarmCause(es, n) {
    } else {
      AlarmDisagreementHasCause(init);
      var i :| 0 <= i < n && AlarmCause(init, i) && forall j | i < j < n :: !AlarmRepair(init, j);
      assert AlarmCause(es, i);
      forall j | i < j < |es|
        ensures !AlarmRepair(es, j)
      {
        if j < n { assert !AlarmRepair(init, j); }
      }
    }
  }

  /** And such a command or registration makes them agree, in every run. */
  lemma AlarmRepairRestores(es: seq<Incident>, e: Incident)
    requires AlarmRestored(AlarmLife(es), e)
    ensures Truthful(AlarmLife(es + [e]))
  {
    AlarmLifeInv(es);
    AlarmStepFacts(AlarmLife(es), e);
    assert (es + [e])[..|es|] == es;
  }
}
