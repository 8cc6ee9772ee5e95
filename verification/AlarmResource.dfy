/** Motes/lib/resources/res-alarm.c: the alarm state, its timer and its light. */
module AlarmResource {
  import opened Wrappers
  import opened JsonFields
  import opened GateResource

  const STATE_PAR := "state"

  datatype Alarm = Alarm(on: bool, timer: bool, led: bool)

  const INIT_ALARM := Alarm(false, false, false)

  /** The state a request asks for; in text form any prefix of the two words will do. */
  function AskedState(r: Request, held: string): Option<bool> {
    match r
    case TextPlain(Some(text)) =>
      if text == "" then None
      else if text <= "true" then Some(true)
      else if text <= "false" then Some(false)
      else None
    case Json(body) =>
      (match BoolField(body, STATE_PAR, held)
       case FoundBool(b) => Some(b)
       case _ => None)
    case _ => None
  }

  function PutAlarm(a: Alarm, r: Request, held: string): (Alarm, Code) {
    match AskedState(r, held)
    case None => (a, BadRequest)
    case Some(b) => (if b == a.on then a else Alarm(b, b, b && a.led), Changed)
  }

  /** The timer runs iff the alarm is on; the light is off whenever the alarm is. */
  predicate SoundAlarm(a: Alarm) { a.timer == a.on && (!a.on ==> !a.led) }

  datatype AlarmEvent = AlarmPut(r: Request, held: string) | AlarmFires

  function RunAlarm(a: Alarm, es: seq<AlarmEvent>): Option<Alarm>
    decreases |es|
  {
    if es == [] then Some(a)
    else
      match es[0]
      case AlarmPut(r, held) => RunAlarm(PutAlarm(a, r, held).0, es[1..])
      case AlarmFires => if a.timer then RunAlarm(a.(led := !a.led), es[1..]) else None
  }

  /** Over any mix of requests and callbacks the timer is active iff the alarm is on. */
  lemma {:induction false} TimerFollowsAlarm(a: Alarm, es: seq<AlarmEvent>)
    requires SoundAlarm(a) && RunAlarm(a, es).Some?
    ensures SoundAlarm(RunAlarm(a, es).value)
    decreases |es|
  {
    if es != [] {
      match es[0]
      case AlarmPut(r, held) => TimerFollowsAlarm(PutAlarm(a, r, held).0, es[1..]);
      case AlarmFires => TimerFollowsAlarm(a.(led := !a.led), es[1..]);
    }
  }

  /** The request CoapManager.setAlarmStatus sends is always taken; under any other name it is refused. */
  lemma StateRequestMeaning(a: Alarm, name: string, on: bool, held: string)
    requires |name| < JSON_BUFFER
    ensures var (next, code) := PutAlarm(a, Json(BoolObject(name, on)), held);
            if name == "state" then
              code == Changed && next.on == on && (on == a.on ==> next == a) && (on != a.on ==> next == Alarm(on, on, on && a.led))
            else code == BadRequest && next == a
  {
    BoolObjectRoundTrip(name, STATE_PAR, on, held);
  }

  /** In text form any beginning of "true" or of "false" is taken for the word, and nothing else is; a request in another
      form, or with another field, is refused. */
  lemma TextStateMeaning(a: Alarm, text: string, on: bool, held: string)
    ensures AskedState(TextPlain(Some(text)), held) == Some(on)
            <==> text in (if on then {"t", "tr", "tru", "true"} else {"f", "fa", "fal", "fals", "false"})
    ensures AskedState(TextPlain(Some(text)), held).None? ==> PutAlarm(a, TextPlain(Some(text)), held) == (a, BadRequest)
    ensures PutAlarm(a, NoContentType, held) == PutAlarm(a, Unsupported, held) == PutAlarm(a, TextPlain(None), held) == (a, BadRequest)
  {
    PrefixesOf(text);
  }

  lemma PrefixesOf(text: string)
    ensures text <= "true" <==> text in {"", "t", "tr", "tru", "true"}
    ensures text <= "false" <==> text in {"", "f", "fa", "fal", "fals", "false"}
  {
    assert "true"[..0] == "" && "true"[..1] == "t" && "true"[..2] == "tr" && "true"[..3] == "tru" && "true"[..4] == "true";
    assert "false"[..0] == "" && "false"[..1] == "f" && "false"[..2] == "fa" && "false"[..3] == "fal" && "false"[..4] == "fals"
        && "false"[..5] == "false";
    if text <= "true" { assert text == "true"[..|text|]; }
    if text <= "false" { assert text == "false"[..|text|]; }
  }

  class AlarmMote {
    var state: bool
    var timer: bool
    var led: bool

    function View(): Alarm
      reads this
    {
      Alarm(state, timer, led)
    }

    constructor ()
      ensures View() == INIT_ALARM && SoundAlarm(View())
    {
      state, timer, led := false, false, false;
    }

    method PutHandler(r: Request, held: string) returns (code: Code)
      requires SoundAlarm(View())
      modifies this
      ensures (View(), code) == PutAlarm(old(View()), r, held)
      ensures SoundAlarm(View())
    {
      var newState, paramLen, paramOk := false, 0, 0;
      match r {
        case NoContentType => return BadRequest;
        case Unsupported => return BadRequest;
        case TextPlain(variable) =>
          if variable.Some? && |variable.value| > 0 {
            paramLen := |variable.value|;
            paramOk := if variable.value <= "true" || variable.value <= "false" then 1 else 0;
            newState := variable.value <= "true";
          }
        case Json(body) =>
          paramLen := |body|;
          if paramLen > 0 {
            paramOk, newState := GetBoolField(body, STATE_PAR, held, newState);
            if paramOk == -1 { paramLen := 0; }
          }
      }
      if paramLen == 0 { return BadRequest; }
      if paramOk != 1 { return BadRequest; }
      if state != newState {
        state := newState;
        if state {
          timer := true;
        } else {
          timer := false;
          led := false;
        }
      }
      code := Changed;
    }

    method BlinkCallback()
      requires timer && SoundAlarm(View())
      modifies this
      ensures View() == old(View()).(led := !old(led)) && SoundAlarm(View())
    {
      led := !led;
    }
  }
}
