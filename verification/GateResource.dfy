/** Motes/lib/resources/res-gate.c: validation and effect of a PUT on one gate, and its blinking timer. */
module GateResource {
  import opened Wrappers
  import opened JsonFields
  import opened NumberText

  const BLINKS := 5
  const OPENING_LEVEL_PAR := "opening_level"

  datatype Request =
    | NoContentType
    | Unsupported
    | TextPlain(variable: Option<string>) // the text from the parameter's value on
    | Json(body: seq<Token>)

  datatype Code = Changed | Valid | BadRequest | NotFound

  predicate Success(c: Code) { c == Changed || c == Valid }

  datatype Gate = Gate(level: int, blinks: nat, timer: bool, led: bool)

  const INIT_GATE := Gate(0, BLINKS, false, false)

  /** The level a request asks for, if it is one the gate accepts; held is the garbage of the key buffer. */
  function Asked(r: Request, held: string): Option<int> {
    match r
    case TextPlain(Some(text)) =>
      var v := Atoi(text);
      if text == "" || (text != "0" && v == 0) || v < 0 || v > 100 then None else Some(v)
    case Json(body) =>
      (match IntField(body, OPENING_LEVEL_PAR, held)
       case Found(v) => if 0 <= v <= 100 then Some(v) else None
       case _ => None)
    case _ => None
  }

  /** A request that is not accepted changes nothing; one for the present level changes nothing but its code;
      a new level restarts the blinking. */
  function Put(g: Gate, r: Request, held: string): (Gate, Code) {
    match Asked(r, held)
    case None => (g, BadRequest)
    case Some(v) => if v == g.level then (g, Valid) else (Gate(v, BLINKS, true, false), Changed)
  }

  /** The timer callback. */
  function Blink(g: Gate): Gate {
    if g.blinks > 0 then g.(blinks := g.blinks - 1, timer := true, led := !g.led)
    else g.(blinks := BLINKS, timer := false, led := false)
  }

  /** What holds of a gate in every run of requests and callbacks. */
  predicate Sound(g: Gate) {
    && 0 <= g.level <= 100 && g.blinks <= BLINKS
    && (g.timer ==> g.led == ((BLINKS - g.blinks) % 2 == 1))
    && (!g.timer ==> g.blinks == BLINKS && !g.led)
  }

  datatype Event = Arrives(r: Request, held: string) | Fires

  /** Callbacks run only while the timer is set. */
  function Run(g: Gate, es: seq<Event>): Option<Gate>
    decreases |es|
  {
    if es == [] then Some(g)
    else
      match es[0]
      case Arrives(r, held) => Run(Put(g, r, held).0, es[1..])
      case Fires => if g.timer then Run(Blink(g), es[1..]) else None
  }

  lemma {:induction false} RunKeepsSound(g: Gate, es: seq<Event>)
    requires Sound(g) && Run(g, es).Some?
    ensures Sound(Run(g, es).value)
    decreases |es|
  {
    if es != [] {
      match es[0]
      case Arrives(r, held) => RunKeepsSound(Put(g, r, held).0, es[1..]);
      case Fires => RunKeepsSound(Blink(g), es[1..]);
    }
  }

  function Firings(es: seq<Event>): nat {
    if es == [] then 0 else Firings(es[1..]) + if es[0].Fires? then 1 else 0
  }

  /** Requests that leave a gate at the level it has. */
  predicate KeepsLevel(e: Event, level: int) { e.Arrives? ==> Asked(e.r, e.held) in {None, Some(level)} }

  /** n callbacks after a level change. */
  function Blinked(level: int, n: nat): Gate
    requires n <= BLINKS + 1
  {
    if n == BLINKS + 1 then Gate(level, BLINKS, false, false) else Gate(level, BLINKS - n, true, n % 2 == 1)
  }

  /** From a level change, while no other change intervenes, the timer fires exactly BLINKS + 1 times and stops,
      with the light off and the counter reset, whatever requests arrive in between. */
  lemma {:induction false} BlinkingEnds(level: int, n: nat, es: seq<Event>)
    requires n <= BLINKS + 1 && forall i | 0 <= i < |es| :: KeepsLevel(es[i], level)
    ensures Run(Blinked(level, n), es)
            == if n + Firings(es) <= 6 then Some(Blinked(level, n + Firings(es))) else None
    decreases |es|
  {
    if es != [] {
      assert KeepsLevel(es[0], level);
      assert forall i | 0 <= i < |es[1..]| :: es[1..][i] == es[i + 1];
      if es[0].Arrives? {
        BlinkingEnds(level, n, es[1..]);
      } else if n <= BLINKS {
        BlinkingEnds(level, n + 1, es[1..]);
      }
    }
  }

  /** The request CoapManager.setGateOpening sends. */
  function LevelRequest(level: JavaInt): Request { Json(IntObject("opening_level", level)) }

  /** The gate takes exactly the levels from 0 to 100 and then stands at the level asked for; a new level starts the
      blinking, anything else leaves the gate as it was. */
  lemma LevelRequestMeaning(g: Gate, level: JavaInt, held: string)
    ensures var (next, code) := Put(g, LevelRequest(level), held);
            && code == (if !(0 <= level <= 100) then BadRequest else if level == g.level then Valid else Changed)
            && next.level == (if 0 <= level <= 100 then level else g.level)
            && (next.level == g.level ==> next == g)
            && (next.level != g.level ==> next == Blinked(level, 0))
  {
    IntObjectRoundTrip(OPENING_LEVEL_PAR, OPENING_LEVEL_PAR, level, held);
  }

  /** Every other form of request is refused, and so is a level under another name. */
  lemma OtherRequestsAreRefused(g: Gate, name: string, level: JavaInt, held: string)
    requires |name| < JSON_BUFFER && name != "opening_level"
    ensures Put(g, NoContentType, held) == Put(g, Unsupported, held) == Put(g, TextPlain(None), held) == (g, BadRequest)
    ensures Put(g, Json(IntObject(name, level)), held) == (g, BadRequest)
  {
    IntObjectRoundTrip(name, OPENING_LEVEL_PAR, level, held);
  }

  /** A number outside any field: whether the gate moves depends on what its uninitialised key buffer happens to hold. */
  lemma BareNumberIsAmbiguous()
    ensures var r := Json([Other, Number("5"), Other]);
            && Put(INIT_GATE, r, OPENING_LEVEL_PAR) == (Blinked(5, 0), Changed)
            && Put(INIT_GATE, r, "") == (INIT_GATE, BadRequest)
  {
    var ts := [Other, Number("5"), Other];
    EarlyScan(ts, OPENING_LEVEL_PAR, OPENING_LEVEL_PAR, Numbers);
    EarlyScan(ts, OPENING_LEVEL_PAR, "", Numbers);
    assert Early(ts, Numbers) == Early(ts[1..], Numbers) == Some(Number("5"));
    assert FromName(ts) == FromName(ts[1..]) == FromName(ts[1..][1..]) == FromName(ts[1..][1..][1..]) == [];
    assert Decimal(5) == "5" && "5" + [] == "5";
    DecimalRoundTrip(5, []);
  }

  /** In text form a level is taken iff it is 0 written as "0", or 1 to 100 written with blanks before it, a plus sign,
      leading zeros or any other text behind it. */
  lemma TextRequestMeaning(g: Gate, text: string, v: int, held: string)
    ensures Asked(TextPlain(Some(text)), held) == Some(v)
            <==> || (v == 0 && text == "0")
                 || (1 <= v <= 100 && exists sign, digits, rest :: Spells(text, sign, digits, rest, v))
    ensures Put(g, TextPlain(Some(text)), held).0.level
            == if Asked(TextPlain(Some(text)), held).Some? then Asked(TextPlain(Some(text)), held).value else g.level
  {
    if text == "0" {
      DecimalRoundTrip(0, []);
      assert Decimal(0) + [] == "0";
    }
    if Atoi(text) > 0 { PositiveText(text); }
    if 1 <= v && (exists sign, digits, rest :: Spells(text, sign, digits, rest, v)) {
      var sign, digits, rest :| Spells(text, sign, digits, rest, v);
      SpelledText(text, sign, digits, rest, v);
    }
  }

  class GateMote {
    var openingLevel: int
    var blinks: nat
    var timer: bool
    var led: bool

    function View(): Gate
      reads this
    {
      Gate(openingLevel, blinks, timer, led)
    }

    constructor ()
      ensures View() == INIT_GATE && Sound(View())
    {
      openingLevel, blinks, timer, led := 0, BLINKS, false, false;
    }

    /** res_put_handler: paramLen and paramOk decide as in C. */
    method PutHandler(r: Request, held: string) returns (code: Code)
      requires Sound(View())
      modifies this
      ensures (View(), code) == Put(old(View()), r, held)
      ensures Sound(View())
    {
      var newLevel, paramLen, paramOk := 0, 0, 0;
      match r {
        case NoContentType => return BadRequest;
        case Unsupported => return BadRequest;
        case TextPlain(variable) =>
          if variable.Some? && |variable.value| > 0 {
            paramLen := |variable.value|;
            newLevel := Atoi(variable.value);
            paramOk := if (variable.value != "0" && newLevel == 0) || newLevel < 0 || newLevel > 100 then 0 else 1;
          }
        case Json(body) =>
          paramLen := |body|;
          if paramLen > 0 {
            paramOk, newLevel := GetIntField(body, OPENING_LEVEL_PAR, held, newLevel);
            if paramOk == -1 {
              paramLen := 0;
            } else if paramOk != 1 || newLevel < 0 || newLevel > 100 {
              paramOk := 0;
            }
          }
      }
      if paramLen == 0 { return BadRequest; }
      if paramOk != 1 { return BadRequest; }
      if openingLevel != newLevel {
        timer := false;
        led := false;
        blinks := BLINKS;
        timer := true;
        code := Changed;
      } else {
        code := Valid;
      }
      openingLevel := newLevel;
    }

    method BlinkCallback()
      requires timer && Sound(View())
      modifies this
      ensures View() == Blink(old(View())) && Sound(View())
    {
      timer := false;
      led := !led;
      if blinks > 0 {
        blinks := blinks - 1;
        timer := true;
      } else {
        blinks := BLINKS;
        led := false;
      }
    }
  }
}
