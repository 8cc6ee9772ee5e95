/** Motes/lib/common/sensor-sim.h: the three channels of the plant, in thousandths of a cubic metre per second,
    and how a simulation message moves one of them. */
module Channels {
  import opened JsonFields
  import opened NumberText

  const CHANNELS := 3
  const VAR_THRESHOLD := 150
  const INIT_INGATE := 40
  const INIT_OUTGATE := 0

  type Channel = i: nat | i < CHANNELS

  /** `random_rand` draws sixteen bits. */
  type Draw = n: nat | n < 0x1_0000

  /** Flow per percent of gate opening. */
  function MaxFlow(i: Channel): int { if i == 0 then 800 else if i == 1 then 1000 else 350 }

  /** The greatest inflow, in cubic metres per second. */
  const MAX_INFLOW := 80.0

  /** `gate-%s` */
  function GateKey(i: Channel): string {
    "gate-" + (if i == 0 then "inflow" else if i == 1 then "outflow-1" else "outflow-2")
  }

  /** The flow of channel i after a simulation message; held is the garbage of the key buffer. */
  function GateFlow(tokens: seq<Token>, i: Channel, held: string, before: int): int {
    match IntField(tokens, GateKey(i), held)
    case Found(v) => if 0 <= v <= 100 then v * MaxFlow(i) else before
    case _ => before
  }

  lemma KeysDiffer(i: Channel, j: Channel)
    ensures GateKey(i) == GateKey(j) <==> i == j
    ensures |GateKey(i)| < JSON_BUFFER - 1
  {
    assert GateKey(0)[5] == 'i' && GateKey(1)[5] == GateKey(2)[5] == 'o';
    assert GateKey(1)[13] == '1' && GateKey(2)[13] == '2';
  }

  /** A message with a percentage for one channel sets that channel to it and leaves the others alone;
      any other number moves nothing. */
  lemma MessageMovesOneChannel(i: Channel, j: Channel, percent: JavaInt, held: string, before: int)
    ensures GateFlow(IntObject(GateKey(i), percent), j, held, before)
            == if i == j && 0 <= percent <= 100 then percent * MaxFlow(i) else before
  {
    KeysDiffer(i, j);
    IntObjectRoundTrip(GateKey(i), GateKey(j), percent, held);
  }

  /** The three messages by name: thousandths of m3/s per percent are 800 for the inflow, 1000 for the primary and 350 for the
      emergency channel. */
  lemma MessagesByName(j: Channel, percent: JavaInt, held: string, before: int)
    ensures GateFlow(IntObject("gate-inflow", percent), j, held, before)
            == if j == 0 && 0 <= percent <= 100 then percent * 800 else before
    ensures GateFlow(IntObject("gate-outflow-1", percent), j, held, before)
            == if j == 1 && 0 <= percent <= 100 then percent * 1000 else before
    ensures GateFlow(IntObject("gate-outflow-2", percent), j, held, before)
            == if j == 2 && 0 <= percent <= 100 then percent * 350 else before
  {
    assert GateKey(0) == "gate-inflow" && GateKey(1) == "gate-outflow-1" && GateKey(2) == "gate-outflow-2";
    MessageMovesOneChannel(0, j, percent, held, before);
    MessageMovesOneChannel(1, j, percent, held, before);
    MessageMovesOneChannel(2, j, percent, held, before);
  }

  /** The body of both motes' message loops. The value read last stays in a static variable, so it can be
      out of range left over from an earlier message; that changes no flow. */
  method ReadGate(tokens: seq<Token>, i: Channel, held: string, lastValue: int) returns (changed: bool, value: int)
    ensures changed ==> 0 <= value <= 100
    ensures forall before :: GateFlow(tokens, i, held, before) == if changed then value * MaxFlow(i) else before
  {
    var res;
    res, value := GetIntField(tokens, GateKey(i), held, lastValue);
    if res == 0 || value < 0 || value > 100 {
      changed := false;
    } else {
      changed := res == 1;
    }
  }
}
