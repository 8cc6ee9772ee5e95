/** The loop through three components: the flow mote's inflow reading, the collector's quantiser, and the
    simulation message that sets the inflow of the level mote. */
module Feed {
  import Wrappers
  import opened Channels
  import opened JsonFields
  import FlowMote
  import opened Collector
  import ControlLaw

  /** A reading within VAR_THRESHOLD of 800 p thousandths rounds to p. */
  lemma QuantiseInBand(p: nat, milli: int)
    requires p <= 100 && 800 * p - VAR_THRESHOLD <= milli <= 800 * p + VAR_THRESHOLD
    ensures Quantise(milli as real / 1000.0) == p
  {
    var x := milli as real / 1000.0 / MAX_INFLOW * 100.0;
    assert x == milli as real / 800.0;
    assert p as real - 0.5 < x < p as real + 0.5;
  }

  /** In every state of the flow mote, once its inflow reading is stored the last percentage the collector has published is
      one the level mote accepts, and the level mote's inflow becomes the flow mote's target. */
  lemma InflowReachesLevelMote(
      s: State, minPeriod: nat, m: Message, k: nat, flow: int, target: int, held: string, before: int)
    requires 0 <= target <= 100 * MaxFlow(0) && target % 8000 == 0 && FlowMote.InBand(flow, target)
    requires FeedInv(s) && InflowArrives(s, minPeriod, m, m.items, k) && m.items[k].value == flow as real / 1000.0
    ensures var sent := Process(s, minPeriod, m, m.items).published;
            sent != [] && GateFlow(IntObject("gate-inflow", sent[|sent| - 1]), 0, held, before) == target
  {
    InflowIsHeardLast(s, minPeriod, m, m.items, k);
    PercentMovesInflow(flow, target, m.items[k].value, held, before);
  }

  /** The percentage of an in-band inflow is the one that stands for its target, and the level mote takes it. */
  lemma PercentMovesInflow(flow: int, target: int, value: real, held: string, before: int)
    requires value == flow as real / 1000.0 && 0 <= target <= 100 * MaxFlow(0) && target % 8000 == 0 && FlowMote.InBand(flow, target)
    ensures GateFlow(IntObject("gate-inflow", Quantise(value)), 0, held, before) == target
  {
    var p := InflowPercent(flow, target);
    assert Quantise(value) == p;
    MessagesByName(0, p, held, before);
  }

  lemma InflowPercent(flow: int, target: int) returns (p: nat)
    requires 0 <= target <= 80000 && target % 8000 == 0 && FlowMote.InBand(flow, target)
    ensures p <= 100 && p * 800 == target && Quantise(flow as real / 1000.0) == p
  {
    p := 10 * (target / 8000);
    assert p * 800 == target;
    QuantiseInBand(p, flow);
  }

  /** With the emergency gate closed and its channel a tick inside its band, the sum of the outflow readings and the inflow
      reading of channels inside their bands are what the convergence of the control law asks for: within 0.15 of the
      truth, one m3/s per percent. */
  lemma SettledFlowsAreNear(
      level: real, percent: nat, opening: int, inflow: int, outflow1: int, outflow2: int, residue: int, draw: Draw)
    requires FlowMote.InBand(inflow, percent * MaxFlow(0)) && FlowMote.InBand(outflow1, opening * MaxFlow(1))
    requires FlowMote.InBand(residue, 0) && FlowMote.Track(residue, 0, draw) == Wrappers.Some(outflow2)
    ensures ControlLaw.Near(
              ControlLaw.Reading(level, inflow as real / 1000.0, outflow1 as real / 1000.0 + outflow2 as real / 1000.0),
              opening, 0.8 * percent as real)
  {
    FlowMote.ClosedRunsDry(residue, draw);
    assert (percent * MaxFlow(0)) as real / 1000.0 == 0.8 * percent as real;
  }
}
