/** Motes/demo/mote-2/mote-2.c: three flow readings that follow their targets with noise. */
module FlowMote {
  import opened Wrappers
  import opened Channels
  import opened JsonFields

  /** How far a flow is outside target +- VAR_THRESHOLD. */
  function Gap(flow: int, target: int): nat {
    if flow < target - VAR_THRESHOLD then target - VAR_THRESHOLD - flow
    else if flow > target + VAR_THRESHOLD then flow - target - VAR_THRESHOLD
    else 0
  }

  predicate InBand(flow: int, target: int) { flow >= 0 && Gap(flow, target) == 0 }

  /** LINEAR_VAR: undefined (a division by zero) when the gap is below 10. */
  function LinearVar(draw: Draw, gap: nat): Option<int> {
    if gap / 10 == 0 then None else Some(draw % (gap / 10) + 100)
  }

  function Cut(flow: int, max: int): int {
    if flow < 0 then 0 else if flow > max then max else flow
  }

  /** One channel, one tick; None when the arithmetic is undefined. */
  function Track(flow: int, target: int, draw: Draw): Option<int>
    requires target >= 0
  {
    var max, min := target + VAR_THRESHOLD, target - VAR_THRESHOLD;
    if flow < min then
      match LinearVar(draw, min - flow)
      case None => None
      case Some(v) => Some(Cut(flow + v, max))
    else if flow > max then
      match LinearVar(draw, flow - max)
      case None => None
      case Some(v) => Some(Cut(flow - v, max))
    else Some(Cut(if target != 0 then draw % (max - min + 1) + min else 0, max))
  }

  /** A tick is defined iff the flow is inside the band or at least 10 outside it. */
  lemma TrackDefined(flow: int, target: int, draw: Draw)
    requires target >= 0
    ensures Track(flow, target, draw).Some? <==> Gap(flow, target) == 0 || Gap(flow, target) >= 10
  {
  }

  /** What a defined tick does to the distance: the band keeps its flows, an excess falls into the band at once,
      and a lack shrinks by 100 to 100 plus a tenth without passing the band's top. */
  lemma TrackCloses(flow: int, target: int, draw: Draw)
    requires flow >= 0 && target >= 0 && Track(flow, target, draw).Some?
    ensures var next := Track(flow, target, draw).value;
            && 0 <= next <= target + VAR_THRESHOLD
            && (flow >= target - VAR_THRESHOLD ==> InBand(next, target))
            && (flow < target - VAR_THRESHOLD ==>
                  && flow + 100 <= next < flow + 100 + Gap(flow, target) / 10
                  && Gap(next, target) <= if Gap(flow, target) <= 100 then 0 else Gap(flow, target) - 100)
  {
  }

  /** A closed channel inside its band is dry after one tick. */
  lemma ClosedRunsDry(flow: int, draw: Draw)
    requires 0 <= flow <= 150
    ensures Track(flow, 0, draw) == Some(0)
  {
  }

  /** The flows a defined tick can lead to, exactly: any flow of the band of an open channel that is inside it; below the band
      100 to 99 plus a tenth of the lack more; above it as much less, cut to the band's top. */
  predicate CanFollow(flow: int, target: int, next: int) {
    var g := Gap(flow, target);
    if flow < target - 150 then flow + 100 <= next <= flow + 99 + g / 10
    else if flow > target + 150 then
      (flow - 99 - g / 10 <= next || next == target + 150) && next <= flow - 100 && next <= target + 150
    else if target == 0 then next == 0
    else 0 <= next && target - 150 <= next <= target + 150
  }

  lemma TrackReaches(flow: int, target: int, next: int)
    requires flow >= 0 && target >= 0 && (Gap(flow, target) == 0 || 10 <= Gap(flow, target) <= 655360)
    ensures (exists draw: Draw :: Track(flow, target, draw) == Some(next)) <==> CanFollow(flow, target, next)
  {
    if CanFollow(flow, target, next) {
      var draw := DrawTo(flow, target, next);
      DrawReaches(flow, target, next);
      assert Track(flow, target, draw) == Some(next);
    } else {
      forall draw: Draw
        ensures Track(flow, target, draw) != Some(next)
      {
        OnlyCanFollow(flow, target, draw);
      }
    }
  }

  lemma OnlyCanFollow(flow: int, target: int, draw: Draw)
    requires flow >= 0 && target >= 0 && (Gap(flow, target) == 0 || Gap(flow, target) >= 10)
    ensures Track(flow, target, draw).Some? && CanFollow(flow, target, Track(flow, target, draw).value)
  {
    TrackDefined(flow, target, draw);
    TrackCloses(flow, target, draw);
  }

  /** A draw that leads to a given flow. */
  function DrawTo(flow: int, target: int, next: int): Draw
    requires flow >= 0 && target >= 0 && (Gap(flow, target) == 0 || 10 <= Gap(flow, target) <= 655360)
    requires CanFollow(flow, target, next)
  {
    if flow < target - 150 then next - flow - 100
    else if flow > target + 150 then
      (if flow - next <= 99 + Gap(flow, target) / 10 then flow - 100 - next else 0)
    else if target == 0 then 0
    else next - (target - 150)
  }

  lemma DrawReaches(flow: int, target: int, next: int)
    requires flow >= 0 && target >= 0 && (Gap(flow, target) == 0 || 10 <= Gap(flow, target) <= 655360)
    requires CanFollow(flow, target, next)
    ensures Track(flow, target, DrawTo(flow, target, next)) == Some(next)
  {
    var d := DrawTo(flow, target, next);
    if Gap(flow, target) > 0 {
      SmallMod(d, Gap(flow, target) / 10);
    } else if target != 0 {
      SmallMod(d, 301);
    }
  }

  /** A run of ticks towards a fixed target. */
  function TrackRun(flow: int, target: int, draws: seq<Draw>): Option<int>
    requires target >= 0
    decreases |draws|
  {
    if draws == [] then Some(flow)
    else
      match Track(flow, target, draws[0])
      case None => None
      case Some(next) => TrackRun(next, target, draws[1..])
  }

  /** The distances from which no draws lead to a division by zero. Above the band one tick decides; below it a gap g
      becomes any of g - 100 to g - 99 - g/10, and from 401 up some of these always leads on to a trap. */
  predicate SafeGap(flow: int, target: int) {
    var g := Gap(flow, target);
    if flow > target then g == 0 || g >= 10
    else g == 0 || 10 <= g <= 100 || 121 <= g <= 200 || 244 <= g <= 300 || 381 <= g <= 400
  }

  lemma SafeTick(flow: int, target: int, draw: Draw)
    requires flow >= 0 && target >= 0 && SafeGap(flow, target)
    ensures Track(flow, target, draw).Some? && SafeGap(Track(flow, target, draw).value, target)
  {
    TrackDefined(flow, target, draw);
    TrackCloses(flow, target, draw);
  }

  /** Every defined run of at least gap/100 ticks ends in the band, whatever the draws; a run from a safe distance is
      defined. */
  lemma {:induction false} RunReachesBand(flow: int, target: int, draws: seq<Draw>)
    requires flow >= 0 && target >= 0
    ensures SafeGap(flow, target) ==> TrackRun(flow, target, draws).Some?
    ensures TrackRun(flow, target, draws).Some? && 100 * |draws| >= Gap(flow, target) ==>
              InBand(TrackRun(flow, target, draws).value, target)
    decreases |draws|
  {
    if draws != [] && Track(flow, target, draws[0]).Some? {
      TrackCloses(flow, target, draws[0]);
      RunReachesBand(Track(flow, target, draws[0]).value, target, draws[1..]);
    }
    if SafeGap(flow, target) && draws != [] { SafeTick(flow, target, draws[0]); }
  }

  /** A draw that keeps an unsafe lack unsafe. */
  function TrapDraw(g: nat): Draw {
    if 110 <= g <= 120 then g - 109
    else if 221 <= g <= 243 then g - 220
    else if 344 <= g <= 380 then g - 343
    else if 481 <= g <= 500 then g - 480
    else 0
  }

  /** The draws that lead an unsafe distance to the trap. */
  function TrapDraws(flow: int, target: int): (draws: seq<Draw>)
    requires 0 <= flow && target >= 0 && !SafeGap(flow, target)
    ensures TrackRun(flow, target, draws) == None
    decreases Gap(flow, target)
  {
    TrackDefined(flow, target, TrapDraw(Gap(flow, target)));
    var draw := TrapDraw(Gap(flow, target));
    if Gap(flow, target) < 10 then [draw]
    else
      UnsafeTick(flow, target);
      [draw] + TrapDraws(Track(flow, target, draw).value, target)
  }

  lemma UnsafeTick(flow: int, target: int)
    requires flow >= 0 && target >= 0 && !SafeGap(flow, target) && Gap(flow, target) >= 10
    ensures var next := Track(flow, target, TrapDraw(Gap(flow, target)));
            next.Some? && next.value >= 0 && !SafeGap(next.value, target) && Gap(next.value, target) < Gap(flow, target)
  {
    var g := Gap(flow, target);
    var d := TrapDraw(g);
    TrapDrawFits(g);
    SmallMod(d, g / 10);
    assert g >= 101 && Track(flow, target, d) == Some(flow + 100 + d);
    assert Gap(flow + 100 + d, target) == g - 100 - d;
  }

  lemma TrapDrawFits(g: nat)
    requires g >= 101 && !(121 <= g <= 200) && !(244 <= g <= 300) && !(381 <= g <= 400)
    ensures TrapDraw(g) < g / 10
    ensures var next := g - 100 - TrapDraw(g);
            0 < next && !(10 <= next <= 100) && !(121 <= next <= 200) && !(244 <= next <= 300) && !(381 <= next <= 400)
  {
  }

  lemma SmallMod(d: nat, m: nat)
    requires d < m
    ensures d % m == d
  {
  }

  /** A flow can stop the mote iff it starts from an unsafe distance. */
  lemma NeverTrapsIff(flow: int, target: int)
    requires flow >= 0 && target >= 0
    ensures (forall draws: seq<Draw> :: TrackRun(flow, target, draws).Some?) <==> SafeGap(flow, target)
  {
    if SafeGap(flow, target) {
      forall draws: seq<Draw>
        ensures TrackRun(flow, target, draws).Some?
      {
        RunReachesBand(flow, target, draws);
      }
    } else {
      assert TrackRun(flow, target, TrapDraws(flow, target)) == None;
    }
  }

  /** So opening a closed primary gate always risks a stop; of the emergency gate's levels, 1 percent alone is safe. */
  lemma OpeningRisksTrap(i: Channel, percent: nat)
    requires i > 0 && 0 < percent <= 100
    ensures (forall draws: seq<Draw> :: TrackRun(0, percent * MaxFlow(i), draws).Some?) <==> i == 2 && percent == 1
  {
    NeverTrapsIff(0, percent * MaxFlow(i));
  }

  /** The division by zero is real: a gate opened from 0 to 1 percent can stop the mote on its ninth tick. */
  lemma TrapIsReachable()
    ensures TrackRun(0, 1 * MaxFlow(1), [45] + seq(7, _ => 0)) == Some(845)
    ensures Track(845, 1 * MaxFlow(1), 0) == None
  {
    var draws: seq<Draw> := [45] + seq(7, _ => 0);
    assert draws[1..] == seq(7, _ => 0);
    assert Track(0, 1000, draws[0]) == Some(145);
    ZeroDraws(145, 1000, 7);
  }

  /** With the smallest draws a flow climbs by 100 a tick. */
  lemma {:induction false} ZeroDraws(flow: nat, target: int, n: nat)
    requires target >= 0 && (n > 0 ==> flow + 100 * (n - 1) + 10 <= target - VAR_THRESHOLD)
    ensures TrackRun(flow, target, seq(n, _ => 0)) == Some(flow + 100 * n)
    decreases n
  {
    if n > 0 {
      ZeroDraws(flow + 100, target, n - 1);
      assert seq(n, _ => 0)[1..] == seq(n - 1, _ => 0);
      assert Track(flow, target, 0) == Some(flow + 100);
    }
  }

  /** The body of the loop over the channels: none of it runs past a division by zero. */
  method SimulateChannel(flow: int, target: int, draw: Draw) returns (ok: bool, next: int)
    requires target >= 0
    ensures Track(flow, target, draw) == if ok then Some(next) else None
  {
    var max, min := target + VAR_THRESHOLD, target - VAR_THRESHOLD;
    next := flow;
    if next < min {
      if (min - next) / 10 == 0 { return false, next; }
      next := next + (draw % ((min - next) / 10) + 100);
    } else if next > max {
      if (next - max) / 10 == 0 { return false, next; }
      next := next - (draw % ((next - max) / 10) + 100);
    } else {
      next := if target != 0 then draw % (max - min + 1) + min else 0;
    }
    if next < 0 { next := 0; }
    if next > max { next := max; }
    ok := true;
  }

  class FlowSensors {
    const flow: array<int>
    const target: array<int>
    var btnRelease: bool
    var newGateValue: int

    /** What holds after every event of every run. */
    ghost predicate Valid()
      reads this, flow, target
    {
      && flow != target && flow.Length == target.Length == CHANNELS
      && (forall i: Channel :: 0 <= flow[i] <= 100 * MaxFlow(i) + VAR_THRESHOLD)
      && (forall i: Channel :: 0 <= target[i] <= 100 * MaxFlow(i))
      && target[0] % 8000 == 0
      && InBand(flow[0], target[0])
    }

    constructor ()
      ensures Valid() && fresh(flow) && fresh(target)
      ensures flow[..] == target[..] == [32000, 0, 0]
    {
      flow := new int[][INIT_INGATE * MaxFlow(0), INIT_OUTGATE * MaxFlow(1), INIT_OUTGATE * MaxFlow(2)];
      target := new int[][INIT_INGATE * MaxFlow(0), INIT_OUTGATE * MaxFlow(1), INIT_OUTGATE * MaxFlow(2)];
      btnRelease, newGateValue := true, 0;
    }

    /** simulate_read_flow; the tick stops at the first channel whose arithmetic is undefined. */
    method SimulateReadFlow(draws: seq<Draw>) returns (done: nat)
      requires Valid() && |draws| == CHANNELS
      modifies flow
      ensures Valid() && 1 <= done <= CHANNELS
      ensures forall i | 0 <= i < done :: Track(old(flow[i]), target[i], draws[i]) == Some(flow[i])
      ensures forall i | done <= i < CHANNELS :: flow[i] == old(flow[i])
      ensures done < CHANNELS ==> Track(flow[done], target[done], draws[done]) == None
    {
      done := 0;
      while done < CHANNELS
        invariant 0 <= done <= CHANNELS && Valid()
        invariant forall i | 0 <= i < done :: Track(old(flow[i]), target[i], draws[i]) == Some(flow[i])
        invariant forall i | done <= i < CHANNELS :: flow[i] == old(flow[i])
      {
        var ok, next := SimulateChannel(flow[done], target[done], draws[done]);
        TrackDefined(flow[done], target[done], draws[done]);
        if !ok { return; }
        TrackCloses(flow[done], target[done], draws[done]);
        flow[done] := next;
        done := done + 1;
      }
    }

    /** handle_message: the two outflow targets follow the message, the inflow target never does. */
    method HandleMessage(tokens: seq<Token>, held: seq<string>)
      requires Valid() && |held| == CHANNELS
      modifies this`newGateValue, target
      ensures Valid() && target[0] == old(target[0])
      ensures forall i: Channel | i > 0 :: target[i] == GateFlow(tokens, i, held[i], old(target[i]))
    {
      for i := 1 to CHANNELS
        invariant Valid() && target[0] == old(target[0])
        invariant forall j: Channel | 0 < j < i :: target[j] == GateFlow(tokens, j, held[j], old(target[j]))
        invariant forall j | i <= j < CHANNELS :: target[j] == old(target[j])
      {
        var changed;
        changed, newGateValue := ReadGate(tokens, i, held[i], newGateValue);
        if changed {
          target[i] := newGateValue * MaxFlow(i);
        }
      }
    }

    /** Button released: one step of inflow more, unless the release ends a long press. */
    method ButtonRelease()
      requires Valid()
      modifies this`btnRelease, flow, target
      ensures Valid() && btnRelease
      ensures target[0] == if old(btnRelease) && old(target[0]) < 100 * MaxFlow(0) then old(target[0]) + 10 * MaxFlow(0)
                           else old(target[0])
      ensures flow[0] == if target[0] != old(target[0]) then target[0] else old(flow[0])
      ensures flow[1..] == old(flow[1..]) && target[1..] == old(target[1..])
    {
      if btnRelease {
        if target[0] < 100 * MaxFlow(0) {
          target[0] := target[0] + (if target[0] >= 100 * MaxFlow(0) then 0 else 10 * MaxFlow(0));
          flow[0] := target[0];
        }
      } else {
        btnRelease := true;
      }
    }

    /** Button held: at three seconds the inflow stops. */
    method ButtonHold(seconds: nat)
      requires Valid()
      modifies this`btnRelease, flow, target
      ensures Valid()
      ensures seconds == 3 ==> target[0] == flow[0] == 0 && !btnRelease
      ensures seconds != 3 ==> target[0] == old(target[0]) && flow[0] == old(flow[0]) && btnRelease == old(btnRelease)
      ensures flow[1..] == old(flow[1..]) && target[1..] == old(target[1..])
    {
      if seconds == 3 {
        target[0] := 0;
        flow[0] := 0;
        btnRelease := false;
      }
    }
  }
}
