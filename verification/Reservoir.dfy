/** Motes/demo/mote-3/mote-3.c: the reservoir fed by the balance of the three flows, and the level read from it.
    `unsigned long` arithmetic is modulo ulong, at least 2^32. */
module Reservoir {
  import opened Wrappers
  import opened Channels
  import opened JsonFields

  const SURFACE := 1024
  const WATER_LEVEL_VAR := 5
  const INIT_WATER_LEVEL := 32000
  const MAX_WATER_LEVEL := 64000
  const INIT_RESERVOIR := 46080000
  const MAX_RESERVOIR := 65536000
  const MIN_BALANCE_FLOW := -135000
  const MAX_BALANCE_FLOW := 80000
  const TWO_32 := 0x1_0000_0000

  datatype Tank = Tank(reservoir: int, level: int)

  const FULL := Tank(MAX_RESERVOIR, MAX_WATER_LEVEL)

  /** C's % for a non-negative dividend: the sign of the divisor does not matter. */
  function CMod(draw: Draw, divisor: int): (r: nat)
    requires divisor != 0
    ensures r <= draw && r < if divisor < 0 then -divisor else divisor
  {
    draw % (if divisor < 0 then -divisor else divisor)
  }

  /** The noise on the balance: an even draw counts down, an odd one up. */
  function Noise(balance: int, draw: Draw): int
    requires balance != -1000
  {
    var v := CMod(draw, balance + 1000);
    if v % 2 == 0 then 0 - v else v
  }

  /** The noise on the level pulls against the balance. */
  function LevelNoise(balance: int, draw: Draw): int {
    var v := draw % WATER_LEVEL_VAR;
    if balance > 0 then -v else v
  }

  function Wrap(x: int, ulong: nat): (r: int)
    requires ulong > 0
    ensures 0 <= r < ulong
  {
    x % ulong
  }

  /** One tick as the C code computes it; None when the noise divides by zero. */
  function Tick(t: Tank, balance: int, draw: Draw, levelDraw: Draw, ulong: nat): Option<Tank>
    requires ulong > 0
  {
    if balance == -1000 then None
    else
      var r := Wrap(t.reservoir + balance + Noise(balance, draw), ulong);
      var l := Wrap(r / SURFACE + LevelNoise(balance, levelDraw), ulong);
      Some(if l > MAX_WATER_LEVEL then FULL else Tank(r, l))
  }

  /** The same tick over the integers, with both clamps of the C text taking effect. */
  function SignedTick(t: Tank, balance: int, draw: Draw, levelDraw: Draw): Tank
    requires balance != -1000
  {
    var r := t.reservoir + balance + Noise(balance, draw);
    var l := r / SURFACE + LevelNoise(balance, levelDraw);
    if l < 0 || r < 0 then Tank(0, 0) else if l > MAX_WATER_LEVEL then FULL else Tank(r, l)
  }

  predicate BelowZero(t: Tank, balance: int, draw: Draw, levelDraw: Draw)
    requires balance != -1000
  {
    var r := t.reservoir + balance + Noise(balance, draw);
    r < 0 || r / SURFACE + LevelNoise(balance, levelDraw) < 0
  }

  predicate Plausible(t: Tank, balance: int, ulong: nat) {
    && 0 <= t.reservoir < 64005 * SURFACE
    && MIN_BALANCE_FLOW <= balance <= MAX_BALANCE_FLOW && balance != -1000
    && ulong >= TWO_32
  }

  lemma NoiseBound(balance: int, draw: Draw)
    requires balance != -1000
    ensures -0x1_0000 < Noise(balance, draw) < 0x1_0000
  {
  }

  lemma WrapAbove(x: int, ulong: nat)
    requires ulong > 0 && 0 <= x < ulong
    ensures Wrap(x, ulong) == x
  {
  }

  /** The noises a balance allows: even ones count down, odd ones up, all smaller than the distance of the balance from
      -1000. */
  predicate IsNoise(balance: int, n: int) {
    var (size, distance) := (if n < 0 then -n else n, if balance < -1000 then -1000 - balance else balance + 1000);
    size < distance && size < 0x1_0000 && (size % 2 == 0 <==> n <= 0)
  }

  /** A balance draws exactly these noises, and an even balance gets a downward one from every even draw, an upward one from
      every odd. */
  lemma NoiseValues(balance: int, n: int)
    requires balance != -1000
    ensures (exists draw: Draw :: Noise(balance, draw) == n) <==> IsNoise(balance, n)
    ensures balance % 2 == 0 ==> forall draw: Draw :: Noise(balance, draw) <= 0 <==> draw % 2 == 0
  {
    forall draw: Draw
      ensures IsNoise(balance, Noise(balance, draw))
      ensures balance % 2 == 0 ==> (Noise(balance, draw) <= 0 <==> draw % 2 == 0)
    {
      NoiseIsNoise(balance, draw);
      if balance % 2 == 0 { NoiseParity(balance, draw); }
    }
    if IsNoise(balance, n) {
      var draw: Draw := if n < 0 then -n else n;
      SmallDraw(balance, draw);
      assert Noise(balance, draw) == n;
    }
  }

  lemma NoiseIsNoise(balance: int, draw: Draw)
    requires balance != -1000
    ensures IsNoise(balance, Noise(balance, draw))
  {
    var v: int := CMod(draw, balance + 1000);
    assert Noise(balance, draw) == if v % 2 == 0 then 0 - v else v;
  }

  lemma NoiseParity(balance: int, draw: Draw)
    requires balance != -1000 && balance % 2 == 0
    ensures Noise(balance, draw) <= 0 <==> draw % 2 == 0
  {
    EvenModulus(draw, if balance < -1000 then -1000 - balance else balance + 1000);
  }

  lemma SmallDraw(balance: int, draw: Draw)
    requires draw < if balance < -1000 then -1000 - balance else balance + 1000
    ensures CMod(draw, balance + 1000) == draw
  {
    QuotientIsUnique(draw, if balance < -1000 then -1000 - balance else balance + 1000, 0, draw);
  }

  lemma EvenModulus(x: nat, m: nat)
    requires m > 0 && m % 2 == 0
    ensures (x % m) % 2 == x % 2
  {
    var q, h := x / m, m / 2;
    assert m * q == 2 * (h * q) by {
      assert m == 2 * h;
    }
    assert x == m * q + x % m;
  }

  /** The level noise is any of five values, on the side away from the balance. */
  lemma LevelNoiseValues(balance: int, n: int)
    ensures (exists draw: Draw :: LevelNoise(balance, draw) == n) <==> if balance > 0 then -4 <= n <= 0 else 0 <= n <= 4
  {
    var draw: int := if n < 0 then -n else n;
    if draw <= 4 { assert (draw as Draw) % WATER_LEVEL_VAR == draw; }
    if (if balance > 0 then -4 <= n <= 0 else 0 <= n <= 4) { assert LevelNoise(balance, draw as Draw) == n; }
  }

  /** There is one way to write x as a multiple of m and a remainder. */
  lemma QuotientIsUnique(x: int, m: nat, q: int, r: nat)
    requires x == m * q + r && r < m
    ensures x % m == r
  {
    var q', r' := x / m, x % m;
    assert m * (q - q') == r' - r;
    if q > q' {
      MultiplesGrow(m, q - q');
      assert false;
    } else if q < q' {
      MultiplesGrow(m, q' - q);
      assert false;
    }
  }

  lemma MultiplesGrow(m: nat, k: int)
    requires k > 0
    ensures m * k >= m
  {
  }

  lemma WrapBelow(x: int, ulong: nat)
    requires 0 < -x <= ulong
    ensures Wrap(x, ulong) == x + ulong
  {
    QuotientIsUnique(x, ulong, -1, x + ulong);
  }

  /** The clamp at zero never acts on unsigned values: a tick that would empty the reservoir fills it instead.
      The C code meets the signed reading exactly when that clamp was not needed. */
  lemma TickMeetsSignedTickIff(t: Tank, balance: int, draw: Draw, levelDraw: Draw, ulong: nat)
    requires Plausible(t, balance, ulong)
    ensures Tick(t, balance, draw, levelDraw, ulong) == Some(SignedTick(t, balance, draw, levelDraw))
            <==> !BelowZero(t, balance, draw, levelDraw)
    ensures BelowZero(t, balance, draw, levelDraw) ==> Tick(t, balance, draw, levelDraw, ulong) == Some(FULL)
  {
    NoiseBound(balance, draw);
    var r := t.reservoir + balance + Noise(balance, draw);
    if r < 0 {
      WrapBelow(r, ulong);
      var l := (r + ulong) / SURFACE + LevelNoise(balance, levelDraw);
      assert 64000 < l < ulong;
      WrapAbove(l, ulong);
    } else {
      WrapAbove(r, ulong);
      var l := r / SURFACE + LevelNoise(balance, levelDraw);
      if l < 0 { WrapBelow(l, ulong); } else { WrapAbove(l, ulong); }
    }
  }

  /** Whatever the level was before, after any defined tick level and reservoir agree to 4, on the side away from
      the balance, and stay in range. */
  lemma TickAgrees(t: Tank, balance: int, draw: Draw, levelDraw: Draw, ulong: nat)
    requires Plausible(t, balance, ulong)
    ensures var next := Tick(t, balance, draw, levelDraw, ulong);
            && next.Some?
            && -4 <= next.value.level - next.value.reservoir / SURFACE <= 4
            && (if balance > 0 then next.value.level <= next.value.reservoir / SURFACE
                else next.value.level >= next.value.reservoir / SURFACE)
            && 0 <= next.value.level <= MAX_WATER_LEVEL
            && 0 <= next.value.reservoir < 64005 * SURFACE
  {
    TickMeetsSignedTickIff(t, balance, draw, levelDraw, ulong);
  }

  /** A tick under a positive balance b changes the reservoir by -999 to 2 b + 999, unless it ends full; with an even balance
      even draws add at most b, odd ones more. */
  lemma FillStep(t: Tank, balance: int, draw: Draw, levelDraw: Draw, ulong: nat)
    requires Plausible(t, balance, ulong) && balance > 0
    ensures var next := Tick(t, balance, draw, levelDraw, ulong);
            && next.Some?
            && (next == Some(FULL) || -999 <= next.value.reservoir - t.reservoir <= 2 * balance + 999)
            && (next == Some(FULL) || balance % 2 == 1
                || (next.value.reservoir - t.reservoir <= balance <==> draw % 2 == 0))
  {
    NoiseIsNoise(balance, draw);
    if balance % 2 == 0 { NoiseParity(balance, draw); }
    TickMeetsSignedTickIff(t, balance, draw, levelDraw, ulong);
  }

  /** What drives one tick. */
  datatype Drive = Drive(balance: int, draw: Draw, levelDraw: Draw)

  function Ticks(t: Tank, ds: seq<Drive>, ulong: nat): Option<Tank>
    requires ulong > 0
    decreases |ds|
  {
    if ds == [] then Some(t)
    else
      match Tick(t, ds[0].balance, ds[0].draw, ds[0].levelDraw, ulong)
      case None => None
      case Some(next) => Ticks(next, ds[1..], ulong)
  }

  function Increments(ds: seq<Drive>): int {
    if ds == [] then 0
    else (if ds[0].balance == -1000 then 0 else ds[0].balance + Noise(ds[0].balance, ds[0].draw)) + Increments(ds[1..])
  }

  /** No tick of the run meets a clamp. */
  predicate Unsaturated(t: Tank, ds: seq<Drive>)
    decreases |ds|
  {
    ds == [] ||
    var d := ds[0];
    && d.balance != -1000 && !BelowZero(t, d.balance, d.draw, d.levelDraw)
    && (t.reservoir + d.balance + Noise(d.balance, d.draw)) / SURFACE + LevelNoise(d.balance, d.levelDraw) <= MAX_WATER_LEVEL
    && Unsaturated(SignedTick(t, d.balance, d.draw, d.levelDraw), ds[1..])
  }

  /** Between clamps the reservoir integrates its inputs exactly. */
  lemma {:induction false} Integrates(t: Tank, ds: seq<Drive>, ulong: nat)
    requires ulong >= TWO_32 && 0 <= t.reservoir < 64005 * SURFACE && Unsaturated(t, ds)
    requires forall d | d in ds :: MIN_BALANCE_FLOW <= d.balance <= MAX_BALANCE_FLOW
    ensures Ticks(t, ds, ulong).Some? && Ticks(t, ds, ulong).value.reservoir == t.reservoir + Increments(ds)
    decreases |ds|
  {
    if ds != [] {
      var d := ds[0];
      TickMeetsSignedTickIff(t, d.balance, d.draw, d.levelDraw, ulong);
      TickAgrees(t, d.balance, d.draw, d.levelDraw, ulong);
      Integrates(SignedTick(t, d.balance, d.draw, d.levelDraw), ds[1..], ulong);
    }
  }

  // The drain: both outflow gates fully open, any inflow percentage.

  function OpenBalance(inflow: nat): int { inflow * MaxFlow(0) - 100 * MaxFlow(1) - 100 * MaxFlow(2) }

  const SURE_DRAIN := 63997 * SURFACE + 1001
  const MAX_DROP := 200534

  /** With the gates open one tick moves the reservoir down by 1001 to 200534, unless the clamp at the top acts. */
  lemma OpenNoise(inflow: nat, draw: Draw)
    requires inflow <= 100
    ensures -MAX_DROP <= OpenBalance(inflow) + Noise(OpenBalance(inflow), draw) <= -1001
  {
    var m := -(OpenBalance(inflow) + 1000);
    assert m == 2 * (67000 - 400 * inflow);
    EvenBelowEven(CMod(draw, OpenBalance(inflow) + 1000), m);
    EvenBelowEven(CMod(draw, OpenBalance(inflow) + 1000), 0x1_0000);
  }

  lemma EvenBelowEven(v: nat, m: nat)
    requires v < m && m % 2 == 0
    ensures v % 2 == 0 ==> v <= m - 2
  {
  }

  lemma DrainStep(t: Tank, inflow: nat, draw: Draw, levelDraw: Draw, ulong: nat)
    requires inflow <= 100 && MAX_DROP <= t.reservoir < SURE_DRAIN && ulong >= TWO_32
    ensures var next := Tick(t, OpenBalance(inflow), draw, levelDraw, ulong);
            && next.Some?
            && 1001 <= t.reservoir - next.value.reservoir <= MAX_DROP
            && next.value.reservoir / SURFACE <= next.value.level <= next.value.reservoir / SURFACE + 4
  {
    OpenNoise(inflow, draw);
    TickMeetsSignedTickIff(t, OpenBalance(inflow), draw, levelDraw, ulong);
  }

  /** Every draw and every inflow lowers the reservoir. */
  ghost predicate DrainsSurely(r: int, ulong: nat)
    requires ulong > 0
  {
    forall inflow: nat, draw: Draw, levelDraw: Draw, level: int | inflow <= 100 ::
      Lowers(Tank(r, level), inflow, draw, levelDraw, ulong)
  }

  predicate Lowers(t: Tank, inflow: nat, draw: Draw, levelDraw: Draw, ulong: nat)
    requires ulong > 0
  {
    var next := Tick(t, OpenBalance(inflow), draw, levelDraw, ulong);
    next.Some? && next.value.reservoir < t.reservoir
  }

  /** Of all reservoirs a tick can leave behind, the open gates surely lower those that can neither run dry in one tick nor
      be clamped up, and those above the value the clamp restores. */
  lemma DrainsSurelyIff(r: int, ulong: nat)
    requires 0 <= r < 64005 * SURFACE && ulong >= TWO_32
    ensures DrainsSurely(r, ulong) <==> MAX_DROP <= r < SURE_DRAIN || r > MAX_RESERVOIR
  {
    if MAX_DROP <= r < SURE_DRAIN || r > MAX_RESERVOIR {
      forall inflow: nat, draw: Draw, levelDraw: Draw, level: int | inflow <= 100
        ensures Lowers(Tank(r, level), inflow, draw, levelDraw, ulong)
      {
        if r < SURE_DRAIN {
          DrainStep(Tank(r, level), inflow, draw, levelDraw, ulong);
        } else {
          AboveFullDrains(Tank(r, level), inflow, draw, levelDraw, ulong);
        }
      }
    } else if r < MAX_DROP {
      RunsDry(Tank(r, 0), ulong);
      assert !Lowers(Tank(r, 0), 0, 65534, 0, ulong);
    } else {
      ClampHolds(Tank(r, 0), ulong);
      assert !Lowers(Tank(r, 0), 100, 53999, 4, ulong);
    }
  }

  lemma AboveFullDrains(t: Tank, inflow: nat, draw: Draw, levelDraw: Draw, ulong: nat)
    requires inflow <= 100 && MAX_RESERVOIR < t.reservoir < 64005 * SURFACE && ulong >= TWO_32
    ensures Lowers(t, inflow, draw, levelDraw, ulong)
  {
    OpenNoise(inflow, draw);
    TickMeetsSignedTickIff(t, OpenBalance(inflow), draw, levelDraw, ulong);
  }

  /** Below MAX_DROP the fastest drain wraps, and the reservoir is full. */
  lemma RunsDry(t: Tank, ulong: nat)
    requires 0 <= t.reservoir < MAX_DROP && ulong >= TWO_32
    ensures Tick(t, OpenBalance(0), 65534, 0, ulong) == Some(FULL)
  {
    assert CMod(65534, OpenBalance(0) + 1000) == 65534;
    TickMeetsSignedTickIff(t, OpenBalance(0), 65534, 0, ulong);
  }

  /** From SURE_DRAIN up the slowest drain with the largest level noise is clamped back to full. */
  lemma ClampHolds(t: Tank, ulong: nat)
    requires SURE_DRAIN <= t.reservoir <= MAX_RESERVOIR && ulong >= TWO_32
    ensures Tick(t, OpenBalance(100), 53999, 4, ulong) == Some(FULL)
  {
    TickMeetsSignedTickIff(t, OpenBalance(100), 53999, 4, ulong);
    assert CMod(53999, OpenBalance(100) + 1000) == 53999;
  }

  /** So the simulated emergency, which starts at the maximum, can stay full for any number of ticks. */
  lemma {:induction false} FullCanStayFull(n: nat, ulong: nat)
    requires ulong >= TWO_32
    ensures Ticks(FULL, seq(n, _ => Drive(OpenBalance(100), 53999, 4)), ulong) == Some(FULL)
  {
    if n > 0 {
      ClampHolds(FULL, ulong);
      FullCanStayFull(n - 1, ulong);
      assert seq(n, _ => Drive(OpenBalance(100), 53999, 4))[1..] == seq(n - 1, _ => Drive(OpenBalance(100), 53999, 4));
    }
  }

  /** Both gates open, no inflow, draws of zero: 135000 units a tick. */
  function Dry(n: nat): (ds: seq<Drive>)
    ensures |ds| == n
  {
    if n == 0 then [] else [Drive(OpenBalance(0), 0, 0)] + Dry(n - 1)
  }

  lemma {:induction false} DryRun(t: Tank, n: nat, ulong: nat)
    requires 0 < n && 135000 * n <= t.reservoir <= MAX_RESERVOIR && ulong >= TWO_32
    ensures var r := t.reservoir - 135000 * n;
            Ticks(t, Dry(n), ulong) == Some(Tank(r, r / SURFACE))
    decreases n
  {
    var next := Tank(t.reservoir - 135000, (t.reservoir - 135000) / SURFACE);
    TickMeetsSignedTickIff(t, OpenBalance(0), 0, 0, ulong);
    assert Tick(t, OpenBalance(0), 0, 0, ulong) == Some(next);
    assert Dry(n)[1..] == Dry(n - 1);
    if n > 1 { DryRun(next, n - 1, ulong); }
  }

  const START := Tank(INIT_RESERVOIR, INIT_WATER_LEVEL)

  /** The start-up reservoir can be down to 45000 units after 341 such ticks, and one more reports it full. */
  lemma EmptyBecomesFull(ulong: nat)
    requires ulong >= TWO_32
    ensures Ticks(START, Dry(341), ulong) == Some(Tank(45000, 43))
    ensures Tick(Tank(45000, 43), OpenBalance(0), 0, 0, ulong) == Some(FULL)
  {
    DryRun(START, 341, ulong);
    TickMeetsSignedTickIff(Tank(45000, 43), OpenBalance(0), 0, 0, ulong);
  }

  const SAFE_LEVEL := 60000
  const SAFE_RESERVOIR := 59997 * SURFACE

  predicate OpenDrive(d: Drive) { exists inflow: nat | inflow <= 100 :: d.balance == OpenBalance(inflow) }

  /** Below SURE_DRAIN the drain has a ranking function: within (reservoir - SAFE_RESERVOIR) / 1001 + 1 ticks the level
      is at or under the safe 60 m, and no tick before that wraps or clamps. */
  lemma {:induction false} Drains(t: Tank, ds: seq<Drive>, ulong: nat)
    requires SAFE_RESERVOIR <= t.reservoir < SURE_DRAIN && ulong >= TWO_32
    requires forall d | d in ds :: OpenDrive(d)
    requires 1001 * |ds| > t.reservoir - SAFE_RESERVOIR
    ensures exists k | 0 < k <= |ds| ::
              && Unsaturated(t, ds[..k])
              && Ticks(t, ds[..k], ulong).Some? && Ticks(t, ds[..k], ulong).value.level <= SAFE_LEVEL
    decreases |ds|
  {
    var d := ds[0];
    assert d in ds;
    var inflow: nat :| inflow <= 100 && d.balance == OpenBalance(inflow);
    DrainStep(t, inflow, d.draw, d.levelDraw, ulong);
    OpenNoise(inflow, d.draw);
    TickMeetsSignedTickIff(t, d.balance, d.draw, d.levelDraw, ulong);
    var next := Tick(t, d.balance, d.draw, d.levelDraw, ulong).value;
    if next.reservoir < SAFE_RESERVOIR {
      assert ds[..1] == [d] && [d][1..] == [];
      assert Ticks(t, ds[..1], ulong) == Some(next) && next.level <= SAFE_LEVEL;
      assert Unsaturated(t, ds[..1]);
    } else {
      Drains(next, ds[1..], ulong);
      var k :| 0 < k <= |ds| - 1 && Unsaturated(next, ds[1..][..k])
        && Ticks(next, ds[1..][..k], ulong).Some? && Ticks(next, ds[1..][..k], ulong).value.level <= SAFE_LEVEL;
      assert ds[..k + 1][1..] == ds[1..][..k];
      assert Unsaturated(t, ds[..k + 1]) && Ticks(t, ds[..k + 1], ulong) == Ticks(next, ds[1..][..k], ulong);
    }
  }

  lemma TickInSteps(t: Tank, balance: int, draw: Draw, levelDraw: Draw, ulong: nat, r: int, l: int)
    requires balance != -1000 && ulong > 0
    requires r == Wrap(t.reservoir + (balance + Noise(balance, draw)), ulong)
    requires l == Wrap(r / SURFACE + LevelNoise(balance, levelDraw), ulong)
    ensures Tick(t, balance, draw, levelDraw, ulong) == Some(if l > MAX_WATER_LEVEL then FULL else Tank(r, l))
  {
    assert t.reservoir + (balance + Noise(balance, draw)) == t.reservoir + balance + Noise(balance, draw);
  }

  class WaterLevelSensor {
    const ulong: nat
    const flow: array<int>
    var balanceFlow: int
    var waterLevel: int
    var reservoir: int
    var newGateValue: int
    var btnRelease: bool

    /** What holds after every event of every run. */
    ghost predicate Valid()
      reads this, flow
    {
      && ulong >= TWO_32 && flow.Length == CHANNELS
      && (forall i: Channel :: 0 <= flow[i] <= 100 * MaxFlow(i))
      && balanceFlow == flow[0] - flow[1] - flow[2] && MIN_BALANCE_FLOW <= balanceFlow <= MAX_BALANCE_FLOW
      && 0 <= reservoir < 64005 * SURFACE && 0 <= waterLevel <= MAX_WATER_LEVEL
    }

    function View(): Tank
      reads this
    {
      Tank(reservoir, waterLevel)
    }

    constructor (ulong: nat)
      requires ulong >= TWO_32
      ensures Valid() && fresh(flow) && this.ulong == ulong && View() == START
      ensures flow[..] == [32000, 0, 0]
    {
      this.ulong := ulong;
      flow := new int[][INIT_INGATE * MaxFlow(0), INIT_OUTGATE * MaxFlow(1), INIT_OUTGATE * MaxFlow(2)];
      balanceFlow := MaxFlow(0) * INIT_INGATE - (INIT_OUTGATE * MaxFlow(1) + INIT_OUTGATE * MaxFlow(2));
      waterLevel, reservoir, newGateValue, btnRelease := INIT_WATER_LEVEL, INIT_RESERVOIR, 0, true;
    }

    /** simulate_read_water_level; ok is false when the noise divides by zero. */
    method SimulateReadWaterLevel(draw: Draw, levelDraw: Draw) returns (ok: bool)
      requires Valid()
      modifies this`reservoir, this`waterLevel
      ensures Valid() && (ok <==> balanceFlow != -1000)
      ensures Tick(old(View()), balanceFlow, draw, levelDraw, ulong) == if ok then Some(View()) else None
      ensures !ok ==> View() == old(View())
      ensures ok ==> -4 <= waterLevel - reservoir / SURFACE <= 4
    {
      if balanceFlow + 1000 == 0 { return false; }
      ghost var before := View();
      var v, w := DrawNoise(draw, levelDraw);
      reservoir := Wrap(reservoir + (balanceFlow + v), ulong);
      waterLevel := Wrap(reservoir / SURFACE + w, ulong);
      assert waterLevel >= 0; // so the test for a negative level that follows in C is dead
      TickInSteps(before, balanceFlow, draw, levelDraw, ulong, reservoir, waterLevel);
      TickAgrees(before, balanceFlow, draw, levelDraw, ulong);
      if waterLevel > MAX_WATER_LEVEL { waterLevel, reservoir := MAX_WATER_LEVEL, MAX_RESERVOIR; }
      ok := true;
    }

    /** The two draws of a tick. */
    method DrawNoise(draw: Draw, levelDraw: Draw) returns (v: int, w: int)
      requires balanceFlow != -1000
      ensures v == Noise(balanceFlow, draw) && w == LevelNoise(balanceFlow, levelDraw)
    {
      v := CMod(draw, balanceFlow + 1000);
      w := levelDraw % WATER_LEVEL_VAR;
      if v % 2 == 0 { v := 0 - v; }
      if balanceFlow > 0 { w := -w; }
    }

    /** handle_message: each channel the message names gets its new flow, and the balance follows. */
    method HandleMessage(tokens: seq<Token>, held: seq<string>)
      requires Valid() && |held| == CHANNELS
      modifies this`newGateValue, this`balanceFlow, flow
      ensures Valid()
      ensures forall i: Channel :: flow[i] == GateFlow(tokens, i, held[i], old(flow[i]))
    {
      for i := 0 to CHANNELS
        invariant Valid()
        invariant forall j: Channel | j < i :: flow[j] == GateFlow(tokens, j, held[j], old(flow[j]))
        invariant forall j | i <= j < CHANNELS :: flow[j] == old(flow[j])
      {
        var changed;
        changed, newGateValue := ReadGate(tokens, i, held[i], newGateValue);
        if changed { SetFlow(i, newGateValue); }
      }
    }

    method SetFlow(i: Channel, percent: int)
      requires Valid() && 0 <= percent <= 100
      modifies this`balanceFlow, flow
      ensures Valid() && flow[..] == old(flow[..])[i := percent * MaxFlow(i)]
    {
      flow[i] := percent * MaxFlow(i);
      RecomputeBalance();
    }

    method RecomputeBalance()
      requires flow.Length == CHANNELS
      modifies this`balanceFlow
      ensures balanceFlow == flow[0] - flow[1] - flow[2]
    {
      balanceFlow := flow[0];
      for j := 1 to CHANNELS
        invariant balanceFlow == if j == 1 then flow[0] else if j == 2 then flow[0] - flow[1] else flow[0] - flow[1] - flow[2]
      {
        balanceFlow := balanceFlow - flow[j];
      }
    }

    /** Button released: back to the initial reservoir, unless the release ends a long press. */
    method ButtonRelease()
      requires Valid()
      modifies this`btnRelease, this`reservoir
      ensures Valid() && btnRelease
      ensures reservoir == if old(btnRelease) then INIT_RESERVOIR else old(reservoir)
    {
      if btnRelease {
        reservoir := INIT_RESERVOIR;
      } else {
        btnRelease := true;
      }
    }

    /** Button held: at three seconds the reservoir is full. */
    method ButtonHold(seconds: nat)
      requires Valid()
      modifies this`btnRelease, this`reservoir
      ensures Valid()
      ensures reservoir == (if seconds == 3 then MAX_RESERVOIR else old(reservoir))
      ensures btnRelease == (old(btnRelease) && seconds != 3)
    {
      if seconds == 3 {
        reservoir := MAX_RESERVOIR;
        btnRelease := false;
      }
    }
  }

  /** The undefined balance is two messages away from the start-up flows: no inflow, then the primary gate at 1 percent. */
  lemma UndefinedBalanceIsReachable(held: string)
    ensures GateFlow(IntObject(GateKey(0), 0), 0, held, 32000)
            - GateFlow(IntObject(GateKey(1), 1), 1, held, 0) - 0 == -1000
  {
    MessageMovesOneChannel(0, 0, 0, held, 32000);
    MessageMovesOneChannel(1, 1, 1, held, 0);
  }
}
