/** Application/Collector Subscriber.messageArrived: the rate limiter in front of the flow log, and the quantiser
    that turns an inflow reading into the percentage the plant simulation listens to. */
module Collector {
  import opened Wrappers
  import opened Channels
  import opened FlowLog

  datatype Topic = FlowRateTopic | WaterLevelTopic | UnknownTopic

  /** One measurement, with what its environment does: the clock when it is stored, whether the database takes it,
      whether the broker takes the simulation message. */
  datatype Item = Item(name: string, value: real, stamp: int, dbOk: bool, brokerOk: bool)

  datatype Message = Message(topic: Topic, unit: string, base: string, now: int, items: seq<Item>)

  datatype Stored = Stored(key: string, channel: string, time: int, value: real)

  datatype State = State(
    last: map<string, int>, gate: Option<int>,
    flows: seq<Stored>, levels: seq<real>, published: seq<int>)

  /** Math.round of the percentage of MAX_INFLOW. */
  function Quantise(value: real): int { (value / MAX_INFLOW * 100.0 + 0.5).Floor }

  predicate TooFast(s: State, minPeriod: nat, now: int, key: string) {
    key in s.last && now - minPeriod < s.last[key]
  }

  function Publish(s: State, it: Item): State {
    if it.name == INFLOW && s.gate != Some(Quantise(it.value)) && it.brokerOk
    then s.(gate := Some(Quantise(it.value)), published := s.published + [Quantise(it.value)])
    else s
  }

  function Store(s: State, m: Message, it: Item): State {
    var key := m.base + it.name;
    s.(flows := s.flows + [Stored(key, it.name, it.stamp, it.value)], last := s.last[key := it.stamp])
  }

  /** The measurements of a message in turn; an error ends the message. */
  function Process(s: State, minPeriod: nat, m: Message, items: seq<Item>): State
    decreases |items|
  {
    if items == [] then s
    else
      var it := items[0];
      var key := m.base + it.name;
      if TooFast(s, minPeriod, m.now, key) then Process(s, minPeriod, m, items[1..])
      else if m.topic == FlowRateTopic && m.unit == "m3/s" && it.dbOk then
        Process(Publish(Store(s, m, it), it), minPeriod, m, items[1..])
      else if m.topic == WaterLevelTopic && m.unit == "m" && it.dbOk then
        Process(s.(levels := s.levels + [it.value]), minPeriod, m, items[1..])
      else s
  }

  function Run(s: State, minPeriod: nat, ms: seq<Message>): State
    decreases |ms|
  {
    if ms == [] then s else Run(Process(s, minPeriod, ms[0], ms[0].items), minPeriod, ms[1..])
  }

  const EMPTY := State(map[], None, [], [], [])

  /** The clock never goes back, within a message and from message to message. */
  predicate Timely(items: seq<Item>, t: int)
    decreases |items|
  {
    items == [] || (items[0].stamp >= t && Timely(items[1..], items[0].stamp))
  }

  function LastStamp(items: seq<Item>, t: int): int
    decreases |items|
  {
    if items == [] then t else LastStamp(items[1..], items[0].stamp)
  }

  predicate TimelyRun(ms: seq<Message>, t: int)
    decreases |ms|
  {
    ms == [] || (ms[0].now >= t && Timely(ms[0].items, ms[0].now)
                 && TimelyRun(ms[1..], LastStamp(ms[0].items, ms[0].now)))
  }

  predicate KeySpaced(flows: seq<Stored>, minPeriod: nat) {
    forall i, j | 0 <= i < j < |flows| && flows[i].key == flows[j].key :: flows[i].time + minPeriod <= flows[j].time
  }

  /** The latest record of each key is the one the limiter remembers. */
  ghost predicate Inv(s: State, minPeriod: nat) {
    && KeySpaced(s.flows, minPeriod)
    && (forall i | 0 <= i < |s.flows| :: s.flows[i].key in s.last && s.flows[i].time <= s.last[s.flows[i].key])
    && (forall k | k in s.last :: exists i | 0 <= i < |s.flows| :: s.flows[i].key == k && s.flows[i].time == s.last[k])
  }

  lemma StoreKeepsInv(s: State, minPeriod: nat, m: Message, it: Item)
    requires Inv(s, minPeriod) && !TooFast(s, minPeriod, m.now, m.base + it.name) && m.now <= it.stamp
    ensures Inv(Publish(Store(s, m, it), it), minPeriod)
  {
    var r := Stored(m.base + it.name, it.name, it.stamp, it.value);
    var flows := s.flows + [r];
    assert flows[|s.flows|] == r;
    StoreKeepsSpacing(s, minPeriod, r);
    forall k | k in s.last && k != r.key
      ensures exists i | 0 <= i < |flows| :: flows[i].key == k && flows[i].time == s.last[k]
    {
      var i :| 0 <= i < |s.flows| && s.flows[i].key == k && s.flows[i].time == s.last[k];
      assert flows[i] == s.flows[i];
    }
  }

  /** A record that comes late enough after the remembered one of its key comes late enough after all of them. */
  lemma StoreKeepsSpacing(s: State, minPeriod: nat, r: Stored)
    requires Inv(s, minPeriod) && (r.key in s.last ==> s.last[r.key] + minPeriod <= r.time)
    ensures KeySpaced(s.flows + [r], minPeriod)
    ensures forall i | 0 <= i < |s.flows + [r]| :: var x := (s.flows + [r])[i];
              x.key in s.last[r.key := r.time] && x.time <= s.last[r.key := r.time][x.key]
  {
    forall i | 0 <= i < |s.flows|
      ensures s.flows[i].key == r.key ==> s.flows[i].time + minPeriod <= r.time
    {
    }
  }

  lemma {:induction false} ProcessKeepsInv(s: State, minPeriod: nat, m: Message, items: seq<Item>, t: int)
    requires Inv(s, minPeriod) && Timely(items, t) && m.now <= t
    ensures Inv(Process(s, minPeriod, m, items), minPeriod)
    decreases |items|
  {
    if items != [] {
      var it := items[0];
      var key := m.base + it.name;
      if TooFast(s, minPeriod, m.now, key) {
        ProcessKeepsInv(s, minPeriod, m, items[1..], it.stamp);
      } else if m.topic == FlowRateTopic && m.unit == "m3/s" && it.dbOk {
        StoreKeepsInv(s, minPeriod, m, it);
        ProcessKeepsInv(Publish(Store(s, m, it), it), minPeriod, m, items[1..], it.stamp);
      } else if m.topic == WaterLevelTopic && m.unit == "m" && it.dbOk {
        ProcessKeepsInv(s.(levels := s.levels + [it.value]), minPeriod, m, items[1..], it.stamp);
      }
    }
  }

  lemma {:induction false} LastStampGrows(items: seq<Item>, t: int)
    requires Timely(items, t)
    ensures LastStamp(items, t) >= t
    decreases |items|
  {
    if items != [] { LastStampGrows(items[1..], items[0].stamp); }
  }

  lemma {:induction false} RunKeepsInv(s: State, minPeriod: nat, ms: seq<Message>, t: int)
    requires Inv(s, minPeriod) && TimelyRun(ms, t)
    ensures Inv(Run(s, minPeriod, ms), minPeriod)
    decreases |ms|
  {
    if ms != [] {
      ProcessKeepsInv(s, minPeriod, ms[0], ms[0].items, ms[0].now);
      RunKeepsInv(Process(s, minPeriod, ms[0], ms[0].items), minPeriod, ms[1..], LastStamp(ms[0].items, ms[0].now));
    }
  }

  /** How many records of a key fall into the window from a to b. */
  function CountIn(flows: seq<Stored>, key: string, a: int, b: int): nat {
    if flows == [] then 0
    else
      var r := flows[|flows| - 1];
      CountIn(flows[..|flows| - 1], key, a, b) + if r.key == key && a <= r.time <= b then 1 else 0
  }

  lemma {:induction false} CountInNarrows(flows: seq<Stored>, key: string, a: int, b: int, c: int)
    requires forall i | 0 <= i < |flows| && flows[i].key == key :: flows[i].time <= c
    requires c <= b
    ensures CountIn(flows, key, a, b) == CountIn(flows, key, a, c)
  {
    if flows != [] { CountInNarrows(flows[..|flows| - 1], key, a, b, c); }
  }

  lemma {:induction false} SpacedWindow(flows: seq<Stored>, key: string, minPeriod: nat, a: int, b: int)
    requires KeySpaced(flows, minPeriod)
    ensures CountIn(flows, key, a, b) > 0 ==> minPeriod * (CountIn(flows, key, a, b) - 1) <= b - a
    decreases |flows|
  {
    if flows != [] {
      var init, r := flows[..|flows| - 1], flows[|flows| - 1];
      SpacedWindow(init, key, minPeriod, a, b);
      if r.key == key && a <= r.time <= b {
        var c := r.time - minPeriod;
        CountInNarrows(init, key, a, b, c);
        SpacedWindow(init, key, minPeriod, a, c);
        var n: int := CountIn(init, key, a, c);
        assert minPeriod * n == minPeriod * (n - 1) + minPeriod;
      }
    }
  }

  lemma MultiplyKeepsOrder(p: nat, a: int, b: int)
    requires a <= b
    ensures p * a <= p * b
  {
  }

  lemma QuotientBound(p: nat, n: int, w: nat)
    requires p > 0 && p * n <= w
    ensures n <= w / p
  {
    var q := w / p;
    assert w < p * (q + 1);
    if n > q {
      MultiplyKeepsOrder(p, q + 1, n);
      assert false;
    }
  }

  lemma SpacedWindowBound(flows: seq<Stored>, key: string, minPeriod: nat, a: int, w: nat)
    requires minPeriod > 0 && KeySpaced(flows, minPeriod)
    ensures CountIn(flows, key, a, a + w) <= w / minPeriod + 1
  {
    SpacedWindow(flows, key, minPeriod, a, a + w);
    var n: int := CountIn(flows, key, a, a + w);
    if n > 0 { QuotientBound(minPeriod, n - 1, w); }
  }

  /** The limiter's promise, over every run with a clock that does not go back, failed insertions included:
      a window of length w holds at most w / minPeriod + 1 flow records of one mote and channel. */
  lemma WindowBound(minPeriod: nat, ms: seq<Message>, t: int, key: string, a: int, w: nat)
    requires minPeriod > 0 && TimelyRun(ms, t)
    ensures CountIn(Run(EMPTY, minPeriod, ms).flows, key, a, a + w) <= w / minPeriod + 1
  {
    RunKeepsInv(EMPTY, minPeriod, ms, t);
    SpacedWindowBound(Run(EMPTY, minPeriod, ms).flows, key, minPeriod, a, w);
  }

  predicate IsRecordOf(r: Stored, m: Message, it: Item) { r == Stored(m.base + it.name, it.name, it.stamp, it.value) }

  /** A message only appends records, each of one of its own measurements. */
  lemma {:induction false} StoresOnlyItsOwn(s: State, minPeriod: nat, m: Message, items: seq<Item>)
    ensures var flows := Process(s, minPeriod, m, items).flows;
            && s.flows <= flows
            && forall j | |s.flows| <= j < |flows| :: exists i | 0 <= i < |items| :: IsRecordOf(flows[j], m, items[i])
    decreases |items|
  {
    if items != [] {
      var it := items[0];
      var key := m.base + it.name;
      var next := if TooFast(s, minPeriod, m.now, key) then s
                  else if m.topic == FlowRateTopic then Publish(Store(s, m, it), it) else s.(levels := s.levels + [it.value]);
      StoresOnlyItsOwn(next, minPeriod, m, items[1..]);
      var flows := Process(next, minPeriod, m, items[1..]).flows;
      forall j | |s.flows| <= j < |flows|
        ensures exists i | 0 <= i < |items| :: IsRecordOf(flows[j], m, items[i])
      {
        if j < |next.flows| {
          assert IsRecordOf(flows[j], m, items[0]);
        } else {
          var i :| 0 <= i < |items[1..]| && IsRecordOf(flows[j], m, items[1..][i]);
          assert IsRecordOf(flows[j], m, items[i + 1]);
        }
      }
    }
  }

  /** The log has a record of the key later than a given time. */
  ghost predicate HasSince(flows: seq<Stored>, key: string, since: int) {
    exists j | 0 <= j < |flows| :: flows[j].key == key && since < flows[j].time
  }

  lemma HasSinceGrows(flows: seq<Stored>, more: seq<Stored>, key: string, since: int)
    requires HasSince(flows, key, since) && flows <= more
    ensures HasSince(more, key, since)
  {
    var j :| 0 <= j < |flows| && flows[j].key == key && since < flows[j].time;
    assert more[j] == flows[j];
  }

  /** The state after the first measurement of an error-free flow message. */
  function Taken(s: State, minPeriod: nat, m: Message, it: Item): State {
    if TooFast(s, minPeriod, m.now, m.base + it.name) then s else Publish(Store(s, m, it), it)
  }

  /** Stored or dropped, a measurement of an error-free flow message leaves its key with a record younger than minPeriod. */
  lemma ItemLeavesFreshRecord(s: State, minPeriod: nat, m: Message, it: Item)
    requires Inv(s, minPeriod) && m.now <= it.stamp && minPeriod > 0
    ensures var next := Taken(s, minPeriod, m, it);
            Inv(next, minPeriod) && HasSince(next.flows, m.base + it.name, m.now - minPeriod)
  {
    if TooFast(s, minPeriod, m.now, m.base + it.name) {
      DropsOnlyTooFast(s, minPeriod, m.now, m.base + it.name);
    } else {
      StoreKeepsInv(s, minPeriod, m, it);
      assert Publish(Store(s, m, it), it).flows[|s.flows|].key == m.base + it.name;
    }
  }

  lemma {:induction false} LeavesFreshRecord(s: State, minPeriod: nat, m: Message, items: seq<Item>, t: int, k: nat)
    requires Inv(s, minPeriod) && Timely(items, t) && m.now <= t && minPeriod > 0
    requires m.topic == FlowRateTopic && m.unit == "m3/s" && forall i | 0 <= i < |items| :: items[i].dbOk
    requires k < |items|
    ensures HasSince(Process(s, minPeriod, m, items).flows, m.base + items[k].name, m.now - minPeriod)
    decreases |items|
  {
    var it, rest := items[0], items[1..];
    var next := Taken(s, minPeriod, m, it);
    ItemLeavesFreshRecord(s, minPeriod, m, it);
    assert Process(s, minPeriod, m, items) == Process(next, minPeriod, m, rest);
    if k == 0 {
      StoresOnlyItsOwn(next, minPeriod, m, rest);
      HasSinceGrows(next.flows, Process(next, minPeriod, m, rest).flows, m.base + it.name, m.now - minPeriod);
    } else {
      LeavesFreshRecord(next, minPeriod, m, rest, it.stamp, k - 1);
    }
  }

  /** An error-free flow message leaves every channel it names with a record younger than minPeriod: the limiter drops
      nothing but what such a record forces out. */
  lemma LeavesFreshRecords(s: State, minPeriod: nat, m: Message, items: seq<Item>, t: int)
    requires Inv(s, minPeriod) && Timely(items, t) && m.now <= t && minPeriod > 0
    requires m.topic == FlowRateTopic && m.unit == "m3/s" && forall i | 0 <= i < |items| :: items[i].dbOk
    ensures forall i | 0 <= i < |items| ::
              HasSince(Process(s, minPeriod, m, items).flows, m.base + items[i].name, m.now - minPeriod)
  {
    forall k | 0 <= k < |items|
      ensures HasSince(Process(s, minPeriod, m, items).flows, m.base + items[k].name, m.now - minPeriod)
    {
      LeavesFreshRecord(s, minPeriod, m, items, t, k);
    }
  }

  /** A dropped measurement had a record of its key less than minPeriod before the message. */
  lemma DropsOnlyTooFast(s: State, minPeriod: nat, now: int, key: string)
    requires Inv(s, minPeriod)
    ensures TooFast(s, minPeriod, now, key)
            <==> exists i | 0 <= i < |s.flows| :: s.flows[i].key == key && now - minPeriod < s.flows[i].time
  {
  }

  /** Water levels pass the limiter unless some flow record carries their key: their own records are never remembered. */
  lemma {:induction false} LevelsAreNotLimited(s: State, minPeriod: nat, m: Message, items: seq<Item>)
    requires m.topic == WaterLevelTopic && m.unit == "m"
    requires forall i | 0 <= i < |items| :: items[i].dbOk && m.base + items[i].name !in s.last
    ensures Process(s, minPeriod, m, items) == s.(levels := s.levels + seq(|items|, i requires 0 <= i < |items| => items[i].value))
    decreases |items|
  {
    if items != [] {
      var s1 := s.(levels := s.levels + [items[0].value]);
      LevelsAreNotLimited(s1, minPeriod, m, items[1..]);
      assert [items[0].value] + seq(|items| - 1, i requires 0 <= i < |items| - 1 => items[1..][i].value)
          == seq(|items|, i requires 0 <= i < |items| => items[i].value);
      assert s1.levels + seq(|items| - 1, i requires 0 <= i < |items| - 1 => items[1..][i].value)
          == s.levels + ([items[0].value] + seq(|items| - 1, i requires 0 <= i < |items| - 1 => items[1..][i].value));
    }
  }

  // The simulation feed.

  ghost predicate FeedInv(s: State) {
    && (forall i | 0 <= i < |s.published| - 1 :: s.published[i] != s.published[i + 1])
    && s.gate == if s.published == [] then None else Some(s.published[|s.published| - 1])
  }

  lemma {:induction false} ProcessKeepsFeed(s: State, minPeriod: nat, m: Message, items: seq<Item>)
    requires FeedInv(s)
    ensures FeedInv(Process(s, minPeriod, m, items))
    decreases |items|
  {
    if items != [] {
      var it := items[0];
      ProcessKeepsFeed(s, minPeriod, m, items[1..]);
      ProcessKeepsFeed(Publish(Store(s, m, it), it), minPeriod, m, items[1..]);
      ProcessKeepsFeed(s.(levels := s.levels + [it.value]), minPeriod, m, items[1..]);
    }
  }

  /** No two consecutive publications of a run are equal. */
  lemma {:induction false} FeedNeverRepeats(s: State, minPeriod: nat, ms: seq<Message>)
    requires FeedInv(s)
    ensures FeedInv(Run(s, minPeriod, ms))
    decreases |ms|
  {
    if ms != [] {
      ProcessKeepsFeed(s, minPeriod, ms[0], ms[0].items);
      FeedNeverRepeats(Process(s, minPeriod, ms[0], ms[0].items), minPeriod, ms[1..]);
    }
  }

  /** The percentage is the nearest whole one, a half going up. */
  lemma QuantiseRounds(value: real)
    ensures Quantise(value) as real - 0.5 <= value / 0.8 < Quantise(value) as real + 0.5
  {
    assert value / 80.0 * 100.0 == value / 0.8;
  }

  /** Only readings of the inflow channel are published: everything a message publishes is the percentage of one of them. */
  lemma {:induction false} PublishesOnlyInflow(s: State, minPeriod: nat, m: Message, items: seq<Item>)
    ensures var next := Process(s, minPeriod, m, items);
            && s.published <= next.published
            && (forall j | |s.published| <= j < |next.published| :: exists i | 0 <= i < |items| :: FeedsFrom(next.published[j], items[i]))
            && (next.published == s.published ==> next.gate == s.gate)
    decreases |items|
  {
    if items != [] {
      var it, rest := items[0], items[1..];
      var key := m.base + it.name;
      var next := if TooFast(s, minPeriod, m.now, key) then s
                  else if m.topic == FlowRateTopic then Publish(Store(s, m, it), it) else s.(levels := s.levels + [it.value]);
      PublishesOnlyInflow(next, minPeriod, m, rest);
      var published := Process(next, minPeriod, m, rest).published;
      forall j | |s.published| <= j < |published|
        ensures exists i | 0 <= i < |items| :: FeedsFrom(published[j], items[i])
      {
        if j < |next.published| {
          assert FeedsFrom(published[j], items[0]);
        } else {
          var i :| 0 <= i < |rest| && FeedsFrom(published[j], rest[i]);
          assert FeedsFrom(published[j], items[i + 1]);
        }
      }
    }
  }

  predicate FeedsFrom(percent: int, it: Item) { it.name == "inflow" && it.brokerOk && percent == Quantise(it.value) }

  lemma {:induction false} NoInflowNoFeed(s: State, minPeriod: nat, m: Message, items: seq<Item>)
    requires forall i | 0 <= i < |items| :: items[i].name != "inflow"
    ensures Process(s, minPeriod, m, items).published == s.published && Process(s, minPeriod, m, items).gate == s.gate
    decreases |items|
  {
    if items != [] {
      NoInflowNoFeed(s, minPeriod, m, items[1..]);
      NoInflowNoFeed(Store(s, m, items[0]), minPeriod, m, items[1..]);
      NoInflowNoFeed(s.(levels := s.levels + [items[0].value]), minPeriod, m, items[1..]);
    }
  }

  predicate DistinctNames(items: seq<Item>) { forall i, j | 0 <= i < j < |items| :: items[i].name != items[j].name }

  lemma SameBaseSameName(base: string, a: string, b: string)
    requires base + a == base + b
    ensures a == b
  {
    assert (base + a)[|base|..] == a && (base + b)[|base|..] == b;
  }

  /** A measurement holds up no other name. */
  lemma OthersStayFresh(s: State, minPeriod: nat, m: Message, it: Item, name: string)
    requires it.name != name && !TooFast(s, minPeriod, m.now, m.base + name)
    ensures !TooFast(Taken(s, minPeriod, m, it), minPeriod, m.now, m.base + name)
  {
    if m.base + it.name == m.base + name { SameBaseSameName(m.base, it.name, name); }
  }

  /** The k-th measurement of the flow message is an inflow reading that gets stored, and the broker is there for it. */
  ghost predicate InflowArrives(s: State, minPeriod: nat, m: Message, items: seq<Item>, k: nat) {
    && m.topic == FlowRateTopic && m.unit == "m3/s" && DistinctNames(items)
    && k < |items| && items[k].name == "inflow" && items[k].brokerOk
    && (forall i | 0 <= i <= k :: items[i].dbOk) && !TooFast(s, minPeriod, m.now, m.base + "inflow")
  }

  /** And an inflow reading that is stored is published, unless it is the percentage published last: the remembered gate is
      its percentage after the message, whatever follows it there. */
  lemma {:induction false} InflowIsPublished(s: State, minPeriod: nat, m: Message, items: seq<Item>, k: nat)
    requires InflowArrives(s, minPeriod, m, items, k)
    ensures var (next, percent) := (Process(s, minPeriod, m, items), Quantise(items[k].value));
            && next.gate == Some(percent)
            && next.published == if s.gate == Some(percent) then s.published else s.published + [percent]
    decreases |items|
  {
    var it, rest := items[0], items[1..];
    assert forall i | 0 <= i < |rest| :: rest[i] == items[i + 1];
    if k > 0 {
      OthersStayFresh(s, minPeriod, m, it, "inflow");
      InflowIsPublished(Taken(s, minPeriod, m, it), minPeriod, m, rest, k - 1);
    } else {
      var next := Process(s, minPeriod, m, items);
      NoInflowNoFeed(Taken(s, minPeriod, m, it), minPeriod, m, rest);
      assert next == Process(Taken(s, minPeriod, m, it), minPeriod, m, rest);
    }
  }

  /** So it is what the simulation heard last. */
  lemma InflowIsHeardLast(s: State, minPeriod: nat, m: Message, items: seq<Item>, k: nat)
    requires FeedInv(s) && InflowArrives(s, minPeriod, m, items, k)
    ensures var published := Process(s, minPeriod, m, items).published;
            published != [] && published[|published| - 1] == Quantise(items[k].value)
  {
    InflowIsPublished(s, minPeriod, m, items, k);
  }

  /** An error-free flow message with fresh names is stored whole, in order. */
  lemma {:induction false} StoresAll(s: State, minPeriod: nat, m: Message, items: seq<Item>)
    requires m.topic == FlowRateTopic && m.unit == "m3/s" && DistinctNames(items)
    requires forall i | 0 <= i < |items| :: items[i].dbOk && !TooFast(s, minPeriod, m.now, m.base + items[i].name)
    ensures var flows := Process(s, minPeriod, m, items).flows;
            && |flows| == |s.flows| + |items| && s.flows <= flows
            && forall i | 0 <= i < |items| :: IsRecordOf(flows[|s.flows| + i], m, items[i])
    decreases |items|
  {
    if items != [] {
      var it, rest := items[0], items[1..];
      var next := Taken(s, minPeriod, m, it);
      forall i | 0 <= i < |rest|
        ensures rest[i].dbOk && !TooFast(next, minPeriod, m.now, m.base + rest[i].name)
      {
        assert rest[i] == items[i + 1];
        OthersStayFresh(s, minPeriod, m, it, rest[i].name);
      }
      assert DistinctNames(rest);
      StoresAll(next, minPeriod, m, rest);
      var flows := Process(next, minPeriod, m, rest).flows;
      forall i | 0 <= i < |items|
        ensures IsRecordOf(flows[|s.flows| + i], m, items[i])
      {
        if i > 0 { assert IsRecordOf(flows[|next.flows| + (i - 1)], m, rest[i - 1]); }
      }
    }
  }

  /** A message of an unknown topic or with the wrong unit changes nothing. */
  lemma {:induction false} BadMessageChangesNothing(s: State, minPeriod: nat, m: Message, items: seq<Item>)
    requires m.topic == UnknownTopic || m.unit != (if m.topic == FlowRateTopic then "m3/s" else "m")
    ensures Process(s, minPeriod, m, items) == s
    decreases |items|
  {
    if items != [] { BadMessageChangesNothing(s, minPeriod, m, items[1..]); }
  }

  /** A failed insertion ends its message: what comes before it stays, what follows is ignored. */
  lemma {:induction false} FailureEndsMessage(s: State, minPeriod: nat, m: Message, items: seq<Item>, k: nat)
    requires DistinctNames(items) && k < |items| && !items[k].dbOk && !TooFast(s, minPeriod, m.now, m.base + items[k].name)
    ensures Process(s, minPeriod, m, items) == Process(s, minPeriod, m, items[..k])
    decreases |items|
  {
    if k > 0 {
      var it, rest := items[0], items[1..];
      assert rest[k - 1] == items[k] && rest[..k - 1] == items[..k][1..];
      assert DistinctNames(rest);
      OthersStayFresh(s, minPeriod, m, it, items[k].name);
      FailureEndsMessage(s, minPeriod, m, rest, k - 1);
      FailureEndsMessage(Taken(s, minPeriod, m, it), minPeriod, m, rest, k - 1);
      FailureEndsMessage(s.(levels := s.levels + [it.value]), minPeriod, m, rest, k - 1);
    }
  }

  /** The rows the log gets; ids grow by insertion. */
  function LogOf(flows: seq<Stored>): Log {
    seq(|flows|, i requires 0 <= i < |flows| => Row(i, flows[i].channel, flows[i].time, flows[i].value))
  }

  /** All records of the channel come from one mote. */
  predicate OneMoteFeeds(flows: seq<Stored>, c: string) {
    forall i, j | 0 <= i < |flows| && 0 <= j < |flows| && flows[i].channel == flows[j].channel == c :: flows[i].key == flows[j].key
  }

  lemma OneMoteIsSpaced(flows: seq<Stored>, c: string, minPeriod: nat)
    requires KeySpaced(flows, minPeriod) && OneMoteFeeds(flows, c)
    ensures FlowLog.Ordered(LogOf(flows)) && Spaced(LogOf(flows), c, minPeriod)
  {
    var log := LogOf(flows);
    forall i, j | 0 <= i < j < |log| && log[i].channel == log[j].channel == c
      ensures log[i].time + minPeriod <= log[j].time
    {
      assert log[i].channel == flows[i].channel && log[j].channel == flows[j].channel;
      assert flows[i].key == flows[j].key;
    }
  }

  /** When one mote feeds a channel, the newest row by time is the newest row by id, on every run:
      the control unit's two queries then look at the same rows. */
  lemma QueriesAgree(minPeriod: nat, ms: seq<Message>, t: int, c: string, r: Row)
    requires minPeriod > 0 && TimelyRun(ms, t) && OneMoteFeeds(Run(EMPTY, minPeriod, ms).flows, c)
    ensures var log := LogOf(Run(EMPTY, minPeriod, ms).flows);
            LatestByTime(log, c, r) <==> LatestById(log, c, r)
  {
    var flows := Run(EMPTY, minPeriod, ms).flows;
    RunKeepsInv(EMPTY, minPeriod, ms, t);
    OneMoteIsSpaced(flows, c, minPeriod);
    LatestByTimeIsLatestById(LogOf(flows), c, minPeriod, r);
  }

  class Subscriber {
    const minPeriod: nat
    var lastRecord: map<string, int>
    var inflowGate: Option<int>
    var flows: seq<Stored>
    var levels: seq<real>
    var published: seq<int>

    function View(): State
      reads this
    {
      State(lastRecord, inflowGate, flows, levels, published)
    }

    constructor (minPeriod: nat)
      ensures View() == EMPTY && this.minPeriod == minPeriod
    {
      this.minPeriod := minPeriod;
      lastRecord, inflowGate, flows, levels, published := map[], None, [], [], [];
    }

    method MessageArrived(m: Message)
      modifies this
      ensures View() == Process(old(View()), minPeriod, m, m.items)
    {
      for i := 0 to |m.items|
        invariant Process(View(), minPeriod, m, m.items[i..]) == Process(old(View()), minPeriod, m, m.items)
      {
        var it := m.items[i];
        assert m.items[i..][0] == it && m.items[i..][1..] == m.items[i + 1..];
        var key := m.base + it.name;
        if key in lastRecord && m.now - minPeriod < lastRecord[key] { continue; }
        match m.topic {
          case FlowRateTopic =>
            if m.unit != "m3/s" || !it.dbOk { return; }
            flows := flows + [Stored(key, it.name, it.stamp, it.value)];
            lastRecord := lastRecord[key := it.stamp];
            Simulate(it);
          case WaterLevelTopic =>
            if m.unit != "m" || !it.dbOk { return; }
            levels := levels + [it.value];
          case UnknownTopic =>
            return;
        }
      }
    }

    method Simulate(it: Item)
      modifies this`inflowGate, this`published
      ensures View() == Publish(old(View()), it)
    {
      if it.name == INFLOW {
        var newValue := Quantise(it.value);
        if (inflowGate == None || inflowGate.value != newValue) && it.brokerOk {
          published := published + [newValue];
          inflowGate := Some(newValue);
        }
      }
    }
  }
}
