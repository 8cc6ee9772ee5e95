/** Motes/lib/mqtt-client/mqtt-client.c: the connection state machine and its backoff, over arbitrary
    interleavings of broker events and timer polls. */
module MqttClient {
  datatype State = Boot | Init | NetOk | Connecting | Connected | Subscribed | Disconnected

  datatype BrokerEvent = Up | Down | Inert // Inert: publish received, suback, unsuback, puback, unknown

  datatype Input = Event(e: BrokerEvent) | Poll(connectivity: bool, queueFull: bool)

  /** What an observer sees: broker events, calls into the MQTT library, backoff delays. */
  datatype Action = Broker(e: BrokerEvent) | Register | Connect | Subscribe(accepted: bool) | Publish
                  | Disconnect | Backoff(ticks: nat)

  datatype Reply = NoReply | Again(ticks: nat) | QueueWasFull

  const MAX_BACKOFF_EXP := 6

  function Pow2(k: nat): nat { if k == 0 then 1 else 2 * Pow2(k - 1) }

  /** The k-th delay, counted from 0: seconds 1, 2, 4, .. 64, 64, .. */
  function Delay(clockSecond: nat, k: nat): nat {
    clockSecond * Pow2(if k < MAX_BACKOFF_EXP then k else MAX_BACKOFF_EXP)
  }

  datatype Client = Client(clockSecond: nat, publishPeriod: nat, state: State, trial: nat, period: nat) {
    /** The client after an input, what it did, and what the caller was told. */
    function Step(i: Input): (Client, seq<Action>, Reply) {
      match i
      case Event(Up) => (this.(state := Connected), [Broker(Up)], NoReply)
      case Event(Down) => (this.(state := Disconnected), [Broker(Down)], NoReply)
      case Event(Inert) => (this, [Broker(Inert)], NoReply)
      case Poll(connectivity, queueFull) =>
        match state
        case Boot =>
          if connectivity then (this.(state := Connecting), [Register, Connect], Again(period))
          else (this.(state := Init), [Register], Again(period))
        case Init =>
          if connectivity then (this.(state := Connecting), [Connect], Again(period))
          else (this, [], Again(period))
        case NetOk => (this.(state := Connecting), [Connect], Again(period))
        case Connecting => (this, [], Again(period))
        case Connected =>
          if queueFull then (this, [Subscribe(false)], QueueWasFull)
          else (this.(state := Subscribed, trial := 0), [Subscribe(true)], Again(publishPeriod))
        case Subscribed => (this.(period := publishPeriod), [Publish], Again(publishPeriod))
        case Disconnected =>
          var d := Delay(clockSecond, trial);
          (this.(state := Init, trial := trial + 1, period := d), [Disconnect, Backoff(d)], Again(d))
    }
  }

  /** Broker events need the callback that the first poll registers. */
  predicate Feasible(inputs: seq<Input>) { inputs != [] ==> inputs[0].Poll? }

  function Start(clockSecond: nat, publishPeriod: nat): Client {
    Client(clockSecond, publishPeriod, Boot, 0, clockSecond)
  }

  function Run(c: Client, inputs: seq<Input>): (Client, seq<Action>) {
    if inputs == [] then (c, [])
    else
      var (before, trace) := Run(c, inputs[..|inputs| - 1]);
      var (after, acts, _) := before.Step(inputs[|inputs| - 1]);
      (after, trace + acts)
  }

  // Monitors over a trace, each a fold from its end.

  /** An accepted subscription is the latest thing that happened, publications and inert events aside. */
  predicate Live(t: seq<Action>) {
    t != [] && match t[|t| - 1]
               case Subscribe(ok) => ok
               case Publish => Live(t[..|t| - 1])
               case Broker(Inert) => Live(t[..|t| - 1])
               case _ => false
  }

  /** A connect call that no broker disconnection has followed. */
  predicate Dialled(t: seq<Action>) {
    t != [] && match t[|t| - 1]
               case Connect => true
               case Broker(Down) => false
               case _ => Dialled(t[..|t| - 1])
  }

  /** The delays issued since the start or the latest accepted subscription, oldest first. */
  function Delays(t: seq<Action>): seq<nat> {
    if t == [] then []
    else
      match t[|t| - 1]
      case Subscribe(true) => []
      case Backoff(d) => Delays(t[..|t| - 1]) + [d]
      case _ => Delays(t[..|t| - 1])
  }

  function BackoffLadder(clockSecond: nat, n: nat): seq<nat> { seq(n, (k: nat) => Delay(clockSecond, k)) }

  ghost predicate Safe(t: seq<Action>) {
    && (forall i | 0 <= i < |t| && t[i] == Publish :: Live(t[..i]))
    && (forall i | 0 <= i < |t| && t[i] == Connect :: !Dialled(t[..i]))
    && (forall i | 0 <= i < |t| :: t[i] == Register <==> i == 0)
  }

  /** What ties the client's fields to its past. */
  ghost predicate Inv(c: Client, t: seq<Action>) {
    && Safe(t)
    && (c.state == Boot <==> t == [])
    && (c.state == Subscribed ==> Live(t))
    && (c.state in {Boot, Init, NetOk, Disconnected} ==> !Dialled(t))
    && Delays(t) == BackoffLadder(c.clockSecond, c.trial)
  }

  lemma Extend(t: seq<Action>, a: Action)
    ensures (t + [a])[..|t|] == t && |t + [a]| == |t| + 1
    ensures Safe(t) && (a == Publish ==> Live(t)) && (a == Connect ==> !Dialled(t)) && (a == Register <==> t == [])
            ==> Safe(t + [a])
    ensures Live(t + [a]) == (a == Subscribe(true) || (a in {Publish, Broker(Inert)} && Live(t)))
    ensures Dialled(t + [a]) == (a == Connect || (a != Broker(Down) && Dialled(t)))
    ensures Delays(t + [a])
            == if a == Subscribe(true) then [] else if a.Backoff? then Delays(t) + [a.ticks] else Delays(t)
  {
    assert (t + [a])[..|t|] == t;
    assert forall i | 0 <= i < |t| :: (t + [a])[..i] == t[..i];
  }

  lemma StepKeepsInv(c: Client, t: seq<Action>, i: Input)
    requires Inv(c, t) && (c.state == Boot ==> i.Poll?)
    ensures Inv(c.Step(i).0, t + c.Step(i).1)
  {
    if i.Event? {
      EventKeepsInv(c, t, i.e);
    } else if c.state == Boot {
      BootPollKeepsInv(c, t, i);
    } else if c.state == Disconnected {
      DisconnectedPollKeepsInv(c, t, i);
    } else {
      OtherPollKeepsInv(c, t, i);
    }
  }

  lemma EventKeepsInv(c: Client, t: seq<Action>, e: BrokerEvent)
    requires Inv(c, t) && c.state != Boot
    ensures Inv(c.Step(Event(e)).0, t + c.Step(Event(e)).1)
  {
    Extend(t, Broker(e));
  }

  lemma OtherPollKeepsInv(c: Client, t: seq<Action>, i: Input)
    requires Inv(c, t) && c.state != Boot && c.state != Disconnected && i.Poll?
    ensures Inv(c.Step(i).0, t + c.Step(i).1)
  {
    var acts := c.Step(i).1;
    assert BackoffLadder(c.clockSecond, 0) == [];
    if acts == [] {
      assert t + acts == t;
    } else {
      assert acts == [acts[0]];
      Extend(t, acts[0]);
    }
  }

  lemma BootPollKeepsInv(c: Client, t: seq<Action>, i: Input)
    requires Inv(c, t) && c.state == Boot && i.Poll?
    ensures Inv(c.Step(i).0, t + c.Step(i).1)
  {
    Extend(t, Register);
    if i.connectivity {
      Extend(t + [Register], Connect);
      assert t + c.Step(i).1 == t + [Register] + [Connect];
    }
  }

  lemma DisconnectedPollKeepsInv(c: Client, t: seq<Action>, i: Input)
    requires Inv(c, t) && c.state == Disconnected && i.Poll?
    ensures Inv(c.Step(i).0, t + c.Step(i).1)
  {
    var d := Delay(c.clockSecond, c.trial);
    Extend(t, Disconnect);
    Extend(t + [Disconnect], Backoff(d));
    assert t + c.Step(i).1 == t + [Disconnect] + [Backoff(d)];
    assert BackoffLadder(c.clockSecond, c.trial + 1) == BackoffLadder(c.clockSecond, c.trial) + [d];
  }

  lemma {:induction false} RunKeepsInv(clockSecond: nat, publishPeriod: nat, inputs: seq<Input>)
    requires Feasible(inputs)
    ensures var (c, t) := Run(Start(clockSecond, publishPeriod), inputs);
            Inv(c, t) && c.clockSecond == clockSecond && (c.state == Boot <==> inputs == [])
  {
    if inputs != [] {
      var init := inputs[..|inputs| - 1];
      RunKeepsInv(clockSecond, publishPeriod, init);
      var (c, t) := Run(Start(clockSecond, publishPeriod), init);
      StepKeepsInv(c, t, inputs[|inputs| - 1]);
    }
  }

  lemma {:induction false} LiveHasStart(t: seq<Action>) returns (j: nat)
    requires Live(t)
    ensures j < |t| && t[j] == Subscribe(true) && forall k | j < k < |t| :: t[k] in {Publish, Broker(Inert)}
  {
    var n := |t| - 1;
    j := n;
    if t[n] != Subscribe(true) { j := LiveHasStart(t[..n]); }
  }

  lemma {:induction false} StartIsLive(t: seq<Action>, j: nat)
    requires j < |t| && t[j] == Subscribe(true) && forall k | j < k < |t| :: t[k] in {Publish, Broker(Inert)}
    ensures Live(t)
  {
    var n := |t| - 1;
    if j < n { StartIsLive(t[..n], j); }
  }

  lemma LiveMeaning(t: seq<Action>)
    ensures Live(t) <==> exists j | 0 <= j < |t| ::
              t[j] == Subscribe(true) && forall k | j < k < |t| :: t[k] in {Publish, Broker(Inert)}
  {
    if Live(t) {
      var j := LiveHasStart(t);
    } else if j :| 0 <= j < |t| && t[j] == Subscribe(true) && forall k | j < k < |t| :: t[k] in {Publish, Broker(Inert)} {
      StartIsLive(t, j);
    }
  }

  lemma {:induction false} DialledMeaning(t: seq<Action>)
    ensures Dialled(t) <==> exists j | 0 <= j < |t| :: t[j] == Connect && forall k | j < k < |t| :: t[k] != Broker(Down)
  {
    if t != [] {
      var n := |t| - 1;
      DialledMeaning(t[..n]);
      if t[n] != Connect && t[n] != Broker(Down) && Dialled(t) {
        var j :| 0 <= j < n && t[..n][j] == Connect && forall k | j < k < n :: t[..n][k] != Broker(Down);
        assert t[j] == Connect;
      }
    }
  }

  /** Every publish of every run follows an accepted subscribe with nothing but publications and inert
      broker events in between. */
  lemma PublishNeedsSubscription(clockSecond: nat, publishPeriod: nat, inputs: seq<Input>, i: nat)
    requires Feasible(inputs)
    requires var t := Run(Start(clockSecond, publishPeriod), inputs).1; i < |t| && t[i] == Publish
    ensures var t := Run(Start(clockSecond, publishPeriod), inputs).1;
            exists j | 0 <= j < i ::
              t[j] == Subscribe(true) && forall k | j < k < i :: t[k] in {Publish, Broker(Inert)}
  {
    RunKeepsInv(clockSecond, publishPeriod, inputs);
    var t := Run(Start(clockSecond, publishPeriod), inputs).1;
    LiveMeaning(t[..i]);
    var j :| 0 <= j < i && t[..i][j] == Subscribe(true) && forall k | j < k < i :: t[..i][k] in {Publish, Broker(Inert)};
    assert t[j] == Subscribe(true);
    assert forall k | j < k < i :: t[k] == t[..i][k];
  }

  /** Two connect calls of a run are separated by a broker disconnection, and the client registers once, first. */
  lemma ConnectsAreSeparated(clockSecond: nat, publishPeriod: nat, inputs: seq<Input>, i: nat, j: nat)
    requires Feasible(inputs)
    requires var t := Run(Start(clockSecond, publishPeriod), inputs).1; i < j < |t|
    ensures var t := Run(Start(clockSecond, publishPeriod), inputs).1;
            t[i] == t[j] == Connect ==> exists k | i < k < j :: t[k] == Broker(Down)
    ensures var t := Run(Start(clockSecond, publishPeriod), inputs).1;
            t[0] == Register && t[j] != Register
  {
    RunKeepsInv(clockSecond, publishPeriod, inputs);
    var t := Run(Start(clockSecond, publishPeriod), inputs).1;
    if t[i] == t[j] == Connect {
      DialledMeaning(t[..j]);
      assert t[..j][i] == Connect;
      var k :| i < k < j && t[..j][k] == Broker(Down);
      assert t[k] == Broker(Down);
    }
  }

  /** No poll leaves the client in a passing state. */
  lemma PollSettles(c: Client, i: Input)
    requires i.Poll?
    ensures c.Step(i).0.state in {Init, Connecting, Connected, Subscribed}
  {
  }

  /** The trial counter counts the delays since the start or the latest accepted subscription,
      and those delays are the ladder. */
  lemma BackoffLaw(clockSecond: nat, publishPeriod: nat, inputs: seq<Input>)
    requires Feasible(inputs)
    ensures var (c, t) := Run(Start(clockSecond, publishPeriod), inputs);
            |Delays(t)| == c.trial && forall k | 0 <= k < c.trial :: Delays(t)[k] == Delay(clockSecond, k)
  {
    RunKeepsInv(clockSecond, publishPeriod, inputs);
  }

  function Sum(s: seq<nat>): nat { if s == [] then 0 else Sum(s[..|s| - 1]) + s[|s| - 1] }

  /** n delays in a row add up to 2^n - 1 seconds, and to 127 + 64 (n - 7) beyond the seventh. */
  lemma {:induction false} BackoffTotal(clockSecond: nat, n: nat)
    ensures Sum(BackoffLadder(clockSecond, n)) == clockSecond * (if n <= 7 then Pow2(n) - 1 else 127 + 64 * (n - 7))
  {
    if n > 0 {
      BackoffTotal(clockSecond, n - 1);
      var s := BackoffLadder(clockSecond, n);
      assert s[..n - 1] == BackoffLadder(clockSecond, n - 1);
      assert Pow2(6) == 64 && Pow2(7) == 128;
      Distribute(clockSecond, if n <= 8 then Pow2(n - 1) - 1 else 127 + 64 * (n - 8), Pow2(if n <= 6 then n - 1 else 6));
    }
  }

  lemma Distribute(a: int, b: int, c: int)
    ensures a * b + a * c == a * (b + c)
  {
  }

  // Progress: what the client does when the broker and the network let it.

  lemma RunSnoc(c: Client, inputs: seq<Input>, i: Input)
    ensures var (before, trace) := Run(c, inputs);
            var (after, acts, _) := before.Step(i);
            Run(c, inputs + [i]) == (after, trace + acts)
  {
    assert (inputs + [i])[..|inputs|] == inputs;
  }

  /** A run of polls with the queue full, or not. */
  predicate Polls(inputs: seq<Input>, queueFull: bool) {
    forall i | 0 <= i < |inputs| :: inputs[i].Poll? && inputs[i].queueFull == queueFull
  }

  function Times(n: nat, a: Action): seq<Action> { seq(n, _ => a) }

  /** A run goes on from where its beginning ended. */
  lemma {:induction false} RunAppend(c: Client, a: seq<Input>, b: seq<Input>)
    ensures Run(c, a + b).0 == Run(Run(c, a).0, b).0
    ensures Run(c, a + b).1 == Run(c, a).1 + Run(Run(c, a).0, b).1
  {
    if b == [] {
      assert a + b == a;
    } else {
      var init, i := b[..|b| - 1], b[|b| - 1];
      RunAppend(c, a, init);
      RunSnoc(c, a + init, i);
      assert a + b == a + init + [i];
    }
  }

  lemma {:induction false} RefusedPolls(c: Client, polls: seq<Input>)
    requires c.state == Connected && Polls(polls, true)
    ensures Run(c, polls).0 == c && Run(c, polls).1 == Times(|polls|, Subscribe(false))
  {
    if polls != [] {
      RefusedPolls(c, polls[..|polls| - 1]);
      TimesSnoc(|polls| - 1, Subscribe(false));
    }
  }

  lemma {:induction false} SubscribedPolls(c: Client, polls: seq<Input>)
    requires c.state == Subscribed && forall i | 0 <= i < |polls| :: polls[i].Poll?
    ensures Run(c, polls).0.state == Subscribed && Run(c, polls).1 == Times(|polls|, Publish)
  {
    if polls != [] {
      SubscribedPolls(c, polls[..|polls| - 1]);
      TimesSnoc(|polls| - 1, Publish);
    }
  }

  lemma {:induction false} OfflinePolls(c: Client, polls: seq<Input>)
    requires c.state == Init && forall i | 0 <= i < |polls| :: polls[i].Poll? && !polls[i].connectivity
    ensures Run(c, polls).0 == c && Run(c, polls).1 == []
  {
    if polls != [] { OfflinePolls(c, polls[..|polls| - 1]); }
  }

  lemma TimesSnoc(n: nat, a: Action)
    ensures Times(n, a) + [a] == Times(n + 1, a)
  {
  }

  /** After any run, once the broker reports a connection: every poll tries to subscribe until the queue takes it, and every
      poll after that publishes one message. */
  lemma ConnectionLeadsToPublishing(c: Client, inputs: seq<Input>, refused: seq<Input>, connectivity: bool, polls: seq<Input>)
    requires Polls(refused, true) && forall i | 0 <= i < |polls| :: polls[i].Poll?
    ensures Run(c, inputs + [Event(Up)] + refused + [Poll(connectivity, false)] + polls).1
            == Run(c, inputs).1 + [Broker(Up)] + Times(|refused|, Subscribe(false)) + [Subscribe(true)] + Times(|polls|, Publish)
  {
    var up := inputs + [Event(Up)];
    var tried := up + refused;
    var done := tried + [Poll(connectivity, false)];
    RunSnoc(c, inputs, Event(Up));
    RunAppend(c, up, refused);
    RefusedPolls(Run(c, up).0, refused);
    RunSnoc(c, tried, Poll(connectivity, false));
    RunAppend(c, done, polls);
    SubscribedPolls(Run(c, done).0, polls);
  }

  /** After any run, once the broker reports a disconnection: the next poll disconnects and sets the next delay of the ladder,
      polls without a network do nothing, and the first one with a network connects. */
  lemma DisconnectionLeadsToConnect(c: Client, inputs: seq<Input>, connectivity: bool, offline: seq<Input>, q1: bool, q2: bool)
    requires forall i | 0 <= i < |offline| :: offline[i].Poll? && !offline[i].connectivity
    ensures Run(c, inputs + [Event(Down)] + [Poll(connectivity, q1)] + offline + [Poll(true, q2)]).1
            == Run(c, inputs).1 + [Broker(Down)] + [Disconnect, Backoff(Delay(Run(c, inputs).0.clockSecond, Run(c, inputs).0.trial))]
               + [Connect]
  {
    var down := inputs + [Event(Down)];
    var idle := down + [Poll(connectivity, q1)];
    RunSnoc(c, inputs, Event(Down));
    RunSnoc(c, down, Poll(connectivity, q1));
    OfflineThenConnect(c, idle, offline, q2);
  }

  lemma OfflineThenConnect(c: Client, idle: seq<Input>, offline: seq<Input>, q: bool)
    requires Run(c, idle).0.state == Init && forall i | 0 <= i < |offline| :: offline[i].Poll? && !offline[i].connectivity
    ensures Run(c, idle + offline + [Poll(true, q)]).1 == Run(c, idle).1 + [Connect]
  {
    RunAppend(c, idle, offline);
    OfflinePolls(Run(c, idle).0, offline);
    assert Run(c, idle).1 + [] == Run(c, idle).1;
    RunSnoc(c, idle + offline, Poll(true, q));
  }

  /** The same from the start: the first poll registers, and the first one with a network connects. */
  lemma BootLeadsToConnect(c: Client, offline: seq<Input>, q1: bool, q2: bool)
    requires c.state == Boot && forall i | 0 <= i < |offline| :: offline[i].Poll? && !offline[i].connectivity
    ensures Run(c, [Poll(false, q1)] + offline + [Poll(true, q2)]).1 == [Register] + [Connect]
    ensures Run(c, [Poll(true, q1)]).1 == [Register, Connect]
  {
    OneStep(c, Poll(false, q1));
    OneStep(c, Poll(true, q1));
    OfflineThenConnect(c, [Poll(false, q1)], offline, q2);
  }

  lemma OneStep(c: Client, i: Input)
    ensures Run(c, [i]) == (c.Step(i).0, c.Step(i).1)
  {
    RunSnoc(c, [], i);
    assert [] + [i] == [i] && [] + c.Step(i).1 == c.Step(i).1;
  }

  /** The period a waiting poll answers: the latest delay, or the publication period if a publication came later. */
  function PeriodAfter(clockSecond: nat, publishPeriod: nat, t: seq<Action>): nat {
    if t == [] then clockSecond
    else
      match t[|t| - 1]
      case Backoff(d) => d
      case Publish => publishPeriod
      case _ => PeriodAfter(clockSecond, publishPeriod, t[..|t| - 1])
  }

  lemma PeriodSnoc(clockSecond: nat, publishPeriod: nat, t: seq<Action>, a: Action)
    ensures PeriodAfter(clockSecond, publishPeriod, t + [a])
            == if a.Backoff? then a.ticks else if a == Publish then publishPeriod else PeriodAfter(clockSecond, publishPeriod, t)
  {
    assert (t + [a])[..|t|] == t;
  }

  lemma StepKeepsPeriod(c: Client, t: seq<Action>, i: Input, clockSecond: nat)
    requires c.period == PeriodAfter(clockSecond, c.publishPeriod, t)
    ensures c.Step(i).0.period == PeriodAfter(clockSecond, c.publishPeriod, t + c.Step(i).1)
  {
    var acts := c.Step(i).1;
    if i.Poll? && c.state == Disconnected {
      PeriodOfPair(clockSecond, c.publishPeriod, t, Disconnect, Backoff(Delay(c.clockSecond, c.trial)));
    } else if i.Poll? && c.state == Boot && i.connectivity {
      PeriodOfPair(clockSecond, c.publishPeriod, t, Register, Connect);
    } else if acts == [] {
      assert t + acts == t;
    } else {
      assert acts == [acts[0]];
      PeriodSnoc(clockSecond, c.publishPeriod, t, acts[0]);
    }
  }

  lemma PeriodOfPair(clockSecond: nat, publishPeriod: nat, t: seq<Action>, a: Action, b: Action)
    requires !a.Backoff? && a != Publish
    ensures PeriodAfter(clockSecond, publishPeriod, t + [a, b])
            == if b.Backoff? then b.ticks else if b == Publish then publishPeriod else PeriodAfter(clockSecond, publishPeriod, t)
  {
    PeriodSnoc(clockSecond, publishPeriod, t, a);
    PeriodSnoc(clockSecond, publishPeriod, t + [a], b);
    assert t + [a, b] == t + [a] + [b];
  }

  lemma {:induction false} RunKeepsPeriod(clockSecond: nat, publishPeriod: nat, inputs: seq<Input>)
    ensures var (c, t) := Run(Start(clockSecond, publishPeriod), inputs);
            c.publishPeriod == publishPeriod && c.period == PeriodAfter(clockSecond, publishPeriod, t)
  {
    if inputs != [] {
      var init := inputs[..|inputs| - 1];
      RunKeepsPeriod(clockSecond, publishPeriod, init);
      var (c, t) := Run(Start(clockSecond, publishPeriod), init);
      StepKeepsPeriod(c, t, inputs[|inputs| - 1], clockSecond);
    }
  }

  /** What a poll answers, in every run: a full queue iff its subscription was refused, the publication period after an
      accepted one, and otherwise the period above, its own delay or publication included. */
  lemma ReplyMeaning(clockSecond: nat, publishPeriod: nat, inputs: seq<Input>, i: Input)
    requires i.Poll?
    ensures var (c, t) := Run(Start(clockSecond, publishPeriod), inputs);
            var (_, acts, reply) := c.Step(i);
            reply == if acts == [Subscribe(false)] then QueueWasFull
                     else if acts == [Subscribe(true)] then Again(publishPeriod)
                     else Again(PeriodAfter(clockSecond, publishPeriod, t + acts))
  {
    RunKeepsPeriod(clockSecond, publishPeriod, inputs);
    var (c, t) := Run(Start(clockSecond, publishPeriod), inputs);
    StepKeepsPeriod(c, t, i, clockSecond);
    ReplyIsPeriod(c, i);
  }

  lemma ReplyIsPeriod(c: Client, i: Input)
    requires i.Poll?
    ensures var (next, acts, reply) := c.Step(i);
            reply == if acts == [Subscribe(false)] then QueueWasFull
                     else if acts == [Subscribe(true)] then Again(c.publishPeriod)
                     else Again(next.period)
  {
  }

  /** The static variables of the C file, with a ghost record of what happened. */
  class MqttMachine {
    const clockSecond: nat
    const publishPeriod: nat
    var state: State
    var reconnectionTrial: nat
    var timePeriod: nat
    ghost var trace: seq<Action>

    function View(): Client
      reads this
    {
      Client(clockSecond, publishPeriod, state, reconnectionTrial, timePeriod)
    }

    constructor (clockSecond: nat, publishPeriod: nat)
      ensures View() == Start(clockSecond, publishPeriod) && trace == []
      ensures Inv(View(), trace)
    {
      this.clockSecond, this.publishPeriod := clockSecond, publishPeriod;
      state, reconnectionTrial, timePeriod, trace := Boot, 0, clockSecond, [];
    }

    /** mqtt_event */
    method HandleEvent(e: BrokerEvent)
      requires state != Boot && Inv(View(), trace)
      modifies this
      ensures View() == old(View()).Step(Event(e)).0 && trace == old(trace) + old(View()).Step(Event(e)).1
      ensures Inv(View(), trace)
    {
      StepKeepsInv(View(), trace, Event(e));
      match e {
        case Up => state := Connected;
        case Down => state := Disconnected;
        case Inert =>
      }
      trace := trace + [Broker(e)];
    }

    /** state_machine: the tests run one after another on the state as it changes. */
    method PollOnce(connectivity: bool, queueFull: bool) returns (r: Reply)
      requires Inv(View(), trace)
      modifies this
      ensures var (c, acts, reply) := old(View()).Step(Poll(connectivity, queueFull));
              View() == c && trace == old(trace) + acts && r == reply
      ensures Inv(View(), trace)
    {
      StepKeepsInv(View(), trace, Poll(connectivity, queueFull));
      if state == Boot {
        trace := trace + [Register];
        state := Init;
      }
      if state == Init {
        state := if connectivity then NetOk else Init;
      }
      if state == NetOk {
        trace := trace + [Connect];
        state := Connecting;
      }
      if state == Connected {
        trace := trace + [Subscribe(!queueFull)];
        if queueFull { return QueueWasFull; }
        reconnectionTrial := 0;
        state := Subscribed;
        return Again(publishPeriod);
      }
      if state == Subscribed {
        trace := trace + [Publish];
        timePeriod := publishPeriod;
      } else if state == Disconnected {
        trace := trace + [Disconnect];
        state := Init;
        timePeriod := if reconnectionTrial < MAX_BACKOFF_EXP then clockSecond * Pow2(reconnectionTrial)
                      else clockSecond * Pow2(MAX_BACKOFF_EXP);
        reconnectionTrial := reconnectionTrial + 1;
        trace := trace + [Backoff(timePeriod)];
        assert old(trace) + [Disconnect] + [Backoff(timePeriod)] == old(trace) + [Disconnect, Backoff(timePeriod)];
        return Again(timePeriod);
      }
      assert old(trace) + [Register] + [Connect] == old(trace) + [Register, Connect];
      return Again(timePeriod);
    }
  }
}
