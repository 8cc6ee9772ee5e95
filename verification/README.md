# DamMonitoring: a verified model

A dam is watched and controlled by several parties: a Java controller, a database that caches actuator values, CoAP motes
for gates and alarm, MQTT motes that measure (and here simulate) flows and level, a collector that stores the readings, and
a small status page. This project models the logic of those parties in Dafny and proves what it keeps over whole runs.

Check everything with `dafny verify dfyconfig.toml`.

| file | what it models |
|---|---|
| `NumberText.dfy`, `JsonFields.dfy` | numbers as text, the field lookups of the motes |
| `AddressText.dfy`, `StatusPage.dfy`, `PageReader.dfy` | section 2.2 of RFC 4291, the printer, buffer and rows of the status page, and a reader of the rows |
| `MqttClient.dfy` | the MQTT state machine, its backoff and its progress |
| `Channels.dfy`, `FlowMote.dfy`, `Reservoir.dfy` | the simulated plant: flows that follow targets, a reservoir that integrates them |
| `FlowLog.dfy`, `Collector.dfy` | the flow table and its two queries, the rate limiter, the inflow quantiser |
| `GateResource.dfy`, `AlarmResource.dfy` | the two actuator resources with their timers |
| `Commands.dfy`, `AlarmCommands.dfy` | one gate, and one alarm, seen from registry and actuator, commands one at a time |
| `Interleaving.dfy`, `Serialisation.dfy` | the steps of many commands on one gate interleaved, and when that amounts to whole commands |
| `ControlLaw.dfy`, `ControlUnit.dfy` | the control law, and the controller's tick over all gates and alarms |
| `Feed.dfy` | properties that cross components |

Objects that change in place are classes; each method is tied to a function on values (`View()` before and after), and the
promises are lemmas about those functions. What the environment decides (lost messages, failed writes, random draws, clock
readings, connectivity) is a parameter, so every lemma speaks of all its choices.

## What the proofs found

- A flow that is 1 to 9 units outside its band makes `LINEAR_VAR` divide by zero (`FlowMote.TrackDefined`). No draws lead
  there exactly from a lack of 0, 10 to 100, 121 to 200, 244 to 300 or 381 to 400 and from an excess of 0 or at least 10
  (`FlowMote.NeverTrapsIff`); opening a closed outflow gate is safe for the emergency gate's first percent alone
  (`FlowMote.OpeningRisksTrap`). A balance of exactly -1000 does the same to the level mote, two ordinary messages away
  from start-up (`Reservoir.UndefinedBalanceIsReachable`).
- The level mote's clamp at zero never acts because its variables are unsigned: a reservoir that should run dry is reported
  full (`Reservoir.TickMeetsSignedTickIff`), as on a run of 342 ticks of full drain from start-up
  (`Reservoir.EmptyBecomesFull`).
- Fully open gates lower the reservoir on every tick, whatever the noise, exactly from 200534 units up to below
  63997 * 1024 + 1001, and above 65536000. Under the first bound a tick can wrap to full; from the second up to 65536000
  unlucky noise and the upper clamp can hold it at full for ever (`Reservoir.DrainsSurelyIff`, `Reservoir.FullCanStayFull`).
- A command is skipped on the word of the cached row. After one lost reply the row can stay wrong, and a gate that every
  tick wants closed stays open (`Commands.SetReachesTargetIff`, `Commands.LostReplyKeepsGateOpen`); an alarm keeps sounding
  in the same way (`AlarmCommands.LostReplyKeepsAlarmOn`).
- Two commands that overlap can leave row and actuator apart without any fault (`Interleaving.RaceBreaksAgreement`). They
  end up equal exactly when the last level the actuator took is the last the row got
  (`Interleaving.AgreesIffLastLevelsMeet`); commands and registrations that never overlap are enough
  (`Interleaving.SerialRunsAgree`) and amount to whole commands in the same order
  (`Serialisation.SerialRunsAreCommandRuns`).
- Water levels are never remembered by the limiter, so they are not limited (`Collector.LevelsAreNotLimited`).
- The key buffer of the field lookup is read before it is written when a value comes before any name. Its chance content
  decides the answer exactly when the key does not find that same value later (`JsonFields.HeldMattersIff`); a gate
  request that is a bare number is such a case (`GateResource.BareNumberIsAmbiguous`).

Where text and code disagree the model follows the code: the comments of `sensor-sim.h` give 50 m3/s for a channel whose
constant is 100 m3/s, and the comment in `AutomaticControlUnit.run` says no action is taken in AUTO while the code returns
in MANUAL.

## Model

| member | source | states |
|---|---|---|
| NumberText.DecimalRoundTrip | Motes/lib/common/common.c:40-41 | `atoi` of a printed int is that int, whatever non-digit text follows |
| NumberText.ReadingIsScaledNumber | Motes/demo/mote-3/mote-3.c:84-88 | the published `%de-3` text is a number of section 6 of RFC 8259 and denotes exactly value/1000 |
| JsonFields.FieldIsFirstHit | Motes/lib/common/common.c:34-44 | the scan answers with the first value of its kind whose latest name is the key, and with nothing iff there is none |
| JsonFields.HeldMattersIff | Motes/lib/common/common.c:27-38 | for every key, the uninitialised key buffer influences the answer iff some value of the kind comes before every name and is not what the key finds after the first name |
| JsonFields.CopyKeepsKeys | Motes/lib/common/common.c:35-36 | a copied name is its first 19 characters, and is never mistaken for a shorter key |
| JsonFields.GetIntField | Motes/lib/common/common.c:23-45 | the loop returns 1, 0 or -1 and writes the value as the scan says; -1 leaves the caller's value alone |
| JsonFields.GetBoolField | Motes/lib/common/common.c:47-75 | the boolean loop returns what the same scan finds, checked against the copied text |
| JsonFields.ZeroMeaning | Motes/lib/common/common.c:40-41 | a field's number is its conversion, except that a text converting to 0 is refused unless it is "0" |
| JsonFields.WordMeaning | Motes/lib/common/common.c:62-71 | a boolean is taken iff its text is the word |
| JsonFields.IntObjectRoundTrip | Application/Controller/src/main/java/it/unipi/iot/damonitoring/controller/coap/CoapManager.java:90-94 | any 32-bit value put in a one-field object is found again under its key, and under no other |
| JsonFields.BoolObjectRoundTrip | Application/Controller/src/main/java/it/unipi/iot/damonitoring/controller/coap/CoapManager.java:150-154 | the same for a boolean |
| AddressText.TextRoundTrip | Motes/lib/webserver/webserver.c:62-82 | reading the printed text by section 2.2 of RFC 4291 gives back every eight-group address |
| AddressText.TextIsInjective | Motes/lib/webserver/webserver.c:62-82 | two addresses never print alike |
| AddressText.GapOfText | Motes/lib/webserver/webserver.c:69-72 | with a zero group, "::" stands at the first zero run and nowhere else |
| AddressText.GapIffZero | Motes/lib/webserver/webserver.c:69-72 | "::" occurs iff some group is zero |
| AddressText.TextIsShort | Motes/lib/webserver/webserver.c:62-82 | the text has at most 39 characters |
| StatusPage.AddressRoundTrip | Motes/lib/webserver/webserver.c:68 | the printed text reads as the eight big-endian words of the address, and as its sixteen bytes |
| StatusPage.PrinterStep | Motes/lib/webserver/webserver.c:67-81 | what the one integer f means before, inside and after the first zero run, and that each group extends the text accordingly |
| StatusPage.Page.Add | Motes/lib/webserver/webserver.c:45-49 | the fill level counts all text added; the buffer holds all of it while the level is inside the buffer |
| StatusPage.Page.AddAddress | Motes/lib/webserver/webserver.c:62-82 | the loop over f appends exactly the address text |
| StatusPage.Page.AddRow | Motes/lib/webserver/webserver.c:97-99 | neighbour, route and link rows fit the buffer whole |
| StatusPage.Page.SendRows | Motes/lib/webserver/webserver.c:94-147 | a table of any length is sent row by row with nothing cut |
| PageReader.RowRoundTrip | Motes/lib/webserver/webserver.c:97-144 | a reader of the page gets every row back: each address, prefix length and lifetime in its own place |
| PageReader.TableStartsWithItsFirstRow | Motes/lib/webserver/webserver.c:94-101 | the rows of a table stand in their order |
| MqttClient.PublishNeedsSubscription | Motes/lib/mqtt-client/mqtt-client.c:191-221 | every publish of every run follows an accepted subscribe with only publishes and inert events in between |
| MqttClient.ConnectsAreSeparated | Motes/lib/mqtt-client/mqtt-client.c:160-189 | two connects are separated by a disconnection; registration happens once, first |
| MqttClient.PollSettles | Motes/lib/mqtt-client/mqtt-client.c:137-246 | no poll ends in BOOT, NET_OK or DISCONNECTED |
| MqttClient.BackoffLaw | Motes/lib/mqtt-client/mqtt-client.c:200-242 | in every run the trial counter counts the delays since boot or the last accepted subscribe, and they are the ladder 2^min(k,6) |
| MqttClient.BackoffTotal | Motes/lib/mqtt-client/mqtt-client.c:234-238 | n delays add up to 2^n - 1 seconds, and to 127 + 64 (n - 7) beyond the seventh |
| MqttClient.ConnectionLeadsToPublishing | Motes/lib/mqtt-client/mqtt-client.c:191-221 | after any run and a connected event every poll tries to subscribe until the queue takes it, and every later poll publishes one message |
| MqttClient.DisconnectionLeadsToConnect | Motes/lib/mqtt-client/mqtt-client.c:160-243 | after any run and a disconnected event the next poll disconnects with the ladder's delay, and the first later one with a network connects |
| MqttClient.BootLeadsToConnect | Motes/lib/mqtt-client/mqtt-client.c:160-189 | the first poll registers, and the first one with a network connects |
| MqttClient.ReplyMeaning | Motes/lib/mqtt-client/mqtt-client.c:196-245 | in every run a poll answers a full queue, the publication period, or the latest of delay and publication period |
| MqttClient.MqttMachine.HandleEvent | Motes/lib/mqtt-client/mqtt-client.c:60-105 | the event handler is the event part of the transition table and keeps the invariant tying state to past |
| MqttClient.MqttMachine.PollOnce | Motes/lib/mqtt-client/mqtt-client.c:137-246 | the cascade of tests is the poll part of the transition table and keeps that invariant |
| Channels.MessageMovesOneChannel | Motes/demo/mote-3/mote-3.c:98-116 | a message with a percentage moves exactly its own channel to percent times flow per percent; other numbers move nothing |
| Channels.MessagesByName | Motes/lib/common/sensor-sim.h:49-52 | the three messages by their literal names, 800, 1000 and 350 thousandths per percent |
| Channels.ReadGate | Motes/demo/mote-2/mote-2.c:99-114 | the loop body changes a flow iff the message carries an admissible value, whatever value an earlier message left behind |
| FlowMote.TrackDefined | Motes/lib/common/sensor-sim.h:28 | a tick is defined iff the flow is in its band or at least 10 outside |
| FlowMote.TrackCloses | Motes/demo/mote-2/mote-2.c:47-68 | the band is absorbing, an excess falls into it at once, a lack shrinks by 100 to 100 plus a tenth and never overshoots |
| FlowMote.TrackReaches | Motes/demo/mote-2/mote-2.c:47-68 | the exact set of flows one tick can lead to, inside the band, below it, above it, and for a closed channel |
| FlowMote.ClosedRunsDry | Motes/lib/common/sensor-sim.h:27 | a closed channel inside its band is at zero one tick later |
| FlowMote.RunReachesBand | Motes/demo/mote-2/mote-2.c:44-73 | every run from a safe distance is defined, and every defined run of at least gap/100 ticks ends in the band, for all draws |
| FlowMote.NeverTrapsIff | Motes/demo/mote-2/mote-2.c:52-57 | the starts from which no sequence of draws divides by zero, exactly |
| FlowMote.OpeningRisksTrap | Motes/demo/mote-2/mote-2.c:91-115 | of all openings of a closed outflow gate only the emergency gate's 1 percent cannot end in the division by zero |
| FlowMote.TrapIsReachable | Motes/lib/common/sensor-sim.h:28 | a concrete run from a closed gate that ends in the division by zero |
| FlowMote.FlowSensors.SimulateReadFlow | Motes/demo/mote-2/mote-2.c:44-73 | each channel follows its target as one tracking step, up to the first undefined one, never the inflow channel; all ranges are kept |
| FlowMote.FlowSensors.HandleMessage | Motes/demo/mote-2/mote-2.c:91-115 | messages move the two outflow targets and never the inflow target |
| FlowMote.FlowSensors.ButtonRelease | Motes/demo/mote-2/mote-2.c:162-178 | the inflow target stays a multiple of 8000 up to 80000 and the inflow jumps with it |
| FlowMote.FlowSensors.ButtonHold | Motes/demo/mote-2/mote-2.c:179-188 | three seconds set inflow and target to zero |
| Reservoir.TickMeetsSignedTickIff | Motes/demo/mote-3/mote-3.c:58-70 | the unsigned tick equals the tick over the integers iff the clamp at zero is not needed; otherwise it reports a full reservoir |
| Reservoir.EmptyBecomesFull | Motes/demo/mote-3/mote-3.c:58-70 | a run from start-up: 341 ticks of full drain leave 45000 units, and one more reports a full reservoir |
| Reservoir.TickAgrees | Motes/demo/mote-3/mote-3.c:48-70 | after any defined tick level and reservoir agree to 4, on the side away from the balance, and stay in range |
| Reservoir.NoiseValues | Motes/demo/mote-3/mote-3.c:48-52 | the noises a balance can draw, exactly, and which draws go up and which down |
| Reservoir.LevelNoiseValues | Motes/demo/mote-3/mote-3.c:49-56 | the noise on the level is any of five values on the side away from the balance |
| Reservoir.FillStep | Motes/demo/mote-3/mote-3.c:43-73 | a tick under a positive balance b adds -999 to 2 b + 999, at most b on even draws, unless it ends full |
| Reservoir.Integrates | Motes/demo/mote-3/mote-3.c:58 | over ticks without clamps the reservoir is its start plus the sum of all increments |
| Reservoir.DrainStep | Motes/demo/mote-3/mote-3.c:43-73 | with both gates open a tick lowers the reservoir by 1001 to 200534 for every inflow and draw |
| Reservoir.DrainsSurelyIff | Motes/demo/mote-3/mote-3.c:67-70 | of all reservoirs a tick can leave, every draw and inflow lowers exactly those from 200534 to below 63997 * 1024 + 1001 and those above 65536000 |
| Reservoir.FullCanStayFull | Motes/demo/mote-3/mote-3.c:67-70 | from full, draws exist that keep it full for any number of ticks |
| Reservoir.Drains | Motes/demo/mote-3/mote-3.c:43-73 | below that bound the level reaches 60 m within an explicit number of ticks, and nothing wraps or clamps on the way |
| Reservoir.UndefinedBalanceIsReachable | Motes/demo/mote-3/mote-3.c:48 | two messages lead from the start-up flows to the balance that divides by zero |
| Reservoir.WaterLevelSensor.SimulateReadWaterLevel | Motes/demo/mote-3/mote-3.c:43-73 | the statement sequence is the tick, stops iff the balance is -1000, and keeps every range |
| Reservoir.WaterLevelSensor.ButtonRelease | Motes/demo/mote-3/mote-3.c:164-174 | a release that ends no long press restores the initial reservoir |
| Reservoir.WaterLevelSensor.ButtonHold | Motes/demo/mote-3/mote-3.c:175-184 | three seconds fill the reservoir and mute the next release |
| Reservoir.WaterLevelSensor.HandleMessage | Motes/demo/mote-3/mote-3.c:90-117 | each flow follows the message and the balance is always flow[0] - flow[1] - flow[2], between -135000 and 80000 |
| FlowLog.AggregateIsSumOfLatest | Application/Persistence/src/main/java/it/unipi/iot/damonitoring/DataManager.java:151-161 | for every log the sum over rows with the greatest id of their channel is the sum of the latest value of each outflow channel |
| FlowLog.LatestMeaning | Application/Persistence/src/main/java/it/unipi/iot/damonitoring/DataManager.java:146-150 | the simple map holds exactly the outflow channels of the log, each with its last value |
| FlowLog.OutFlowRateMeaning | Application/Persistence/src/main/java/it/unipi/iot/damonitoring/DataManager.java:151-161 | the query answers iff some outflow row exists, and then with that sum |
| FlowLog.LatestByTimeIsLatestById | Application/Persistence/src/main/java/it/unipi/iot/damonitoring/DataManager.java:133-144 | on a channel with spaced readings the latest row by time is the latest by id |
| Collector.WindowBound | Application/Collector/src/main/java/it/unipi/iot/damonitoring/collector/Subscriber.java:130-160 | over every run a window of length w holds at most w/minPeriod + 1 records of one mote and channel |
| Collector.LeavesFreshRecords | Application/Collector/src/main/java/it/unipi/iot/damonitoring/collector/Subscriber.java:136-164 | an error-free flow message leaves each channel it names with a record younger than minPeriod |
| Collector.StoresAll | Application/Collector/src/main/java/it/unipi/iot/damonitoring/collector/Subscriber.java:136-164 | an error-free flow message with fresh names is stored whole, in order |
| Collector.BadMessageChangesNothing | Application/Collector/src/main/java/it/unipi/iot/damonitoring/collector/Subscriber.java:155-174 | an unknown topic or a wrong unit changes nothing |
| Collector.FailureEndsMessage | Application/Collector/src/main/java/it/unipi/iot/damonitoring/collector/Subscriber.java:159-182 | a failed insertion ends its message; what came before stays, what follows is ignored |
| Collector.StoresOnlyItsOwn | Application/Collector/src/main/java/it/unipi/iot/damonitoring/collector/Subscriber.java:136-164 | a message only appends, and only records of its own measurements |
| Collector.DropsOnlyTooFast | Application/Collector/src/main/java/it/unipi/iot/damonitoring/collector/Subscriber.java:145-149 | a measurement is dropped iff its key has a record later than now - minPeriod |
| Collector.LevelsAreNotLimited | Application/Collector/src/main/java/it/unipi/iot/damonitoring/collector/Subscriber.java:165-172 | water levels whose key has no flow record are all stored, however fast they come |
| Collector.FeedNeverRepeats | Application/Collector/src/main/java/it/unipi/iot/damonitoring/collector/Subscriber.java:188-202 | no two consecutive publications of a run are equal, failed sends included |
| Collector.QuantiseRounds | Application/Collector/src/main/java/it/unipi/iot/damonitoring/collector/Subscriber.java:191 | the percentage is the nearest whole one, a half going up |
| Collector.PublishesOnlyInflow | Application/Collector/src/main/java/it/unipi/iot/damonitoring/collector/Subscriber.java:188-202 | whatever a message publishes is the percentage of one of its inflow readings, and the broker took it |
| Collector.InflowIsPublished | Application/Collector/src/main/java/it/unipi/iot/damonitoring/collector/Subscriber.java:188-202 | a stored inflow reading is published unless its percentage was the last one sent, and is then the remembered one |
| Collector.QueriesAgree | Application/Collector/src/main/java/it/unipi/iot/damonitoring/collector/Subscriber.java:145-160 | when one mote feeds a channel, the limiter makes latest by time and latest by id the same row |
| Collector.Subscriber.MessageArrived | Application/Collector/src/main/java/it/unipi/iot/damonitoring/collector/Subscriber.java:126-183 | the loop with its skips and aborts is the message function the run lemmas speak of |
| Feed.QuantiseInBand | Application/Collector/src/main/java/it/unipi/iot/damonitoring/collector/Subscriber.java:191 | every reading within 0.15 of 0.8 p rounds to exactly p |
| Feed.InflowReachesLevelMote | Motes/demo/mote-3/mote-3.c:98-111 | once an in-band inflow reading is stored, the last percentage published is accepted by the level mote and sets its inflow to the flow mote's target |
| Feed.SettledFlowsAreNear | Motes/lib/common/sensor-sim.h:26 | flows inside their bands, with the emergency gate closed and its channel a tick in its band, are readings within 0.15 of the truth, one m3/s per percent |
| GateResource.LevelRequestMeaning | Motes/lib/resources/res-gate.c:115-161 | a JSON command changes the level iff it is 0 to 100 and new, with code 2.04 and a restart of the blinking; the present level gets 2.03, any other 4.00, and nothing changes |
| GateResource.TextRequestMeaning | Motes/lib/resources/res-gate.c:107-114 | a text sets level v iff it is "0" and v is 0, or v is 1 to 100 and the text is blanks, perhaps a plus, digits of value v, and no further digit |
| GateResource.OtherRequestsAreRefused | Motes/lib/resources/res-gate.c:100-145 | other content types, a missing parameter, and a level under another name get 4.00 and change nothing |
| GateResource.BareNumberIsAmbiguous | Motes/lib/resources/res-gate.c:115-126 | a bare number moves the gate or not by what the key buffer held |
| GateResource.RunKeepsSound | Motes/lib/resources/res-gate.c:54-66 | over all mixes of requests and callbacks the level stays in range and an idle timer means light off and counter full |
| GateResource.BlinkingEnds | Motes/lib/resources/res-gate.c:54-66 | after a level change, while no other intervenes, the timer fires exactly BLINKS + 1 times and leaves light off and counter reset |
| GateResource.GateMote.PutHandler | Motes/lib/resources/res-gate.c:84-166 | the branches over content type, length and value have the stated effect and code |
| GateResource.GateMote.BlinkCallback | Motes/lib/resources/res-gate.c:54-66 | the callback is one blinking step |
| AlarmResource.TimerFollowsAlarm | Motes/lib/resources/res-alarm.c:119-129 | over all mixes of requests and callbacks the timer is active iff the alarm is on, and the light is off while it is off |
| AlarmResource.StateRequestMeaning | Motes/lib/resources/res-alarm.c:89-133 | the controller's request is always taken and sets the state; the same under another name is refused |
| AlarmResource.TextStateMeaning | Motes/lib/resources/res-alarm.c:80-88 | in text form exactly the beginnings of "true" and "false" are taken; other forms are refused |
| AlarmResource.AlarmMote.PutHandler | Motes/lib/resources/res-alarm.c:60-135 | the branches have the stated effect and code |
| Commands.DeliverIsPut | Application/Controller/src/main/java/it/unipi/iot/damonitoring/controller/coap/CoapManager.java:178-202 | what the command protocol assumes of a delivered PUT is what the gate's handler does with the request sent |
| Commands.StepFacts | Application/Controller/src/main/java/it/unipi/iot/damonitoring/controller/control/ControlLogic.java:176-231 | per event: what keeps row and actuator equal, what restores it, what a command cut after acting leaves behind |
| Commands.DisagreementHasCause | Application/Controller/src/main/java/it/unipi/iot/damonitoring/controller/control/ControlLogic.java:176-231 | in every run row and actuator differ only after a command cut once the mote acted, or a reboot, with no repair since |
| Commands.RepairRestoresAgreement | Motes/demo/mote-1/mote-1.c:61-82 | a sent and completed command, or a stored registration, restores equality in every run |
| Commands.SetReachesTargetIff | Application/Controller/src/main/java/it/unipi/iot/damonitoring/controller/control/ControlLogic.java:176-183 | a fault-free set reaches its target iff the row names another level or tells the truth |
| Commands.CompletedIff | Application/Controller/src/main/java/it/unipi/iot/damonitoring/controller/control/ControlLogic.java:176-231 | for each of the three commands, under which fault, row, actuator and level it ends without an error, exactly |
| Commands.ErrorMeaning | Application/Controller/src/main/java/it/unipi/iot/damonitoring/controller/control/ControlLogic.java:176-231 | what each kind of error says about actuator and row |
| Commands.LostReplyKeepsGateOpen | Application/Controller/src/main/java/it/unipi/iot/damonitoring/controller/control/ControlLogic.java:176-183 | one lost reply leaves a gate open under any number of close commands |
| Interleaving.RangeSafety | Motes/lib/resources/res-gate.c:115-161 | in every interleaving of commands, losses, repeats, reboots and registrations all cached and actual levels are 0 to 100 |
| Interleaving.AgreesIffLastLevelsMeet | Application/Controller/src/main/java/it/unipi/iot/damonitoring/controller/control/ControlLogic.java:176-231 | after every interleaving the actuator has the last accepted level (0 after a later reboot) and the row the last written or registered one; they agree iff those are equal |
| Interleaving.SerialRunsAgree | Application/Controller/src/main/java/it/unipi/iot/damonitoring/controller/control/ControlLogic.java:176-231 | with commands and registrations begun only when nothing is in flight, and no reply lost or command given up, row and actuator of an active gate agree at every quiescent point, repeats and reboots included |
| Serialisation.SerialRunsAreCommandRuns | Application/Controller/src/main/java/it/unipi/iot/damonitoring/controller/control/ControlLogic.java:176-231 | every serial interleaving, faults included, ends as a run of whole commands does, the same commands in the same order |
| Interleaving.RaceBreaksAgreement | Application/Controller/src/main/java/it/unipi/iot/damonitoring/controller/control/ControlLogic.java:176-183 | two overlapping commands can leave row and actuator different with no fault |
| ControlLaw.CleanTick | Application/Controller/src/main/java/it/unipi/iot/damonitoring/controller/control/AutomaticControlUnit.java:83-147 | a failure-free tick takes a clean gate exactly to the law's opening, keeps it clean, and sends a PUT iff the opening changes |
| ControlLaw.LawTable | Application/Controller/src/main/java/it/unipi/iot/damonitoring/controller/control/AutomaticControlUnit.java:83-147 | the opening the law wants, as a table over level, inflow and outflow |
| ControlLaw.LawFollowsFlows | Application/Controller/src/main/java/it/unipi/iot/damonitoring/controller/control/AutomaticControlUnit.java:119-147 | in the middle zone a primary gate opens when the inflow exceeds the outflow by more than 1, closes in the mirrored case, and rests otherwise |
| ControlLaw.FaultedTick | Application/Controller/src/main/java/it/unipi/iot/damonitoring/controller/control/AutomaticControlUnit.java:83-156 | a fault at a clean gate is an error iff the gate has a command and is to move, or cannot be read |
| ControlLaw.StaySaturates | Application/Controller/src/main/java/it/unipi/iot/damonitoring/controller/control/AutomaticControlUnit.java:89-118 | a stay above max (below min) opens (closes) a primary gate within 20 ticks and 20 PUTs; an emergency gate gets at most one; arrived gates get none |
| ControlLaw.MidTick | Application/Controller/src/main/java/it/unipi/iot/damonitoring/controller/control/AutomaticControlUnit.java:119-147 | the gate moves by the law's step, unclamped; a move goes towards the inflow, passes it by less than 0.3 and uses up one of the moves left; a rest is within 1.3 |
| ControlLaw.Converges | Application/Controller/src/main/java/it/unipi/iot/damonitoring/controller/control/AutomaticControlUnit.java:119-147 | every settled run of more than 20 ticks ends within 1.3 of the inflow; every settled run sends at most 20 PUTs, is monotone between any two moments, overshoots by less than 0.3, never has a step cut by the range, and rests only within 1.3 |
| ControlLaw.SlowRunMoves | Application/Controller/src/main/java/it/unipi/iot/damonitoring/controller/control/AutomaticControlUnit.java:119-147 | the bound of 20 is attained |
| AlarmCommands.HealthyAlarmObeys | Application/Controller/src/main/java/it/unipi/iot/damonitoring/controller/control/ControlLogic.java:240-248 | a fault-free command on a truthful alarm leaves it truthful and in the state asked for |
| AlarmCommands.DeliverAlarmIsPut | Application/Controller/src/main/java/it/unipi/iot/damonitoring/controller/coap/CoapManager.java:147-166 | delivery is what the alarm's handler does with the request sent |
| AlarmCommands.AlarmDisagreementHasCause | Application/Controller/src/main/java/it/unipi/iot/damonitoring/controller/control/ControlLogic.java:240-248 | in every run the row misstates the alarm only after a command cut once it had switched, or a reboot, with no repair since |
| AlarmCommands.AlarmRepairRestores | Motes/demo/mote-1/mote-1.c:61-82 | a sent and completed command, or a stored registration, makes row and alarm agree in every run |
| AlarmCommands.AlarmReachesIff | Application/Controller/src/main/java/it/unipi/iot/damonitoring/controller/control/ControlLogic.java:240-248 | a fault-free command reaches its state iff the row says the other state or the truth |
| AlarmCommands.AlarmCompletedIff | Application/Controller/src/main/java/it/unipi/iot/damonitoring/controller/control/ControlLogic.java:240-248 | when an alarm command ends without an error, exactly, and what its errors say |
| AlarmCommands.LostReplyKeepsAlarmOn | Application/Controller/src/main/java/it/unipi/iot/damonitoring/controller/control/ControlLogic.java:240-248 | one lost reply leaves an alarm sounding under any number of commands to stop |
| ControlUnit.Dam.SetMaxThreshold | Application/Controller/src/main/java/it/unipi/iot/damonitoring/controller/control/ControlLogic.java:90-97 | accepted iff the order of the thresholds survives, which it always does |
| ControlUnit.Dam.SetMinThreshold | Application/Controller/src/main/java/it/unipi/iot/damonitoring/controller/control/ControlLogic.java:103-110 | the same for the minimum |
| ControlUnit.Dam.SetSafeThreshold | Application/Controller/src/main/java/it/unipi/iot/damonitoring/controller/control/ControlLogic.java:116-123 | the same for the safe threshold |
| ControlUnit.Dam.SetGateOpening | Application/Controller/src/main/java/it/unipi/iot/damonitoring/controller/control/ControlLogic.java:176-183 | read, PUT, write in order, cut by any fault; other resources untouched |
| ControlUnit.Dam.IncreaseGateOpening | Application/Controller/src/main/java/it/unipi/iot/damonitoring/controller/control/ControlLogic.java:217-231 | the same with the level raised by a step up to 100 |
| ControlUnit.Dam.DecreaseGateOpening | Application/Controller/src/main/java/it/unipi/iot/damonitoring/controller/control/ControlLogic.java:193-207 | the same with the level lowered by a step down to 0 |
| ControlUnit.Dam.ShellSetLevel | Application/Controller/src/main/java/it/unipi/iot/damonitoring/controller/user/commands/Gate.java:60-66 | the shell's command is refused in AUTO and changes nothing then |
| ControlUnit.Dam.RebootMote | Motes/lib/resources/res-gate.c:47-52 | a reboot returns every hosted actuator to its initial state and deactivates it |
| ControlUnit.Dam.RegistrationLoop | Motes/demo/mote-1/mote-1.c:61-94 | the retry loop ends with the first good reply, and then every hosted gate and alarm is active with a truthful row |
| ControlUnit.Dam.SetAlarmStatus | Application/Controller/src/main/java/it/unipi/iot/damonitoring/controller/control/ControlLogic.java:240-248 | alarms get their command in order up to the first error; the rest is untouched |
| ControlUnit.Dam.ApplyAll | Application/Controller/src/main/java/it/unipi/iot/damonitoring/controller/control/AutomaticControlUnit.java:83-147 | gates get their command in order up to the first error, and later gates none; a fault at a clean gate that is to move ends the loop there; without faults every clean gate obeys the law |
| ControlUnit.Dam.Tick | Application/Controller/src/main/java/it/unipi/iot/damonitoring/controller/control/AutomaticControlUnit.java:50-157 | no level, no fresh level, no flows or no alarm list: nothing; alarm error, MANUAL or no gate list: no gate; otherwise the gate loop on exactly the level, inflow and outflow read; without faults every alarm tells level > safe, and every clean gate is at the law's opening and follows the flows |

## Left out

- MQTT, CoAP, Hibernate, Jackson, the Contiki timers and `jsonparse` are not part of this model: their results are parameters, event streams or token streams.
- `random_rand` is any sixteen-bit value on each call; its distribution and period are not modelled.
- Java floats are reals without rounding or NaN, and Java ints in the control law do not overflow.
- The simulation message at the end of a gate command changes neither row nor actuator and is not recorded; what it does to the plant is `Channels.MessageMovesOneChannel`.
- Thresholds and mode do not change during a tick; the source reads them afresh at each use.
- Null actuator values and null tags in the resource table are not modelled; a row holds an int and a gate is an emergency gate or not.
- MySQL compares channel names without regard to case and keeps times to the second; the model compares exactly and keeps the clock's values.
- The inflow channel name is matched exactly by the quantiser, without regard to case in the source.
- C strings with embedded NUL characters, and the third (dotted decimal) form of section 2.2 of RFC 4291, which the printer never writes.
- StatusPage.Page.AddRow: titles and the fixed head and foot of the page are not modelled, because they are constants far below the buffer's size.
- ControlUnit.Dam.RegistrationLoop: bounded by the list of attempts, because the source retries without end.
- FlowMote.TrackReaches: speaks of flows up to 655360 outside the band, far beyond the 100150 a mote can reach, because up to there a sixteen-bit draw covers every step.
- ControlLaw.Converges: asks for settled readings at every tick, because the source does not wait for the flows to settle between ticks.
- `have_connectivity`, LED colours, logging, the shell, picocli commands, Grafana, the SQL dump, `httpd-simple.c`, the firmware variants of the motes, and the Cooja files.
