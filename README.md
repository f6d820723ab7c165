# sparkplug-simulator, modelled in Dafny

The simulator runs an MQTT edge node that speaks the Eclipse Sparkplug B
protocol. The node owns simulated devices and publishes their life:
- a node birth certificate (NBIRTH);
- one device birth certificate (DBIRTH) per device;
- then, round after round, each device ticks and any readings it produces go out as DDATA;
- on shutdown, one DDEATH per device and finally the node death certificate (NDEATH).

Every DBIRTH, DDATA and DDEATH carries the next value of a per-node sequence counter. The counter wraps at 256.

The project models the core of that program in six modules:

- `Sparkplug` (`sparkplug.dfy`) covers the payload builders and `Sequence`:
  - the metric value union and its conversion onto the typed wire field;
  - the five payload builders, with `dbirth` and `ddata` as loop methods proved against specification functions;
  - `Sequence`, a class whose `Next` method advances the counter in place.
- `Config` (`config.dfy`) holds the configuration record shapes: a device name and kind, a node name with its device list, and a broker URL.
- `Devices` (`device.dfy`) covers the devices:
  - the advertised metric sets;
  - the engine and climate-controller tick policies, as specification functions over abstract states;
  - the `Engine` and `ClimateControl` classes, whose `Tick` methods update their fields;
  - `Device` (the `Box<dyn Device>` of the source) and `NewDevice`.
- `Topics` (`topic.dfy`) builds the node and device topics. It proves that topics built from names without `/` split back into their parts.
- `Lifecycle` (`lifecycle.dfy`) describes the whole publication log of a run as a function of:
  - the devices' starting states;
  - the random draws of every tick.

  It proves what that log looks like: emission order, numbering, DDATA only for non-empty ticks, and birth before data.
- `Nodes` (`node.dfy`) models the `Node` class:
  - the constructor builds the devices and registers the last will;
  - `Run` publishes through `Publish`, an append to the log of what reached the broker;
  - `Run` is proved to publish exactly the `Lifecycle` trace.

Random draws are inputs. They are limited to the ranges the source samples from: RPM in [100, 500), countdown in [1, 10), and temperature change in [0.1, 1.5]. The change's upper bound is closed because the `as f32` cast at src/device.rs:110 can round a draw just below 1.5 up to 1.5. The running flag becomes the number of rows of draws, one row per round of the tick loop.

Three consequences of the code are worth stating outright:

- **Engine RPM.** `Engine::tick` (src/device.rs:67) reports a draw only when it differs from `last_value`. Nothing reassigns `last_value` after it is set to 0 at construction, and every draw is at least 100. So every expiry of the countdown reports exactly one RPM: see the last ensures of `Devices.EngineStep` with `Devices.InitialState`, and `Devices.EngineCountdown` for the next expiry.
- **Climate switch-off.** An active controller stays on while the temperature is above 25.0 (src/device.rs:120-121), so it switches off at or below 25.0. An inactive controller switches on above 30.0 (src/device.rs:122-123).
- **Cancellation check.** The running flag is read at the top of each round (src/node.rs:72), so a run may have zero rounds.

## Model

| member | source | states |
|---|---|---|
| Sparkplug.ConvertValue | src/sparkplug.rs:78-85 | conversion is total and keeps the tag: the wire field agrees with exactly the data types the value's tag does; a receiver reads back the value that was converted |
| Sparkplug.ConvertToValue | src/sparkplug.rs:78-85 | the other half of the round trip: every wire value is the conversion of what it reads back as |
| Sparkplug.NodeCertificates | src/sparkplug.rs:12-22 | NBIRTH carries sequence number 0 and exactly one metric, the Int64 `bdSeq`, from which the epoch reads back; it is well typed; `ndeath` (lines 52-62) builds the same payload, so birth and death correlate by bdSeq |
| Sparkplug.DBirth | src/sparkplug.rs:24-36 | the push loop builds exactly the birth payload: sequence seq, one metric per config, in config order |
| Sparkplug.BirthReadsBack | src/sparkplug.rs:24-36 | a DBIRTH has as many metrics as configs; metric i reads back config i's name, data type and initial value; well-typed configs give a well-typed payload |
| Sparkplug.DData | src/sparkplug.rs:38-50 | the push loop builds exactly the data payload: sequence seq, one metric per (config, value) pair, in order |
| Sparkplug.DataReadsBack | src/sparkplug.rs:38-50 | a DDATA has as many metrics as readings; metric i reads back reading i's name, data type and value; values of their config's type give a well-typed payload |
| Sparkplug.DDeath | src/sparkplug.rs:64-68 | a DDEATH carries the given sequence number and no metrics |
| Sparkplug.Successor | src/sparkplug.rs:96-100 | the next counter value stays in [0, 255]; it is one more than the counter below 255 and wraps from 255 to 0 |
| Sparkplug.IssuedIsMod | src/sparkplug.rs:87-100 | the k-th call of `next` on a fresh counter returns k mod 256: 1, 2, ..., 255, 0, 1, ... |
| Sparkplug.Sequence.constructor | src/sparkplug.rs:92-94 | a new counter holds 0 |
| Sparkplug.Sequence.Next | src/sparkplug.rs:96-100 | increments then reduces modulo 256 in place, and returns the new counter, which is the successor of the old one |
| Devices.Advertised | src/device.rs:12-26 | `metrics_config` of an engine is [rpm] (lines 57-61) and of a climate controller [climateactive, temperature] (lines 100-105), with the constants' names, types and initial values; names are distinct and every initial value has its config's type |
| Devices.EngineStep | src/device.rs:63-75 | a running countdown is decremented and nothing is reported; an expired one takes the drawn interval; at most one reading, the rpm with the drawn value; a reading if and only if the countdown had expired and the draw differs from `last_value`; under the engine invariant, a reading if and only if the countdown had expired |
| Devices.ClimateStep | src/device.rs:107-129 | the temperature rises by the change while inactive and falls by it while active; it is always reported first; an inactive controller switches on above 30.0, an active one stays on above 25.0; a second reading, the new switch state, if and only if the switch flipped |
| Devices.DeviceTick | src/device.rs:29-31 | a tick keeps the device's name and kind and reports only metrics its `metrics_config` advertises, each with a value of the advertised type |
| Devices.InitialState | src/device.rs:132-137 | the new device has the configured name and kind; an engine starts with last value 0 and an expired countdown; a climate controller starts inactive at 20.0 |
| Devices.EngineCountdown | src/device.rs:63-75 | over successive ticks an engine reports nothing while its countdown runs and exactly one RPM on the tick it expires |
| Devices.ClimateFirstCrossing | src/device.rs:118-127 | starting inactive, the controller stays inactive and reports only the temperature until the first tick above 30.0; on that tick it switches on and reports `climateactive` true |
| Devices.WarmsWhileInactive | src/device.rs:110-112 | while inactive the temperature rises by at least 0.1 per tick |
| Devices.ClimateActivates | src/device.rs:107-124 | a controller starting inactive at 20.0 is switched on within its first 101 ticks, whatever the draws |
| Devices.Engine.constructor | src/device.rs:43-50 | a new engine has the configured name, last value 0 and countdown 0 |
| Devices.Engine.Tick | src/device.rs:63-75 | the fields and the returned readings are exactly `EngineStep` of the old fields and the draws |
| Devices.ClimateControl.constructor | src/device.rs:86-93 | a new controller has the configured name, is inactive and reads 20.0 |
| Devices.ClimateControl.Tick | src/device.rs:107-129 | the fields and the returned readings are exactly `ClimateStep` of the old fields and the draw |
| Devices.Device.Tick | src/device.rs:29-31 | the dynamic `tick` updates the device object's state and returns readings exactly as `DeviceTick` of the old state |
| Devices.NewDevice | src/device.rs:132-137 | `new_device` returns a fresh device of the configured kind in that kind's starting state |
| Topics.TopicLevels | src/node.rs:33-35 | a node topic built from names without '/' splits into exactly namespace, group, message type, node |
| Topics.TopicDeviceLevels | src/node.rs:18-31 | a device topic built from names without '/' splits into exactly namespace, group, message type, node, device |
| Topics.TopicDeviceExtendsTopic | src/node.rs:18-35 | a device topic is the node topic of the same message type followed by '/' and the device name |
| Topics.TopicsDistinguish | src/node.rs:18-35 | with names without '/', equal device topics have equal group, node, type and device, and no device topic equals a node topic |
| Topics.ExampleDataTopic | src/node.rs:24-30 | the DDATA topic of device eng1 on node line1 in group plant1 is spBv1.0/plant1/DDATA/line1/eng1 |
| Lifecycle.NextNumber | src/node.rs:67 | the counter's next value is the position of the next publication modulo 256 |
| Lifecycle.Emit | src/mqtt.rs:29-33 | publishing with the next number appends one publication and keeps the log numbered |
| Lifecycle.Births | src/node.rs:59-69 | the birth phase up to device i publishes i + 1 messages and keeps the log numbered |
| Lifecycle.BirthsContent | src/node.rs:59-69 | the birth phase publishes NBIRTH first, then at position k the DBIRTH of device k - 1 under its DBIRTH topic, numbered k mod 256, with that device's whole metric set |
| Lifecycle.TickOne | src/node.rs:74-80 | one device's turn keeps the log numbered, only appends to it, and changes only that device's state, to its ticked state |
| Lifecycle.TickOneReport | src/node.rs:74-80 | a device's turn publishes one message if and only if its tick reported something, and that message is a DDATA under its topic carrying exactly the readings |
| Lifecycle.TickDevices | src/node.rs:73-81 | a pass over the devices keeps the log numbered, only appends, and keeps the number of devices |
| Lifecycle.TickDevicesStates | src/node.rs:73-74 | after a pass over devices 0..i each of them is in the state its own tick gave it and the others are untouched |
| Lifecycle.TickDevicesReport | src/node.rs:73-81 | every message a pass publishes is the DDATA report of one of the devices ticked in it |
| Lifecycle.TickDevicesData | src/node.rs:73-81 | every message a full pass publishes is a DDATA for one of the devices, carrying only metrics that device advertises |
| Lifecycle.TickRounds | src/node.rs:72-83 | the rounds of the tick loop keep the log numbered, only append, and keep the number of devices |
| Lifecycle.TickRoundsKeepDevices | src/node.rs:72-83 | ticking never renames a device or changes its kind |
| Lifecycle.RoundsData | src/node.rs:72-83 | every message of the tick rounds is a DDATA for one of the node's devices, carrying only metrics it advertises |
| Lifecycle.Deaths | src/node.rs:85-91 | the death phase appends one message per device and keeps the log numbered and the earlier log intact |
| Lifecycle.DeathsContent | src/node.rs:85-91 | the death phase publishes the DDEATH of each device in declaration order under its DDEATH topic, with no metrics, numbered by position mod 256 |
| Lifecycle.DeathsClose | src/node.rs:85-95 | after any trace whose devices have the given names, the death phase puts device j's DDEATH, with no metrics and numbered by position mod 256, at the length of the earlier log plus j, before the final publication |
| Lifecycle.RunTrace | src/node.rs:58-97 | a run keeps the devices' number, names and kinds |
| Lifecycle.LifecycleBirths | src/node.rs:59-69 | a run's log opens with NBIRTH (bdSeq 0) and then the DBIRTH of every device in declaration order, device j's at position 1 + j |
| Lifecycle.LifecycleDeaths | src/node.rs:85-95 | a run's log closes with the DDEATH of every device in declaration order and, last of all, NDEATH with bdSeq 0 |
| Lifecycle.LifecycleNumbering | src/node.rs:58-95 | NBIRTH and NDEATH carry 0 and every other message carries its position mod 256, so DBIRTH, DDATA and DDEATH take the counter's successive values in emission order |
| Lifecycle.ReportIsData | src/node.rs:74-79 | what a device reports as DDATA is non-empty, under its DDATA topic, and every metric has the name and type of one it advertises |
| Lifecycle.BirthAnnounces | src/node.rs:64-68 | a device's DBIRTH announces every metric the device advertises, with the same name and type |
| Lifecycle.BirthBeforeData | src/node.rs:58-83 | every message between the births and the deaths is a DDATA of some device published after that device's DBIRTH, and every metric it carries was announced there with the same name and type |
| Nodes.BuildDevices | src/node.rs:45-48 | one fresh device per configured device, in configuration order, each in its starting state, no two sharing an object |
| Nodes.Node.constructor | src/node.rs:38-56 | the node keeps its lasting invariant (separate device objects, last will, counter in range) and has not started; it is connected with nothing published, has NDEATH with bdSeq 0 on its node topic as last will, a fresh counter at 0, and one fresh device per configured device in its starting state |
| Nodes.Node.Publish | src/mqtt.rs:29-33 | the publication reaches the broker after every earlier one; a disconnected client cannot publish |
| Nodes.Node.Disconnect | src/mqtt.rs:35-37 | the client is disconnected and nothing more is published |
| Nodes.Node.Run | src/node.rs:58-97 | the node publishes exactly the run's lifecycle log from its devices' starting states, leaves the devices in the run's final states, ends disconnected with its lasting invariant intact, and its last publication is the registered last will |
| Nodes.Node.PublishBirths | src/node.rs:59-69 | after NBIRTH and the DBIRTH loop the node is at the end of the birth phase |
| Nodes.Node.PublishBirth | src/node.rs:64-69 | one DBIRTH moves the node one step further through the birth phase |
| Nodes.Node.Simulate | src/node.rs:72-83 | the tick loop leaves the node where the tick rounds put it: log, counter and every device's state |
| Nodes.Node.TickRound | src/node.rs:73-81 | one iteration of the tick loop leaves the node where one pass over the devices puts it |
| Nodes.Node.TickNext | src/node.rs:73-81 | device i's turn within a round moves the node from the pass over devices 0..i-1 to the pass over devices 0..i |
| Nodes.Node.TickDevice | src/node.rs:74-80 | one device's turn leaves the node where `TickOne` puts it |
| Nodes.Node.PublishDeaths | src/node.rs:85-91 | the DDEATH loop leaves the log and counter at the end of the death phase |
| Nodes.Node.Shutdown | src/node.rs:85-96 | the deaths, then NDEATH, which is the last will, then a clean disconnect; device states unchanged |

## Left out

- Timestamps: `util::now()` stamps on metrics and payloads, and the overwrite of the payload timestamp in `MqttClient::publish` (src/mqtt.rs:30). They depend on the wall clock. So NBIRTH and NDEATH model as the same payload.
- The protobuf encoding (`encode_to_vec`) and the numeric codes of `DataType`. Payloads and metrics are small datatypes with optional fields.
- The paho MQTT client: connection options, QoS 1, keep-alive and network failure. `publish` is an append to the log of what reached the broker. `Publish` requires a connected client, because the source unwraps a failed publish and aborts.
- The broker's delivery of the last will after an unclean disconnect. The model records the registered will and proves the run ends with a clean disconnect after publishing it explicitly.
- Threads, the ctrlc handler and the shared `AtomicBool` (src/main.rs). The number of rounds the loop runs is the number of rows of draws.
- `std::thread::sleep` between rounds (src/node.rs:82). It only spaces the rounds in time.
- The random number generator (`ThreadRng`, `Uniform`, `gen_range`). Each tick's draws are inputs within the sampled ranges, and every device receives a `Draws` value every tick. An engine whose countdown is running ignores its draws, while the source draws nothing on those ticks. Draw consumption is therefore not modelled.
- Devices.ClimateStep: f32 arithmetic and rounding are not modelled. Temperatures are reals, so the result is exact where the source rounds to f32.
- Loading the YAML configuration and reading environment variables (src/config.rs). The configuration records are plain datatypes.
- Sparkplug.DDeath: its contract is its whole content, a sequence number and no metrics. What it means for the run is stated in `Lifecycle.DeathsContent` and `Lifecycle.LifecycleDeaths`.
