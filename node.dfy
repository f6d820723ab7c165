/** The edge node (src/node.rs `Node`): it owns its devices, the shared
    sequence counter and an MQTT session. The session is modelled by what
    reaches the broker: the log of publications, in order, and whether the
    client is still connected. */
module Nodes {
  import opened Sparkplug
  import opened Config
  import opened Devices
  import opened Topics
  import opened Lifecycle

  /** The device loop of `Node::new`: one fresh device per configured device,
      in configuration order, each in its starting state. */
  method BuildDevices(configs: seq<DeviceConfig>) returns (ds: seq<Device>)
    ensures |ds| == |configs|
    ensures forall j :: 0 <= j < |ds| ==>
      fresh(ds[j].Obj()) && ds[j].State() == InitialState(configs[j])
    ensures forall j, k :: 0 <= j < k < |ds| ==> ds[j].Obj() != ds[k].Obj()
  {
    ds := [];
    for i := 0 to |configs|
      invariant |ds| == i
      invariant forall j :: 0 <= j < i ==>
        fresh(ds[j].Obj()) && ds[j].State() == InitialState(configs[j])
      invariant forall j, k :: 0 <= j < k < i ==> ds[j].Obj() != ds[k].Obj()
    {
      var d := NewDevice(configs[i]);
      ds := ds + [d];
    }
  }

  class Node {
    const brokerUrl: string
    const clientId: string
    const group: string
    const name: string
    /** The last will registered with the broker at connect time. */
    const lastWill: Publication
    const devices: seq<Device>
    const sequence: Sequence
    /** Every publication the client has made, oldest first. */
    var published: seq<Publication>
    var connected: bool

    /** The objects whose fields a tick of some device updates. */
    function Objects(): set<object> {
      set i | 0 <= i < |devices| :: devices[i].Obj()
    }

    /** The device objects are distinct from each other, from the node and
        from its counter. */
    ghost predicate Separate() {
      (forall i :: 0 <= i < |devices| ==> devices[i].Obj() != this && devices[i].Obj() != sequence)
      && forall i, j :: 0 <= i < j < |devices| ==> devices[i].Obj() != devices[j].Obj()
    }

    /** What holds of a node throughout its life: the objects are separate,
        the last will is the node's NDEATH and the counter is in range. */
    ghost predicate Valid()
      reads this, sequence
    {
      Separate() && lastWill == Publication(Topic(group, name, NDEATH), NDeath(0))
      && sequence.Valid()
    }

    /** A node that is still connected has not run yet: nothing published,
        counter 0. */
    ghost predicate NotStarted()
      reads this, sequence
    {
      connected ==> published == [] && sequence.inner == 0
    }

    /** The devices' states, in declaration order. */
    ghost function DeviceStates(): (ss: seq<DeviceState>)
      reads Objects()
      ensures |ss| == |devices|
      ensures forall i :: 0 <= i < |devices| ==> ss[i] == devices[i].State()
    {
      seq(|devices|, i requires 0 <= i < |devices| reads Objects() => devices[i].State())
    }

    /** Each device is in the state ss gives it. */
    ghost predicate StatesAre(ss: seq<DeviceState>)
      reads Objects()
    {
      |ss| == |devices| && forall j {:trigger devices[j].State()} :: 0 <= j < |devices| ==> devices[j].State() == ss[j]
    }

    /** The node is where the trace t says: same publications, same counter,
        same device states. */
    ghost predicate At(t: Trace)
      reads this, sequence, Objects()
    {
      published == t.log && sequence.inner == t.counter && StatesAre(t.states)
    }

    /** `Node::new`: connects with the node's NDEATH (bdSeq 0) as last will,
        builds one device per configured device, in configuration order, and
        starts the sequence counter at 0. */
    constructor (broker: Broker, config: NodeConfig, group: string)
      ensures Valid() && NotStarted() && connected && published == []
      ensures this.group == group && name == config.name
      ensures brokerUrl == broker.url && clientId == config.name
      ensures lastWill == Publication(Topic(group, config.name, NDEATH), NDeath(0))
      ensures fresh(sequence) && sequence.inner == 0
      ensures |devices| == |config.devices|
      ensures forall i :: 0 <= i < |devices| ==>
        fresh(devices[i].Obj()) && devices[i].State() == InitialState(config.devices[i])
    {
      var ds := BuildDevices(config.devices);
      brokerUrl := broker.url;
      clientId := config.name;
      this.group := group;
      name := config.name;
      lastWill := Publication(Topic(group, config.name, NDEATH), NDeath(0));
      devices := ds;
      sequence := new Sequence();
      published := [];
      connected := true;
    }

    /** `MqttClient::publish`: the publication reaches the broker, after every
        earlier one. A disconnected client fails (the source unwraps the error). */
    method Publish(topic: string, payload: Payload)
      requires Valid() && connected
      modifies this
      ensures Valid()
      ensures published == old(published) + [Publication(topic, payload)]
      ensures connected && sequence.inner == old(sequence.inner)
    {
      published := published + [Publication(topic, payload)];
    }

    /** `MqttClient::disconnect`: a clean disconnect, so the broker does not
        send the last will. */
    method Disconnect()
      requires Valid() && connected
      modifies this
      ensures Valid()
      ensures published == old(published) && !connected
      ensures sequence.inner == old(sequence.inner)
    {
      connected := false;
    }

    /** `Node::run`, with the loop running once per row of draws: births, tick
        rounds, deaths and the node death certificate, exactly as the
        lifecycle specifies, ending disconnected. The explicit NDEATH is the
        registered last will. */
    method Run(draws: seq<seq<Draws>>)
      requires Valid() && NotStarted() && connected
      requires DrawsFit(draws, |devices|)
      modifies this, sequence, Objects()
      ensures Valid() && NotStarted() && !connected
      ensures published == RunTrace(group, name, old(DeviceStates()), draws).log
      ensures DeviceStates() == RunTrace(group, name, old(DeviceStates()), draws).states
      ensures published[|published| - 1] == lastWill
    {
      ghost var states0 := DeviceStates();
      PublishBirths(states0);
      ghost var born := Births(group, name, states0, |devices|);
      Simulate(draws, born);
      ghost var ran := TickRounds(group, name, born, draws, |draws|);
      TickRoundsKeepDevices(group, name, born, draws, |draws|);
      Shutdown(ran);
      assert DeviceStates() == ran.states;
    }

    /** states describe the node's devices: one per device, with its name and kind. */
    predicate Named(states: seq<DeviceState>) {
      |states| == |devices|
      && forall j :: 0 <= j < |devices| ==>
        devices[j].Name() == states[j].Name() && devices[j].Kind() == states[j].Kind()
    }

    /** The births: NBIRTH, then one DBIRTH per device in declaration order. */
    method PublishBirths(ghost states: seq<DeviceState>)
      requires Valid() && Named(states) && connected
      requires published == [] && sequence.inner == 0 && StatesAre(states)
      modifies this, sequence
      ensures Valid() && connected
      ensures At(Births(group, name, states, |devices|))
    {
      // The device objects stay allocated, so calls that modify only the node
      // and its counter leave the devices' states alone.
      assert forall j :: 0 <= j < |devices| ==> allocated(devices[j].Obj());
      Publish(Topic(group, name, NBIRTH), NBirth(0));
      for i := 0 to |devices|
        invariant Valid() && connected && StatesAre(states)
        invariant Trace(states, published, sequence.inner) == Births(group, name, states, i)
      {
        PublishBirth(i, states);
      }
    }

    /** Device i's DBIRTH: its whole metric set under the next sequence number. */
    method PublishBirth(i: nat, ghost states: seq<DeviceState>)
      requires Valid() && Named(states) && i < |devices|
      requires connected && StatesAre(states)
      requires Trace(states, published, sequence.inner) == Births(group, name, states, i)
      modifies this, sequence
      ensures Valid() && connected && StatesAre(states)
      ensures Trace(states, published, sequence.inner) == Births(group, name, states, i + 1)
    {
      assert forall j :: 0 <= j < |devices| ==> allocated(devices[j].Obj());
      ghost var t := Births(group, name, states, i);
      var s := sequence.Next();
      assert s == NextNumber(t);
      var payload := DBirth(s, devices[i].MetricsConfig());
      var topic := TopicDevice(group, name, DBIRTH, devices[i].Name());
      assert Births(group, name, states, i + 1) == Emit(t, Publication(topic, payload));
      Publish(topic, payload);
    }

    /** The end of the run: the deaths, then the node death certificate, which
        is the registered last will, then a clean disconnect. */
    method Shutdown(ghost t: Trace)
      requires Valid() && Named(t.states) && connected
      requires Numbered(t) && At(t)
      modifies this, sequence
      ensures Valid() && !connected
      ensures published == Deaths(group, name, t, |devices|).log + [lastWill]
      ensures published[|published| - 1] == lastWill
      ensures StatesAre(t.states)
    {
      // The device objects stay allocated, so calls that modify only the node
      // and its counter leave the devices' states alone.
      assert forall j :: 0 <= j < |devices| ==> allocated(devices[j].Obj());
      PublishDeaths(t);
      Publish(Topic(group, name, NDEATH), NDeath(0));
      Disconnect();
    }

    /** The deaths: one DDEATH per device in declaration order. */
    method PublishDeaths(ghost t: Trace)
      requires Valid() && Named(t.states) && connected
      requires Numbered(t) && published == t.log && sequence.inner == t.counter
      modifies this, sequence
      ensures Valid() && connected
      ensures Trace(t.states, published, sequence.inner) == Deaths(group, name, t, |devices|)
    {
      for i := 0 to |devices|
        invariant Valid() && connected
        invariant Trace(t.states, published, sequence.inner) == Deaths(group, name, t, i)
      {
        ghost var u := Deaths(group, name, t, i);
        var s := sequence.Next();
        assert s == NextNumber(u);
        Publish(TopicDevice(group, name, DDEATH, devices[i].Name()), DDeath(s));
      }
    }

    /** The tick loop: one round per row of draws, for as long as the running
        flag is found set. */
    method Simulate(draws: seq<seq<Draws>>, ghost t: Trace)
      requires Valid() && connected && DrawsFit(draws, |devices|)
      requires Numbered(t) && At(t)
      modifies this, sequence, Objects()
      ensures Valid() && connected
      ensures At(TickRounds(group, name, t, draws, |draws|))
    {
      for k := 0 to |draws|
        invariant Valid() && connected
        invariant At(TickRounds(group, name, t, draws, k))
      {
        ghost var u := TickRounds(group, name, t, draws, k);
        assert RoundFits(draws[k], |u.states|);
        TickRound(draws[k], u);
        assert TickRounds(group, name, t, draws, k + 1) == TickDevices(group, name, u, draws[k], |t.states|);
      }
    }

    /** One iteration of the tick loop: each device ticks in order. */
    method TickRound(ds: seq<Draws>, ghost t: Trace)
      requires Valid() && connected && RoundFits(ds, |devices|)
      requires Numbered(t) && At(t)
      modifies this, sequence, Objects()
      ensures Valid() && connected
      ensures At(TickDevices(group, name, t, ds, |devices|))
    {
      // Of Valid(), only the counter's range can change; the rest is about
      // constant fields.
      for i := 0 to |devices|
        invariant connected && sequence.Valid()
        invariant At(TickDevices(group, name, t, ds, i))
      {
        TickNext(ds, i, t);
      }
    }

    /** Device i's turn within a round: from the state after devices 0..i-1
        to the state after devices 0..i. */
    method TickNext(ds: seq<Draws>, i: nat, ghost t: Trace)
      requires Valid() && connected && RoundFits(ds, |devices|) && i < |devices|
      requires Numbered(t) && |t.states| == |devices| && At(TickDevices(group, name, t, ds, i))
      modifies this, sequence, devices[i].Obj()
      ensures Valid() && connected
      ensures At(TickDevices(group, name, t, ds, i + 1))
    {
      ghost var u := TickDevices(group, name, t, ds, i);
      TickDevice(i, ds[i], u);
      assert TickDevices(group, name, t, ds, i + 1) == TickOne(group, name, u, ds[i], i);
    }

    /** One device's turn in the tick loop: it ticks, and its readings, when
        there are any, are published as DDATA with the next sequence number. */
    method TickDevice(i: nat, d: Draws, ghost t: Trace)
      requires Valid() && connected && d.InRange() && i < |devices|
      requires Numbered(t) && At(t)
      modifies this, sequence, devices[i].Obj()
      ensures Valid() && connected
      ensures At(TickOne(group, name, t, d, i))
    {
      var values := devices[i].Tick(d);
      forall j | 0 <= j < |devices| && j != i
        ensures devices[j].State() == t.states[j]
      {
      }
      ghost var u := t.(states := t.states[i := devices[i].State()]);
      assert At(u);
      // Publishing modifies only the node and its counter.
      assert forall j :: 0 <= j < |devices| ==> allocated(devices[j].Obj());
      if values != [] {
        var s := sequence.Next();
        var payload := DData(s, values);
        Publish(TopicDevice(group, name, DDATA, devices[i].Name()), payload);
      }
    }
  }
}
