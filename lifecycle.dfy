/** The publication sequence of one node's life (src/node.rs `Node::run`),
    as a function of its devices' starting states and of the random draws
    each tick makes. A trace holds the device states, the publications so far
    and the sequence counter; each phase of the run extends it in the order
    the source does: node birth, one device birth per device, a number of tick
    rounds, one device death per device, node death. */
module Lifecycle {
  import opened Sparkplug
  import opened Config
  import opened Devices
  import opened Topics

  /** One call of `publish`: the topic and the payload handed to the transport. */
  datatype Publication = Publication(topic: string, payload: Payload)

  /** The devices' states, what has been published, and the sequence counter. */
  datatype Trace = Trace(states: seq<DeviceState>, log: seq<Publication>, counter: u64)

  /** One draw per device, each in range: what one tick round consumes. */
  predicate RoundFits(ds: seq<Draws>, n: nat) {
    |ds| == n && forall i :: 0 <= i < |ds| ==> ds[i].InRange()
  }

  /** One row of draws per round of the tick loop; the number of rows is the
      number of times the loop found the running flag still set. */
  predicate DrawsFit(draws: seq<seq<Draws>>, n: nat) {
    forall k :: 0 <= k < |draws| ==> RoundFits(draws[k], n)
  }

  /** The sequence number carried by the k-th publication. */
  ghost function SeqNo(log: seq<Publication>, k: nat): Option<u64>
    requires k < |log|
  {
    log[k].payload.sequence
  }

  /** Every publication after the first carries its position modulo 256 as its
      sequence number, and the counter holds the last number issued. */
  ghost predicate Numbered(t: Trace) {
    |t.log| >= 1 && t.counter == ((|t.log| - 1) % 256) as u64
    && forall k :: 1 <= k < |t.log| ==> SeqNo(t.log, k) == Some((k % 256) as u64)
  }

  /** p is the DDATA a device in state s publishes for the tick with draws d:
      under the device's DDATA topic, carrying exactly the tick's non-empty readings. */
  ghost predicate Reports(g: string, n: string, s: DeviceState, d: Draws, p: Publication)
    requires d.InRange()
  {
    var out := DeviceTick(s, d).1;
    out != [] && p.topic == TopicDevice(g, n, DDATA, s.Name())
    && p.payload.sequence.Some? && p.payload == DataPayload(p.payload.sequence.value, out)
  }

  /** The sequence number the counter issues next: the position the next
      publication will take, modulo 256. */
  function NextNumber(t: Trace): (c: u64)
    requires Numbered(t)
    ensures c == (|t.log| % 256) as u64
  {
    SuccessorMod(|t.log| - 1);
    Successor(t.counter)
  }

  /** Publishing p with the next sequence number keeps the log numbered. */
  function Emit(t: Trace, p: Publication): (r: Trace)
    requires Numbered(t) && p.payload.sequence == Some(NextNumber(t))
    ensures Numbered(r) && r.states == t.states && r.log == t.log + [p]
  {
    assert forall k :: 1 <= k < |t.log| ==> SeqNo(t.log + [p], k) == SeqNo(t.log, k);
    Trace(t.states, t.log + [p], NextNumber(t))
  }

  /** The birth phase up to device i: NBIRTH with bdSeq 0, then one DBIRTH per
      device in declaration order, each numbered by the counter. */
  function Births(g: string, n: string, states: seq<DeviceState>, i: nat): (t: Trace)
    requires i <= |states|
    ensures t.states == states && |t.log| == i + 1 && Numbered(t)
    decreases i
  {
    if i == 0 then Trace(states, [Publication(Topic(g, n, NBIRTH), NBirth(0))], 0)
    else
      var t := Births(g, n, states, i - 1);
      Emit(t, Publication(TopicDevice(g, n, DBIRTH, states[i - 1].Name()),
                          BirthPayload(NextNumber(t), Advertised(states[i - 1].Kind()))))
  }

  /** What the birth phase publishes: NBIRTH first, then at each position
      k = 1 + j the DBIRTH of device j, numbered k modulo 256 and carrying
      the device's whole metric set. */
  lemma {:induction false} BirthsContent(g: string, n: string, states: seq<DeviceState>, i: nat)
    requires i <= |states|
    ensures Births(g, n, states, i).log[0] == Publication(Topic(g, n, NBIRTH), NBirth(0))
    ensures forall k :: 1 <= k <= i ==>
      Births(g, n, states, i).log[k]
        == Publication(TopicDevice(g, n, DBIRTH, states[k - 1].Name()),
                       BirthPayload((k % 256) as u64, Advertised(states[k - 1].Kind())))
    decreases i
  {
    if i > 0 {
      BirthsContent(g, n, states, i - 1);
      var t := Births(g, n, states, i - 1);
      var p := Publication(TopicDevice(g, n, DBIRTH, states[i - 1].Name()),
                           BirthPayload(NextNumber(t), Advertised(states[i - 1].Kind())));
      var log := Births(g, n, states, i).log;
      assert log == t.log + [p];
      forall k | 1 <= k < i
        ensures log[k] == t.log[k]
      {
      }
      assert log[i] == p;
      assert log[0] == t.log[0];
    }
  }

  /** Device j ticks with draws d and its readings, when there are any, are
      published as DDATA with the next sequence number. No other device changes. */
  function TickOne(g: string, n: string, t: Trace, d: Draws, j: nat): (r: Trace)
    requires Numbered(t) && d.InRange() && j < |t.states|
    ensures Numbered(r) && t.log <= r.log
    ensures r.states == t.states[j := DeviceTick(t.states[j], d).0]
  {
    var (s', out) := DeviceTick(t.states[j], d);
    var u := t.(states := t.states[j := s']);
    if out == [] then u
    else Emit(u, Publication(TopicDevice(g, n, DDATA, s'.Name()), DataPayload(NextNumber(u), out)))
  }

  /** A tick publishes one DDATA if and only if it reported something, and that
      DDATA carries exactly the report. */
  lemma TickOneReport(g: string, n: string, t: Trace, d: Draws, j: nat)
    requires Numbered(t) && d.InRange() && j < |t.states|
    ensures |TickOne(g, n, t, d, j).log| == |t.log| + (if DeviceTick(t.states[j], d).1 != [] then 1 else 0)
    ensures |TickOne(g, n, t, d, j).log| > |t.log| ==>
      Reports(g, n, t.states[j], d, TickOne(g, n, t, d, j).log[|t.log|])
  {
    var r := TickOne(g, n, t, d, j);
    if |r.log| > |t.log| {
      assert DeviceTick(t.states[j], d).0.Name() == t.states[j].Name();
    }
  }

  /** One pass of the tick loop's body over devices 0..i, in declaration order. */
  function TickDevices(g: string, n: string, t: Trace, ds: seq<Draws>, i: nat): (r: Trace)
    requires Numbered(t) && RoundFits(ds, |t.states|) && i <= |ds|
    ensures Numbered(r) && t.log <= r.log && |r.states| == |t.states|
    decreases i
  {
    if i == 0 then t
    else TickOne(g, n, TickDevices(g, n, t, ds, i - 1), ds[i - 1], i - 1)
  }

  /** After a tick pass over devices 0..i, each of them is in the state its own
      tick produced and the rest are untouched. */
  lemma {:induction false} TickDevicesStates(g: string, n: string, t: Trace, ds: seq<Draws>, i: nat)
    requires Numbered(t) && RoundFits(ds, |t.states|) && i <= |ds|
    ensures forall j {:trigger TickDevices(g, n, t, ds, i).states[j]} :: 0 <= j < i ==>
      TickDevices(g, n, t, ds, i).states[j] == DeviceTick(t.states[j], ds[j]).0
    ensures forall j {:trigger TickDevices(g, n, t, ds, i).states[j]} :: i <= j < |t.states| ==>
      TickDevices(g, n, t, ds, i).states[j] == t.states[j]
    decreases i
  {
    if i > 0 {
      TickDevicesStates(g, n, t, ds, i - 1);
      var prev := TickDevices(g, n, t, ds, i - 1);
      assert TickDevices(g, n, t, ds, i).states
        == prev.states[i - 1 := DeviceTick(prev.states[i - 1], ds[i - 1]).0];
    }
  }

  /** p is the report of one of the first i devices of a tick pass. */
  ghost predicate ReportedBy(g: string, n: string, states: seq<DeviceState>, ds: seq<Draws>, i: nat, p: Publication)
    requires i <= |states| && RoundFits(ds, |states|)
  {
    exists j :: 0 <= j < i && Reports(g, n, states[j], ds[j], p)
  }

  /** In a tick pass, each DDATA published is the report of one of the devices
      ticked so far. */
  lemma {:induction false} TickDevicesReport(g: string, n: string, t: Trace, ds: seq<Draws>, i: nat)
    requires Numbered(t) && RoundFits(ds, |t.states|) && i <= |ds|
    ensures forall k :: |t.log| <= k < |TickDevices(g, n, t, ds, i).log| ==>
      ReportedBy(g, n, t.states, ds, i, TickDevices(g, n, t, ds, i).log[k])
    decreases i
  {
    if i > 0 {
      TickDevicesReport(g, n, t, ds, i - 1);
      TickDevicesStates(g, n, t, ds, i - 1);
      var prev := TickDevices(g, n, t, ds, i - 1);
      TickOneReport(g, n, prev, ds[i - 1], i - 1);
      var r := TickOne(g, n, prev, ds[i - 1], i - 1);
      assert prev.states[i - 1] == t.states[i - 1];
      forall k | |t.log| <= k < |r.log|
        ensures ReportedBy(g, n, t.states, ds, i, r.log[k])
      {
        if k < |prev.log| {
          assert r.log[k] == prev.log[k];
          assert ReportedBy(g, n, t.states, ds, i - 1, prev.log[k]);
        } else {
          assert Reports(g, n, t.states[i - 1], ds[i - 1], r.log[k]);
        }
      }
    }
  }

  /** The first k rounds of the tick loop. */
  function TickRounds(g: string, n: string, t: Trace, draws: seq<seq<Draws>>, k: nat): (r: Trace)
    requires Numbered(t) && DrawsFit(draws, |t.states|) && k <= |draws|
    ensures Numbered(r) && t.log <= r.log && |r.states| == |t.states|
    decreases k
  {
    if k == 0 then t
    else
      var prev := TickRounds(g, n, t, draws, k - 1);
      assert RoundFits(draws[k - 1], |prev.states|);
      TickDevices(g, n, prev, draws[k - 1], |t.states|)
  }

  /** a and b describe the same devices: same number, same names, same kinds. */
  ghost predicate SameDevices(a: seq<DeviceState>, b: seq<DeviceState>) {
    |a| == |b| && forall j :: 0 <= j < |a| ==> a[j].Name() == b[j].Name() && a[j].Kind() == b[j].Kind()
  }

  /** Ticking never renames a device or changes its kind. */
  lemma {:induction false} TickRoundsKeepDevices(g: string, n: string, t: Trace, draws: seq<seq<Draws>>, k: nat)
    requires Numbered(t) && DrawsFit(draws, |t.states|) && k <= |draws|
    ensures SameDevices(TickRounds(g, n, t, draws, k).states, t.states)
    decreases k
  {
    if k > 0 {
      TickRoundsKeepDevices(g, n, t, draws, k - 1);
      var prev := TickRounds(g, n, t, draws, k - 1);
      assert RoundFits(draws[k - 1], |prev.states|);
      TickDevicesStates(g, n, prev, draws[k - 1], |t.states|);
      var r := TickDevices(g, n, prev, draws[k - 1], |t.states|);
      assert TickRounds(g, n, t, draws, k) == r;
      forall j | 0 <= j < |t.states|
        ensures r.states[j].Name() == t.states[j].Name() && r.states[j].Kind() == t.states[j].Kind()
      {
        assert r.states[j] == DeviceTick(prev.states[j], draws[k - 1][j]).0;
      }
    }
  }

  /** The device deaths up to device i: one DDEATH per device in declaration
      order, each numbered by the counter, after what was published before. */
  function Deaths(g: string, n: string, t: Trace, i: nat): (r: Trace)
    requires Numbered(t) && i <= |t.states|
    ensures Numbered(r) && r.states == t.states && |r.log| == |t.log| + i
    ensures r.log[..|t.log|] == t.log
    decreases i
  {
    if i == 0 then t
    else
      var prev := Deaths(g, n, t, i - 1);
      Emit(prev, Publication(TopicDevice(g, n, DDEATH, t.states[i - 1].Name()), DDeath(NextNumber(prev))))
  }

  /** What the death phase publishes: device j's DDEATH, with no metrics,
      right after the j earlier ones, numbered by its position modulo 256. */
  lemma {:induction false} DeathsContent(g: string, n: string, t: Trace, i: nat)
    requires Numbered(t) && i <= |t.states|
    ensures forall k :: |t.log| <= k < |t.log| + i ==>
      Deaths(g, n, t, i).log[k]
        == Publication(TopicDevice(g, n, DDEATH, t.states[k - |t.log|].Name()), DDeath((k % 256) as u64))
    decreases i
  {
    if i > 0 {
      DeathsContent(g, n, t, i - 1);
      var prev := Deaths(g, n, t, i - 1);
      var p := Publication(TopicDevice(g, n, DDEATH, t.states[i - 1].Name()), DDeath(NextNumber(prev)));
      var log := Deaths(g, n, t, i).log;
      assert log == prev.log + [p];
      forall k | |t.log| <= k < |t.log| + i - 1
        ensures log[k] == prev.log[k]
      {
      }
      assert log[|t.log| + i - 1] == p;
    }
  }

  /** `Node::run` on a freshly built node: births, |draws| tick rounds, deaths,
      and last the node death certificate with bdSeq 0. The devices keep their
      names and kinds throughout. */
  function RunTrace(g: string, n: string, states: seq<DeviceState>, draws: seq<seq<Draws>>): (t: Trace)
    requires DrawsFit(draws, |states|)
    ensures SameDevices(t.states, states)
  {
    var born := Births(g, n, states, |states|);
    TickRoundsKeepDevices(g, n, born, draws, |draws|);
    var ran := TickRounds(g, n, born, draws, |draws|);
    var dead := Deaths(g, n, ran, |states|);
    Trace(dead.states, dead.log + [Publication(Topic(g, n, NDEATH), NDeath(0))], dead.counter)
  }

  /** A node's publications open with NBIRTH and then the DBIRTH of every
      device in declaration order, device j's at position 1 + j, numbered by
      the counter and carrying the device's whole metric set. */
  lemma LifecycleBirths(g: string, n: string, states: seq<DeviceState>, draws: seq<seq<Draws>>)
    requires DrawsFit(draws, |states|)
    ensures var log := RunTrace(g, n, states, draws).log;
      |log| >= 2 * |states| + 2
    ensures var log := RunTrace(g, n, states, draws).log;
      log[0] == Publication(Topic(g, n, NBIRTH), NBirth(0))
    ensures var log := RunTrace(g, n, states, draws).log;
      forall k :: 1 <= k <= |states| ==>
      log[k] == Publication(TopicDevice(g, n, DBIRTH, states[k - 1].Name()),
                            BirthPayload((k % 256) as u64, Advertised(states[k - 1].Kind())))
  {
    var log := RunTrace(g, n, states, draws).log;
    var born := Births(g, n, states, |states|);
    var ran := TickRounds(g, n, born, draws, |draws|);
    var dead := Deaths(g, n, ran, |states|);
    assert log == dead.log + [Publication(Topic(g, n, NDEATH), NDeath(0))];
    BirthsContent(g, n, states, |states|);
    forall x | 0 <= x < |born.log|
      ensures log[x] == born.log[x]
    {
      assert ran.log[x] == born.log[x];
      assert dead.log[x] == ran.log[x];
    }
    assert log[0] == born.log[0];
  }

  /** The death phase after t, followed by one more publication, for devices
      with the names of states: device j's DDEATH sits at position |t.log| + j. */
  lemma DeathsClose(g: string, n: string, t: Trace, states: seq<DeviceState>, last: Publication)
    requires Numbered(t) && SameDevices(t.states, states)
    ensures |Deaths(g, n, t, |states|).log + [last]| == |t.log| + |states| + 1
    ensures forall k :: |t.log| <= k < |t.log| + |states| ==>
      (Deaths(g, n, t, |states|).log + [last])[k]
        == Publication(TopicDevice(g, n, DDEATH, states[k - |t.log|].Name()), DDeath((k % 256) as u64))
  {
    DeathsContent(g, n, t, |states|);
    var dead := Deaths(g, n, t, |states|);
    forall k | |t.log| <= k < |t.log| + |states|
      ensures (dead.log + [last])[k]
        == Publication(TopicDevice(g, n, DDEATH, states[k - |t.log|].Name()), DDeath((k % 256) as u64))
    {
      assert (dead.log + [last])[k] == dead.log[k];
      assert t.states[k - |t.log|].Name() == states[k - |t.log|].Name();
    }
  }

  /** A node's publications close with the DDEATH of every device in
      declaration order, numbered by the counter, and last of all NDEATH. */
  lemma LifecycleDeaths(g: string, n: string, states: seq<DeviceState>, draws: seq<seq<Draws>>)
    requires DrawsFit(draws, |states|)
    ensures var log := RunTrace(g, n, states, draws).log;
      |log| >= 2 * |states| + 2
    ensures var log := RunTrace(g, n, states, draws).log;
      forall k :: |log| - 1 - |states| <= k < |log| - 1 ==>
      log[k] == Publication(TopicDevice(g, n, DDEATH, states[k - (|log| - 1 - |states|)].Name()),
                            DDeath((k % 256) as u64))
    ensures var log := RunTrace(g, n, states, draws).log;
      log[|log| - 1] == Publication(Topic(g, n, NDEATH), NDeath(0))
  {
    var log := RunTrace(g, n, states, draws).log;
    var born := Births(g, n, states, |states|);
    var ran := TickRounds(g, n, born, draws, |draws|);
    var last := Publication(Topic(g, n, NDEATH), NDeath(0));
    assert log == Deaths(g, n, ran, |states|).log + [last];
    TickRoundsKeepDevices(g, n, born, draws, |draws|);
    DeathsClose(g, n, ran, states, last);
    assert |born.log| <= |ran.log|;
  }

  /** Sequence numbers: NBIRTH and NDEATH carry 0; every publication between
      them carries its position modulo 256, so DBIRTH, DDATA and DDEATH take
      the counter's values 1, 2, ... in emission order, wrapping after 255. */
  lemma LifecycleNumbering(g: string, n: string, states: seq<DeviceState>, draws: seq<seq<Draws>>)
    requires DrawsFit(draws, |states|)
    ensures var log := RunTrace(g, n, states, draws).log;
      log[0].payload.sequence == Some(0) && log[|log| - 1].payload.sequence == Some(0)
    ensures var log := RunTrace(g, n, states, draws).log;
      forall k :: 1 <= k < |log| - 1 ==> log[k].payload.sequence == Some((k % 256) as u64)
  {
    var log := RunTrace(g, n, states, draws).log;
    var born := Births(g, n, states, |states|);
    var ran := TickRounds(g, n, born, draws, |draws|);
    var dead := Deaths(g, n, ran, |states|);
    assert log == dead.log + [Publication(Topic(g, n, NDEATH), NDeath(0))];
    LifecycleBirths(g, n, states, draws);
    forall k | 1 <= k < |log| - 1
      ensures log[k].payload.sequence == Some((k % 256) as u64)
    {
      assert log[k] == dead.log[k];
      assert SeqNo(dead.log, k) == Some((k % 256) as u64);
    }
  }

  /** A metric a device of this kind advertises: same name and data type. */
  ghost predicate Advertises(kind: DeviceType, m: Metric) {
    exists c :: c in Advertised(kind) && m.name == Some(c.name) && m.dataType == Some(c.dataType)
  }

  /** p is a DDATA for the device s: under its DDATA topic, with at least one
      metric, each of them one the device advertises, with the advertised type. */
  ghost predicate DataFor(g: string, n: string, s: DeviceState, p: Publication) {
    p.topic == TopicDevice(g, n, DDATA, s.Name()) && p.payload.metrics != []
    && forall m :: m in p.payload.metrics ==> Advertises(s.Kind(), m)
  }

  /** What a device reports in DDATA is a non-empty set of metrics it advertises. */
  lemma ReportIsData(g: string, n: string, s: DeviceState, d: Draws, p: Publication)
    requires d.InRange() && Reports(g, n, s, d, p)
    ensures DataFor(g, n, s, p)
  {
    var out := DeviceTick(s, d).1;
    forall m | m in p.payload.metrics
      ensures Advertises(s.Kind(), m)
    {
      var i :| 0 <= i < |p.payload.metrics| && p.payload.metrics[i] == m;
      assert m == Entry(out[i].0, out[i].1);
      assert out[i] in out;
    }
  }

  /** p is a DDATA for one of the devices. */
  ghost predicate DataOfSome(g: string, n: string, states: seq<DeviceState>, p: Publication) {
    exists j :: 0 <= j < |states| && DataFor(g, n, states[j], p)
  }

  /** Every publication of one tick pass is a DDATA for one of the devices. */
  lemma TickDevicesData(g: string, n: string, t: Trace, ds: seq<Draws>)
    requires Numbered(t) && RoundFits(ds, |t.states|)
    ensures forall x :: |t.log| <= x < |TickDevices(g, n, t, ds, |t.states|).log| ==>
      DataOfSome(g, n, t.states, TickDevices(g, n, t, ds, |t.states|).log[x])
  {
    var r := TickDevices(g, n, t, ds, |t.states|);
    TickDevicesReport(g, n, t, ds, |t.states|);
    forall x | |t.log| <= x < |r.log|
      ensures DataOfSome(g, n, t.states, r.log[x])
    {
      assert ReportedBy(g, n, t.states, ds, |t.states|, r.log[x]);
      var j :| 0 <= j < |t.states| && Reports(g, n, t.states[j], ds[j], r.log[x]);
      ReportIsData(g, n, t.states[j], ds[j], r.log[x]);
    }
  }

  /** Whether p is data for one of the devices depends only on their names and kinds. */
  lemma DataOfSameDevices(g: string, n: string, a: seq<DeviceState>, b: seq<DeviceState>, p: Publication)
    requires SameDevices(a, b) && DataOfSome(g, n, a, p)
    ensures DataOfSome(g, n, b, p)
  {
    var j :| 0 <= j < |a| && DataFor(g, n, a[j], p);
    assert DataFor(g, n, b[j], p);
  }

  /** Every publication of the tick rounds is a DDATA for one of the node's
      devices, carrying only metrics that device advertises. */
  lemma {:induction false} RoundsData(g: string, n: string, t: Trace, draws: seq<seq<Draws>>, k: nat)
    requires Numbered(t) && DrawsFit(draws, |t.states|) && k <= |draws|
    ensures forall x :: |t.log| <= x < |TickRounds(g, n, t, draws, k).log| ==>
      DataOfSome(g, n, t.states, TickRounds(g, n, t, draws, k).log[x])
    decreases k
  {
    if k > 0 {
      RoundsData(g, n, t, draws, k - 1);
      TickRoundsKeepDevices(g, n, t, draws, k - 1);
      var prev := TickRounds(g, n, t, draws, k - 1);
      assert RoundFits(draws[k - 1], |prev.states|);
      TickDevicesData(g, n, prev, draws[k - 1]);
      var r := TickDevices(g, n, prev, draws[k - 1], |t.states|);
      assert TickRounds(g, n, t, draws, k) == r;
      forall x | |t.log| <= x < |r.log|
        ensures DataOfSome(g, n, t.states, r.log[x])
      {
        if x < |prev.log| {
          assert r.log[x] == prev.log[x];
        } else {
          DataOfSameDevices(g, n, prev.states, t.states, r.log[x]);
        }
      }
    }
  }

  /** A metric was announced in a birth payload: some metric there has its name and type. */
  ghost predicate Announced(birth: Payload, m: Metric) {
    exists b :: b in birth.metrics && b.name == m.name && b.dataType == m.dataType
  }

  /** A DBIRTH announces every metric its device advertises. */
  lemma BirthAnnounces(seqNum: u64, kind: DeviceType, m: Metric)
    requires Advertises(kind, m)
    ensures Announced(BirthPayload(seqNum, Advertised(kind)), m)
  {
    var cs := Advertised(kind);
    var c :| c in cs && m.name == Some(c.name) && m.dataType == Some(c.dataType);
    var x :| 0 <= x < |cs| && cs[x] == c;
    assert BirthPayload(seqNum, cs).metrics[x] in BirthPayload(seqNum, cs).metrics;
  }

  /** data is a DDATA of device s whose every metric the DBIRTH birth announced. */
  ghost predicate BornBefore(g: string, n: string, s: DeviceState, birth: Publication, data: Publication) {
    birth.topic == TopicDevice(g, n, DBIRTH, s.Name())
    && data.topic == TopicDevice(g, n, DDATA, s.Name()) && data.payload.metrics != []
    && forall m :: m in data.payload.metrics ==> Announced(birth.payload, m)
  }

  /** Birth precedes data: every publication between the births and the deaths
      is a DDATA for some device j, published after that device's DBIRTH at
      position 1 + j, and every metric it carries was announced in that DBIRTH
      with the same name and type. */
  lemma BirthBeforeData(g: string, n: string, states: seq<DeviceState>, draws: seq<seq<Draws>>)
    requires DrawsFit(draws, |states|)
    ensures var log := RunTrace(g, n, states, draws).log;
      forall k :: |states| + 1 <= k < |log| - 1 - |states| ==>
      exists j :: 0 <= j < |states| && 1 + j < k && BornBefore(g, n, states[j], log[1 + j], log[k])
  {
    var log := RunTrace(g, n, states, draws).log;
    var born := Births(g, n, states, |states|);
    var ran := TickRounds(g, n, born, draws, |draws|);
    var dead := Deaths(g, n, ran, |states|);
    assert log == dead.log + [Publication(Topic(g, n, NDEATH), NDeath(0))];
    RoundsData(g, n, born, draws, |draws|);
    LifecycleBirths(g, n, states, draws);
    forall k | |states| + 1 <= k < |log| - 1 - |states|
      ensures exists j :: 0 <= j < |states| && 1 + j < k && BornBefore(g, n, states[j], log[1 + j], log[k])
    {
      assert log[k] == dead.log[k] == ran.log[k];
      assert DataOfSome(g, n, born.states, ran.log[k]);
      var j :| 0 <= j < |states| && DataFor(g, n, states[j], log[k]);
      forall m | m in log[k].payload.metrics
        ensures Announced(log[1 + j].payload, m)
      {
        assert log[1 + j].payload == BirthPayload(((1 + j) % 256) as u64, Advertised(states[j].Kind()));
        BirthAnnounces(((1 + j) % 256) as u64, states[j].Kind(), m);
      }
      assert BornBefore(g, n, states[j], log[1 + j], log[k]);
    }
  }
}
