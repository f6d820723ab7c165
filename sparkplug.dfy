/** Sparkplug B payload construction (src/sparkplug.rs): the simulator's metric
    value union, its mapping onto the typed wire field, the five lifecycle
    payload builders and the per-node sequence counter that wraps at 256.
    Timestamps are not modelled: a payload is its sequence number and its
    ordered metrics. */
module Sparkplug {

  datatype Option<T> = None | Some(value: T)

  newtype u32 = x: int | 0 <= x < 0x1_0000_0000
  newtype u64 = x: int | 0 <= x < 0x1_0000_0000_0000_0000

  /** The protobuf metric data types the simulator uses. */
  datatype DataType = Int32 | Int64 | Boolean | Float

  /** The simulator's tagged metric value; an f32 is modelled as a real. */
  datatype Value = Int32(i: u32) | Int64(l: u64) | Bool(b: bool) | Float32(f: real)

  /** The typed value field of a wire metric (protobuf `metric::Value`). */
  datatype WireValue =
    | IntValue(intValue: u32)
    | LongValue(longValue: u64)
    | BooleanValue(booleanValue: bool)
    | FloatValue(floatValue: real)

  /** A metric the device advertises: name, type and the value sent at birth. */
  datatype MetricConfig = MetricConfig(name: string, dataType: DataType, initialValue: Value)

  /** A wire metric: every field is optional in the protobuf message. */
  datatype Metric = Metric(name: Option<string>, dataType: Option<DataType>, value: Option<WireValue>)

  /** A wire payload: its sequence number and its metrics, in order. */
  datatype Payload = Payload(sequence: Option<u64>, metrics: seq<Metric>)

  /** The value tag agrees with the declared data type. */
  predicate Matches(v: Value, dt: DataType) {
    match v
    case Int32(_) => dt == DataType.Int32
    case Int64(_) => dt == DataType.Int64
    case Bool(_) => dt == Boolean
    case Float32(_) => dt == Float
  }

  /** The wire field that is set agrees with the declared data type. */
  predicate WireMatches(w: WireValue, dt: DataType) {
    match w
    case IntValue(_) => dt == DataType.Int32
    case LongValue(_) => dt == DataType.Int64
    case BooleanValue(_) => dt == Boolean
    case FloatValue(_) => dt == Float
  }

  /** A config whose initial value has the tag its data type announces. */
  predicate WellTypedConfig(c: MetricConfig) {
    Matches(c.initialValue, c.dataType)
  }

  /** Every metric of the payload carries a data type and a value of that type. */
  predicate WellTyped(p: Payload) {
    forall m <- p.metrics :: m.dataType.Some? && m.value.Some? && WireMatches(m.value.value, m.dataType.value)
  }

  /** What a receiver reads back from a wire value. */
  function ToValue(w: WireValue): Value {
    match w
    case IntValue(x) => Value.Int32(x)
    case LongValue(x) => Value.Int64(x)
    case BooleanValue(x) => Bool(x)
    case FloatValue(x) => Float32(x)
  }

  /** `convert_value`: total over the four tags; keeps the tag (as the data
      type it agrees with) and the payload (as what a receiver reads back). */
  function ConvertValue(v: Value): (w: WireValue)
    ensures forall dt :: WireMatches(w, dt) <==> Matches(v, dt)
    ensures ToValue(w) == v
  {
    match v
    case Int32(x) => IntValue(x)
    case Int64(x) => LongValue(x)
    case Bool(x) => BooleanValue(x)
    case Float32(x) => FloatValue(x)
  }

  /** The other direction: every wire value is the conversion of what it reads back as. */
  lemma ConvertToValue(w: WireValue)
    ensures ConvertValue(ToValue(w)) == w
  {
  }

  /** The wire metric every builder pushes for one (config, value) pair. */
  function Entry(c: MetricConfig, v: Value): Metric {
    Metric(Some(c.name), Some(c.dataType), Some(ConvertValue(v)))
  }

  const BdSeqName: string := "bdSeq"

  /** The birth-epoch counter a subscriber reads from a node birth or death
      certificate: its single metric, when that is an Int64 named bdSeq. */
  function BdSeqOf(p: Payload): Option<u64> {
    if |p.metrics| == 1 && p.metrics[0].name == Some(BdSeqName)
       && p.metrics[0].dataType == Some(DataType.Int64)
       && p.metrics[0].value.Some? && p.metrics[0].value.value.LongValue?
    then Some(p.metrics[0].value.value.longValue)
    else None
  }

  /** `nbirth`: sequence number 0 and the single bdSeq metric. */
  function NBirth(bdSeq: u64): Payload {
    Payload(Some(0), [Entry(MetricConfig(BdSeqName, DataType.Int64, Value.Int64(bdSeq)), Value.Int64(bdSeq))])
  }

  /** The payload `dbirth` builds: sequence number seqNum and one metric per
      config, in input order, each carrying the config's initial value. */
  function BirthPayload(seqNum: u64, configs: seq<MetricConfig>): Payload {
    Payload(Some(seqNum), seq(|configs|, i requires 0 <= i < |configs| => Entry(configs[i], configs[i].initialValue)))
  }

  /** `dbirth`: pushes one metric per config onto a payload numbered seqNum. */
  method DBirth(seqNum: u64, configs: seq<MetricConfig>) returns (p: Payload)
    ensures p == BirthPayload(seqNum, configs)
  {
    p := Payload(Some(seqNum), []);
    for i := 0 to |configs|
      invariant p.sequence == Some(seqNum) && |p.metrics| == i
      invariant forall j :: 0 <= j < i ==> p.metrics[j] == Entry(configs[j], configs[j].initialValue)
    {
      p := p.(metrics := p.metrics + [Entry(configs[i], configs[i].initialValue)]);
    }
    assert p.metrics == BirthPayload(seqNum, configs).metrics;
  }

  /** A receiver of a DBIRTH finds, at each position, the config's name, its
      data type and its initial value; and with well-typed configs the whole
      payload is well typed. */
  lemma BirthReadsBack(seqNum: u64, configs: seq<MetricConfig>)
    ensures BirthPayload(seqNum, configs).sequence == Some(seqNum)
    ensures |BirthPayload(seqNum, configs).metrics| == |configs|
    ensures forall i :: 0 <= i < |configs| ==>
      var m := BirthPayload(seqNum, configs).metrics[i];
      m.name == Some(configs[i].name) && m.dataType == Some(configs[i].dataType)
      && m.value.Some? && ToValue(m.value.value) == configs[i].initialValue
    ensures (forall c <- configs :: WellTypedConfig(c)) ==> WellTyped(BirthPayload(seqNum, configs))
  {
    var p := BirthPayload(seqNum, configs);
    if forall c <- configs :: WellTypedConfig(c) {
      forall m <- p.metrics
        ensures m.dataType.Some? && m.value.Some? && WireMatches(m.value.value, m.dataType.value)
      {
        var i :| 0 <= i < |p.metrics| && p.metrics[i] == m;
        assert configs[i] in configs;
      }
    }
  }

  /** The payload `ddata` builds: sequence number seqNum and one metric per
      (config, value) pair, in input order, each carrying the reported value. */
  function DataPayload(seqNum: u64, readings: seq<(MetricConfig, Value)>): Payload {
    Payload(Some(seqNum), seq(|readings|, i requires 0 <= i < |readings| => Entry(readings[i].0, readings[i].1)))
  }

  /** `ddata`: pushes one metric per reading onto a payload numbered seqNum. */
  method DData(seqNum: u64, readings: seq<(MetricConfig, Value)>) returns (p: Payload)
    ensures p == DataPayload(seqNum, readings)
  {
    p := Payload(Some(seqNum), []);
    for i := 0 to |readings|
      invariant p.sequence == Some(seqNum) && |p.metrics| == i
      invariant forall j :: 0 <= j < i ==> p.metrics[j] == Entry(readings[j].0, readings[j].1)
    {
      p := p.(metrics := p.metrics + [Entry(readings[i].0, readings[i].1)]);
    }
    assert p.metrics == DataPayload(seqNum, readings).metrics;
  }

  /** A receiver of a DDATA finds, at each position, the config's name and
      data type and the reported value; when every value has its config's
      type the whole payload is well typed. */
  lemma DataReadsBack(seqNum: u64, readings: seq<(MetricConfig, Value)>)
    ensures DataPayload(seqNum, readings).sequence == Some(seqNum)
    ensures |DataPayload(seqNum, readings).metrics| == |readings|
    ensures forall i :: 0 <= i < |readings| ==>
      var m := DataPayload(seqNum, readings).metrics[i];
      m.name == Some(readings[i].0.name) && m.dataType == Some(readings[i].0.dataType)
      && m.value.Some? && ToValue(m.value.value) == readings[i].1
    ensures (forall r <- readings :: Matches(r.1, r.0.dataType)) ==> WellTyped(DataPayload(seqNum, readings))
  {
    var p := DataPayload(seqNum, readings);
    if forall r <- readings :: Matches(r.1, r.0.dataType) {
      forall m <- p.metrics
        ensures m.dataType.Some? && m.value.Some? && WireMatches(m.value.value, m.dataType.value)
      {
        var i :| 0 <= i < |p.metrics| && p.metrics[i] == m;
        assert readings[i] in readings;
      }
    }
  }

  /** `ndeath`: sequence number 0 and the single bdSeq metric. */
  function NDeath(bdSeq: u64): Payload {
    Payload(Some(0), [Entry(MetricConfig(BdSeqName, DataType.Int64, Value.Int64(bdSeq)), Value.Int64(bdSeq))])
  }

  /** The node birth certificate carries sequence number 0 and exactly one
      metric, bdSeq, an Int64 from which a subscriber reads the epoch back.
      The node death certificate is the same payload (the two differ only in
      the timestamps this model leaves out), so a subscriber correlates them
      by bdSeq. */
  lemma NodeCertificates(bdSeq: u64)
    ensures NBirth(bdSeq).sequence == Some(0) && |NBirth(bdSeq).metrics| == 1
    ensures NBirth(bdSeq).metrics[0].name == Some(BdSeqName)
    ensures BdSeqOf(NBirth(bdSeq)) == Some(bdSeq) && WellTyped(NBirth(bdSeq))
    ensures NDeath(bdSeq) == NBirth(bdSeq) && BdSeqOf(NDeath(bdSeq)) == Some(bdSeq)
  {
  }

  /** `ddeath`: sequence number seqNum and no metrics. */
  function DDeath(seqNum: u64): (p: Payload)
    ensures p.sequence == Some(seqNum) && p.metrics == []
  {
    Payload(Some(seqNum), [])
  }

  /** The value `Sequence::next` produces from the counter c: one more, wrapping
      from 255 back to 0. */
  function Successor(c: u64): (r: u64)
    requires c < 256
    ensures r < 256
    ensures c < 255 ==> r == c + 1
    ensures c == 255 ==> r == 0
  {
    (c + 1) % 256
  }

  /** The counter after k calls of `next` on a fresh Sequence. */
  function Issued(k: nat): (c: u64)
    ensures c < 256
  {
    if k == 0 then 0 else Successor(Issued(k - 1))
  }

  /** Successor on a counter that stands for m steps stands for m + 1 steps. */
  lemma SuccessorMod(m: nat)
    ensures Successor((m % 256) as u64) == ((m + 1) % 256) as u64
  {
    if m % 256 == 255 {
      assert (m + 1) % 256 == 0;
    } else {
      assert (m + 1) % 256 == m % 256 + 1;
    }
  }

  /** The k-th call of `next` on a fresh Sequence returns k mod 256: the values
      run 1, 2, ..., 255, 0, 1, ... with no gap and no repeat within a wrap. */
  lemma {:induction false} IssuedIsMod(k: nat)
    ensures Issued(k) == (k % 256) as u64
  {
    if k > 0 {
      IssuedIsMod(k - 1);
      SuccessorMod(k - 1);
    }
  }

  /** `Sequence`: the per-node payload counter, kept in [0, 255]. */
  class Sequence {
    var inner: u64

    ghost predicate Valid()
      reads this
    {
      inner < 256
    }

    /** `Sequence::new`: starts at 0. */
    constructor ()
      ensures Valid() && inner == 0
    {
      inner := 0;
    }

    /** `Sequence::next`: advances the counter and returns its new value. */
    method Next() returns (r: u64)
      requires Valid()
      modifies this
      ensures Valid()
      ensures r == inner == Successor(old(inner))
    {
      inner := inner + 1;
      inner := inner % 256;
      r := inner;
    }
  }
}
