/** The simulated devices (src/device.rs). Each device advertises a fixed set
    of metrics and, once per tick, reports the metrics that changed. The random
    draws a tick makes are inputs here, constrained to the ranges the source
    samples from; temperatures are reals instead of f32. */
module Devices {
  import opened Sparkplug
  import opened Config

  /** A reported metric: the advertised config and its new value. */
  type Reading = (MetricConfig, Value)

  // The ranges the source samples from: half-open, as `Uniform::from(a..b)`
  // and `gen_range(a..b)` are, except that the temperature change is closed
  // above, since casting a draw just below 1.5 to f32 can round it to 1.5.
  const RpmLow: u32 := 100
  const RpmHigh: u32 := 500
  const IntervalLow: u32 := 1
  const IntervalHigh: u32 := 10
  const ChangeLow: real := 0.1
  const ChangeHigh: real := 1.5

  // The climate controller's starting temperature and hysteresis bounds.
  const InitialTemperature: real := 20.0
  const ActivateAbove: real := 30.0
  const StayActiveAbove: real := 25.0

  const MetricRpm: MetricConfig := MetricConfig("rpm", DataType.Int32, Value.Int32(0))
  const MetricTemperature: MetricConfig := MetricConfig("temperature", Float, Float32(InitialTemperature))
  const MetricClimateActive: MetricConfig := MetricConfig("climateactive", Boolean, Bool(false))

  /** `metrics_config` of each kind: the complete set of metrics a device of
      that kind advertises at birth and may ever report. Names are distinct and
      every initial value has its config's type. */
  function Advertised(kind: DeviceType): (ms: seq<MetricConfig>)
    ensures forall c <- ms :: WellTypedConfig(c)
    ensures forall i, j :: 0 <= i < j < |ms| ==> ms[i].name != ms[j].name
    ensures kind == engine ==> ms == [MetricRpm]
    ensures kind == climatecontrol ==> ms == [MetricClimateActive, MetricTemperature]
  {
    match kind
    case engine => [MetricRpm]
    case climatecontrol => [MetricClimateActive, MetricTemperature]
  }

  /** The random values one tick of one device may draw: an RPM and a countdown
      for an engine, a temperature change for a climate controller. */
  datatype Draws = Draws(rpm: u32, interval: u32, change: real) {
    predicate InRange() {
      RpmLow <= rpm < RpmHigh && IntervalLow <= interval < IntervalHigh
      && ChangeLow <= change <= ChangeHigh
    }
  }

  datatype EngineState = EngineState(name: string, lastValue: u32, nextChange: u32)

  datatype ClimateState = ClimateState(name: string, active: bool, lastTemperature: real)

  /** The abstract state of one device, whatever its kind. */
  datatype DeviceState = EngineUnit(engineState: EngineState) | ClimateUnit(climateState: ClimateState) {
    function Name(): string {
      match this
      case EngineUnit(s) => s.name
      case ClimateUnit(s) => s.name
    }

    function Kind(): DeviceType {
      match this
      case EngineUnit(_) => engine
      case ClimateUnit(_) => climatecontrol
    }
  }

  /** What holds of an engine at every tick: `last_value` is never reassigned
      after construction, and a countdown is always below its draw range's bound. */
  ghost predicate EngineInv(s: EngineState) {
    s.lastValue == 0 && s.nextChange < IntervalHigh
  }

  /** `Engine::tick`: while the countdown runs it is decremented and nothing is
      reported; when it has expired a new RPM is drawn and reported if it
      differs from `last_value`, and a new countdown is drawn. */
  function EngineStep(s: EngineState, rpm: u32, interval: u32): (r: (EngineState, seq<Reading>))
    requires RpmLow <= rpm < RpmHigh && IntervalLow <= interval < IntervalHigh
    ensures r.0.name == s.name && r.0.lastValue == s.lastValue
    ensures s.nextChange > 0 ==> r.0.nextChange == s.nextChange - 1 && r.1 == []
    ensures s.nextChange == 0 ==> r.0.nextChange == interval
    ensures |r.1| <= 1
    ensures forall x <- r.1 :: x.0 == MetricRpm && x.1 == Value.Int32(rpm)
    ensures r.1 != [] <==> s.nextChange == 0 && rpm != s.lastValue
    ensures EngineInv(s) ==> EngineInv(r.0) && (r.1 != [] <==> s.nextChange == 0)
  {
    if s.nextChange == 0 then
      var out := if rpm != s.lastValue then [(MetricRpm, Value.Int32(rpm))] else [];
      (s.(nextChange := interval), out)
    else
      (s.(nextChange := s.nextChange - 1), [])
  }

  /** `ClimateControl::tick`: the temperature rises by the drawn change while
      inactive and falls by it while active, and is always reported first; the
      controller switches on above 30.0 and, once on, stays on above 25.0; the
      switch state is reported second, only on the tick it flips. */
  function ClimateStep(s: ClimateState, change: real): (r: (ClimateState, seq<Reading>))
    requires ChangeLow <= change <= ChangeHigh
    ensures r.0.name == s.name
    ensures !s.active ==> r.0.lastTemperature == s.lastTemperature + change
    ensures s.active ==> r.0.lastTemperature == s.lastTemperature - change
    ensures !s.active ==> (r.0.active <==> r.0.lastTemperature > ActivateAbove)
    ensures s.active ==> (r.0.active <==> r.0.lastTemperature > StayActiveAbove)
    ensures 1 <= |r.1| <= 2 && r.1[0] == (MetricTemperature, Float32(r.0.lastTemperature))
    ensures |r.1| == 2 <==> r.0.active != s.active
    ensures |r.1| == 2 ==> r.1[1] == (MetricClimateActive, Bool(r.0.active))
  {
    var temperature := if s.active then s.lastTemperature - change else s.lastTemperature + change;
    var active := if s.active then temperature > StayActiveAbove else temperature > ActivateAbove;
    var flip := if active != s.active then [(MetricClimateActive, Bool(active))] else [];
    (ClimateState(s.name, active, temperature), [(MetricTemperature, Float32(temperature))] + flip)
  }

  /** `tick` of any device: keeps its name and kind, and reports only metrics it
      advertises, each with a value of the advertised type. */
  function DeviceTick(s: DeviceState, d: Draws): (r: (DeviceState, seq<Reading>))
    requires d.InRange()
    ensures r.0.Name() == s.Name() && r.0.Kind() == s.Kind()
    ensures forall x <- r.1 :: x.0 in Advertised(s.Kind()) && Matches(x.1, x.0.dataType)
  {
    match s
    case EngineUnit(e) =>
      var (e', out) := EngineStep(e, d.rpm, d.interval);
      (EngineUnit(e'), out)
    case ClimateUnit(c) =>
      var (c', out) := ClimateStep(c, d.change);
      (ClimateUnit(c'), out)
  }

  /** `Engine::new` / `ClimateControl::new` as picked by `new_device`: a device
      of the configured kind and name, in its starting state. */
  function InitialState(config: DeviceConfig): (s: DeviceState)
    ensures s.Name() == config.name && s.Kind() == config.kind
    ensures s.EngineUnit? ==> EngineInv(s.engineState) && s.engineState.nextChange == 0
    ensures s.ClimateUnit? ==> !s.climateState.active && s.climateState.lastTemperature == InitialTemperature
  {
    match config.kind
    case engine => EngineUnit(EngineState(config.name, 0, 0))
    case climatecontrol => ClimateUnit(ClimateState(config.name, false, InitialTemperature))
  }

  /** The readings of an engine over successive ticks. */
  function EngineOutputs(s: EngineState, ds: seq<Draws>): (outs: seq<seq<Reading>>)
    requires forall i :: 0 <= i < |ds| ==> ds[i].InRange()
    ensures |outs| == |ds|
    decreases |ds|
  {
    if ds == [] then []
    else
      assert ds[0].InRange();
      var (s', out) := EngineStep(s, ds[0].rpm, ds[0].interval);
      [out] + EngineOutputs(s', ds[1..])
  }

  /** An engine reports nothing while its countdown runs and reports exactly one
      RPM on the tick it expires; so within any ten ticks it reports once. */
  lemma {:induction false} EngineCountdown(s: EngineState, ds: seq<Draws>)
    requires forall i :: 0 <= i < |ds| ==> ds[i].InRange()
    requires EngineInv(s) && s.nextChange as int < |ds|
    ensures forall j :: 0 <= j < s.nextChange as int ==> EngineOutputs(s, ds)[j] == []
    ensures |EngineOutputs(s, ds)[s.nextChange]| == 1
    decreases s.nextChange
  {
    assert ds[0].InRange();
    var (s', out) := EngineStep(s, ds[0].rpm, ds[0].interval);
    assert EngineOutputs(s, ds) == [out] + EngineOutputs(s', ds[1..]);
    if s.nextChange > 0 {
      EngineCountdown(s', ds[1..]);
    }
  }

  /** Temperature changes, one per tick, each within the drawn range. */
  predicate ForwardChanges(changes: seq<real>) {
    forall i :: 0 <= i < |changes| ==> ChangeLow <= changes[i] <= ChangeHigh
  }

  /** The states and readings of a climate controller over successive ticks. */
  function ClimateTrace(s: ClimateState, changes: seq<real>): (tr: seq<(ClimateState, seq<Reading>)>)
    requires ForwardChanges(changes)
    ensures |tr| == |changes|
    decreases |changes|
  {
    if changes == [] then []
    else
      var r := ClimateStep(s, changes[0]);
      [r] + ClimateTrace(r.0, changes[1..])
  }

  /** Starting inactive, the controller switches on exactly at the first tick
      whose temperature exceeds 30.0 and reports the switch only there: before
      it, every tick is inactive and reports the temperature alone. */
  lemma {:induction false} ClimateFirstCrossing(s: ClimateState, changes: seq<real>, k: nat)
    requires ForwardChanges(changes)
    requires !s.active && k < |changes|
    requires forall j :: 0 <= j < k ==> ClimateTrace(s, changes)[j].0.lastTemperature <= ActivateAbove
    requires ClimateTrace(s, changes)[k].0.lastTemperature > ActivateAbove
    ensures forall j :: 0 <= j < k ==> !ClimateTrace(s, changes)[j].0.active && |ClimateTrace(s, changes)[j].1| == 1
    ensures ClimateTrace(s, changes)[k].0.active && |ClimateTrace(s, changes)[k].1| == 2
    ensures ClimateTrace(s, changes)[k].1[1] == (MetricClimateActive, Bool(true))
    decreases k
  {
    var tr := ClimateTrace(s, changes);
    var r := ClimateStep(s, changes[0]);
    assert tr == [r] + ClimateTrace(r.0, changes[1..]);
    if k > 0 {
      assert !r.0.active by { assert tr[0] == r; }
      forall j | 0 <= j < k - 1
        ensures ClimateTrace(r.0, changes[1..])[j].0.lastTemperature <= ActivateAbove
      {
        assert tr[j + 1] == ClimateTrace(r.0, changes[1..])[j];
      }
      ClimateFirstCrossing(r.0, changes[1..], k - 1);
      forall j | 0 <= j < k
        ensures !tr[j].0.active && |tr[j].1| == 1
      {
        if j > 0 {
          assert tr[j] == ClimateTrace(r.0, changes[1..])[j - 1];
        }
      }
    }
  }

  /** Each tick of a trace steps from the state the previous tick left. */
  lemma {:induction false} ClimateTraceStep(s: ClimateState, changes: seq<real>, k: nat)
    requires ForwardChanges(changes)
    requires k + 1 < |changes|
    ensures ClimateTrace(s, changes)[k + 1] == ClimateStep(ClimateTrace(s, changes)[k].0, changes[k + 1])
    decreases k
  {
    var r := ClimateStep(s, changes[0]);
    assert ClimateTrace(s, changes) == [r] + ClimateTrace(r.0, changes[1..]);
    if k > 0 {
      ClimateTraceStep(r.0, changes[1..], k - 1);
    }
  }

  /** While a controller stays inactive it warms by at least 0.1 per tick. */
  lemma {:induction false} WarmsWhileInactive(s: ClimateState, changes: seq<real>, k: nat)
    requires ForwardChanges(changes)
    requires !s.active && k < |changes|
    requires forall j :: 0 <= j < k ==> !ClimateTrace(s, changes)[j].0.active
    ensures ClimateTrace(s, changes)[k].0.lastTemperature >= s.lastTemperature + (k + 1) as real * ChangeLow
    decreases k
  {
    var tr := ClimateTrace(s, changes);
    var r := ClimateStep(s, changes[0]);
    assert tr == [r] + ClimateTrace(r.0, changes[1..]);
    if k > 0 {
      assert !r.0.active by { assert tr[0] == r; }
      forall j | 0 <= j < k - 1
        ensures !ClimateTrace(r.0, changes[1..])[j].0.active
      {
        assert tr[j + 1] == ClimateTrace(r.0, changes[1..])[j];
      }
      WarmsWhileInactive(r.0, changes[1..], k - 1);
      assert tr[k] == ClimateTrace(r.0, changes[1..])[k - 1];
    }
  }

  /** A controller that starts inactive at 20.0 is switched on within its first
      101 ticks, whatever the drawn changes. */
  lemma ClimateActivates(name: string, changes: seq<real>)
    requires ForwardChanges(changes)
    requires |changes| >= 101
    ensures exists j :: 0 <= j < 101 && ClimateTrace(ClimateState(name, false, InitialTemperature), changes)[j].0.active
  {
    var s := ClimateState(name, false, InitialTemperature);
    var tr := ClimateTrace(s, changes);
    if forall j :: 0 <= j < 100 ==> !tr[j].0.active {
      WarmsWhileInactive(s, changes, 100);
      assert tr[100].0.lastTemperature > ActivateAbove;
      ClimateTraceStep(s, changes, 99);
    }
  }

  /** `Engine`: an RPM sensor that changes its value at random intervals. */
  class Engine {
    const name: string
    var lastValue: u32
    var nextChange: u32

    /** `Engine::new`: last value 0 and an expired countdown. */
    constructor (config: DeviceConfig)
      ensures State() == EngineState(config.name, 0, 0)
    {
      name := config.name;
      lastValue := 0;
      nextChange := 0;
    }

    ghost function State(): EngineState
      reads this
    {
      EngineState(name, lastValue, nextChange)
    }

    /** `Engine::tick`, with the RPM and countdown draws as inputs. */
    method Tick(rpm: u32, interval: u32) returns (metrics: seq<Reading>)
      requires RpmLow <= rpm < RpmHigh && IntervalLow <= interval < IntervalHigh
      modifies this
      ensures (State(), metrics) == EngineStep(old(State()), rpm, interval)
    {
      metrics := [];
      if nextChange == 0 {
        var nextValue := rpm;
        if nextValue != lastValue {
          metrics := [(MetricRpm, Value.Int32(nextValue))];
        }
        nextChange := interval;
      } else {
        nextChange := nextChange - 1;
      }
    }
  }

  /** `ClimateControl`: a thermostat with asymmetric hysteresis. */
  class ClimateControl {
    const name: string
    var active: bool
    var lastTemperature: real

    /** `ClimateControl::new`: inactive at 20.0. */
    constructor (config: DeviceConfig)
      ensures State() == ClimateState(config.name, false, InitialTemperature)
    {
      name := config.name;
      active := false;
      lastTemperature := InitialTemperature;
    }

    ghost function State(): ClimateState
      reads this
    {
      ClimateState(name, active, lastTemperature)
    }

    /** `ClimateControl::tick`, with the temperature change draw as input. */
    method Tick(change: real) returns (metrics: seq<Reading>)
      requires ChangeLow <= change <= ChangeHigh
      modifies this
      ensures (State(), metrics) == ClimateStep(old(State()), change)
    {
      var direction: real := if active then -1.0 else 1.0;
      lastTemperature := lastTemperature + direction * change;
      metrics := [(MetricTemperature, Float32(lastTemperature))];
      var lastState := active;
      active := if active then lastTemperature > StayActiveAbove else lastTemperature > ActivateAbove;
      if lastState != active {
        metrics := metrics + [(MetricClimateActive, Bool(active))];
      } else {
        assert metrics == metrics + [];
      }
    }
  }

  /** `Box<dyn Device>`: a device object of one of the two kinds. */
  datatype Device = EngineDevice(e: Engine) | ClimateDevice(c: ClimateControl) {
    /** The object whose fields a tick updates. */
    function Obj(): object {
      match this
      case EngineDevice(e) => e
      case ClimateDevice(c) => c
    }

    function Kind(): DeviceType {
      match this
      case EngineDevice(_) => engine
      case ClimateDevice(_) => climatecontrol
    }

    /** `name`: the configured name, used in the device's topics. */
    function Name(): string {
      match this
      case EngineDevice(e) => e.name
      case ClimateDevice(c) => c.name
    }

    /** `metrics_config`. */
    function MetricsConfig(): seq<MetricConfig> {
      Advertised(Kind())
    }

    ghost function State(): (s: DeviceState)
      reads Obj()
      ensures s.Name() == Name() && s.Kind() == Kind()
    {
      match this
      case EngineDevice(e) => EngineUnit(e.State())
      case ClimateDevice(c) => ClimateUnit(c.State())
    }

    /** `tick`, dispatched on the kind. */
    method Tick(d: Draws) returns (metrics: seq<Reading>)
      requires d.InRange()
      modifies Obj()
      ensures (State(), metrics) == DeviceTick(old(State()), d)
    {
      match this
      case EngineDevice(e) =>
        metrics := e.Tick(d.rpm, d.interval);
      case ClimateDevice(c) =>
        metrics := c.Tick(d.change);
    }
  }

  /** `new_device`: a new device of the configured kind, in its starting state. */
  method NewDevice(config: DeviceConfig) returns (d: Device)
    ensures fresh(d.Obj())
    ensures d.Kind() == config.kind && d.State() == InitialState(config)
  {
    match config.kind
    case engine =>
      var e := new Engine(config);
      d := EngineDevice(e);
    case climatecontrol =>
      var c := new ClimateControl(config);
      d := ClimateDevice(c);
  }
}
