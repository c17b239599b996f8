/**
 * The number entities: the fan-speed slider and the five fan-curve
 * parameters. Both follow the fan mode; the slider only acts in the
 * set-speed mode, the curve parameters validate the whole curve before
 * accepting a new value.
 */
module Number {
  import opened Text
  import opened Pwm
  import opened MqttClient
  import Const
  import FanMode

  /** An MQTT publish the entity made. */
  datatype Publication = Publication(topic: string, payload: string, retain: bool)

  // ---------------------------------------------------------------------
  // fan speed

  /** What the slider shows: a percentage, or a float state restored as text. */
  datatype Shown = Percent(p: int) | Restored(raw: string)

  /** The speed callback: the payload is a duty; the slider shows it in percent. */
  function SpeedOf(payload: string): (r: Option<int>)
    ensures r.Some? <==> ParseInt(payload).Some?
    ensures r.Some? ==> -255 < 2 * (100 * ParseInt(payload).value - 255 * r.value) < 255
  {
    match ParseInt(payload)
    case Some(pwm) => Some(PwmToPercent(pwm))
    case None => None
  }

  /** The payload the slider publishes for a percentage: the duty as decimal text. */
  function SpeedPayload(percent: int): (p: string)
  {
    IntToString(PercentToPwm(percent))
  }

  /**
   * Setting a speed is echoed faithfully: the published duty reads back as
   * the set-speed mode, and as the same percentage once the service
   * reports it as the fan speed.
   */
  lemma SpeedEcho(percent: int)
    requires percent >= 0
    ensures FanMode.ModeOf(SpeedPayload(percent)) == Some("set_speed")
    ensures SpeedOf(SpeedPayload(percent)) == Some(percent)
  {
    var pwm := PercentToPwm(percent);
    FanMode.DutyIsSetSpeed(pwm);
    IntRoundTrip(pwm);
    PercentRoundTrip(percent);
  }

  /** `UNASFanSpeedNumber`. */
  class FanSpeedNumber {
    const modeTopic: string
    var current: Option<Shown>
    var mode: Option<string>
    var published: seq<Publication>

    constructor (entryId: string)
      ensures modeTopic == FanMode.ModeTopic(entryId)
      ensures current == None && mode == None && published == []
    {
      modeTopic := FanMode.ModeTopic(entryId);
      current := None;
      mode := None;
      published := [];
    }

    /** The restored state is kept when `float()` accepts it. */
    method Restore(lastState: Option<string>)
      modifies this
      ensures lastState.Some? && ParseDecimal(lastState.value).Some? ==> current == Some(Restored(lastState.value))
      ensures !(lastState.Some? && ParseDecimal(lastState.value).Some?) ==> current == old(current)
      ensures mode == old(mode) && published == old(published)
    {
      if lastState.Some? && ParseDecimal(lastState.value).Some? {
        current := Some(Restored(lastState.value));
      }
    }

    /** A fan-speed message; an unparsable one is logged and changes nothing. */
    method OnSpeedMessage(payload: string)
      modifies this
      ensures SpeedOf(payload).Some? ==> current == Some(Percent(SpeedOf(payload).value))
      ensures SpeedOf(payload).None? ==> current == old(current)
      ensures mode == old(mode) && published == old(published)
    {
      var s := SpeedOf(payload);
      if s.Some? {
        current := Some(Percent(s.value));
      }
    }

    method OnModeMessage(payload: string)
      modifies this
      ensures mode == FanMode.ModeOf(payload)
      ensures current == old(current) && published == old(published)
    {
      mode := FanMode.ModeOf(payload);
    }

    /**
     * Moving the slider: refused outside the set-speed mode; otherwise the
     * duty is published retained on the mode topic, and the slider takes
     * the value only when the publish went through.
     */
    method SetNativeValue(percent: int, publishOk: bool)
      modifies this
      ensures mode == old(mode)
      ensures old(mode) == Some("set_speed") && publishOk ==>
        published == old(published) + [Publication(modeTopic, SpeedPayload(percent), true)]
      ensures old(mode) == Some("set_speed") && publishOk ==> current == Some(Percent(percent))
      ensures !(old(mode) == Some("set_speed") && publishOk) ==>
        published == old(published) && current == old(current)
    {
      if mode != Some("set_speed") {
        return;
      }
      var payload := SpeedPayload(percent);
      if !publishOk {
        return;
      }
      published := published + [Publication(modeTopic, payload, true)];
      current := Some(Percent(percent));
    }

    /** The slider needs the broker and the fan-control service, whatever the mode. */
    predicate Available(mqttAvailable: bool, serviceRunning: bool)
      reads this
    {
      mqttAvailable && serviceRunning
    }
  }

  // ---------------------------------------------------------------------
  // fan-curve parameters

  /** One row of `FAN_CURVE_PARAMS`: key, name, range, default and unit. */
  datatype CurveParam = CurveParam(key: string, name: string, min: int, max: int, default: int, unit: string)

  const FanCurveParams: seq<CurveParam> := [
    CurveParam("min_temp", "Min Temperature", 20, 50, 40, "°C"),
    CurveParam("max_temp", "Max Temperature", 30, 60, 50, "°C"),
    CurveParam("min_fan", "Min Fan Speed", 0, 100, 30, "%"),
    CurveParam("max_fan", "Max Fan Speed", 1, 100, 100, "%"),
    CurveParam("target_temp", "Target Temperature", 20, 50, 40, "°C")
  ]

  /** Every parameter has a non-empty range holding its default, and keys are distinct. */
  lemma ParamsWellFormed()
    ensures |FanCurveParams| == 5
    ensures forall i :: 0 <= i < |FanCurveParams| ==>
      FanCurveParams[i].min < FanCurveParams[i].max &&
      FanCurveParams[i].min <= FanCurveParams[i].default <= FanCurveParams[i].max
    ensures forall i, j :: 0 <= i < j < |FanCurveParams| ==> FanCurveParams[i].key != FanCurveParams[j].key
  {
  }

  /** The fan parameters travel as duties, the others as plain numbers. */
  predicate IsFanParam(key: string) {
    key == "min_fan" || key == "max_fan"
  }

  /**
   * The curve callback: `int(float(payload))`, in percent for the fan
   * parameters, accepted only inside the parameter's range.
   */
  function CurveValueOf(p: CurveParam, payload: string): (r: Option<int>)
    ensures r.Some? ==> p.min <= r.value <= p.max && TruncFloat(payload).Some?
    ensures r.Some? && !IsFanParam(p.key) ==> r == TruncFloat(payload)
    ensures r.Some? && IsFanParam(p.key) ==> r.value == PwmToPercent(TruncFloat(payload).value)
    ensures r.Some? <==> (TruncFloat(payload).Some? &&
      var n := TruncFloat(payload).value;
      p.min <= (if IsFanParam(p.key) then PwmToPercent(n) else n) <= p.max)
  {
    match TruncFloat(payload)
    case None => None
    case Some(n) =>
      var v := if IsFanParam(p.key) then PwmToPercent(n) else n;
      if p.min <= v <= p.max then Some(v) else None
  }

  /** `_publish_to_mqtt`'s payload: the duty for a fan parameter, else the value. */
  function CurvePayload(p: CurveParam, v: int): (s: string)
  {
    IntToString(if IsFanParam(p.key) then PercentToPwm(v) else v)
  }

  /** A value inside the range, once published, is what the entity reads back. */
  lemma CurveRoundTrip(p: CurveParam, v: int)
    requires p in FanCurveParams
    requires p.min <= v <= p.max
    ensures CurveValueOf(p, CurvePayload(p, v)) == Some(v)
  {
    var n := if IsFanParam(p.key) then PercentToPwm(v) else v;
    TruncFloatOfInt(n);
    if IsFanParam(p.key) {
      PercentRoundTrip(v);
    }
  }

  /** A number as Python compares it: `num / den` with `den > 0`. */
  datatype Ratio = Ratio(num: int, den: int)

  function DecimalRatio(d: Decimal): (r: Ratio)
    ensures r.den > 0
  {
    var mag := if d.scale >= 0 then d.mantissa * Pow10(d.scale) else d.mantissa;
    Ratio(if d.neg then -mag else mag, if d.scale >= 0 then 1 else Pow10(-d.scale))
  }

  /** `isinstance(v, (int, float))`, with the number it holds. */
  function RatioOf(v: Value): (r: Option<Ratio>)
    ensures r.Some? ==> r.value.den > 0
    ensures r.Some? <==> v.VInt? || (v.VFloat? && ParseDecimal(v.raw).Some?)
    ensures v.VInt? ==> r == Some(Ratio(v.i, 1))
  {
    match v
    case VInt(i) => Some(Ratio(i, 1))
    case VFloat(raw) => (match ParseDecimal(raw) case Some(d) => Some(DecimalRatio(d)) case None => None)
    case _ => None
  }

  predicate Below(a: Ratio, b: Ratio) {
    a.num * b.den < b.num * a.den
  }

  /** A temperature as the curve check compares it: a number, text, or neither. */
  datatype Temp = Num(q: Ratio) | Text(s: string) | Uncomparable

  /** A stored temperature, or the default when the key is absent. */
  function TempOf(data: map<string, Value>, key: string, default: int): (r: Temp)
    ensures r.Num? ==> r.q.den > 0
    ensures key !in data ==> r == Num(Ratio(default, 1))
    ensures key in data ==> (r.Num? <==> RatioOf(data[key]).Some?)
    ensures key in data && data[key].VStr? ==> r == Text(data[key].s)
    ensures key in data && r.Uncomparable? ==> data[key].VJson? || data[key].VFloat?
  {
    if key !in data then Num(Ratio(default, 1))
    else match data[key]
      case VStr(s) => Text(s)
      case v => (match RatioOf(v) case Some(q) => Num(q) case None => Uncomparable)
  }

  /**
   * Python's `a < b` on two stored temperatures: numbers by value, text
   * by code points; `None` for the `TypeError` of any other pairing.
   */
  function TempBelow(a: Temp, b: Temp): (r: Option<bool>)
    ensures r.Some? <==> (a.Num? && b.Num?) || (a.Text? && b.Text?)
    ensures a.Num? && b.Num? ==> r == Some(Below(a.q, b.q))
    ensures a.Text? && b.Text? ==> r == Some(LexLess(a.s, b.s))
  {
    if a.Num? && b.Num? then Some(Below(a.q, b.q))
    else if a.Text? && b.Text? then Some(LexLess(a.s, b.s))
    else None
  }

  /** A stored duty in percent; the default duty when absent; `fallback` when not a number. */
  function FanOf(data: map<string, Value>, key: string, defaultDuty: int, fallback: int): (r: int)
  {
    var v := if key in data then data[key] else VInt(defaultDuty);
    match RatioOf(v)
    case Some(q) => RoundHalfEven(100 * q.num, 255 * q.den)
    case None => fallback
  }

  /** What `async_set_native_value` makes of a new value. */
  datatype Verdict = Accepted | TempsInverted | FansInverted | NotComparable

  /**
   * The curve check: the parameter being set takes the new value, the
   * others come from the store (temperatures 43 and 47, duties 204 and 255
   * when absent, 80 % and 100 % when not numbers); the maximum temperature
   * must exceed the minimum, then the maximum fan speed the minimum.
   * Two numbers or two texts compare; a number against text raises a
   * `TypeError`.
   */
  function CurveVerdict(key: string, value: int, data: map<string, Value>): (r: Verdict)
    ensures r == NotComparable <==>
      TempBelow(CurveMinTemp(key, value, data), CurveMaxTemp(key, value, data)).None?
    ensures r == TempsInverted <==>
      TempBelow(CurveMinTemp(key, value, data), CurveMaxTemp(key, value, data)) == Some(false)
    ensures r == FansInverted <==>
      TempBelow(CurveMinTemp(key, value, data), CurveMaxTemp(key, value, data)) == Some(true) &&
      CurveMaxFan(key, value, data) <= CurveMinFan(key, value, data)
  {
    match TempBelow(CurveMinTemp(key, value, data), CurveMaxTemp(key, value, data))
    case None => NotComparable
    case Some(ordered) =>
      if !ordered then TempsInverted
      else if CurveMaxFan(key, value, data) <= CurveMinFan(key, value, data) then FansInverted
      else Accepted
  }

  /** The four operands of the curve check. */
  function CurveMinTemp(key: string, value: int, data: map<string, Value>): Temp {
    if key == "min_temp" then Num(Ratio(value, 1)) else TempOf(data, "fan_curve_min_temp", 43)
  }

  function CurveMaxTemp(key: string, value: int, data: map<string, Value>): Temp {
    if key == "max_temp" then Num(Ratio(value, 1)) else TempOf(data, "fan_curve_max_temp", 47)
  }

  function CurveMinFan(key: string, value: int, data: map<string, Value>): int {
    if key == "min_fan" then value else FanOf(data, "fan_curve_min_fan", 204, 80)
  }

  function CurveMaxFan(key: string, value: int, data: map<string, Value>): int {
    if key == "max_fan" then value else FanOf(data, "fan_curve_max_fan", 255, 100)
  }

  /** The store holds none of the curve keys. */
  predicate NoCurveKeys(data: map<string, Value>) {
    "fan_curve_min_temp" !in data && "fan_curve_max_temp" !in data &&
    "fan_curve_min_fan" !in data && "fan_curve_max_fan" !in data
  }

  /** Against an empty store the defaults 43..47 and 80..100 % bound each parameter. */
  lemma DefaultBounds(value: int, data: map<string, Value>)
    requires NoCurveKeys(data)
    ensures CurveVerdict("min_temp", value, data) == (if value < 47 then Accepted else TempsInverted)
    ensures CurveVerdict("max_temp", value, data) == (if value > 43 then Accepted else TempsInverted)
    ensures CurveVerdict("min_fan", value, data) == (if value < 100 then Accepted else FansInverted)
    ensures CurveVerdict("max_fan", value, data) == (if value > 80 then Accepted else FansInverted)
    ensures CurveVerdict("target_temp", value, data) == Accepted
  {
    DefaultDuties();
  }

  /** A minimum temperature is refused exactly when it reaches the stored maximum. */
  lemma MinTempAgainstStored(value: int, m: int, data: map<string, Value>)
    requires "fan_curve_max_temp" in data && data["fan_curve_max_temp"] == VInt(m)
    ensures CurveVerdict("min_temp", value, data) == TempsInverted <==> value >= m
  {
  }

  /** A temperature stored as text makes setting the other temperature fail. */
  lemma TextTempNotComparable(value: int, s: string, data: map<string, Value>)
    requires "fan_curve_max_temp" in data && data["fan_curve_max_temp"] == VStr(s)
    ensures CurveVerdict("min_temp", value, data) == NotComparable
  {
  }

  /**
   * Both temperatures stored as text compare as strings: setting another
   * parameter succeeds or fails on their code-point order.
   */
  lemma TextTempsCompare(key: string, value: int, a: string, b: string, data: map<string, Value>)
    requires key != "min_temp" && key != "max_temp"
    requires "fan_curve_min_temp" in data && data["fan_curve_min_temp"] == VStr(a)
    requires "fan_curve_max_temp" in data && data["fan_curve_max_temp"] == VStr(b)
    ensures CurveVerdict(key, value, data) != NotComparable
    ensures CurveVerdict(key, value, data) == TempsInverted <==> !LexLess(a, b)
  {
  }

  /** `"abc" < "xyz"`: with the default duties, a target temperature is then accepted. */
  lemma TextTempsAccepted(value: int)
    ensures CurveVerdict("target_temp", value,
      map["fan_curve_min_temp" := VStr("abc"), "fan_curve_max_temp" := VStr("xyz")]) == Accepted
  {
    var data := map["fan_curve_min_temp" := VStr("abc"), "fan_curve_max_temp" := VStr("xyz")];
    assert LexLess("abc", "xyz");
    DefaultDuties();
  }

  /** The curve keys are exempt from expiry. */
  lemma CurveKeysExempt()
    ensures Exempt("fan_curve_min_temp") && Exempt("fan_curve_max_temp")
    ensures Exempt("fan_curve_min_fan") && Exempt("fan_curve_max_fan")
  {
    assert "fan_curve_min_temp"[..10] == "fan_curve_";
    assert "fan_curve_max_temp"[..10] == "fan_curve_";
    assert "fan_curve_min_fan"[..10] == "fan_curve_";
    assert "fan_curve_max_fan"[..10] == "fan_curve_";
  }

  /** Reading the store first does not change the verdict: the curve keys never expire. */
  lemma {:induction false} VerdictSurvivesCleanup(key: string, value: int, data: map<string, Value>, stale: set<string>)
    requires forall k :: k in stale ==> !Exempt(k)
    ensures CurveVerdict(key, value, data - stale) == CurveVerdict(key, value, data)
  {
    CurveKeysExempt();
    var d := data - stale;
    assert "fan_curve_min_temp" in d <==> "fan_curve_min_temp" in data;
    assert "fan_curve_max_temp" in d <==> "fan_curve_max_temp" in data;
    assert "fan_curve_min_fan" in d <==> "fan_curve_min_fan" in data;
    assert "fan_curve_max_fan" in d <==> "fan_curve_max_fan" in data;
    assert TempOf(d, "fan_curve_min_temp", 43) == TempOf(data, "fan_curve_min_temp", 43);
    assert TempOf(d, "fan_curve_max_temp", 47) == TempOf(data, "fan_curve_max_temp", 47);
    assert FanOf(d, "fan_curve_min_fan", 204, 80) == FanOf(data, "fan_curve_min_fan", 204, 80);
    assert FanOf(d, "fan_curve_max_fan", 255, 100) == FanOf(data, "fan_curve_max_fan", 255, 100);
  }

  /**
   * Which parameters the mode shows: the curve temperatures in the curve
   * mode, the target in the target mode, the fan bounds in both.
   */
  predicate CurveAvailable(key: string, mqttAvailable: bool, serviceRunning: bool, hasValue: bool, mode: Option<string>) {
    if !(mqttAvailable && serviceRunning && hasValue) then false
    else if key == "min_temp" || key == "max_temp" then mode == Some("auto")
    else if key == "target_temp" then mode == Some("target_temp")
    else if key == "min_fan" || key == "max_fan" then mode == Some("auto") || mode == Some("target_temp")
    else true
  }

  /** No curve parameter is offered while the fan is managed natively, set by hand, or in no known mode. */
  lemma CurveHiddenOutsideCurveModes(i: int, m: bool, s: bool, h: bool, mode: Option<string>)
    requires 0 <= i < |FanCurveParams|
    requires mode == None || mode == Some("unas_managed") || mode == Some("set_speed")
    ensures !CurveAvailable(FanCurveParams[i].key, m, s, h, mode)
  {
  }

  /** In a curve mode with the broker, the service and a value, each parameter's visibility follows its mode. */
  lemma CurveShownInItsMode(m: bool, s: bool, h: bool, mode: Option<string>)
    requires m && s && h
    ensures CurveAvailable("min_temp", m, s, h, mode) <==> mode == Some("auto")
    ensures CurveAvailable("target_temp", m, s, h, mode) <==> mode == Some("target_temp")
    ensures CurveAvailable("max_fan", m, s, h, mode) <==> mode == Some("auto") || mode == Some("target_temp")
  {
  }

  /** `UNASFanCurveNumber`, one per row of the parameter table. */
  class FanCurveNumber {
    const param: CurveParam
    const topic: string
    var value: Option<int>
    var mode: Option<string>
    var published: seq<Publication>

    constructor (entryId: string, p: CurveParam)
      ensures param == p && topic == Const.MqttTopics(entryId)["control"] + "/fan/curve/" + p.key
      ensures value == None && mode == None && published == []
    {
      param := p;
      topic := Const.MqttTopics(entryId)["control"] + "/fan/curve/" + p.key;
      value := None;
      mode := None;
      published := [];
    }

    /** A curve message: stored when it decodes inside the range, otherwise ignored. */
    method OnCurveMessage(payload: string)
      modifies this
      ensures CurveValueOf(param, payload).Some? ==> value == CurveValueOf(param, payload)
      ensures CurveValueOf(param, payload).None? ==> value == old(value)
      ensures mode == old(mode) && published == old(published)
    {
      var v := CurveValueOf(param, payload);
      if v.Some? {
        value := v;
      }
    }

    method OnModeMessage(payload: string)
      modifies this
      ensures mode == FanMode.ModeOf(payload)
      ensures value == old(value) && published == old(published)
    {
      mode := FanMode.ModeOf(payload);
    }

    /** Two seconds after setup: with no value yet, take and publish the default. */
    method MaybeInitDefault(publishOk: bool)
      modifies this
      ensures old(value).None? ==> value == Some(param.default)
      ensures old(value).None? ==>
        published == old(published) + (if publishOk then [Publication(topic, CurvePayload(param, param.default), true)] else [])
      ensures old(value).Some? ==> value == old(value) && published == old(published)
      ensures mode == old(mode)
    {
      if value.None? {
        value := Some(param.default);
        if publishOk {
          published := published + [Publication(topic, CurvePayload(param, param.default), true)];
        }
      }
    }

    /**
     * Setting a value: the store is read (dropping stale entries), the
     * curve is checked, and only an accepted value is taken and published.
     * A failed publish is logged; the value stays taken.
     */
    method SetNativeValue(store: TelemetryStore, v: int, now: int, publishOk: bool) returns (verdict: Verdict)
      requires store.Valid()
      modifies this, store
      ensures store.Valid()
      ensures store.data == old(store.data) - StaleKeys(old(store.stamps), now)
      ensures store.stamps == old(store.stamps) - StaleKeys(old(store.stamps), now)
      ensures store.status == old(store.status) && store.lastUpdate == old(store.lastUpdate)
      ensures store.pendingDue == old(store.pendingDue) && store.refreshes == old(store.refreshes)
      ensures store.subscriptions == old(store.subscriptions) && store.coordinatorAttached == old(store.coordinatorAttached)
      ensures verdict == CurveVerdict(param.key, v, old(store.data))
      ensures verdict == Accepted ==> value == Some(v)
      ensures verdict == Accepted ==>
        published == old(published) + (if publishOk then [Publication(topic, CurvePayload(param, v), true)] else [])
      ensures verdict != Accepted ==> value == old(value) && published == old(published)
      ensures mode == old(mode)
    {
      var data := store.GetData(now);
      VerdictSurvivesCleanup(param.key, v, old(store.data), StaleKeys(old(store.stamps), now));
      verdict := CurveVerdict(param.key, v, data);
      if verdict != Accepted {
        return;
      }
      value := Some(v);
      if publishOk {
        published := published + [Publication(topic, CurvePayload(param, v), true)];
      }
    }

    predicate Available(mqttAvailable: bool, serviceRunning: bool)
      reads this
    {
      CurveAvailable(param.key, mqttAvailable, serviceRunning, value.Some?, mode)
    }
  }
}
