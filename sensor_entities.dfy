/**
 * The sensor entities of `sensor.py` once they exist: the store-backed
 * sensors (system, drive, NVMe and pool metrics), which mirror one key of
 * the MQTT snapshot, and the fan-curve visualisation, which summarises
 * the four curve parameters and samples the curve from 30 to 60 degrees.
 */
module SensorEntities {
  import opened Text
  import opened MqttClient
  import Pwm

  /** `mqtt_data.get(key)`. */
  function Lookup(data: map<string, Value>, key: string): (r: Option<Value>)
    ensures r.Some? <==> key in data
    ensures r.Some? ==> r.value == data[key]
  {
    if key in data then Some(data[key]) else None
  }

  /** The snapshot key that carries the client list of a sensor key. */
  function AttributesKey(key: string): (r: string)
    ensures |r| == |key| + 11 && StartsWith(r, key)
  {
    key + "_attributes"
  }

  /**
   * A sensor that shows one key of the MQTT snapshot. The system sensors
   * (`UNASSensor`) also take the client list stored beside their key;
   * the drive and NVMe sensors do not.
   */
  class StoreSensor {
    const key: string
    const withClients: bool
    var value: Option<Value>
    var clients: Option<Value>

    constructor (key: string, withClients: bool)
      ensures this.key == key && this.withClients == withClients
      ensures value == None && clients == None
    {
      this.key := key;
      this.withClients := withClients;
      value := None;
      clients := None;
    }

    /**
     * `_handle_coordinator_update`: the value follows the snapshot (and
     * becomes `None` when the key is gone); the client list is replaced
     * only when the snapshot has one, and otherwise keeps its old value.
     */
    method OnCoordinatorUpdate(mqttData: map<string, Value>)
      modifies this
      ensures value == Lookup(mqttData, key)
      ensures clients == if withClients && AttributesKey(key) in mqttData then Some(mqttData[AttributesKey(key)]) else old(clients)
    {
      value := Lookup(mqttData, key);
      if withClients {
        var attrKey := AttributesKey(key);
        if attrKey in mqttData {
          clients := Some(mqttData[attrKey]);
        }
      }
    }

    /** `available`: MQTT is available and the key is in the snapshot. */
    predicate Available(mqttAvailable: bool, mqttData: map<string, Value>)
      reads this
    {
      mqttAvailable && key in mqttData
    }
  }

  /** An available sensor shows a value, and it is the snapshot's value for its key. */
  lemma AvailableShowsValue(s: StoreSensor, mqttAvailable: bool, mqttData: map<string, Value>)
    ensures s.Available(mqttAvailable, mqttData) <==> mqttAvailable && Lookup(mqttData, s.key).Some?
    ensures s.Available(mqttAvailable, mqttData) ==> Lookup(mqttData, s.key) == Some(mqttData[s.key])
  {
  }

  /** A sensor is unavailable whenever the store is: a stale store hides every sensor. */
  lemma UnavailableStore(s: StoreSensor, mqttData: map<string, Value>)
    ensures !s.Available(false, mqttData)
  {
  }

  /** The curve parameters in the snapshot, and the defaults used for the ones that are missing. */
  const DefaultMinTemp := 43
  const DefaultMaxTemp := 47
  const DefaultMinFan := 204
  const DefaultMaxFan := 255

  /** `mqtt_data.get(key, default)` for a parameter the model compares as an integer. */
  function Param(data: map<string, Value>, key: string, default: int): (r: Option<int>)
    ensures key !in data ==> r == Some(default)
    ensures key in data ==> (r.Some? <==> data[key].VInt?)
    ensures key in data && data[key].VInt? ==> r == Some(data[key].i)
  {
    if key !in data then Some(default)
    else if data[key].VInt? then Some(data[key].i)
    else None
  }

  /** The four curve parameters, when each is absent or an integer. */
  datatype CurveParams = CurveParams(minTemp: int, maxTemp: int, minFan: int, maxFan: int)

  function CurveInputs(data: map<string, Value>): (r: Option<CurveParams>)
    ensures r.Some? <==>
      Param(data, "fan_curve_min_temp", DefaultMinTemp).Some? && Param(data, "fan_curve_max_temp", DefaultMaxTemp).Some? &&
      Param(data, "fan_curve_min_fan", DefaultMinFan).Some? && Param(data, "fan_curve_max_fan", DefaultMaxFan).Some?
    ensures r.Some? ==> r.value.minTemp == Param(data, "fan_curve_min_temp", DefaultMinTemp).value
    ensures r.Some? ==> r.value.maxTemp == Param(data, "fan_curve_max_temp", DefaultMaxTemp).value
    ensures r.Some? ==> r.value.minFan == Param(data, "fan_curve_min_fan", DefaultMinFan).value
    ensures r.Some? ==> r.value.maxFan == Param(data, "fan_curve_max_fan", DefaultMaxFan).value
  {
    var a := Param(data, "fan_curve_min_temp", DefaultMinTemp);
    var b := Param(data, "fan_curve_max_temp", DefaultMaxTemp);
    var c := Param(data, "fan_curve_min_fan", DefaultMinFan);
    var d := Param(data, "fan_curve_max_fan", DefaultMaxFan);
    if a.Some? && b.Some? && c.Some? && d.Some? then Some(CurveParams(a.value, b.value, c.value, d.value)) else None
  }

  /** With no curve parameter in the store, the curve is the default 43-47 degrees, PWM 204-255. */
  lemma DefaultInputs()
    ensures CurveInputs(map[]) == Some(CurveParams(43, 47, 204, 255))
  {
  }

  /**
   * One sample of the curve: a temperature outside the band and its
   * clamped fan percentage, or a temperature inside the band, whose
   * interpolated percentage is a float the model does not compute.
   */
  datatype CurvePoint = Clamped(temp: int, percent: int) | Interpolated(temp: int)

  /** The first and last temperatures sampled. */
  const FirstTemp := 30
  const LastTemp := 60

  /**
   * Whether sampling divides by zero: a band of width zero inside the
   * sampled range reaches the interpolation with `max_temp - min_temp == 0`.
   */
  predicate DividesByZero(p: CurveParams) {
    p.minTemp == p.maxTemp && FirstTemp <= p.minTemp <= LastTemp
  }

  /** What the sample at temperature `t` is. */
  predicate PointFits(q: CurvePoint, t: int, p: CurveParams) {
    q.temp == t &&
    (t < p.minTemp ==> q == Clamped(t, Pwm.PwmToPercent(p.minFan))) &&
    (p.minTemp <= t && p.maxTemp < t ==> q == Clamped(t, Pwm.PwmToPercent(p.maxFan))) &&
    (p.minTemp <= t <= p.maxTemp ==> q.Interpolated?)
  }

  /**
   * `_generate_curve_points`: one point per degree from 30 to 60. Below
   * the band the minimum duty is used, above it the maximum; the loop
   * raises `ZeroDivisionError` (here `None`) exactly when the band has
   * width zero and lies in the sampled range.
   */
  method GenerateCurvePoints(p: CurveParams) returns (r: Option<seq<CurvePoint>>)
    ensures r.None? <==> DividesByZero(p)
    ensures r.Some? ==> |r.value| == LastTemp - FirstTemp + 1
    ensures r.Some? ==> forall i :: 0 <= i < |r.value| ==> PointFits(r.value[i], FirstTemp + i, p)
  {
    var points: seq<CurvePoint> := [];
    var temp := FirstTemp;
    while temp <= LastTemp
      invariant FirstTemp <= temp <= LastTemp + 1
      invariant |points| == temp - FirstTemp
      invariant forall i :: 0 <= i < |points| ==> PointFits(points[i], FirstTemp + i, p)
      invariant !(p.minTemp == p.maxTemp && FirstTemp <= p.minTemp < temp)
    {
      var point;
      if temp < p.minTemp {
        point := Clamped(temp, Pwm.PwmToPercent(p.minFan));
      } else if temp > p.maxTemp {
        point := Clamped(temp, Pwm.PwmToPercent(p.maxFan));
      } else if p.maxTemp - p.minTemp == 0 {
        return None;
      } else {
        point := Interpolated(temp);
      }
      points := points + [point];
      temp := temp + 1;
    }
    return Some(points);
  }

  /** The percentages at the two ends of the band. */
  function MinFanPercent(p: CurveParams): int { Pwm.PwmToPercent(p.minFan) }
  function MaxFanPercent(p: CurveParams): int { Pwm.PwmToPercent(p.maxFan) }

  /** The state text: `"{min_temp}-{max_temp}°C → {min_pct}-{max_pct}%"`. */
  function Summary(p: CurveParams): (s: string)
    ensures StartsWith(s, IntToString(p.minTemp) + "-")
    ensures EndsWith(s, IntToString(MaxFanPercent(p)) + "%")
  {
    var head := IntToString(p.minTemp) + "-";
    var last := IntToString(MaxFanPercent(p)) + "%";
    var mid := IntToString(p.maxTemp) + "°C → " + IntToString(MinFanPercent(p)) + "-";
    assert (head + mid + last)[..|head|] == head;
    assert (head + mid + last)[|head + mid|..] == last;
    head + mid + last
  }

  /** The `curve_formula` attribute. */
  function Formula(p: CurveParams): string {
    "Linear: " + IntToString(p.minTemp) + "°C→" + IntToString(MinFanPercent(p)) + "%, " +
    IntToString(p.maxTemp) + "°C→" + IntToString(MaxFanPercent(p)) + "%"
  }

  /** The attributes the visualisation sets for charting. */
  datatype CurveAttributes = CurveAttributes(params: CurveParams, minFanPercent: int, maxFanPercent: int,
                                             points: seq<CurvePoint>, formula: string)

  /** `available`: all four curve parameters are in the snapshot. */
  predicate CurveAvailable(data: map<string, Value>) {
    "fan_curve_min_temp" in data && "fan_curve_max_temp" in data &&
    "fan_curve_min_fan" in data && "fan_curve_max_fan" in data
  }

  /** The curve parameters never expire, so a cleanup of the store cannot hide the visualisation. */
  lemma CurveAvailableAfterCleanup(data: map<string, Value>, stamps: map<string, int>, now: int)
    requires CurveAvailable(data)
    ensures CurveAvailable(data - StaleKeys(stamps, now))
  {
    ControlKeysExempt("min_temp");
    ControlKeysExempt("max_temp");
    ControlKeysExempt("min_fan");
    ControlKeysExempt("max_fan");
  }

  /** An available visualisation whose parameters are integers shows the stored parameters, not the defaults. */
  lemma AvailableUsesStore(data: map<string, Value>)
    requires CurveAvailable(data) && CurveInputs(data).Some?
    ensures CurveInputs(data).value == CurveParams(data["fan_curve_min_temp"].i, data["fan_curve_max_temp"].i,
                                                   data["fan_curve_min_fan"].i, data["fan_curve_max_fan"].i)
  {
  }

  /** The fan-curve visualisation sensor. */
  class CurveSensor {
    var value: Option<string>
    var attributes: Option<CurveAttributes>

    constructor ()
      ensures value == None && attributes == None
    {
      value := None;
      attributes := None;
    }

    /**
     * `_update_state`: the summary is set first; the attributes are set
     * only when sampling the curve does not raise, so a zero-width band
     * leaves the previous attributes in place. `raised` reports the
     * `ZeroDivisionError`. `p` is what the snapshot holds (`CurveInputs`).
     */
    method UpdateState(p: CurveParams) returns (raised: bool)
      modifies this
      ensures value == Some(Summary(p))
      ensures raised <==> DividesByZero(p)
      ensures raised ==> attributes == old(attributes)
      ensures !raised ==> attributes.Some? && attributes.value.params == p && attributes.value.formula == Formula(p)
      ensures !raised ==> attributes.value.minFanPercent == MinFanPercent(p) && attributes.value.maxFanPercent == MaxFanPercent(p)
      ensures !raised ==> |attributes.value.points| == LastTemp - FirstTemp + 1
      ensures !raised ==> forall i :: 0 <= i < |attributes.value.points| ==> PointFits(attributes.value.points[i], FirstTemp + i, p)
    {
      value := Some(Summary(p));
      var points := GenerateCurvePoints(p);
      if points.None? {
        return true;
      }
      attributes := Some(CurveAttributes(p, MinFanPercent(p), MaxFanPercent(p), points.value, Formula(p)));
      return false;
    }
  }

  /**
   * The default curve: 80 % below 43 degrees, 100 % above 47, and
   * interpolated points at 43 to 47 degrees.
   */
  method DefaultCurve() returns (points: seq<CurvePoint>)
    ensures |points| == 31
    ensures forall i :: 0 <= i < 13 ==> points[i] == Clamped(30 + i, 80)
    ensures forall i :: 13 <= i < 18 ==> points[i] == Interpolated(30 + i)
    ensures forall i :: 18 <= i < 31 ==> points[i] == Clamped(30 + i, 100)
  {
    DefaultInputs();
    Pwm.DefaultDuties();
    var r := GenerateCurvePoints(CurveParams(43, 47, 204, 255));
    points := r.value;
  }

  /** An inverted band (minimum above maximum) never divides by zero and has no interpolated point. */
  lemma InvertedBand(p: CurveParams, q: CurvePoint, t: int)
    requires p.maxTemp < p.minTemp && PointFits(q, t, p)
    ensures !DividesByZero(p) && q.Clamped?
  {
  }
}
