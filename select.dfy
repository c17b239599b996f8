/**
 * The select entities: the fan mode, and two presets of the target-
 * temperature mode (the temperature metric and the response speed).
 * Each decodes what the fan-control service publishes and encodes the
 * user's choice back onto the same retained topic.
 */
module Select {
  import opened Text
  import opened MqttClient
  import Const
  import FanMode
  import opened Number

  const CustomCurve := "Custom Curve"
  const SetSpeed := "Set Speed"
  const TargetTemp := "Target Temp"
  /** The duty published for "Set Speed" when no fan speed is known: 50 %. */
  const DefaultFanSpeed := 128

  /** The first option names the device: "UNAS Managed" or "UNVR Managed". */
  function ManagedOption(model: string): (r: string)
    ensures r == "UNVR Managed" || r == "UNAS Managed"
    ensures r == "UNVR Managed" <==> model == "UNVR"
  {
    var name := Const.DeviceInfo(model).0;
    assert name == "UNVR" ==> name + " Managed" == "UNVR Managed";
    assert name == "UNAS" ==> name + " Managed" == "UNAS Managed";
    name + " Managed"
  }

  function FanModeOptions(model: string): (r: seq<string>)
    ensures |r| == 4 && r[0] == ManagedOption(model)
    ensures forall i, j :: 0 <= i < j < |r| ==> r[i] != r[j]
  {
    [ManagedOption(model), CustomCurve, TargetTemp, SetSpeed]
  }

  /** The option standing for a mode of the mixin's decoding; an unknown mode shows as managed. */
  function OptionOfMode(managed: string, mode: Option<string>): (r: string)
    ensures r in [managed, CustomCurve, TargetTemp, SetSpeed]
    ensures managed !in [CustomCurve, TargetTemp, SetSpeed] ==>
      (r == managed <==> mode !in [Some("auto"), Some("target_temp"), Some("set_speed")])
  {
    match mode
    case Some("auto") => CustomCurve
    case Some("target_temp") => TargetTemp
    case Some("set_speed") => SetSpeed
    case _ => managed
  }

  /**
   * The fan-mode select's callback: the new option, and the duty to
   * remember when the payload is one. It agrees with the mixin's decoding
   * except that an unknown payload selects the managed mode instead of no
   * mode.
   */
  function DecodeFanMode(managed: string, payload: string): (r: (string, Option<int>))
    ensures r.0 == OptionOfMode(managed, FanMode.ModeOf(payload))
    ensures r.1.Some? <==> IsDigits(payload)
    ensures r.1.Some? ==> ParseInt(payload) == r.1
  {
    if payload == "unas_managed" then
      assert !IsDigit(payload[0]);
      (managed, None)
    else if payload == "auto" then
      assert !IsDigit(payload[0]);
      (CustomCurve, None)
    else if payload == "target_temp" then
      assert !IsDigit(payload[0]);
      (TargetTemp, None)
    else if IsDigits(payload) then
      assert IsDigit(payload[0]);
      (SetSpeed, Some(DigitsValue(payload)))
    else (managed, None)
  }

  /** `str()` of a stored fan speed; the float case is taken as its text. */
  function SpeedText(v: Value): (r: Option<string>)
    ensures v.VInt? ==> r == Some(IntToString(v.i))
    ensures v.VFloat? ==> r == Some(v.raw)
    ensures v.VStr? ==> r == Some(v.s)
    ensures r.None? <==> v.VJson?
  {
    match v
    case VInt(i) => Some(IntToString(i))
    case VFloat(raw) => Some(raw)
    case VStr(s) => Some(s)
    case VJson(_) => None
  }

  /**
   * The payload published for an option: the three named modes, or the
   * current fan speed (128 when unknown) for "Set Speed"; nothing for any
   * other option.
   */
  function EncodeFanMode(managed: string, option: string, speed: Option<Value>): (r: Option<string>)
    ensures r.None? <==> (option !in [managed, CustomCurve, TargetTemp, SetSpeed] ||
                          (option == SetSpeed && option != managed && speed.Some? && speed.value.VJson?))
    ensures r.Some? && option != SetSpeed ==> r.value in ["unas_managed", "auto", "target_temp"]
    ensures option == SetSpeed && option != managed && speed.None? ==> r == Some(IntToString(DefaultFanSpeed))
    ensures option == SetSpeed && option != managed && speed.Some? && speed.value.VInt? ==>
      r == Some(IntToString(speed.value.i))
  {
    if option == managed then Some("unas_managed")
    else if option == CustomCurve then Some("auto")
    else if option == TargetTemp then Some("target_temp")
    else if option == SetSpeed then
      (match speed case None => Some(IntToString(DefaultFanSpeed)) case Some(v) => SpeedText(v))
    else None
  }

  /** The speed value that "Set Speed" publishes. */
  function SpeedSent(speed: Option<Value>): Value {
    if speed.Some? then speed.value else VInt(DefaultFanSpeed)
  }

  /** A stored speed that is a non-negative integer, or none at all. */
  predicate WellFormedSpeed(speed: Option<Value>) {
    speed.None? || (speed.value.VInt? && speed.value.i >= 0)
  }

  /**
   * Selecting any option publishes a payload that decodes to the same
   * option, and "Set Speed" remembers the duty it published.
   */
  lemma {:induction false} FanModeRoundTrip(model: string, option: string, speed: Option<Value>)
    requires option in FanModeOptions(model)
    requires WellFormedSpeed(speed)
    ensures EncodeFanMode(ManagedOption(model), option, speed).Some?
    ensures var d := DecodeFanMode(ManagedOption(model), EncodeFanMode(ManagedOption(model), option, speed).value);
      d.0 == option && (option == SetSpeed ==> d.1 == Some(SpeedSent(speed).i))
  {
    var managed := ManagedOption(model);
    if option == SetSpeed {
      var n := SpeedSent(speed).i;
      assert EncodeFanMode(managed, option, speed) == Some(IntToString(n));
      FanMode.DutyIsSetSpeed(n);
      IntRoundTrip(n);
    }
  }

  /** A negative stored speed is published as text that no longer reads as "Set Speed". */
  lemma NegativeSpeedReadsManaged(model: string, n: int)
    requires n < 0
    ensures DecodeFanMode(ManagedOption(model), EncodeFanMode(ManagedOption(model), SetSpeed, Some(VInt(n))).value).0
      == ManagedOption(model)
  {
    var s := IntToString(n);
    assert !IsDigits(s);
    assert s[0] == '-';
  }

  /** What the fan-mode select asks of the device when an option is chosen. */
  datatype SelectEffect =
    | StartService
    | Publish(p: Publication)
    | KickNative

  /** `UNASFanModeSelect`. */
  class FanModeSelect {
    const managed: string
    const options: seq<string>
    const modeTopic: string
    var currentOption: Option<string>
    var lastPwm: Option<Value>
    var effects: seq<SelectEffect>

    constructor (entryId: string, model: string)
      ensures managed == ManagedOption(model) && options == FanModeOptions(model)
      ensures modeTopic == FanMode.ModeTopic(entryId)
      ensures currentOption == None && lastPwm == None && effects == []
    {
      managed := ManagedOption(model);
      options := FanModeOptions(model);
      modeTopic := FanMode.ModeTopic(entryId);
      currentOption := None;
      lastPwm := None;
      effects := [];
    }

    /** A restored state is used only when it is one of the options; otherwise the mode shows as managed. */
    method Restore(last: Option<(string, Option<Value>)>)
      modifies this
      ensures last.Some? && last.value.0 in options ==> currentOption == Some(last.value.0) && lastPwm == last.value.1
      ensures !(last.Some? && last.value.0 in options) ==> currentOption == Some(managed) && lastPwm == old(lastPwm)
      ensures effects == old(effects)
    {
      if last.Some? && last.value.0 in options {
        currentOption := Some(last.value.0);
        lastPwm := last.value.1;
      } else {
        currentOption := Some(managed);
      }
    }

    method OnModeMessage(payload: string)
      modifies this
      ensures currentOption == Some(DecodeFanMode(managed, payload).0)
      ensures DecodeFanMode(managed, payload).1.Some? ==> lastPwm == Some(VInt(DecodeFanMode(managed, payload).1.value))
      ensures DecodeFanMode(managed, payload).1.None? ==> lastPwm == old(lastPwm)
      ensures effects == old(effects)
    {
      var d := DecodeFanMode(managed, payload);
      currentOption := Some(d.0);
      if d.1.Some? {
        lastPwm := Some(VInt(d.1.value));
      }
    }

    /**
     * Choosing an option: start the service when the probe says it is
     * down, publish the option's payload (a failed publish is logged), kick
     * the native fan control for the managed mode, and show the option.
     * "Set Speed" reads the store for the current speed. `serviceUp` is the
     * probe's answer, `None` when the probe failed.
     */
    method SelectOption(option: string, store: TelemetryStore, now: int, serviceUp: Option<bool>, publishOk: bool)
      requires store.Valid()
      modifies this, store
      ensures store.Valid()
      ensures option == SetSpeed && option != managed ==> store.data == old(store.data) - StaleKeys(old(store.stamps), now)
      ensures !(option == SetSpeed && option != managed) ==> store.data == old(store.data)
      ensures option == SetSpeed && option != managed ==> store.stamps == old(store.stamps) - StaleKeys(old(store.stamps), now)
      ensures !(option == SetSpeed && option != managed) ==> store.stamps == old(store.stamps)
      ensures store.Meta() == old(store.Meta())
      ensures currentOption == Some(option)
      ensures var speed := if "unas_fan_speed" in store.data then Some(store.data["unas_fan_speed"]) else None;
        var payload := EncodeFanMode(managed, option, speed);
        effects == old(effects)
          + (if serviceUp == Some(false) then [StartService] else [])
          + (if payload.Some? && publishOk then [Publish(Publication(modeTopic, payload.value, true))] else [])
          + (if option == managed then [KickNative] else [])
      ensures option != managed && option == SetSpeed && "unas_fan_speed" in store.data ==>
        lastPwm == Some(store.data["unas_fan_speed"])
      ensures option != managed && option == SetSpeed && "unas_fan_speed" !in store.data ==>
        lastPwm == Some(VInt(DefaultFanSpeed))
      ensures !(option != managed && option == SetSpeed) ==> lastPwm == old(lastPwm)
    {
      var started: seq<SelectEffect> := if serviceUp == Some(false) then [StartService] else [];
      var speed: Option<Value> := None;
      if option != managed && option == SetSpeed {
        var data := store.GetData(now);
        speed := if "unas_fan_speed" in data then Some(data["unas_fan_speed"]) else None;
        lastPwm := Some(SpeedSent(speed));
      }
      var payload := EncodeFanMode(managed, option, speed);
      var sent: seq<SelectEffect> := if payload.Some? && publishOk then [Publish(Publication(modeTopic, payload.value, true))] else [];
      var kicked: seq<SelectEffect> := if option == managed then [KickNative] else [];
      effects := effects + started + sent + kicked;
      currentOption := Some(option);
    }

    predicate Available(mqttAvailable: bool, serviceRunning: bool)
      reads this
    {
      mqttAvailable && serviceRunning && currentOption.Some?
    }
  }

  // ---------------------------------------------------------------------
  // the presets of the target-temperature mode

  /** The two preset selects share one shape. */
  datatype Preset = TempMetric | ResponseSpeed

  const MaxHottest := "Max (Hottest)"
  const Average := "Average"
  const Relaxed := "Relaxed"
  const Balanced := "Balanced"
  const Aggressive := "Aggressive"

  function PresetOptions(k: Preset): (r: seq<string>)
    ensures forall i, j :: 0 <= i < j < |r| ==> r[i] != r[j]
  {
    match k
    case TempMetric => [MaxHottest, Average]
    case ResponseSpeed => [Relaxed, Balanced, Aggressive]
  }

  /** The option shown when nothing was restored. */
  function PresetDefault(k: Preset): (r: string)
    ensures r in PresetOptions(k)
  {
    match k
    case TempMetric => MaxHottest
    case ResponseSpeed => Balanced
  }

  /** The preset's topic below the control namespace. */
  function PresetTopic(entryId: string, k: Preset): string {
    Const.MqttTopics(entryId)["control"] + (match k
      case TempMetric => "/fan/curve/temp_metric"
      case ResponseSpeed => "/fan/curve/response_speed")
  }

  /** The callback: a recognised payload selects its option, anything else the default. */
  function DecodePreset(k: Preset, payload: string): (r: string)
    ensures r in PresetOptions(k)
    ensures k.TempMetric? ==> (r == Average <==> payload == "avg")
    ensures k.ResponseSpeed? ==> (r == Relaxed <==> payload == "relaxed") && (r == Aggressive <==> payload == "aggressive")
  {
    match k
    case TempMetric => if payload == "avg" then Average else MaxHottest
    case ResponseSpeed =>
      if payload == "relaxed" then Relaxed
      else if payload == "aggressive" then Aggressive
      else Balanced
  }

  /** The payload published for an option; an unknown option gets the default's payload. */
  function EncodePreset(k: Preset, option: string): (r: string)
  {
    match k
    case TempMetric => if option == Average then "avg" else "max"
    case ResponseSpeed =>
      if option == Relaxed then "relaxed"
      else if option == Aggressive then "aggressive"
      else "balanced"
  }

  /** Decoding what was published for an option gives the option back. */
  lemma PresetRoundTrip(k: Preset, option: string)
    requires option in PresetOptions(k)
    ensures DecodePreset(k, EncodePreset(k, option)) == option
  {
  }

  /** Publishing what was decoded reproduces the payload exactly when it was a canonical one. */
  lemma PresetNormalises(k: Preset, payload: string)
    ensures EncodePreset(k, DecodePreset(k, payload)) == payload <==>
      payload in (match k case TempMetric => ["avg", "max"] case ResponseSpeed => ["relaxed", "balanced", "aggressive"])
  {
  }

  /** Any payload other than the recognised ones selects the preset's fallback: the hottest drive, or balanced. */
  lemma PresetFallback(k: Preset, payload: string)
    requires !(k.TempMetric? && payload == "avg")
    requires !(k.ResponseSpeed? && (payload == "relaxed" || payload == "aggressive"))
    ensures DecodePreset(k, payload) == PresetDefault(k)
    ensures k.TempMetric? ==> DecodePreset(k, payload) == MaxHottest
    ensures k.ResponseSpeed? ==> DecodePreset(k, payload) == Balanced
  {
  }

  /** `UNASTempMetricSelect` and `UNASResponseSpeedSelect`. */
  class PresetSelect {
    const kind: Preset
    const topic: string
    var currentOption: Option<string>
    var currentMode: Option<string>
    var published: seq<Publication>

    constructor (entryId: string, k: Preset)
      ensures kind == k && topic == PresetTopic(entryId, k)
      ensures currentOption == None && currentMode == None && published == []
    {
      kind := k;
      topic := PresetTopic(entryId, k);
      currentOption := None;
      currentMode := None;
      published := [];
    }

    /**
     * Restoring: a known option is kept, the remembered mode is taken as
     * it was, and without an option the default is shown.
     */
    method Restore(last: Option<(string, Option<string>)>)
      modifies this
      ensures last.Some? && last.value.0 in PresetOptions(kind) ==> currentOption == Some(last.value.0)
      ensures !(last.Some? && last.value.0 in PresetOptions(kind)) ==>
        currentOption == if old(currentOption).Some? then old(currentOption) else Some(PresetDefault(kind))
      ensures last.Some? ==> currentMode == last.value.1
      ensures last.None? ==> currentMode == old(currentMode)
      ensures published == old(published)
    {
      if last.Some? {
        if last.value.0 in PresetOptions(kind) {
          currentOption := Some(last.value.0);
        }
        currentMode := last.value.1;
      }
      if currentOption.None? {
        currentOption := Some(PresetDefault(kind));
      }
    }

    method OnPresetMessage(payload: string)
      modifies this
      ensures currentOption == Some(DecodePreset(kind, payload))
      ensures currentMode == old(currentMode) && published == old(published)
    {
      currentOption := Some(DecodePreset(kind, payload));
    }

    /** An unrecognised mode payload leaves no mode. */
    method OnModeMessage(payload: string)
      modifies this
      ensures currentMode == FanMode.ModeOf(payload)
      ensures currentOption == old(currentOption) && published == old(published)
    {
      currentMode := FanMode.ModeOf(payload);
    }

    method SelectOption(option: string, publishOk: bool)
      modifies this
      ensures currentOption == Some(option)
      ensures published == old(published) + (if publishOk then [Publication(topic, EncodePreset(kind, option), true)] else [])
      ensures currentMode == old(currentMode)
    {
      if publishOk {
        published := published + [Publication(topic, EncodePreset(kind, option), true)];
      }
      currentOption := Some(option);
    }

    /** Only offered in the target-temperature mode. */
    predicate Available(mqttAvailable: bool, serviceRunning: bool)
      reads this
    {
      mqttAvailable && serviceRunning && currentOption.Some? && currentMode == Some("target_temp")
    }
  }

  /** A preset is offered exactly when the service reports the target-temperature mode. */
  lemma PresetNeedsTargetMode(s: PresetSelect, m: bool, r: bool)
    requires m && r && s.currentOption.Some?
    ensures s.Available(m, r) <==> s.currentMode == Some("target_temp")
  {
  }
}
