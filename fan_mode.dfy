/**
 * `FanModeMixin`: the state an entity keeps about the fan-control mode,
 * which the on-device service publishes retained on `{control}/fan/mode`.
 */
module FanMode {
  import opened Text
  import Const
  import MqttClient

  /** The modes published under their own name. */
  const NamedModes: set<string> := {"unas_managed", "auto", "target_temp"}

  /**
   * Decoding of a mode payload: the three named modes stand for
   * themselves, an all-digit payload (a PWM duty) means "set_speed", and
   * anything else means no known mode.
   */
  function ModeOf(payload: string): (r: Option<string>)
    ensures payload in NamedModes ==> r == Some(payload)
    ensures payload !in NamedModes ==> (r.Some? <==> IsDigits(payload))
    ensures r.Some? ==> r.value in NamedModes + {"set_speed"}
    ensures payload !in NamedModes && r.Some? ==> r == Some("set_speed")
  {
    if payload == "unas_managed" then Some("unas_managed")
    else if payload == "auto" then Some("auto")
    else if payload == "target_temp" then Some("target_temp")
    else if IsDigits(payload) then Some("set_speed")
    else None
  }

  /** A published duty always reads back as the set-speed mode. */
  lemma DutyIsSetSpeed(pwm: nat)
    ensures ModeOf(IntToString(pwm)) == Some("set_speed")
  {
    var s := IntToString(pwm);
    assert s[0] != 'u' && s[0] != 'a' && s[0] != 't' by { assert IsDigit(s[0]); }
  }

  /** Every mode has a payload that decodes to it. */
  lemma ModesHavePayloads(m: string)
    requires m in NamedModes + {"set_speed"}
    ensures exists p :: ModeOf(p) == Some(m)
  {
    if m == "set_speed" {
      DutyIsSetSpeed(0);
    } else {
      assert ModeOf(m) == Some(m);
    }
  }

  /**
   * The mode topic, `{control}/fan/mode`. The telemetry store routes the
   * same topic to its `fan_mode` key.
   */
  function ModeTopic(entryId: string): (t: string)
    ensures StartsWith(t, Const.MqttRoot(entryId))
    ensures MqttClient.Dispatch(Const.MqttRoot(entryId), t) == MqttClient.StoreValue("fan_mode")
  {
    var root := Const.MqttRoot(entryId);
    var t := root + "/" + "control" + "/fan/mode";
    ModeTopicText(root);
    ModeTopicRoutes(root, t);
    t
  }

  /** The mode topic is the `control` entry of the topic table, then `/fan/mode`. */
  lemma ModeTopicInTable(entryId: string)
    ensures ModeTopic(entryId) == Const.MqttTopics(entryId)["control"] + "/fan/mode"
  {
    assert "control" in Const.TopicKeys;
  }

  lemma ModeTopicRoutes(root: string, t: string)
    requires t == root + "/" + "control" + "/" + "fan" + "/" + "mode"
    ensures StartsWith(t, root)
    ensures MqttClient.Dispatch(root, t) == MqttClient.StoreValue("fan_mode")
  {
    MqttClient.ThreeLevels(root, "control", "fan", "mode");
    MqttClient.DispatchVia(root, t, ["control", "fan", "mode"]);
    RouteFanMode();
  }

  lemma RouteFanMode()
    ensures MqttClient.Route(["control", "fan", "mode"]) == MqttClient.StoreValue("fan_mode")
  {
  }

  lemma ModeTopicText(root: string)
    ensures root + "/" + "control" + "/fan/mode" == root + "/" + "control" + "/" + "fan" + "/" + "mode"
  {
  }

  /** The mixin's fields on one entity. */
  class ModeFollower {
    var currentMode: Option<string>
    /** Whether `_unsubscribe_mode` holds an unsubscriber. */
    var subscribed: bool
    /** State writes requested so far. */
    var writes: nat
    /** Unsubscriber calls so far. */
    var unsubscribeCalls: nat

    constructor ()
      ensures currentMode == None && !subscribed && writes == 0 && unsubscribeCalls == 0
    {
      currentMode := None;
      subscribed := false;
      writes := 0;
      unsubscribeCalls := 0;
    }

    /** `_subscribe_fan_mode`: the unsubscriber is stored. */
    method Subscribe()
      modifies this
      ensures subscribed
      ensures currentMode == old(currentMode) && writes == old(writes) && unsubscribeCalls == old(unsubscribeCalls)
    {
      subscribed := true;
    }

    /** The mode callback: decode, then write the state exactly once. */
    method OnModeMessage(payload: string)
      modifies this
      ensures currentMode == ModeOf(payload)
      ensures writes == old(writes) + 1
      ensures subscribed == old(subscribed) && unsubscribeCalls == old(unsubscribeCalls)
    {
      currentMode := ModeOf(payload);
      writes := writes + 1;
    }

    /**
     * `_unsubscribe_fan_mode`: nothing without an unsubscriber; otherwise it
     * is called, and an error it raises is swallowed, so the outcome is the
     * same either way. The unsubscriber is kept, not cleared.
     */
    method UnsubscribeFanMode()
      modifies this
      ensures unsubscribeCalls == old(unsubscribeCalls) + (if old(subscribed) then 1 else 0)
      ensures subscribed == old(subscribed) && currentMode == old(currentMode) && writes == old(writes)
    {
      if subscribed {
        unsubscribeCalls := unsubscribeCalls + 1;
      }
    }
  }
}
