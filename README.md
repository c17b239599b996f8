# UniFi UNAS integration — a verified Dafny model

This project models the core of the `unifi_unas` Home Assistant custom
integration. The integration connects to a UniFi UNAS or UNVR appliance
over SSH. It deploys two scripts there: a Python monitor and a
fan-control shell script. The monitor publishes telemetry over MQTT under
`unas/<first 8 characters of the entry id>`, and the integration turns
that telemetry into sensors, selects, numbers and switches.

The Dafny modules, with the source file each one models:

- Text (shared helpers): Python's `str.split`, `str.join`, `str.replace`, `str.strip`, `s.split()`, `int()`, `int(float())`, `str(int)`, `sorted()` on strings
- Json (shared helpers): JSON values, with `json.loads` as a parameter
- Const (`const.py`): MQTT root and topic table, device info, key paths
- MqttClient (`mqtt_client.py`): the telemetry store `UNASMQTTClient`: routing, payload coercion, staleness eviction, availability, refresh debounce
- FanMode (`fan_mode.py`): the fan-mode mixin
- Coordinator (`__init__.py`): the coordinator's state: entity and device registry, effect log, discovered sets
- Sensor (`sensor.py`): the drive, NVMe and pool reconcilers, setup discovery retries, the system sensor table and exclusions
- SensorEntities (`sensor.py`): `UNASSensor` availability and the fan-curve visualisation sensor
- Switch (`switch.py`): the backup-task switch reconciler and the switch entity
- SshManager (`ssh_manager.py`): `shlex.quote`, template substitution, stdout checks, key choice, the connection handle and the deploy sequence
- Init (`__init__.py`): migration, `_version_at_least`, the redeploy decision, the 93-topic cleanup, the poll cycle
- Pwm (`number.py`): PWM and percent conversions with Python's half-to-even `round`
- Select (`select.py`): the fan-mode, temperature-metric and response-speed selects
- Number (`number.py`): the fan-speed slider and the fan-curve parameters
- Monitor (`scripts/unas_monitor.py`): bay tables, bay lookup and cache, drive grace period, `df`, `smbstatus` and `showmount` parsers, temperature file, interval

Each state-changing entity is a Dafny `class` whose methods state their
whole new state. Examples are the telemetry store, the coordinator, the
SSH manager's connection handle, the selects and numbers, and the
appliance monitor. Pure computations are functions, and lemmas relate
them.

These become parameters:
- time, as an integer number of microseconds;
- whether each publish, upload or SSH command gets through (a raise where the source does not catch it);
- filesystem probes;
- `udevadm`, `smartctl` and `df` output;
- `json.loads`, as a function from text to an optional JSON value;
- `packaging.Version` comparison, as a function that is `None` on an invalid version.

Registry removals, MQTT publishes and entity creations are appended to
an effect log.

## Model

| member | source | states |
|---|---|---|
| `Const.SshKeyPaths` | custom_components/unifi_unas/const.py:7-12 | four candidate key paths in order: `/config/.ssh/id_rsa`, `/config/.ssh/id_ed25519`, then `id_rsa` and `id_ed25519` under the home directory |
| `Const.DeviceInfo` | custom_components/unifi_unas/const.py:43-46 | the model name is `UNVR` iff the model is `UNVR`, `UNAS` otherwise, and the product name is `UniFi ` followed by it |
| `Const.Prefix8` | custom_components/unifi_unas/const.py:51 | `entry_id[:8]`: a prefix of the id of length 8, or the whole id when shorter |
| `Const.MqttRoot` | custom_components/unifi_unas/const.py:50-51 | the root starts with `unas/` and continues with the 8-character prefix of the entry id |
| `Const.MqttRootSharedPrefix` | custom_components/unifi_unas/const.py:50-51 | ids that agree on their first 8 characters share a root, so two entries can collide |
| `Const.MqttRootInjective` | custom_components/unifi_unas/const.py:50-51 | equal roots mean equal 8-character prefixes |
| `Const.MqttTopics` | custom_components/unifi_unas/const.py:53-65 | the table has exactly the source's keys; `root` is the root, every other entry is root + `/` + its segment |
| `Coordinator.Coordinator.constructor` | custom_components/unifi_unas/__init__.py:245-263 | root from the entry id; no bays, NVMe slots, pools or switches discovered; no entities, devices or effects; the initial cycle record; no platform callbacks |
| `Coordinator.RemoveEntity` | custom_components/unifi_unas/sensor.py:293-295 | the entity is gone, devices are kept, and a removal is logged iff it was registered |
| `Coordinator.RemoveDevice` | custom_components/unifi_unas/sensor.py:305-308 | the device is gone, entities are kept, and a removal is logged iff it was registered |
| `Coordinator.Publish` | custom_components/unifi_unas/sensor.py:297-303 | one retained publish is logged; the registry is unchanged |
| `Coordinator.AddEntities` | custom_components/unifi_unas/sensor.py:323-324 | every new unique id is registered under the entry, every other entity keeps its value, the devices are added and one creation is logged |
| `MqttClient.LStripChar` | custom_components/unifi_unas/mqtt_client.py:105 | `lstrip("/")`: the result is a suffix that does not start with a slash, and everything removed was a slash |
| `MqttClient.RouteOne` | custom_components/unifi_unas/mqtt_client.py:120-124 | one level routes to the status or is ignored |
| `MqttClient.RouteTwo` | custom_components/unifi_unas/mqtt_client.py:126-149 | the two-level table: `system/m` stores `unas_m`, `control/x` stores `x`, `smb/connections` and `nfs/mounts` store the share counts, `smb/clients` and `nfs/clients` store attributes of those sensors; ignored iff the category is none of the four or an smb/nfs item is unknown; never the status |
| `MqttClient.RouteThree` | custom_components/unifi_unas/mqtt_client.py:151-164 | the three-level table: `hdd|nvme/id/m` stores `unas_{category}_{id}_{m}`, `pool/n/m` stores `unas_pool{n}_{m}`, `control/fan/mode` stores `fan_mode`; ignored iff none of these |
| `MqttClient.RouteFour` | custom_components/unifi_unas/mqtt_client.py:166-169 | four levels store a value iff they are `control/fan/curve/p`, under `fan_curve_p`; otherwise ignored |
| `MqttClient.Route` | custom_components/unifi_unas/mqtt_client.py:109-118 | the status is set iff the levels are `["availability"]`; any other single level, no level or more than four are ignored; attributes are stored only for two levels ending in `clients` |
| `MqttClient.Dispatch` | custom_components/unifi_unas/mqtt_client.py:100-105 | a topic that does not start with the root is ignored |
| `MqttClient.StoredAfter` | custom_components/unifi_unas/mqtt_client.py:100-118 | a run of messages only adds keys, and one that writes nothing leaves the data as it was |
| `MqttClient.DispatchVia` | custom_components/unifi_unas/mqtt_client.py:100-118 | a topic under the root is routed by the levels after the root, leading slashes stripped |
| `MqttClient.RouteStatus` | custom_components/unifi_unas/mqtt_client.py:120-124 | `["availability"]` sets the status |
| `MqttClient.RouteCpuTemp` | custom_components/unifi_unas/mqtt_client.py:129-131 | `system/cpu_temp` is stored under `unas_cpu_temp` |
| `MqttClient.RouteKeyHdd` | custom_components/unifi_unas/mqtt_client.py:154-156 | `hdd/bay/m` is stored under `unas_hdd_{bay}_m` |
| `MqttClient.RouteKeyNvme` | custom_components/unifi_unas/mqtt_client.py:154-156 | `nvme/slot/m` is stored under `unas_nvme_{slot}_m` |
| `MqttClient.RouteKeyPool` | custom_components/unifi_unas/mqtt_client.py:158-160 | `pool/n/m` is stored under `unas_pool{n}_m` |
| `MqttClient.Coerce` | custom_components/unifi_unas/mqtt_client.py:171-185 | empty payloads store nothing; a payload without `.` that `int()` reads is stored as that int; one with `.` that `float()` reads is a float tag keeping the raw text; any other non-empty payload is stored as the string; never JSON |
| `MqttClient.CoerceInt` | custom_components/unifi_unas/mqtt_client.py:182-183 | an integer published as `str(n)` is stored as `n` |
| `MqttClient.StaleKeys` | custom_components/unifi_unas/mqtt_client.py:218-227 | a key is stale iff its stamp is more than 120 s old and it is not exempt |
| `MqttClient.KeptKeys` | custom_components/unifi_unas/mqtt_client.py:218-231 | the keys left after eviction are exactly the fresh and the exempt ones |
| `MqttClient.Written` | custom_components/unifi_unas/mqtt_client.py:171-199 | a value store writes one key iff the payload is non-empty, with the coerced value; an attributes store writes `{key}_attributes` iff the JSON parses; status and ignored topics write nothing |
| `MqttClient.TelemetryStore.constructor` | custom_components/unifi_unas/mqtt_client.py:51-61 | root from the entry id; empty data and stamps; status `unknown`; no last update, pending refresh, subscription or refresh; no coordinator attached |
| `MqttClient.TelemetryStore.AttachCoordinator` | custom_components/unifi_unas/__init__.py:182 | the coordinator is attached and nothing else changes |
| `MqttClient.TelemetryStore.Subscribe` | custom_components/unifi_unas/mqtt_client.py:63-73 | the subscription count grows by one iff MQTT is loaded and the subscribe succeeds; nothing else changes |
| `MqttClient.TelemetryStore.Unsubscribe` | custom_components/unifi_unas/mqtt_client.py:75-84 | returns the number of dropped subscriptions, leaves none, and cancels a pending refresh; nothing else changes |
| `MqttClient.TelemetryStore.ScheduleRefresh` | custom_components/unifi_unas/mqtt_client.py:86-97 | the pending refresh is due 0.5 s from now, replacing any earlier one; nothing else changes |
| `MqttClient.TelemetryStore.Tick` | custom_components/unifi_unas/mqtt_client.py:91-95 | a due timer is cleared and requests one refresh when a coordinator is attached; a timer not yet due is kept |
| `MqttClient.TelemetryStore.HandleMessage` | custom_components/unifi_unas/mqtt_client.py:99-118 | the status becomes the payload iff the topic dispatches to the status; data, stamps and last update change only by the one written key, stamped now; the refresh is re-armed on a status message or a write |
| `MqttClient.TelemetryStore.Apply` | custom_components/unifi_unas/mqtt_client.py:171-197 | a write sets value, stamp and last update together; a status action sets the status; the refresh is re-armed when either happens |
| `MqttClient.TelemetryStore.GetData` | custom_components/unifi_unas/mqtt_client.py:214-231 | eviction removes exactly the stale keys from both data and stamps, and the result is the remaining data |
| `MqttClient.TelemetryStore.IsAvailable` | custom_components/unifi_unas/mqtt_client.py:201-212 | an available store is not offline and has had an update, and its freshest samples survive the next cleanup; a store unavailable only through age loses every non-exempt sample no newer than its last update |
| `MqttClient.CollectStale` | custom_components/unifi_unas/mqtt_client.py:218-227 | the collecting loop yields exactly the stale keys |
| `MqttClient.DropKeys` | custom_components/unifi_unas/mqtt_client.py:229-231 | the deleting loop removes exactly the given keys from both maps |
| `MqttClient.StatusTopic` | custom_components/unifi_unas/mqtt_client.py:120-124 | `root/availability` dispatches to the status |
| `MqttClient.AvailabilityTopicSetsStatus` | custom_components/unifi_unas/mqtt_client.py:111-124 | the table's `availability` topic dispatches to the status |
| `MqttClient.ThreeLevels` | custom_components/unifi_unas/mqtt_client.py:105 | `root/a/b/c` with slash-free levels starts with the root and splits into `[a, b, c]` |
| `MqttClient.TwoLevels` | custom_components/unifi_unas/mqtt_client.py:105 | `root/a/b` with slash-free levels starts with the root and splits into `[a, b]` |
| `MqttClient.FourLevels` | custom_components/unifi_unas/mqtt_client.py:105 | `root/a/b/c/d` with slash-free levels starts with the root and splits into `[a, b, c, d]` |
| `MqttClient.TwoLevelTopic` | custom_components/unifi_unas/mqtt_client.py:100-118 | a two-level topic takes the two-level route of its levels |
| `MqttClient.SystemTopicKey` | custom_components/unifi_unas/mqtt_client.py:128-129 | `root/system/m` stores under `unas_m` |
| `MqttClient.ControlTopicKey` | custom_components/unifi_unas/mqtt_client.py:146-147 | `root/control/x` stores under `x` |
| `MqttClient.CurveTopicKey` | custom_components/unifi_unas/mqtt_client.py:166-169 | `root/control/fan/curve/p` stores under `fan_curve_p` |
| `MqttClient.SmbTopicKeys` | custom_components/unifi_unas/mqtt_client.py:133-137 | `root/smb/connections` stores the SMB connection count; `root/smb/clients` stores the client list as that sensor's attributes |
| `MqttClient.NfsTopicKeys` | custom_components/unifi_unas/mqtt_client.py:140-144 | `root/nfs/mounts` stores the NFS mount count; `root/nfs/clients` stores the client list as that sensor's attributes |
| `MqttClient.DriveTopicKey` | custom_components/unifi_unas/mqtt_client.py:151-156 | `root/hdd/bay/m` stores under `unas_hdd_{bay}_m` |
| `MqttClient.NvmeTopicKey` | custom_components/unifi_unas/mqtt_client.py:151-156 | `root/nvme/slot/m` stores under `unas_nvme_{slot}_m` |
| `MqttClient.PoolTopicKey` | custom_components/unifi_unas/mqtt_client.py:158-160 | `root/pool/n/m` stores under `unas_pool{n}_m` |
| `MqttClient.NamespaceWithoutSlash` | custom_components/unifi_unas/mqtt_client.py:102-105 | the root test has no `/` boundary: `rootsystem/cpu_temp` is still routed to `unas_cpu_temp` |
| `MqttClient.ControlKeysExempt` | custom_components/unifi_unas/mqtt_client.py:223 | `fan_mode`, `monitor_interval` and every `fan_curve_` key are exempt from expiry |
| `MqttClient.StaleScenario` | custom_components/unifi_unas/mqtt_client.py:201-231 | a sample written at 0 and read at 121 s survives iff its key is exempt, and the store is then unavailable |
| `MqttClient.BurstScenario` | custom_components/unifi_unas/mqtt_client.py:86-97 | three messages within half a second cause exactly one refresh |
| `MqttClient.Burst` | custom_components/unifi_unas/mqtt_client.py:86-118 | for any burst of timer-resetting messages each within 0.5 s of the one before: no refresh during the burst, then exactly one refresh iff the loop reaches 0.5 s past the last message, with the timer still pending otherwise |
| `MqttClient.BurstStep` | custom_components/unifi_unas/mqtt_client.py:86-118 | a message arriving before the pending timer is due asks for no refresh and re-arms the timer 0.5 s after it |
| `FanMode.ModeOf` | custom_components/unifi_unas/fan_mode.py:17-28 | the three named modes decode to themselves; any other payload decodes iff it is all digits, and then to `set_speed` |
| `FanMode.DutyIsSetSpeed` | custom_components/unifi_unas/fan_mode.py:25-26 | `str(n)` of every duty decodes as `set_speed` |
| `FanMode.ModesHavePayloads` | custom_components/unifi_unas/fan_mode.py:19-26 | every named mode and `set_speed` is decoded from some payload |
| `FanMode.ModeTopic` | custom_components/unifi_unas/fan_mode.py:31-33 | the topic starts with the entry's root, and the telemetry store routes it to `fan_mode` |
| `FanMode.ModeTopicInTable` | custom_components/unifi_unas/fan_mode.py:32 | the topic is the table's `control` entry + `/fan/mode` |
| `FanMode.ModeTopicRoutes` | custom_components/unifi_unas/mqtt_client.py:162-163 | `root/control/fan/mode` starts with the root and is stored under `fan_mode` |
| `FanMode.RouteFanMode` | custom_components/unifi_unas/mqtt_client.py:162-164 | `control/fan/mode` is stored under `fan_mode` |
| `FanMode.ModeFollower.constructor` | custom_components/unifi_unas/fan_mode.py:12-13 | no mode, no subscription, no state writes, no unsubscribe calls |
| `FanMode.ModeFollower.Subscribe` | custom_components/unifi_unas/fan_mode.py:31-33 | holds a subscription and nothing else changes |
| `FanMode.ModeFollower.OnModeMessage` | custom_components/unifi_unas/fan_mode.py:17-29 | the mode becomes the decoded payload, then exactly one state write follows |
| `FanMode.ModeFollower.UnsubscribeFanMode` | custom_components/unifi_unas/fan_mode.py:35-40 | one unsubscriber call iff subscribed; the handle is not cleared and nothing else changes |
| `Pwm.RoundHalfEven` | custom_components/unifi_unas/number.py:96 | Python's `round` of `n/d`: within half a unit of `n/d`, and even on a tie |
| `Pwm.PwmToPercent` | custom_components/unifi_unas/number.py:96 | `round(pwm*100/255)`: strictly within half a percent of the exact ratio, so never a tie |
| `Pwm.PercentToPwm` | custom_components/unifi_unas/number.py:163 | `round(pct*255/100)`: within half a unit, and even on a tie |
| `Pwm.PercentRoundTrip` | custom_components/unifi_unas/number.py:163 | percent to PWM and back is the identity, for every integer |
| `Pwm.Ranges` | custom_components/unifi_unas/number.py:96 | PWM 0..255 maps into 0..100 and back |
| `Pwm.EvenTies` | custom_components/unifi_unas/number.py:163 | `PercentToPwm(10) = 26` (25.5 rounds up to even), `PercentToPwm(30) = 76` (76.5 rounds down to even), `PercentToPwm(50) = 128` |
| `Pwm.DefaultDuties` | custom_components/unifi_unas/number.py:311-315 | the duties 204, 255 and 128 are 80 %, 100 % and 50 % |
| `Pwm.PwmToPercentMonotone` | custom_components/unifi_unas/number.py:96 | the conversion is monotone |
| `Number.SpeedOf` | custom_components/unifi_unas/number.py:93-100 | a payload gives a percentage iff `int()` reads it, and that percentage is the nearest one to the PWM |
| `Number.SpeedEcho` | custom_components/unifi_unas/number.py:158-168 | the PWM the slider publishes for a non-negative percentage decodes as `set_speed` and reads back as that percentage |
| `Number.FanSpeedNumber.constructor` | custom_components/unifi_unas/number.py:55-73 | the mode topic from the entry; no value, no mode, nothing published |
| `Number.FanSpeedNumber.Restore` | custom_components/unifi_unas/number.py:86-90 | a restored state that parses as a decimal is taken; otherwise the value is unchanged; mode and publishes unchanged |
| `Number.FanSpeedNumber.OnSpeedMessage` | custom_components/unifi_unas/number.py:93-100 | a parseable PWM sets the value to its percentage; otherwise the value is unchanged |
| `Number.FanSpeedNumber.OnModeMessage` | custom_components/unifi_unas/number.py:103-115 | the mode becomes the decoded payload |
| `Number.FanSpeedNumber.SetNativeValue` | custom_components/unifi_unas/number.py:158-174 | only in mode `set_speed` and with a successful publish: one retained publish of the PWM and the value is taken; otherwise nothing changes |
| `Number.ParamsWellFormed` | custom_components/unifi_unas/number.py:21-27 | five curve parameters with distinct keys, each with min < max and its default inside [min, max] |
| `Number.CurveValueOf` | custom_components/unifi_unas/number.py:224-235 | accepted iff `int(float(payload))` exists and, converted to percent for the fan parameters, lies in the parameter's range; the value is that number |
| `Number.CurveRoundTrip` | custom_components/unifi_unas/number.py:339-346 | what is published for an in-range value is accepted back as that value |
| `Number.RatioOf` | custom_components/unifi_unas/number.py:314-315 | defined exactly for an int or a parseable float; an int `i` is `i/1`; the denominator is positive |
| `Number.TempOf` | custom_components/unifi_unas/number.py:309-310 | the default when the key is absent; a stored text stays text; otherwise a number iff the stored value is an int or a parseable float, and neither for any other value |
| `Number.TempBelow` | custom_components/unifi_unas/number.py:326 | Python's `<` on two temperatures: defined iff both are numbers or both are text; numbers compare by value, text by code points |
| `Number.CurveVerdict` | custom_components/unifi_unas/number.py:304-329 | raises a `TypeError` iff the two temperatures are not comparable; rejects the temperatures iff the maximum does not exceed the minimum; otherwise rejects the fan speeds iff the maximum does not exceed the minimum |
| `Number.DefaultBounds` | custom_components/unifi_unas/number.py:309-329 | with no curve key stored: `min_temp` is accepted iff below 47, `max_temp` iff above 43, `min_fan` iff below 100, `max_fan` iff above 80, and the target always |
| `Number.MinTempAgainstStored` | custom_components/unifi_unas/number.py:317-327 | setting `min_temp` is rejected iff it is not below the stored `max_temp` |
| `Number.TextTempNotComparable` | custom_components/unifi_unas/number.py:326 | a stored text `max_temp` cannot be compared with a new `min_temp`, which raises |
| `Number.TextTempsCompare` | custom_components/unifi_unas/number.py:309-327 | with both temperatures stored as text, setting another parameter never raises a `TypeError`, and is refused for the temperatures iff the minimum is not below the maximum in code-point order |
| `Number.TextTempsAccepted` | custom_components/unifi_unas/number.py:309-329 | with the temperatures stored as `"abc"` and `"xyz"` and default duties, a target temperature is accepted |
| `Number.CurveKeysExempt` | custom_components/unifi_unas/mqtt_client.py:223 | the four curve keys the validation reads are exempt from eviction |
| `Number.VerdictSurvivesCleanup` | custom_components/unifi_unas/number.py:307 | evicting only non-exempt keys does not change the verdict on a value |
| `Number.CurveHiddenOutsideCurveModes` | custom_components/unifi_unas/number.py:282-302 | outside `auto` and `target_temp` no curve parameter is available |
| `Number.CurveShownInItsMode` | custom_components/unifi_unas/number.py:291-300 | with MQTT, the service and the scripts up: `min_temp` is available iff the mode is `auto`, `target_temp` iff `target_temp`, `max_fan` iff either |
| `Number.FanCurveNumber.constructor` | custom_components/unifi_unas/number.py:178-210 | the parameter and its topic under `control/fan/curve/`; no value, no mode, nothing published |
| `Number.FanCurveNumber.OnCurveMessage` | custom_components/unifi_unas/number.py:223-235 | an accepted payload sets the value; otherwise the value is unchanged; mode and publishes unchanged |
| `Number.FanCurveNumber.OnModeMessage` | custom_components/unifi_unas/number.py:241-254 | the mode becomes the decoded payload |
| `Number.FanCurveNumber.MaybeInitDefault` | custom_components/unifi_unas/number.py:262-273 | only without a value: the value becomes the default, which is published retained when the publish succeeds |
| `Number.FanCurveNumber.SetNativeValue` | custom_components/unifi_unas/number.py:304-333 | evicts stale keys; the verdict is the curve check on the data before eviction; an accepted value is taken and published when the publish succeeds; a rejected one changes nothing |
| `Select.ManagedOption` | custom_components/unifi_unas/select.py:59-60 | `UNVR Managed` iff the model is `UNVR`, `UNAS Managed` otherwise |
| `Select.FanModeOptions` | custom_components/unifi_unas/select.py:61 | four distinct options, the managed one first |
| `Select.DecodeFanMode` | custom_components/unifi_unas/select.py:78-97 | the option is the one of the decoded mode; a PWM is read back iff the payload is all digits, as its integer value |
| `Select.OptionOfMode` | custom_components/unifi_unas/select.py:78-97 | always one of the four options; with a managed label distinct from the other three, the managed option is shown exactly for a mode that is none of `auto`, `target_temp`, `set_speed` |
| `Select.SpeedText` | custom_components/unifi_unas/select.py:154-156 | an int speed gives `str(n)`, a float its received text and a text value itself; text is defined for every value except JSON |
| `Select.EncodeFanMode` | custom_components/unifi_unas/select.py:139-159 | a payload iff the option is one of the four, except "Set Speed" with a JSON speed; a named mode publishes its mode word; "Set Speed" publishes the cached int speed, or 128 when none is cached |
| `Select.FanModeRoundTrip` | custom_components/unifi_unas/select.py:139-159 | for every option and well-formed cached speed a payload is published, and decoding it gives the option back, with the PWM sent for Set Speed |
| `Select.NegativeSpeedReadsManaged` | custom_components/unifi_unas/select.py:152-156 | a negative cached speed is published as `-n`, which is not all digits, so it reads back as Managed |
| `Select.FanModeSelect.constructor` | custom_components/unifi_unas/select.py:47-61 | the managed option and the options for the model; the mode topic; no option, no PWM, no effects |
| `Select.FanModeSelect.Restore` | custom_components/unifi_unas/select.py:72-76 | a restored option is used, with its PWM, only when it is one of the options; otherwise Managed |
| `Select.FanModeSelect.OnModeMessage` | custom_components/unifi_unas/select.py:78-97 | the option becomes the decoded payload; an all-digit payload also records its PWM |
| `Select.FanModeSelect.SelectOption` | custom_components/unifi_unas/select.py:139-159 | the option is set; the effects are a service start when the service is down, the mode publish when it succeeds, and a native kick for Managed; Set Speed records the cached or default PWM and evicts the stale telemetry (data and stamps), every other option leaves the store as it was; the store's status, pending refresh, subscriptions and counters never change |
| `Select.PresetOptions` | custom_components/unifi_unas/select.py:178 | the options of each preset are distinct |
| `Select.PresetDefault` | custom_components/unifi_unas/select.py:195-196 | the default is one of the options |
| `Select.DecodePreset` | custom_components/unifi_unas/select.py:199-205 | every payload decodes to one of the preset's options; for the temperature metric the result is Average iff the payload is `avg`; for the response speed it is Relaxed iff `relaxed` and Aggressive iff `aggressive` |
| `Select.PresetFallback` | custom_components/unifi_unas/select.py:202-205 | any payload other than the recognised ones selects the preset's fallback: the hottest drive for the temperature metric, balanced for the response speed |
| `Select.PresetRoundTrip` | custom_components/unifi_unas/select.py:360-365 | decoding the published payload of an option gives that option |
| `Select.PresetNormalises` | custom_components/unifi_unas/select.py:280-282 | re-encoding a decoded payload reproduces it iff it was canonical |
| `Select.PresetSelect.constructor` | custom_components/unifi_unas/select.py:165-186 | the preset and its topic; no option, no mode, nothing published |
| `Select.PresetSelect.Restore` | custom_components/unifi_unas/select.py:191-196 | a known restored option is kept, the remembered mode is taken, and without an option the default is shown |
| `Select.PresetSelect.OnPresetMessage` | custom_components/unifi_unas/select.py:324-335 | the option becomes the decoded payload |
| `Select.PresetSelect.OnModeMessage` | custom_components/unifi_unas/select.py:213-226 | the mode becomes the decoded payload; an unrecognised one leaves no mode |
| `Select.PresetSelect.SelectOption` | custom_components/unifi_unas/select.py:415-420 | the option is set; one retained publish of its payload when the publish succeeds |
| `Select.PresetNeedsTargetMode` | custom_components/unifi_unas/select.py:379-389 | with MQTT, the service and an option, a preset is available iff the mode is `target_temp` |
| `Sensor.Suffixes` | custom_components/unifi_unas/sensor.py:133-219 | every family has at least one metric suffix |
| `Sensor.Field2` | custom_components/unifi_unas/sensor.py:277 | `key.split("_")[2]`: an underscore-free piece that starts the key after the family prefix |
| `Sensor.PoolIdOf` | custom_components/unifi_unas/sensor.py:397-401 | any id found is all digits, and the key is `unas_pool{n}_usage`, optionally followed by one newline as `$` allows |
| `Sensor.Detected` | custom_components/unifi_unas/sensor.py:276-278 | every detected id is underscore-free, and pool ids are all digits |
| `Sensor.Field2OfKey` | custom_components/unifi_unas/sensor.py:277 | a key built for an underscore-free id starts with the family prefix and yields that id back |
| `Sensor.TemperatureMarked` | custom_components/unifi_unas/sensor.py:277 | the temperature key of a drive or NVMe contains `_temperature` |
| `Sensor.DetectedByTemperature` | custom_components/unifi_unas/sensor.py:276-278 | a drive or slot is detected when its temperature key is in the snapshot |
| `Sensor.PoolDetectedByUsage` | custom_components/unifi_unas/sensor.py:397-401 | a pool is detected iff its usage key is in the snapshot |
| `Sensor.KeyInjective` | custom_components/unifi_unas/sensor.py:292 | for underscore-free ids, distinct ids or suffixes give distinct sensor keys |
| `Sensor.UniqueIdInjective` | custom_components/unifi_unas/sensor.py:292 | for underscore-free ids, distinct ids or suffixes give distinct unique ids |
| `Sensor.RetireSuffixesFacts` | custom_components/unifi_unas/sensor.py:291-303 | retiring one id removes exactly its sensors and publishes one empty retained message per suffix |
| `Sensor.RetireIdFacts` | custom_components/unifi_unas/sensor.py:290-308 | one missing id: its entities are removed, tombstones are sent and, for drives and NVMe, its device is removed |
| `Sensor.RetireIdsEntities` | custom_components/unifi_unas/sensor.py:290-308 | retiring ids removes exactly their entity keys |
| `Sensor.RetireIdsDevices` | custom_components/unifi_unas/sensor.py:305-308 | retiring ids removes exactly their devices, and none for pools |
| `Sensor.RetireIdsEffects` | custom_components/unifi_unas/sensor.py:297-303 | the effect log only grows, and it holds the empty retained publish of every metric of every retired id |
| `Sensor.Publishes` | custom_components/unifi_unas/sensor.py:297-303 | the publishes of a log are no more than its entries, and each is a publish |
| `Sensor.SuffixLog` | custom_components/unifi_unas/sensor.py:291-303 | one tombstone per metric of an id, the k-th for the k-th metric |
| `Sensor.RetireSuffixesLog` | custom_components/unifi_unas/sensor.py:291-303 | retiring some metrics of an id publishes exactly their tombstones, in metric order |
| `Sensor.RetireIdLog` | custom_components/unifi_unas/sensor.py:291-307 | retiring one resource publishes exactly the tombstones of its metrics, in table order |
| `Sensor.RetireIdsLog` | custom_components/unifi_unas/sensor.py:290-308 | retiring ids publishes exactly their tombstones, id by id in the given order and metric by metric within each |
| `Sensor.FirstUnpublished` | custom_components/unifi_unas/sensor.py:291-303 | the first metric whose tombstone publish does not get through: all before it do, it does not |
| `Sensor.FirstUntombstoned` | custom_components/unifi_unas/sensor.py:290-308 | the first missing id one of whose tombstones does not get through: all ids before it get every tombstone through |
| `Sensor.FirstUnpublishedAt` | custom_components/unifi_unas/sensor.py:291-303 | a position with every earlier tombstone through and its own failing is the first failing one |
| `Sensor.FirstUntombstonedAt` | custom_components/unifi_unas/sensor.py:290-308 | the same for the ids of a removal loop |
| `Sensor.TombstonedMeans` | custom_components/unifi_unas/sensor.py:291-303 | all tombstones of one id get through iff each of its topics is published |
| `Sensor.AllTombstonedMeans` | custom_components/unifi_unas/sensor.py:290-308 | the removal loop runs to its end iff every tombstone of every missing id is published |
| `Sensor.HaltedFacts` | custom_components/unifi_unas/sensor.py:291-303 | a raise inside one id's loop: the sensors of its metrics up to and including the failing one are removed, its device is kept, and only the tombstones before the failing one are logged |
| `Sensor.AbortedEntities` | custom_components/unifi_unas/sensor.py:283-303 | a raise in the removal loop: exactly the sensors of the ids before the failing one and of the failing id's metrics up to and including the failing metric are removed |
| `Sensor.AbortedDevices` | custom_components/unifi_unas/sensor.py:283-308 | a raise in the removal loop: the devices are those left after fully retiring the ids before the failing one, so the failing id's device and later ones stay |
| `Sensor.AbortedLog` | custom_components/unifi_unas/sensor.py:283-308 | a raise in the removal loop only appends to the log, and the publishes it appends are exactly the tombstones sent before the failure, id by id and metric by metric |
| `Sensor.PassRaisesMeans` | custom_components/unifi_unas/sensor.py:290-303 | a pass raises iff some tombstone of some missing id does not get through |
| `Sensor.ModelExamples` | custom_components/unifi_unas/sensor.py:620-631 | a model with a word or `"Unknown"` lets the sensors be created; blank text or a number does not |
| `Sensor.RoundRaisesOnBuild` | custom_components/unifi_unas/sensor.py:316-321 | when every publish gets through, a raising round has a new drive or NVMe sensor that cannot be created |
| `Sensor.PerIdFacts` | custom_components/unifi_unas/sensor.py:318-321 | a new id gets one unique id per suffix, and exactly those |
| `Sensor.BatchFacts` | custom_components/unifi_unas/sensor.py:316-321 | the batch has one unique id per id and suffix, and exactly those |
| `Sensor.RetiredUnregistered` | custom_components/unifi_unas/sensor.py:280-325 | after a pass no sensor of a missing id is registered |
| `Sensor.RetiredTombstoned` | custom_components/unifi_unas/sensor.py:290-303 | every sensor of a missing id gets an empty retained publish |
| `Sensor.DeviceIdInjective` | custom_components/unifi_unas/sensor.py:305 | distinct ids give distinct devices |
| `Sensor.RetiredDeviceRemoved` | custom_components/unifi_unas/sensor.py:305-307 | the device of a missing drive or NVMe is removed |
| `Sensor.PoolKeepsDevices` | custom_components/unifi_unas/sensor.py:403-426 | a pool pass removes no device |
| `Sensor.AddedRegistered` | custom_components/unifi_unas/sensor.py:316-325 | every sensor of a new id is registered under the entry |
| `Sensor.OthersKept` | custom_components/unifi_unas/sensor.py:280-325 | entries that belong to no missing id keep their value |
| `Sensor.ReconciledStable` | custom_components/unifi_unas/sensor.py:280-312 | a pass with nothing missing and nothing new changes nothing |
| `Sensor.SetKnown` | custom_components/unifi_unas/sensor.py:283 | sets one family's discovered set; everything else is unchanged |
| `Sensor.RetireMetrics` | custom_components/unifi_unas/sensor.py:291-303 | the suffix loop of one missing id: it raises iff a tombstone fails; without a raise it is the full retirement of the metrics, with one it stops right after the failing metric's registry removal |
| `Sensor.RetireResource` | custom_components/unifi_unas/sensor.py:290-308 | one missing id: raises iff one of its tombstones fails; otherwise its full retirement, device included; on a raise the halted state and no device removal |
| `Sensor.RetireAll` | custom_components/unifi_unas/sensor.py:290-308 | the loop over the missing ids, in order: raises iff some tombstone fails; otherwise their full retirement, else the aborted state |
| `Sensor.NewSensorIds` | custom_components/unifi_unas/sensor.py:316-321 | the nested creation loop raises iff some new resource's model makes its sensor's constructor raise; otherwise it builds the batch |
| `Sensor.CreateSensors` | custom_components/unifi_unas/sensor.py:310-324 | the creation step over the new ids: raises iff some new id cannot build its sensor, then adds nothing; otherwise adds the sorted batch with one device per new id, or nothing when there is no new id |
| `Sensor.BuildFailsInOrder` | custom_components/unifi_unas/sensor.py:316-321 | some new id fails to build iff one does at some position of the sorted creation order |
| `Sensor.PerIdSensorIds` | custom_components/unifi_unas/sensor.py:318-321 | the inner loop builds one id's unique ids |
| `Sensor.PassEffects` | custom_components/unifi_unas/sensor.py:280-324 | the registry after one pass: retirement of the missing ids then the new sensors; it raises iff a tombstone fails or a new sensor cannot be created; after a tombstone raise, the aborted state; after a creation raise, the full retirement and no new sensors |
| `Sensor.ApplyPass` | custom_components/unifi_unas/sensor.py:280-325 | raises iff a tombstone of a missing id fails or a new sensor cannot be created; without a raise the registry is the full pass and the discovered set becomes the detected set; with one the discovered set is the old set less the missing ids, and the registry is the aborted state or, after a creation raise, the retirement alone; other families unchanged |
| `Sensor.ForgetMissing` | custom_components/unifi_unas/sensor.py:282-283 | the discovered set loses the missing ids before the removal loop; the registry and the other families are unchanged |
| `Sensor.RecordNew` | custom_components/unifi_unas/sensor.py:323-325 | the discovered set gains the detected ids; the registry and the other families are unchanged |
| `Sensor.Reconcile` | custom_components/unifi_unas/sensor.py:269-326 | one `_discover_and_add_*` pass: the store evicts its stale keys; it raises iff a tombstone fails or a new drive or NVMe sensor's model does not split (sensor.py:620-631, :682-690); without a raise the registry is the pass over the remaining keys and the discovered set equals the detected set; with one the discovered set is the old set minus the missing ids and nothing is added |
| `Sensor.Deliver` | custom_components/unifi_unas/sensor.py:257-258 | the messages that arrive during a sleep are handled in order: the data is the run of their writes, the stamps are the old ones with every written key stamped at the delivery time, and the subscriptions and refresh count are unchanged |
| `Sensor.CleanupIdempotent` | custom_components/unifi_unas/mqtt_client.py:218-231 | right after an eviction nothing more is stale |
| `Sensor.FamilyPass` | custom_components/unifi_unas/sensor.py:249-251 | one family's pass: raises iff a tombstone of one of its missing ids fails or one of its new sensors cannot be created; otherwise its set is the detected one; the other families' sets are unchanged |
| `Sensor.AllFamilies` | custom_components/unifi_unas/sensor.py:249-251 | one setup round, ended by the first raise: it raises iff some family has a failing tombstone or an unbuildable new sensor; without a raise each discovered set equals what is detected in the evicted data |
| `Sensor.DiscoverOnSetup` | custom_components/unifi_unas/sensor.py:248-264 | between 1 and 13 passes; pass 0 runs on the evicted store, and pass k > 0 on the store after the messages of the k-th five-second sleep arrive, evicted at `now + 5 s * k`; the views of the passes are determined by the inputs; every pass before the last found nothing and did not raise, and the last one raises iff its reconciliation on the final store raises, with pass 0 working from the families already known and later passes from empty ones; when every publish gets through, a raise means the store holds a drive or NVMe model that does not split; without a raise, fewer than 13 passes only when something was discovered, and something is discovered iff something is detected |
| `Sensor.RetryLoop` | custom_components/unifi_unas/sensor.py:253-264 | the loop of up to twelve retries after the first pass: it ends after the pass that raised or found something, or after thirteen passes; the same view, quiet-pass and raise facts as `DiscoverOnSetup` |
| `Sensor.Retry` | custom_components/unifi_unas/sensor.py:257-261 | pass k: the store becomes the next view (the k-th sleep's messages, then eviction at `now + 5 s * k`); the pass starts from empty families, raises iff its reconciliation raises, and otherwise each discovered set equals what is detected |
| `Sensor.RetryPass` | custom_components/unifi_unas/sensor.py:257-261 | one sleep and round: data and stamps are the delivered messages' writes, evicted at the pass's instant; raises iff the round raises from empty families; otherwise the discovered sets are what is detected |
| `Sensor.SetupViewsUnique` | custom_components/unifi_unas/sensor.py:248-264 | the store seen by each pass is determined by the start store, the start time and the messages of each sleep |
| `Sensor.SetupViewsSnoc` | custom_components/unifi_unas/sensor.py:257-261 | the view after one more sleep and eviction extends the run of views |
| `Sensor.TombstoneIgnored` | custom_components/unifi_unas/sensor.py:297-303 | a tombstone topic routes to its own key, and its empty payload writes nothing |
| `Sensor.BatchSizes` | custom_components/unifi_unas/sensor.py:133-219 | the batches are 9 for a drive, 11 for an NVMe slot and 4 for a pool |
| `Sensor.WithoutMembers` | custom_components/unifi_unas/sensor.py:237-238 | exclusion keeps exactly the rows not excluded |
| `Sensor.Filter` | custom_components/unifi_unas/sensor.py:237-240 | the filtering loop computes the exclusion |
| `Sensor.UnvrSystemSensors` | custom_components/unifi_unas/sensor.py:230-238 | on a UNVR the SMB, NFS and drive-version sensors are left out: 12 remain |
| `Sensor.OtherSystemSensors` | custom_components/unifi_unas/sensor.py:232-238 | on any other model the table without its last row, the protect version |
| `Sensor.SetupPlatform` | custom_components/unifi_unas/sensor.py:222-246 | records the add callback and adds the model's system sensors and the curve sensor under the entry; nothing else changes |
| `Sensor.SetupIds` | custom_components/unifi_unas/sensor.py:237-242 | one unique id per kept system sensor, then the fan-curve sensor's id |
| `SensorEntities.Lookup` | custom_components/unifi_unas/sensor.py:508-510 | `mqtt_data.get(key)`: defined iff the key is present, with its value |
| `SensorEntities.AttributesKey` | custom_components/unifi_unas/sensor.py:495-497 | the attributes key is the sensor key followed by 11 more characters |
| `SensorEntities.StoreSensor.constructor` | custom_components/unifi_unas/sensor.py:449-488 | the sensor's key and whether it reads client attributes; no value, no clients |
| `SensorEntities.StoreSensor.OnCoordinatorUpdate` | custom_components/unifi_unas/sensor.py:491-499 | the value is `mqtt_data.get(key)`; client attributes are replaced only when the sensor reads them and `{key}_attributes` is present |
| `SensorEntities.AvailableShowsValue` | custom_components/unifi_unas/sensor.py:502-509 | a sensor is available iff MQTT is available and its key has a value, which is then shown |
| `SensorEntities.UnavailableStore` | custom_components/unifi_unas/sensor.py:503-504 | an unavailable MQTT store makes every sensor unavailable |
| `SensorEntities.Param` | custom_components/unifi_unas/sensor.py:536-539 | the default when absent; a stored value counts iff it is an int, and then it is taken; a float or text is outside the model (see Left out) |
| `SensorEntities.CurveInputs` | custom_components/unifi_unas/sensor.py:534-539 | defined iff all four parameters are, and then made of them |
| `SensorEntities.DefaultInputs` | custom_components/unifi_unas/sensor.py:536-539 | with nothing stored the inputs are 43, 47, 204 and 255 |
| `SensorEntities.GenerateCurvePoints` | custom_components/unifi_unas/sensor.py:565-584 | fails iff the curve divides by zero; otherwise 31 points for 30..60 °C, each fitting the curve at its temperature |
| `SensorEntities.Summary` | custom_components/unifi_unas/sensor.py:546-548 | the state text starts with `min_temp-` and ends with the upper percentage and `%` |
| `SensorEntities.CurveAvailableAfterCleanup` | custom_components/unifi_unas/sensor.py:587-594 | eviction does not make an available curve sensor unavailable |
| `SensorEntities.AvailableUsesStore` | custom_components/unifi_unas/sensor.py:587-594 | an available curve sensor reads its four inputs from the stored integers |
| `SensorEntities.CurveSensor.constructor` | custom_components/unifi_unas/sensor.py:513-518 | no state, no attributes |
| `SensorEntities.CurveSensor.UpdateState` | custom_components/unifi_unas/sensor.py:533-563 | the state is the summary; it raises iff the curve divides by zero, keeping the attributes; otherwise the attributes hold the inputs, percentages, formula and 31 fitting points |
| `SensorEntities.DefaultCurve` | custom_components/unifi_unas/sensor.py:565-584 | with the defaults the 31 points are 80 % up to 42 °C, interpolated for 43..47 °C and 100 % from 48 °C |
| `SensorEntities.InvertedBand` | custom_components/unifi_unas/sensor.py:571-579 | with `max_temp < min_temp` nothing divides by zero and every point is clamped |
| `Switch.TaskOf` | custom_components/unifi_unas/switch.py:34 | a task iff the JSON is an object with a string `id`, holding that id and the fields |
| `Switch.Tasks` | custom_components/unifi_unas/switch.py:31-32 | readable iff the record is missing, an empty string, an empty object, or a list of task objects; a list gives its tasks in order, the rest no tasks |
| `Switch.TaskListOf` | custom_components/unifi_unas/switch.py:33-34 | a list is a task list iff every element is a task, element by element |
| `Switch.TaskIds` | custom_components/unifi_unas/switch.py:34 | exactly the ids of the listed tasks |
| `Switch.Middle` | custom_components/unifi_unas/switch.py:55 | `unique_id[len(prefix):-len(suffix)]`: when prefix and suffix fit and are present, the id is prefix + middle + suffix |
| `Switch.MiddleOfSwitchUid` | custom_components/unifi_unas/switch.py:48-55 | a switch's own unique id has the prefix and suffix, and its middle is the task id |
| `Switch.SwitchUidInjective` | custom_components/unifi_unas/switch.py:43 | distinct task ids give distinct unique ids |
| `Switch.OverlapIsOrphan` | custom_components/unifi_unas/switch.py:53-57 | an id that is overlapping prefix and suffix has an empty middle and is swept |
| `Switch.Candidates` | custom_components/unifi_unas/switch.py:50-51 | exactly the switch-domain unique ids registered for this entry |
| `Switch.RemoveSwitchesFacts` | custom_components/unifi_unas/switch.py:42-45 | the removal loop removes exactly the missing tasks' switches and no device |
| `Switch.SweepFacts` | custom_components/unifi_unas/switch.py:50-57 | the sweep removes exactly the orphans and no device |
| `Switch.NewSwitchUidsFacts` | custom_components/unifi_unas/switch.py:64-67 | the new switches are exactly those of listed tasks with new ids |
| `Switch.SweepNone` | custom_components/unifi_unas/switch.py:50-57 | a sweep with no orphans changes nothing |
| `Switch.MissingRemoved` | custom_components/unifi_unas/switch.py:39-45 | the switch of a task that disappeared is gone after the pass |
| `Switch.NoOrphansLeft` | custom_components/unifi_unas/switch.py:47-58 | no orphan of this entry survives a pass |
| `Switch.OthersKept` | custom_components/unifi_unas/switch.py:27-72 | every entry not removed or swept survives a pass, with its value or as this entry's switch |
| `Switch.SwitchKnown` | custom_components/unifi_unas/switch.py:39-71 | the discovered set after a pass lies between the known task ids and all task ids; it is all of them iff the pass does not raise or nothing was new |
| `Switch.NewCreated` | custom_components/unifi_unas/switch.py:60-71 | without a raise every new task gets its switch and its device; with one the registry is the removal and sweep only, with nothing added |
| `Switch.NamelessTaskRaises` | custom_components/unifi_unas/switch.py:64-86 | a new task without `name` makes the pass raise: its id is not recorded and nothing is added |
| `Switch.SwitchPassStable` | custom_components/unifi_unas/switch.py:27-72 | a pass over a list whose ids are already discovered, or whose new tasks cannot be built, with nothing to sweep, changes neither the registry nor the discovered set |
| `Switch.SwitchPassIdempotent` | custom_components/unifi_unas/switch.py:27-72 | a second pass over the same list changes neither the registry nor the discovered set, whether or not the first raised |
| `Switch.RemoveMissing` | custom_components/unifi_unas/switch.py:42-45 | the removal loop computes the removal |
| `Switch.SweepOrphans` | custom_components/unifi_unas/switch.py:50-58 | the orphan-sweep loop computes the sweep |
| `Switch.NewSwitches` | custom_components/unifi_unas/switch.py:64-67 | the creation loop raises iff some listed task with a new id cannot be built; otherwise it computes the new switches, in list order |
| `Switch.SwitchEffects` | custom_components/unifi_unas/switch.py:39-70 | the registry after one pass: removal, sweep, then creation; it raises iff a new task cannot be built, and then nothing is added |
| `Switch.ForgetMissing` | custom_components/unifi_unas/switch.py:39-41 | the discovered set loses the ids no longer listed; nothing else changes |
| `Switch.RecordNew` | custom_components/unifi_unas/switch.py:69-71 | the discovered set gains the new ids; nothing else changes |
| `Switch.ApplySwitchPass` | custom_components/unifi_unas/switch.py:36-72 | raises iff a new task cannot be built; the discovered set becomes the task ids, or only the known ones among them after a raise; the registry is the pass |
| `Switch.ReconcileSwitches` | custom_components/unifi_unas/switch.py:27-72 | raises iff the tasks cannot be read, without changing anything, or a new task cannot be built; otherwise the discovered set becomes the task ids |
| `Switch.FirstTask` | custom_components/unifi_unas/switch.py:75-79 | none iff no task has the id; otherwise the task at the first index with that id |
| `Switch.FindIn` | custom_components/unifi_unas/switch.py:75-79 | the search over the raw list: it raises iff an element before the first match has no `id` to index; it finds nothing iff every element is indexable and none matches; a found task is the first match, with every earlier element indexable and not matching |
| `Switch.FindInAgrees` | custom_components/unifi_unas/switch.py:75-79 | on a list of tasks, the raw search gives the first task with the id |
| `Switch.FindInTasks` | custom_components/unifi_unas/switch.py:75-79 | the same, for any element-wise reading of the list as tasks |
| `Switch.FindBackupTask` | custom_components/unifi_unas/switch.py:75-79 | the loop returns what the raw search defines, stopping at the first match |
| `Switch.FindTask` | custom_components/unifi_unas/switch.py:76 | on a readable record, the first task with the id; outside lists it raises iff the record is unreadable; a found task has the id |
| `Switch.IsOn` | custom_components/unifi_unas/switch.py:107-112 | unknown iff the search raises or the schedule is no object; off when nothing is found; otherwise the found task's schedule `enable`, which on a readable record is the first listed task's |
| `Switch.Available` | custom_components/unifi_unas/switch.py:101-105 | never without SSH; with SSH, unknown iff the search raises, and available iff it finds the task; on a readable record, iff the task is listed |
| `Switch.SetScheduleEnabled` | custom_components/unifi_unas/switch.py:120-127 | no send iff nothing is found; a raising search raises; a send is for that task, whose schedule is an object or absent |
| `Switch.MatchBeforeBadElement` | custom_components/unifi_unas/switch.py:75-79 | a list of an enabled task `a` followed by a non-object is unreadable as a whole, yet switch `a` reads on and the switch of any other id raises |
| `Switch.SentScheduleChangesOnlyEnable` | custom_components/unifi_unas/switch.py:124-126 | the schedule sent is the cached one with only `enable` changed |
| `Switch.ToggleRoundTrip` | custom_components/unifi_unas/switch.py:108-126 | once the appliance stores the sent schedule, the switch reads the state it was set to |
| `Switch.DiscoveredAvailable` | custom_components/unifi_unas/switch.py:101-112 | with SSH connected a listed task's switch is available, and its state is known iff the task has a schedule |
| `SshManager.ShellQuote` | custom_components/unifi_unas/ssh_manager.py:157 | `shlex.quote`: never empty, and the value is left bare iff it is non-empty and all safe characters |
| `SshManager.ShellWord` | custom_components/unifi_unas/ssh_manager.py:157 | the reference reader of one shell word: the word read is no longer than the text, strictly shorter when read inside quotes, and uses only characters of the text |
| `SshManager.EscapeLonger` | custom_components/unifi_unas/ssh_manager.py:157 | escaping quotes never shortens a string |
| `SshManager.BareReadsItself` | custom_components/unifi_unas/ssh_manager.py:157 | a bare safe word reads back as itself |
| `SshManager.EscapeReadsBack` | custom_components/unifi_unas/ssh_manager.py:157 | inside single quotes the escape `'"'"'` reads as one quote followed by the rest |
| `SshManager.SingleQuotedReadsBack` | custom_components/unifi_unas/ssh_manager.py:157 | a single-quoted body reads back as the original |
| `SshManager.ShellQuoteRoundTrip` | custom_components/unifi_unas/ssh_manager.py:157 | the shell reads the quoted text as one word, the original string |
| `SshManager.ShellQuoteInjective` | custom_components/unifi_unas/ssh_manager.py:157 | distinct values stay distinct once quoted |
| `SshManager.CredentialPairs` | custom_components/unifi_unas/ssh_manager.py:146-151 | four pairs keyed by the four settings, in order |
| `SshManager.ReplaceMqttCredentials` | custom_components/unifi_unas/ssh_manager.py:145-159 | the loop computes the substitution of all four settings, in order |
| `SshManager.NoPlaceholderUnchanged` | custom_components/unifi_unas/ssh_manager.py:153-157 | text without the placeholder comes out unchanged |
| `SshManager.ShellLineReadsBack` | custom_components/unifi_unas/ssh_manager.py:157 | the line starts with `KEY=`, and the shell reads exactly the configured value after it |
| `SshManager.DeployWrites` | custom_components/unifi_unas/ssh_manager.py:181-184 | four writes |
| `SshManager.NoCredentialsOnlyModel` | custom_components/unifi_unas/ssh_manager.py:175-179 | without credentials only the model line of the monitor script changes |
| `SshManager.FanScriptWithoutPlaceholder` | custom_components/unifi_unas/ssh_manager.py:177-183 | a fan script without the placeholder is deployed unchanged to `/root/fan_control.sh` |
| `SshManager.StripEmpty` | custom_components/unifi_unas/ssh_manager.py:220 | stdout strips to nothing iff it is all whitespace |
| `SshManager.ScriptsInstalledShape` | custom_components/unifi_unas/ssh_manager.py:108 | passing output is `yes` between whitespace |
| `SshManager.ScriptsInstalledPadded` | custom_components/unifi_unas/ssh_manager.py:108 | every output of `yes` between whitespace passes |
| `SshManager.ServiceRunningShape` | custom_components/unifi_unas/ssh_manager.py:117 | passing output is `active` between whitespace |
| `SshManager.ServiceRunningPadded` | custom_components/unifi_unas/ssh_manager.py:115-117 | every such output passes, and the fallback `inactive` does not |
| `SshManager.BackupApiResult` | custom_components/unifi_unas/ssh_manager.py:219-227 | a blank or non-JSON reply degrades to `{}`; otherwise the parsed JSON |
| `SshManager.FirstExisting` | custom_components/unifi_unas/ssh_manager.py:67-71 | the first existing key path, or none iff none exists |
| `SshManager.ClientKeys` | custom_components/unifi_unas/ssh_manager.py:63-71 | an explicit key wins; with a password no keys; otherwise one existing default path, or none iff none exists |
| `SshManager.ConnectOps` | custom_components/unifi_unas/ssh_manager.py:43-84 | a handle that answers the probe is only probed; otherwise at most three steps, ending in a new handle iff one can be opened |
| `SshManager.ServiceCommandQuotesName` | custom_components/unifi_unas/ssh_manager.py:113-115 | the command is `systemctl is-active ` followed by the quoted name, which reads back as the name |
| `SshManager.PatchSendsPayload` | custom_components/unifi_unas/ssh_manager.py:230-238 | the command ends with `-d` and the quoted payload, which reads back as the payload |
| `SshManager.Session.constructor` | custom_components/unifi_unas/ssh_manager.py:21-41 | the settings stored; no handle; no handles opened; empty log |
| `SshManager.Session.Connect` | custom_components/unifi_unas/ssh_manager.py:43-84 | succeeds iff the handle is reused or a new one opens; the log gains exactly the connect steps and no write or command |
| `SshManager.Session.DropStale` | custom_components/unifi_unas/ssh_manager.py:45-59 | a handle that answers the probe is kept; otherwise it is closed and set to none |
| `SshManager.Session.OpenNew` | custom_components/unifi_unas/ssh_manager.py:61-83 | opens a new handle with the chosen keys iff opening can succeed |
| `SshManager.Session.Disconnect` | custom_components/unifi_unas/ssh_manager.py:86-91 | closes and drops the handle, if any |
| `SshManager.Session.ExecuteCommand` | custom_components/unifi_unas/ssh_manager.py:93-99 | output iff a handle is reused or opened and the command gets through (a `conn.run` that raises gives none); then the command ran on it and its output is returned |
| `SshManager.Session.UploadFile` | custom_components/unifi_unas/ssh_manager.py:201-211 | no handle fails without logging; success writes the file and, when executable, runs `chmod +x` on the quoted path |
| `SshManager.Session.ScriptsInstalled` | custom_components/unifi_unas/ssh_manager.py:101-110 | an answer iff a handle is available and its command gets through, and then true iff the trimmed output is `yes` |
| `SshManager.Session.ServiceRunning` | custom_components/unifi_unas/ssh_manager.py:112-119 | an answer iff a handle is available and its command gets through, and then true iff the trimmed output is `active` |
| `SshManager.Session.KickNativeFanControl` | custom_components/unifi_unas/ssh_manager.py:121-143 | an answer iff a handle is available and its command gets through, and then true iff the output contains `kicked` |
| `SshManager.Session.ExecuteBackupApi` | custom_components/unifi_unas/ssh_manager.py:213-227 | an answer iff a handle is available and its command gets through: the parsed reply, or `{}` |
| `SshManager.Session.UpdateBackupTask` | custom_components/unifi_unas/ssh_manager.py:229-246 | an answer iff a handle is available and its command gets through: the parsed reply to the PATCH, or `{}` |
| `SshManager.Session.UploadPair` | custom_components/unifi_unas/ssh_manager.py:181-182 | a script and its unit; the writes are a prefix of the two, and on success the script is made executable |
| `SshManager.Session.UploadAll` | custom_components/unifi_unas/ssh_manager.py:181-184 | the writes are a prefix of the four uploads, all four on success, with the chmods |
| `SshManager.Session.RunSetup` | custom_components/unifi_unas/ssh_manager.py:186-193 | no writes; on success the seven setup commands ran, in order |
| `SshManager.Session.InstallDependencies` | custom_components/unifi_unas/ssh_manager.py:186-187 | on success the two package installs ran |
| `SshManager.Session.RestartServices` | custom_components/unifi_unas/ssh_manager.py:189-193 | on success the five `systemctl` commands ran after the installs |
| `SshManager.Session.RunStep` | custom_components/unifi_unas/ssh_manager.py:186-193 | on success the next setup command ran |
| `SshManager.Session.DeployScripts` | custom_components/unifi_unas/ssh_manager.py:161-199 | no connection fails with only the connect steps; the writes are a prefix of the substituted templates; on success all four, the chmods and the seven setup commands |
| `Init.Migrate` | custom_components/unifi_unas/__init__.py:49-59 | version 1 becomes version 2 with the old keys kept and the model added, the default when absent; other versions are unchanged |
| `Init.MigrateIdempotent` | custom_components/unifi_unas/__init__.py:49-59 | migrating twice is migrating once |
| `Init.DeviceModelOf` | custom_components/unifi_unas/__init__.py:172 | `entry.data[CONF_DEVICE_MODEL]`: defined iff the key holds a string |
| `Init.MigratedHasModel` | custom_components/unifi_unas/__init__.py:49-59 | after migrating version 1 the model can be read, the default when it was absent |
| `Init.StoredVersion` | custom_components/unifi_unas/__init__.py:168 | defined iff the key holds a string |
| `Init.VersionAtLeast` | custom_components/unifi_unas/__init__.py:62-68 | false without a stored version; otherwise the comparison with `-dev` stripped, and string equality on an invalid version |
| `Init.VersionAtLeastSelf` | custom_components/unifi_unas/__init__.py:62-68 | for a reflexive comparison a recorded version is at least itself |
| `Init.DevBuildComparesAsRelease` | custom_components/unifi_unas/__init__.py:66 | versions equal after stripping `-dev` compare alike |
| `Init.ShouldRedeploy` | custom_components/unifi_unas/__init__.py:168-173 | setup skips the redeploy exactly when the recorded deploy is the current version, the scripts are installed and the version is not a `-dev` build |
| `Init.RedeployAfterDeploy` | custom_components/unifi_unas/__init__.py:168-178 | after deploying a version with scripts in place, a redeploy is due iff the version contains `-dev` |
| `Init.RedeployWhenUnknown` | custom_components/unifi_unas/__init__.py:173 | nothing recorded or missing scripts always redeploys |
| `Init.SetupDeploy` | custom_components/unifi_unas/__init__.py:161-178 | on success the redeploy happens iff the predicate holds, and then records the current version; on failure the entry is unchanged |
| `Init.DeployIfDue` | custom_components/unifi_unas/__init__.py:173-177 | after the scripts check: redeploys iff the redeploy predicate holds, and a redeploy records the current version; a failed redeploy leaves the entry unchanged |
| `Init.MonitorIntervalMessage` | custom_components/unifi_unas/__init__.py:197-205 | a message iff the interval is absent or an int: on `control/monitor_interval`, the default or stored interval as text |
| `Init.PoolTopics` | custom_components/unifi_unas/__init__.py:106-112 | four names per pool |
| `Init.HddTopics` | custom_components/unifi_unas/__init__.py:114-128 | nine names per bay |
| `Init.PoolsLayout` | custom_components/unifi_unas/__init__.py:106-112 | 4·n names, pool by pool |
| `Init.HddsLayout` | custom_components/unifi_unas/__init__.py:114-128 | 9·n names, bay by bay |
| `Init.CleanupLayout` | custom_components/unifi_unas/__init__.py:92-128 | 93 names: the 10 system names, then 4 per pool for 5 pools, then 9 per bay for 7 bays |
| `Init.CleanupTopics` | custom_components/unifi_unas/__init__.py:92-128 | the loops build that list |
| `Init.CountOk` | custom_components/unifi_unas/__init__.py:130-144 | at most n successes |
| `Init.ClearedCount` | custom_components/unifi_unas/__init__.py:130-144 | one effect per successful publish, each an empty retained message |
| `Init.AllCleared` | custom_components/unifi_unas/__init__.py:130-144 | with every publish succeeding all are counted |
| `Init.CleanupOnUpgrade` | custom_components/unifi_unas/__init__.py:71-148 | skipped when the recorded cleanup version is at least the current one; otherwise clears the topics, leaves entities and devices alone and records the version |
| `Init.ClearTopics` | custom_components/unifi_unas/__init__.py:130-144 | the publish loop: the effects of the successful publishes and their count |
| `Init.CleanupOnce` | custom_components/unifi_unas/__init__.py:146-148 | after recording, the next cleanup is skipped |
| `Init.BackupTasksOf` | custom_components/unifi_unas/__init__.py:312-317 | a truthy `data` is returned, otherwise `[]` |
| `Init.EmptyReplyNoTasks` | custom_components/unifi_unas/__init__.py:312-320 | a blank or unparsable reply gives no tasks |
| `Init.FlagsFrom` | custom_components/unifi_unas/__init__.py:294-310 | the record says connected, and each flag is true iff its probe printed `yes` (scripts) or `active` (services), up to surrounding white space |
| `Init.ProbeStatus` | custom_components/unifi_unas/__init__.py:285-310 | connected iff a handle is reused or opened and every probe gets through (the scripts check, the model read and redeploy when scripts are missing, both service checks); then the flags are the check results; otherwise all false |
| `Init.FetchTasks` | custom_components/unifi_unas/__init__.py:312-320 | the tasks of the GET reply when a handle is available and the command gets through; `[]` otherwise, as the inner handler gives |
| `Init.ProbeDevice` | custom_components/unifi_unas/__init__.py:285-320 | the status record with the telemetry; connected iff a handle is available and every probe gets through, and then the flags are the check results and the tasks are fetched; otherwise all flags false and no tasks |
| `Init.SwitchModuleLoads` | custom_components/unifi_unas/switch.py:13 | false: the switch module imports `format_remote_type`, which the constants module (const.py:3-66) does not define |
| `Init.DiscoveryImportFails` | custom_components/unifi_unas/__init__.py:322-340 | an armed block raises on its import: the sensor and button blocks name a helper their module does not define (sensor.py:269-389 defines three of the four, button.py none), and the switch block imports from a module that does not load; so the cycle fails there iff some block is armed |
| `Init.DiscoverFromCycle` | custom_components/unifi_unas/__init__.py:320-343 | the handler is reached iff some block is armed, and the coordinator is left as it was |
| `Init.Refresh` | custom_components/unifi_unas/__init__.py:272-345 | fails iff MQTT is not loaded, without touching the store or SSH; otherwise the record holds the evicted telemetry, is connected iff a handle is available and every probe gets through, and then holds the check results and the fetched tasks; the store then holds exactly that telemetry with the matching stamps; in both cases the store's status, pending refresh, subscriptions and counters, the known families, the registry and the platform callbacks stay |
| `Init.Poll` | custom_components/unifi_unas/__init__.py:285-345 | a cycle once MQTT is loaded: the stored record is the returned one, holds the evicted telemetry, is connected iff a handle is available and every probe gets through (then with the check results and the fetched tasks, otherwise all flags false); the store holds exactly the evicted telemetry and the stamps of the keys kept, its status, pending refresh, subscriptions and counters stay; the known families, the registry and the platform callbacks stay |
| `Init.Gather` | custom_components/unifi_unas/__init__.py:285-319 | the store and SSH half of a cycle: the stale telemetry is evicted from data and stamps and handed to the probe, the store's other state stays, and the probe results are as in `Init.Poll` |
| `Monitor.EveryModelHasBays` | custom_components/unifi_unas/scripts/unas_monitor.py:37-84 | a model has a bay table iff it is one of the integration's models |
| `Monitor.BayMappingsInjective` | custom_components/unifi_unas/scripts/unas_monitor.py:37-82 | no two ATA ports share a bay |
| `Monitor.BayOf` | custom_components/unifi_unas/scripts/unas_monitor.py:325-328 | a bay found is in the table; none iff no segment is a known `ata<N>` port |
| `Monitor.BayOfFirst` | custom_components/unifi_unas/scripts/unas_monitor.py:325-328 | the bay comes from the first known port |
| `Monitor.CacheStep` | custom_components/unifi_unas/scripts/unas_monitor.py:319-331 | caching a lookup in a cache of correct answers keeps every answer correct |
| `Monitor.Scan` | custom_components/unifi_unas/scripts/unas_monitor.py:344-413 | at most one drive per device, each with a bay |
| `Monitor.ScanNext` | custom_components/unifi_unas/scripts/unas_monitor.py:344-413 | one device more: a drive is added iff it has a bay and SMART data |
| `Monitor.LastBay` | custom_components/unifi_unas/scripts/unas_monitor.py:413 | defined iff the serial was listed |
| `Monitor.ScanFacts` | custom_components/unifi_unas/scripts/unas_monitor.py:344-413 | the serial map holds a serial iff it was listed, with its last bay |
| `Monitor.StampedPointwise` | custom_components/unifi_unas/scripts/unas_monitor.py:422-427 | a map of the old stamps plus `(now, bay)` for the newly missing is the stamping |
| `Monitor.GraceFacts` | custom_components/unifi_unas/scripts/unas_monitor.py:422-440 | only missing serials are kept; a newly missing serial is stamped now; a stamp is kept within 60 s and dropped after |
| `Monitor.Stamped` | custom_components/unifi_unas/scripts/unas_monitor.py:422-428 | the stamps gain exactly the serials that disappeared, each newly stamped now with its old bay; existing stamps are kept as they were |
| `Monitor.Expired` | custom_components/unifi_unas/scripts/unas_monitor.py:430-438 | a stamp survives iff its serial is still missing and at most 60 s old, unchanged |
| `Monitor.GraceAfter` | custom_components/unifi_unas/scripts/unas_monitor.py:422-438 | every stamp left is of a missing serial, at most 60 s old, and either kept as it was or newly stamped now with its old bay |
| `Monitor.StampAge` | custom_components/unifi_unas/scripts/unas_monitor.py:430-438 | every kept stamp is at most 60 s old, and an old stamp is kept unchanged |
| `Monitor.StampLoop` | custom_components/unifi_unas/scripts/unas_monitor.py:422-427 | the stamping loop computes the stamping |
| `Monitor.ExpiredPointwise` | custom_components/unifi_unas/scripts/unas_monitor.py:430-438 | a map of the stamps still missing and within 60 s is the expiry |
| `Monitor.ExpireLoop` | custom_components/unifi_unas/scripts/unas_monitor.py:430-438 | the expiry loop computes the expiry |
| `Monitor.InsertDescOrder` | custom_components/unifi_unas/scripts/unas_monitor.py:175 | insertion into a descending list keeps it descending, one longer, with the larger head |
| `Monitor.InsertDescPerm` | custom_components/unifi_unas/scripts/unas_monitor.py:175 | insertion is a permutation |
| `Monitor.SortDescFacts` | custom_components/unifi_unas/scripts/unas_monitor.py:175 | `sorted(reverse=True)` is descending and a permutation |
| `Monitor.IntStrings` | custom_components/unifi_unas/scripts/unas_monitor.py:175 | `str(t)` for each temperature |
| `Monitor.PositiveIndices` | custom_components/unifi_unas/scripts/unas_monitor.py:441 | strictly ascending positions of the list, holding exactly the drives with a positive temperature |
| `Monitor.PositiveTemps` | custom_components/unifi_unas/scripts/unas_monitor.py:441 | no longer than the list, all positive, and empty iff no drive reports a positive temperature |
| `Monitor.PositiveTempsInOrder` | custom_components/unifi_unas/scripts/unas_monitor.py:441 | the filtered list is the temperatures of the drives at `PositiveIndices`, in that order |
| `Monitor.HddTemps` | custom_components/unifi_unas/scripts/unas_monitor.py:441-442 | never empty and never negative; `[0]` exactly when no drive reports a positive temperature, the positive temperatures otherwise |
| `Monitor.NoTemperatures` | custom_components/unifi_unas/scripts/unas_monitor.py:441-442 | with no temperature the file gets `0` |
| `Monitor.TempStringHottestFirst` | custom_components/unifi_unas/scripts/unas_monitor.py:173-182 | the file is the temperatures sorted descending, as a permutation, joined by spaces |
| `Monitor.IntervalOf` | custom_components/unifi_unas/scripts/unas_monitor.py:137-152 | accepted iff `int(float(payload))` is defined and within 5..60, and then it is that value |
| `Monitor.AcceptsConfiguredInterval` | custom_components/unifi_unas/scripts/unas_monitor.py:140-141 | every interval the integration allows is accepted as is |
| `Monitor.UnasMonitor.constructor` | custom_components/unifi_unas/scripts/unas_monitor.py:85-118 | the model's table and interval topic; the default interval; no files written; empty bookkeeping |
| `Monitor.UnasMonitor.OnMessage` | custom_components/unifi_unas/scripts/unas_monitor.py:137-152 | an accepted interval on the interval topic is taken and written to the file; otherwise nothing changes; the drive state never changes |
| `Monitor.UnasMonitor.Start` | custom_components/unifi_unas/scripts/unas_monitor.py:663-669 | the current interval is written to the file |
| `Monitor.UnasMonitor.GetBayNumber` | custom_components/unifi_unas/scripts/unas_monitor.py:319-331 | the answer is the cached one or the lookup, and it is cached, even as none |
| `Monitor.UnasMonitor.NoteDevices` | custom_components/unifi_unas/scripts/unas_monitor.py:334-338 | the known devices become the current set, and a change clears the cache |
| `Monitor.UnasMonitor.ScanDevices` | custom_components/unifi_unas/scripts/unas_monitor.py:344-413 | the scan over the cache; afterwards every device is cached with a correct answer |
| `Monitor.UnasMonitor.StampRemoved` | custom_components/unifi_unas/scripts/unas_monitor.py:422-427 | the first grace loop computes the stamping |
| `Monitor.UnasMonitor.ExpireStamps` | custom_components/unifi_unas/scripts/unas_monitor.py:430-438 | the second grace loop computes the expiry |
| `Monitor.UnasMonitor.GetDrives` | custom_components/unifi_unas/scripts/unas_monitor.py:333-443 | the known devices, the scan, the grace stamps and the temperature file after one call; the previous map is replaced by the current one |
| `Monitor.RStripChar` | custom_components/unifi_unas/scripts/unas_monitor.py:507 | `rstrip(c)`: a prefix that does not end in `c`, and everything removed was `c` |
| `Monitor.VolumeOf` | custom_components/unifi_unas/scripts/unas_monitor.py:500-518 | a kept volume is larger than 75 GB |
| `Monitor.VolumesOf` | custom_components/unifi_unas/scripts/unas_monitor.py:496-500 | one result per directory; non-directories are skipped |
| `Monitor.PoolsOf` | custom_components/unifi_unas/scripts/unas_monitor.py:492-521 | pools numbered 1, 2, …, at most one per volume |
| `Monitor.PoolsStep` | custom_components/unifi_unas/scripts/unas_monitor.py:496-520 | one volume more |
| `Monitor.PoolsFailIff` | custom_components/unifi_unas/scripts/unas_monitor.py:507 | the call raises iff some volume raised |
| `Monitor.PoolsCount` | custom_components/unifi_unas/scripts/unas_monitor.py:509-520 | one pool per kept volume |
| `Monitor.PoolsLarge` | custom_components/unifi_unas/scripts/unas_monitor.py:509-510 | when every kept volume is larger than 75 GB, so is every pool |
| `Monitor.ReportedPoolsLarge` | custom_components/unifi_unas/scripts/unas_monitor.py:492-521 | every reported pool is larger than 75 GB |
| `Monitor.GetPools` | custom_components/unifi_unas/scripts/unas_monitor.py:492-521 | the pools of the directories in sorted order |
| `Monitor.ScanVolumes` | custom_components/unifi_unas/scripts/unas_monitor.py:496-520 | the loop over the directories computes the pools |
| `Monitor.CollectPools` | custom_components/unifi_unas/scripts/unas_monitor.py:496-520 | the loop body's pool numbering computes the pools |
| `Monitor.FailureSticks` | custom_components/unifi_unas/scripts/unas_monitor.py:507 | once a volume raised, the whole call raises |
| `Monitor.OutputLines` | custom_components/unifi_unas/scripts/unas_monitor.py:525 | `output.strip().split("\n")`: at least one line |
| `Monitor.OpenHasTwoPieces` | custom_components/unifi_unas/scripts/unas_monitor.py:538 | a machine column with `(` splits into at least two pieces, as the address extraction needs |
| `Monitor.SessionRow` | custom_components/unifi_unas/scripts/unas_monitor.py:529-544 | a session row is not filler, has at least six fields and is keyed by its first, the pid |
| `Monitor.LatestStep` | custom_components/unifi_unas/scripts/unas_monitor.py:528-544 | one row more |
| `Monitor.LatestPresent` | custom_components/unifi_unas/scripts/unas_monitor.py:528-544 | a pid is present iff some row carries it |
| `Monitor.LatestLast` | custom_components/unifi_unas/scripts/unas_monitor.py:528-544 | a pid's entry comes from its last row |
| `Monitor.SessionRows` | custom_components/unifi_unas/scripts/unas_monitor.py:528-544 | one entry per line |
| `Monitor.GetSmbConnections` | custom_components/unifi_unas/scripts/unas_monitor.py:523-545 | the loop computes the latest session per pid over the rows after three header lines |
| `Monitor.ShareRow` | custom_components/unifi_unas/scripts/unas_monitor.py:553-565 | a share row is not filler, has at least three fields, and takes the first three |
| `Monitor.Shares` | custom_components/unifi_unas/scripts/unas_monitor.py:552-565 | at most one share per row |
| `Monitor.GetSmbShares` | custom_components/unifi_unas/scripts/unas_monitor.py:547-566 | the loop computes the shares after two header lines |
| `Monitor.SharesStep` | custom_components/unifi_unas/scripts/unas_monitor.py:552-565 | one line more |
| `Monitor.SmbClients` | custom_components/unifi_unas/scripts/unas_monitor.py:625-636 | one client per share row, with its address and share; the username comes from the pid, `unknown` by default |
| `Monitor.MountRow` | custom_components/unifi_unas/scripts/unas_monitor.py:574-593 | a mount row splits into exactly two `:` fields and is not blank; the address and the share of the path |
| `Monitor.Mounts` | custom_components/unifi_unas/scripts/unas_monitor.py:572-593 | at most one mount per row |
| `Monitor.GetNfsMounts` | custom_components/unifi_unas/scripts/unas_monitor.py:568-595 | the loop computes the mounts after the header line |
| `Monitor.MountsStep` | custom_components/unifi_unas/scripts/unas_monitor.py:572-593 | one line more |
| `Monitor.LineFields` | custom_components/unifi_unas/scripts/unas_monitor.py:577 | `ip:path` splits into its two fields |
| `Monitor.ShareUnderDriveRoot` | custom_components/unifi_unas/scripts/unas_monitor.py:584-586 | the share is the first component under the drive root |
| `Monitor.MountOfDriveShare` | custom_components/unifi_unas/scripts/unas_monitor.py:568-595 | a mount of a drive share reports that share |
| `Monitor.MountOutsideDrive` | custom_components/unifi_unas/scripts/unas_monitor.py:584-588 | a mount outside the drive root reports `unknown` |
| `Text.Split` | custom_components/unifi_unas/mqtt_client.py:105 | `str.split(sep)`: always at least one piece |
| `Text.SplitPiecesFree` | custom_components/unifi_unas/mqtt_client.py:105 | no piece holds the separator |
| `Text.JoinSplit` | custom_components/unifi_unas/mqtt_client.py:105 | `sep.join(s.split(sep)) == s` |
| `Text.ReplaceIsJoinOfSplit` | custom_components/unifi_unas/ssh_manager.py:155-157 | `str.replace` is split then join |
| `Text.ReplaceAbsent` | custom_components/unifi_unas/ssh_manager.py:155-157 | replacing an absent pattern changes nothing |
| `Text.Strip` | custom_components/unifi_unas/ssh_manager.py:108 | `str.strip()`: never longer, and neither end is whitespace |
| `Text.StripSplits` | custom_components/unifi_unas/ssh_manager.py:108 | the text is whitespace, the stripped text, then whitespace |
| `Text.SplitWs` | custom_components/unifi_unas/scripts/unas_monitor.py:506 | `str.split()`: every piece is a whitespace-free word |
| `Text.ParseInt` | custom_components/unifi_unas/mqtt_client.py:182-183 | `int()` accepts only non-empty text without `.` |
| `Text.IntRoundTrip` | custom_components/unifi_unas/select.py:156 | `int(str(n)) == n` |
| `Text.IntToString` | custom_components/unifi_unas/select.py:156 | `str(n)` is non-empty, has no `.`, and is all digits iff `n >= 0` |
| `Text.TruncFloatOfInt` | custom_components/unifi_unas/number.py:227 | `int(float(str(n))) == n` for every integer a double holds exactly, magnitude at most 2^53 |
| `Text.SortedUnique` | custom_components/unifi_unas/sensor.py:316 | a strictly ascending listing of a set is its sorted order |
| `Text.SortStrings` | custom_components/unifi_unas/sensor.py:316 | the loop computes `sorted()` of a set of strings |
| `Text.Rejoin` | custom_components/unifi_unas/sensor.py:280-283 | subtracting the missing ids and adding the new ones gives the detected set |

## Left out

- Home Assistant framework surface. This covers entity base classes, icons, units, `async_write_ha_state`, platform forwarding and the restore-state plumbing. Registry changes, MQTT publishes and entity creations are modelled only as effects appended to a log.
- Concurrency. asyncio, `asyncio.Lock`, `call_later` and `async_create_task` are not modelled. The debounce is a pending-timer field with an explicit `Tick`. The lock is assumed to serialise each manager call.
- Transports. asyncssh, SFTP, aiofiles, paho-mqtt, `subprocess`, `smartctl`, `udevadm` and file reads become parameters. A command's output is a function of the command text. Whether an SSH command, an upload or a publish gets through is a parameter. Where the source guards the call, the model takes the guarded branch. Where it does not, the model propagates the raise as a `raised` or `None` result. That covers `conn.run` in `execute_command` and its callers, and the tombstone publishes in the three sensor reconcilers.
- The setup's `monitor_interval` publish (`__init__.py:199-205`). It is the last step of `async_setup_entry`. `Init.MonitorIntervalMessage` gives the message it sends, and a raise there is not modelled.
- `json.loads`, `json.dumps` and `packaging.Version`. These are oracle parameters. The serialised PATCH body is a string parameter.
- Floating point. A float payload is kept as a tag holding its raw text. `int(float(s))` is modelled only on decimal literals, with an optional exponent. `inf`, `nan` and hexadecimal floats are treated as unparsable. Float rounding in `round(v·255/100)` for a non-integer `v` is not modelled.
- Rounding to a double. Python's `float()` rounds a decimal literal to the nearest double; `Text.TruncFloat`, `Monitor.IntervalOf`, `Number.CurveValueOf` and `Number.RatioOf` work on the exact decimal instead. So `60.99999999999999999`, which Python reads as 61.0 and rejects as an interval, is accepted as 60, and a float payload `47.000000000000001` lies above a minimum of 47 where Python finds the two equal. `Text.TruncFloatOfInt` is stated only for magnitudes up to 2^53, where a double holds every integer.
- SpeedText: a float speed is published as the text it arrived as (`127.50`), where Python's `str()` of the float prints the shortest text that reads back the same double (`127.5`).
- SensorEntities.Param, SensorEntities.CurveInputs and SensorEntities.CurveSensor.UpdateState: curve parameters that are not integers. `Param` is `None` for a stored float or text, and `UpdateState` takes integer parameters only, so the model says nothing about the visualisation in those cases. In Python a float parameter draws the curve with float arithmetic and prints the float in the summary; neither is modelled. A text fan parameter raises `TypeError` at `min_fan * 100 / 255`, before the summary is set (sensor.py:540-541). A text temperature raises at the first comparison of the sampling loop, after the summary is set (sensor.py:573).
- The interpolated points of the fan curve. The model states only which points lie below `min_temp` and which above `max_temp`; no value is given for the band in between.
- The CPU, memory, disk-throughput and TB-size figures in `unas_monitor.py`, and its `smartctl` JSON field extraction. A drive is reduced to its serial, bay and temperature.
- `get_nvme_drives`. Its NVMe scan has no bay lookup or grace period of its own.
- Python set iteration order. CPython's order for a set of strings depends on string hashing and is unspecified, so the loops over sets are modelled in ascending string order. The registry's entity and device sets and the discovered sets after a full pass do not depend on that order. The order of the effect log does, as does which ids a raising tombstone publish leaves unretired: those are stated for ascending order only.
- Python `int()`. Only an optional sign followed by ASCII digits is accepted. The surrounding whitespace and underscores that Python also accepts are not modelled.
- `str.isdigit()`, and `\d` in the pool-key pattern of `Sensor.PoolIdOf` (sensor.py:397-401). In a Python 3 text pattern `\d` matches any Unicode decimal digit, and `isdigit()` accepts other Unicode digits too. Only ASCII digits are modelled.
- Init.StoredVersion: a `last_cleanup_version` that is present but not a string is read as absent, where `_version_at_least` would raise `AttributeError` at `stored.replace` (__init__.py:66). The integration itself only ever writes a version string there (__init__.py:147).
- Switch.Tasks: task ids that are not strings. The reconciler's reading of the list takes a task with an integer `id` as unreadable, where Python would hold the integer in its id set. The entity-side search (`Switch.FindIn`) does compare such an id and passes over it.
- The switch platform as a running platform. switch.py imports `format_remote_type` from the constants module, which does not define it (`Init.SwitchModuleLoads`). So the switch module never loads: its platform setup never arms the switch block, and the poll cycle's import of `_discover_and_add_backup_switches` would raise. The `Switch` module models the switch code as written, as if that name resolved; the backup device's manufacturer and model fields, which use it, are not modelled.
- `_discover_and_add_backup_sensors` and `_discover_and_add_backup_buttons`. They are not part of this model. The poll cycle imports `_discover_and_add_backup_sensors` once the sensor platform is set up. That import raises, and the cycle's handler absorbs the error. The button and switch blocks raise on their imports in the same way. `Init.DiscoverFromCycle` models exactly this.
- The time a drive or NVMe sensor's constructor reads the store. It calls `get_data()` again; the model takes that read at the pass's own instant, so it sees the pass's snapshot.
- Removing the remote files on unload (`async_unload_entry`). Its only effects are shell commands and their I/O.
- `async_reinstall_scripts`. It is a deploy followed by a refresh request, both modelled separately.
- The curl and kick command texts and the backup API header values. They appear as fixed strings, and no property is stated about them.
- config_flow.py, binary_sensor.py and button.py. config_flow.py holds UI and live probing; binary_sensor.py and button.py only read coordinator flags.
- MQTT's `homeassistant/sensor/.../config` discovery payload format. The cleanup only publishes empty retained messages to those topics.
- Time. It is an integer parameter in microseconds everywhere, including the monitor's `time.time()`; clock reads are not modelled.
