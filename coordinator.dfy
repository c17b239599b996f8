/**
 * `UNASDataUpdateCoordinator` as the discovery code sees it: the sets of
 * discovered resources, the last poll result, and the parts of Home
 * Assistant the reconcilers change (the entity and device registries,
 * MQTT publishes, entity additions), the latter recorded as effects.
 */
module Coordinator {
  import opened Text
  import opened Json
  import opened MqttClient
  import Const

  /** An entity-registry entry of this integration: its platform domain and unique id. */
  datatype EntityKey = EntityKey(domain: string, uniqueId: string)

  /** What a reconciler did, in order. */
  datatype Effect =
    | RemovedEntity(key: EntityKey)
    | RemovedDevice(id: string)
    | Published(topic: string, payload: string, retain: bool)
    | AddedEntities(domain: string, uniqueIds: seq<string>)

  /** The registries and the effect log, as one value the reconcilers thread through. */
  datatype Registry = Registry(entities: map<EntityKey, string>, devices: set<string>, effects: seq<Effect>)

  /**
   * The record a poll cycle returns: the four status flags, the MQTT
   * snapshot, and the backup tasks when the cycle got as far as fetching
   * them.
   */
  datatype CycleData = CycleData(
    scriptsInstalled: bool,
    sshConnected: bool,
    monitorRunning: bool,
    fanControlRunning: bool,
    mqttData: map<string, Value>,
    backupTasks: Option<Json>)

  /** The record before the first poll: every flag false, nothing known. */
  const InitialData := CycleData(false, false, false, false, map[], None)

  class Coordinator {
    const entryId: string
    const root: string
    var bays: set<string>
    var nvmes: set<string>
    var pools: set<string>
    var switches: set<string>
    /** The entity registry: each entry with the config entry it belongs to. */
    var entities: map<EntityKey, string>
    /** Device-registry identifiers. */
    var devices: set<string>
    var effects: seq<Effect>
    var data: CycleData
    /** Whether the sensor, button and switch platforms registered their add-entities callbacks. */
    var sensorAdd: bool
    var buttonAdd: bool
    var switchAdd: bool

    constructor (entry: string)
      ensures entryId == entry && root == Const.MqttRoot(entry)
      ensures bays == {} && nvmes == {} && pools == {} && switches == {}
      ensures entities == map[] && devices == {} && effects == []
      ensures data == InitialData && !sensorAdd && !buttonAdd && !switchAdd
    {
      entryId := entry;
      root := Const.MqttRoot(entry);
      bays, nvmes, pools, switches := {}, {}, {}, {};
      entities := map[];
      devices := {};
      effects := [];
      data := InitialData;
      sensorAdd, buttonAdd, switchAdd := false, false, false;
    }

    function Reg(): Registry
      reads this
    {
      Registry(entities, devices, effects)
    }

    method SetReg(r: Registry)
      modifies this
      ensures Reg() == r
      ensures bays == old(bays) && nvmes == old(nvmes) && pools == old(pools) && switches == old(switches)
      ensures data == old(data) && sensorAdd == old(sensorAdd) && buttonAdd == old(buttonAdd) && switchAdd == old(switchAdd)
    {
      entities, devices, effects := r.entities, r.devices, r.effects;
    }
  }

  /** Removing a registry entry if it is there, recording the removal. */
  function RemoveEntity(r: Registry, k: EntityKey): (r': Registry)
    ensures k !in r'.entities && r'.entities == r.entities - {k} && r'.devices == r.devices
    ensures r'.effects == r.effects + (if k in r.entities then [RemovedEntity(k)] else [])
  {
    if k in r.entities then r.(entities := r.entities - {k}, effects := r.effects + [RemovedEntity(k)]) else r
  }

  /** Removing a device if it is there, recording the removal. */
  function RemoveDevice(r: Registry, d: string): (r': Registry)
    ensures d !in r'.devices && r'.devices == r.devices - {d} && r'.entities == r.entities
    ensures r'.effects == r.effects + (if d in r.devices then [RemovedDevice(d)] else [])
  {
    if d in r.devices then r.(devices := r.devices - {d}, effects := r.effects + [RemovedDevice(d)]) else r
  }

  function Publish(r: Registry, topic: string, payload: string): (r': Registry)
    ensures r'.entities == r.entities && r'.devices == r.devices
    ensures r'.effects == r.effects + [Published(topic, payload, true)]
  {
    r.(effects := r.effects + [Published(topic, payload, true)])
  }

  /**
   * Adding entities: Home Assistant records each in the registry under
   * this config entry, and their devices in the device registry.
   */
  function AddEntities(r: Registry, domain: string, entryId: string, uids: seq<string>, devs: set<string>): (r': Registry)
    ensures forall u :: u in uids ==> EntityKey(domain, u) in r'.entities && r'.entities[EntityKey(domain, u)] == entryId
    ensures forall k :: k in r.entities && !(k.domain == domain && k.uniqueId in uids) ==>
      k in r'.entities && r'.entities[k] == r.entities[k]
    ensures r'.entities.Keys == r.entities.Keys + set u | u in uids :: EntityKey(domain, u)
    ensures r'.devices == r.devices + devs
    ensures r'.effects == r.effects + [AddedEntities(domain, uids)]
  {
    var keys := set u | u in uids :: EntityKey(domain, u);
    var added := map k | k in keys :: entryId;
    Registry(r.entities + added, r.devices + devs, r.effects + [AddedEntities(domain, uids)])
  }
}
