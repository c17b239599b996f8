/**
 * The sensor platform of `sensor.py`: the fixed system sensors, and the
 * per-resource sensors for drive bays, NVMe slots and storage pools that
 * are discovered from the keys of the MQTT store. A reconciler pass
 * retires the resources whose keys disappeared (registry removal, an
 * empty retained publish per metric, device removal) and creates one
 * fixed batch of sensors per new resource, so that afterwards the
 * discovered set is the detected set.
 */
module Sensor {
  import opened Text
  import opened MqttClient
  import opened Coordinator
  import Pwm

  /** The three kinds of discovered resources. */
  datatype Family = Drive | Nvme | Pool

  /** The metrics of each family's per-resource sensors (`DRIVE_SENSORS`, `NVME_SENSORS`, `STORAGE_POOL_SENSORS`). */
  function Suffixes(f: Family): (r: seq<string>)
    ensures |r| > 0
  {
    match f
    case Drive => ["temperature", "model", "serial", "rpm", "firmware", "status", "total_size", "power_on_hours", "bad_sectors"]
    case Nvme => ["temperature", "model", "serial", "firmware", "status", "total_size", "power_on_hours",
                  "percentage_used", "available_spare", "media_errors", "unsafe_shutdowns"]
    case Pool => ["usage", "size", "used", "available"]
  }

  /** The topic level of a family below the MQTT root. */
  function Category(f: Family): string {
    match f
    case Drive => "hdd"
    case Nvme => "nvme"
    case Pool => "pool"
  }

  /** The key prefix that announces a drive or an NVMe slot. */
  function FamilyPrefix(f: Family): string
    requires f != Pool
  {
    if f == Drive then "unas_hdd_" else "unas_nvme_"
  }

  /** The store key of one metric of one resource. */
  function KeyOf(f: Family, id: string, sfx: string): string {
    match f
    case Drive => "unas_hdd_" + id + "_" + sfx
    case Nvme => "unas_nvme_" + id + "_" + sfx
    case Pool => "unas_pool" + id + "_" + sfx
  }

  /** The unique id of the sensor for a store key: `{entry_id}_{mqtt_key}`. */
  function UniqueId(entry: string, f: Family, id: string, sfx: string): string {
    entry + "_" + KeyOf(f, id, sfx)
  }

  function SensorKey(entry: string, f: Family, id: string, sfx: string): EntityKey {
    EntityKey("sensor", UniqueId(entry, f, id, sfx))
  }

  /** Where the empty retained message that clears a retired metric goes. */
  function TombstoneTopic(root: string, f: Family, id: string, sfx: string): string {
    root + "/" + Category(f) + "/" + id + "/" + sfx
  }

  /** The device of a drive or an NVMe slot: `{entry_id}_hdd_{bay}`, `{entry_id}_nvme_{slot}`. */
  function DeviceId(entry: string, f: Family, id: string): string
    requires f != Pool
  {
    entry + "_" + Category(f) + "_" + id
  }

  // ---------------------------------------------------------------------
  // detection

  /** `key.split("_")[2]`: for a drive or NVMe key, the level after the family prefix up to the next underscore. */
  function Field2(key: string, f: Family): (id: string)
    requires f != Pool && StartsWith(key, FamilyPrefix(f))
    ensures '_' !in id
    ensures StartsWith(key[|FamilyPrefix(f)|..], id)
    ensures id == Split(key[|FamilyPrefix(f)|..], "_")[0]
  {
    var cat := Category(f);
    var rest := key[|FamilyPrefix(f)|..];
    assert key == "unas" + ['_'] + (cat + ['_'] + rest);
    SplitCharCons("unas", '_', cat + ['_'] + rest);
    SplitCharCons(cat, '_', rest);
    var pieces := Split(key, "_");
    assert pieces == ["unas", cat] + Split(rest, "_");
    SplitPiecesFree(rest, "_");
    SplitHeadPrefix(rest, "_");
    ContainsChar(Split(rest, "_")[0], '_');
    assert pieces[2] == Split(rest, "_")[0];
    pieces[2]
  }

  /**
   * `re.match(r"^unas_pool(\d+)_usage$", key).group(1)`. `$` also matches
   * just before a final newline.
   */
  function PoolIdOf(key: string): (r: Option<string>)
    ensures r.Some? ==> IsDigits(r.value)
    ensures r.Some? ==> key == "unas_pool" + r.value + "_usage" || key == "unas_pool" + r.value + "_usage\n"
  {
    if !StartsWith(key, "unas_pool") then None
    else
      var rest := key[9..];
      var body := if EndsWith(rest, "\n") then rest[..|rest| - 1] else rest;
      if EndsWith(body, "_usage") && IsDigits(body[..|body| - 6]) then
        var n := body[..|body| - 6];
        assert body == n + "_usage";
        assert key == "unas_pool" + rest;
        Some(n)
      else None
  }

  /** The keys that announce a resource: a drive or NVMe temperature, or a pool usage. */
  predicate Marks(f: Family, key: string) {
    if f == Pool then PoolIdOf(key).Some?
    else StartsWith(key, FamilyPrefix(f)) && Contains(key, "_temperature")
  }

  function IdOf(f: Family, key: string): string
    requires Marks(f, key)
  {
    if f == Pool then PoolIdOf(key).value else Field2(key, f)
  }

  /** The ids a store snapshot announces. */
  function Detected(f: Family, keys: set<string>): (r: set<string>)
    ensures forall id :: id in r ==> '_' !in id
    ensures f == Pool ==> forall id :: id in r ==> IsDigits(id)
  {
    var r := set k | k in keys && Marks(f, k) :: IdOf(f, k);
    assert forall id :: id in r && f == Pool ==> IsDigits(id) && '_' !in id by {
      forall id | id in r && f == Pool ensures IsDigits(id) && '_' !in id {
        var k :| k in keys && Marks(f, k) && IdOf(f, k) == id;
        assert !IsDigit('_');
      }
    }
    r
  }

  /** The id that `Field2` reads back from a key built from an underscore-free id. */
  lemma {:induction false} Field2OfKey(f: Family, id: string, sfx: string)
    requires f != Pool && '_' !in id
    ensures StartsWith(KeyOf(f, id, sfx), FamilyPrefix(f))
    ensures Field2(KeyOf(f, id, sfx), f) == id
  {
    var k := KeyOf(f, id, sfx);
    var p := FamilyPrefix(f);
    var rest := id + ['_'] + sfx;
    assert k == p + rest;
    assert k[..|p|] == p;
    assert k[|p|..] == rest;
    SplitCharCons(id, '_', sfx);
    assert "_" == ['_'];
  }

  lemma TemperatureMarked(f: Family, id: string)
    requires f != Pool
    ensures Contains(KeyOf(f, id, "temperature"), "_temperature")
  {
    var k := KeyOf(f, id, "temperature");
    var p := FamilyPrefix(f);
    assert k == p + id + "_temperature";
    assert k[|p| + |id|..] == "_temperature";
    ContainsAt(k, "_temperature", |p| + |id|);
  }

  /** A drive or NVMe resource is detected from its temperature key. */
  lemma DetectedByTemperature(f: Family, keys: set<string>, id: string)
    requires f != Pool && '_' !in id && KeyOf(f, id, "temperature") in keys
    ensures id in Detected(f, keys)
  {
    var k := KeyOf(f, id, "temperature");
    Field2OfKey(f, id, "temperature");
    TemperatureMarked(f, id);
    assert Marks(f, k) && IdOf(f, k) == id;
  }

  /** A pool is detected from its usage key, with or without a final newline. */
  lemma PoolDetectedByUsage(n: string)
    requires IsDigits(n)
    ensures PoolIdOf("unas_pool" + n + "_usage") == Some(n)
    ensures PoolIdOf("unas_pool" + n + "_usage\n") == Some(n)
  {
    var k := "unas_pool" + n + "_usage";
    var rest := n + "_usage";
    assert k[..9] == "unas_pool" && k[9..] == rest;
    assert rest[|rest| - 1] == 'e';
    assert !EndsWith(rest, "\n");
    assert EndsWith(rest, "_usage") && rest[..|rest| - 6] == n;
    var k2 := k + "\n";
    assert "unas_pool" + n + "_usage\n" == k2;
    var rest2 := rest + "\n";
    assert k2[..9] == "unas_pool" && k2[9..] == rest2;
    assert EndsWith(rest2, "\n") && rest2[..|rest2| - 1] == rest;
  }

  // ---------------------------------------------------------------------
  // reconciliation

  /** Retiring the given metrics of one resource: registry removal if registered, then the empty retained publish. */
  function RetireSuffixes(r: Registry, entry: string, root: string, f: Family, id: string, sfxs: seq<string>): (r': Registry)
    decreases |sfxs|
  {
    if sfxs == [] then r
    else
      var s := sfxs[|sfxs| - 1];
      var r1 := RetireSuffixes(r, entry, root, f, id, sfxs[..|sfxs| - 1]);
      Publish(RemoveEntity(r1, SensorKey(entry, f, id, s)), TombstoneTopic(root, f, id, s), "")
  }

  /** Retiring one resource: all its metrics, then its device (pools have none of their own). */
  function RetireId(r: Registry, entry: string, root: string, f: Family, id: string): (r': Registry) {
    var r1 := RetireSuffixes(r, entry, root, f, id, Suffixes(f));
    if f == Pool then r1 else RemoveDevice(r1, DeviceId(entry, f, id))
  }

  /** Retiring resources one after the other, in the given order. */
  function RetireIds(r: Registry, entry: string, root: string, f: Family, ids: seq<string>): (r': Registry)
    decreases |ids|
  {
    if ids == [] then r
    else RetireId(RetireIds(r, entry, root, f, ids[..|ids| - 1]), entry, root, f, ids[|ids| - 1])
  }

  /** The unique ids of one resource's sensors, in table order. */
  function PerId(entry: string, f: Family, id: string): (u: seq<string>) {
    UidsOver(entry, f, id, Suffixes(f))
  }

  /** The unique ids of one resource's sensors for the metrics `sfxs`, in order. */
  function UidsOver(entry: string, f: Family, id: string, sfxs: seq<string>): (u: seq<string>) {
    seq(|sfxs|, j requires 0 <= j < |sfxs| => UniqueId(entry, f, id, sfxs[j]))
  }

  /** The unique ids of the sensors created for new resources, resource by resource. */
  function Batch(entry: string, f: Family, ids: seq<string>): (u: seq<string>)
    decreases |ids|
  {
    if ids == [] then [] else Batch(entry, f, ids[..|ids| - 1]) + PerId(entry, f, ids[|ids| - 1])
  }

  /** The devices the new sensors attach to: one per drive or NVMe slot; pool sensors sit on the main device. */
  function BatchDevices(entry: string, f: Family, ids: set<string>): (d: set<string>) {
    if f == Pool then {entry} else set id | id in ids :: DeviceId(entry, f, id)
  }

  /** The sensor keys of the given resources. */
  ghost predicate SensorOf(entry: string, f: Family, ids: set<string>, k: EntityKey) {
    exists id, s :: id in ids && s in Suffixes(f) && k == SensorKey(entry, f, id, s)
  }

  /**
   * One reconciler pass over the registry: retire what is known but no
   * longer detected, then add the batch for what is detected but not yet
   * known. Both are taken in ascending order.
   */
  ghost function Reconciled(r: Registry, entry: string, root: string, f: Family, known: set<string>, detected: set<string>): (r': Registry) {
    var r1 := RetireIds(r, entry, root, f, Sorted(known - detected));
    var added := detected - known;
    if added == {} then r1
    else AddEntities(r1, "sensor", entry, Batch(entry, f, Sorted(added)), BatchDevices(entry, f, added))
  }

  /** Distinct underscore-free ids never share a store key. */
  lemma {:induction false} KeyInjective(f: Family, a: string, s: string, b: string, t: string)
    requires '_' !in a && '_' !in b && KeyOf(f, a, s) == KeyOf(f, b, t)
    ensures a == b && s == t
  {
    var p := if f == Pool then "unas_pool" else FamilyPrefix(f);
    var x := a + ['_'] + s;
    var y := b + ['_'] + t;
    ConcatAssoc(p, a, ['_']);
    ConcatAssoc(p, a + ['_'], s);
    ConcatAssoc(p, b, ['_']);
    ConcatAssoc(p, b + ['_'], t);
    assert KeyOf(f, a, s) == p + x && KeyOf(f, b, t) == p + y;
    PrefixCancel(p, x, y);
    SeparatorCancel(a, s, b, t, '_');
  }

  lemma PrefixCancel(p: string, x: string, y: string)
    requires p + x == p + y
    ensures x == y
  {
    assert x == (p + x)[|p|..];
    assert y == (p + y)[|p|..];
  }

  lemma UniqueIdInjective(entry: string, f: Family, a: string, s: string, b: string, t: string)
    requires '_' !in a && '_' !in b && UniqueId(entry, f, a, s) == UniqueId(entry, f, b, t)
    ensures a == b && s == t
  {
    var n := |entry| + 1;
    assert KeyOf(f, a, s) == UniqueId(entry, f, a, s)[n..];
    assert KeyOf(f, b, t) == UniqueId(entry, f, b, t)[n..];
    KeyInjective(f, a, s, b, t);
  }

  /** The members of a non-empty sequence are those of its front and its last element. */
  lemma LastElement<T>(q: seq<T>)
    requires q != []
    ensures forall x :: x in q <==> x in q[..|q| - 1] || x == q[|q| - 1]
  {
    assert q == q[..|q| - 1] + [q[|q| - 1]];
  }

  /** The sensor keys of some metrics of one resource. */
  ghost function MetricKeys(entry: string, f: Family, id: string, sfxs: seq<string>): set<EntityKey> {
    set s | s in sfxs :: SensorKey(entry, f, id, s)
  }

  /** What retiring some metrics of one resource does. */
  lemma {:induction false} RetireSuffixesFacts(r: Registry, entry: string, root: string, f: Family, id: string, sfxs: seq<string>)
    ensures RetireSuffixes(r, entry, root, f, id, sfxs).entities == r.entities - MetricKeys(entry, f, id, sfxs)
    ensures RetireSuffixes(r, entry, root, f, id, sfxs).devices == r.devices
    ensures r.effects <= RetireSuffixes(r, entry, root, f, id, sfxs).effects
    ensures forall s :: s in sfxs ==> Published(TombstoneTopic(root, f, id, s), "", true) in RetireSuffixes(r, entry, root, f, id, sfxs).effects
    decreases |sfxs|
  {
    if sfxs != [] {
      var init := sfxs[..|sfxs| - 1];
      var s := sfxs[|sfxs| - 1];
      RetireSuffixesFacts(r, entry, root, f, id, init);
      var r1 := RetireSuffixes(r, entry, root, f, id, init);
      var k := SensorKey(entry, f, id, s);
      var r' := Publish(RemoveEntity(r1, k), TombstoneTopic(root, f, id, s), "");
      assert RetireSuffixes(r, entry, root, f, id, sfxs) == r';
      LastElement(sfxs);
      assert MetricKeys(entry, f, id, sfxs) == MetricKeys(entry, f, id, init) + {k};
    }
  }

  /** The sensor keys of a sequence of resources. */
  ghost function RetiredKeys(entry: string, f: Family, ids: seq<string>): set<EntityKey> {
    set id, s | id in ids && s in Suffixes(f) :: SensorKey(entry, f, id, s)
  }

  /** Retiring one resource removes its sensors and, unless it is a pool, its device. */
  lemma RetireIdFacts(r: Registry, entry: string, root: string, f: Family, id: string)
    ensures RetireId(r, entry, root, f, id).entities == r.entities - MetricKeys(entry, f, id, Suffixes(f))
    ensures f == Pool ==> RetireId(r, entry, root, f, id).devices == r.devices
    ensures f != Pool ==> RetireId(r, entry, root, f, id).devices == r.devices - {DeviceId(entry, f, id)}
    ensures r.effects <= RetireId(r, entry, root, f, id).effects
    ensures forall s :: s in Suffixes(f) ==> Published(TombstoneTopic(root, f, id, s), "", true) in RetireId(r, entry, root, f, id).effects
  {
    RetireSuffixesFacts(r, entry, root, f, id, Suffixes(f));
  }

  lemma RetiredKeysLast(entry: string, f: Family, ids: seq<string>)
    requires ids != []
    ensures RetiredKeys(entry, f, ids) == RetiredKeys(entry, f, ids[..|ids| - 1]) + MetricKeys(entry, f, ids[|ids| - 1], Suffixes(f))
  {
    LastElement(ids);
  }

  lemma DevicesLast(entry: string, f: Family, ids: seq<string>)
    requires ids != [] && f != Pool
    ensures (set x | x in ids :: DeviceId(entry, f, x)) == (set x | x in ids[..|ids| - 1] :: DeviceId(entry, f, x)) + {DeviceId(entry, f, ids[|ids| - 1])}
  {
    LastElement(ids);
  }

  /** Retiring a sequence of resources removes exactly their sensors from the registry. */
  lemma {:induction false} RetireIdsEntities(r: Registry, entry: string, root: string, f: Family, ids: seq<string>)
    ensures RetireIds(r, entry, root, f, ids).entities == r.entities - RetiredKeys(entry, f, ids)
    decreases |ids|
  {
    if ids != [] {
      var init := ids[..|ids| - 1];
      RetireIdsEntities(r, entry, root, f, init);
      RetireIdFacts(RetireIds(r, entry, root, f, init), entry, root, f, ids[|ids| - 1]);
      RetiredKeysLast(entry, f, ids);
    }
  }

  /** ... and exactly their devices, except that pools remove none. */
  lemma {:induction false} RetireIdsDevices(r: Registry, entry: string, root: string, f: Family, ids: seq<string>)
    ensures f == Pool ==> RetireIds(r, entry, root, f, ids).devices == r.devices
    ensures f != Pool ==> RetireIds(r, entry, root, f, ids).devices == r.devices - set id | id in ids :: DeviceId(entry, f, id)
    decreases |ids|
  {
    if ids != [] {
      var init := ids[..|ids| - 1];
      RetireIdsDevices(r, entry, root, f, init);
      RetireIdFacts(RetireIds(r, entry, root, f, init), entry, root, f, ids[|ids| - 1]);
      if f != Pool {
        DevicesLast(entry, f, ids);
      }
    }
  }

  /** The effect side: the log only grows, and every retired metric got its tombstone. */
  lemma {:induction false} RetireIdsEffects(r: Registry, entry: string, root: string, f: Family, ids: seq<string>)
    ensures r.effects <= RetireIds(r, entry, root, f, ids).effects
    ensures forall id, s :: id in ids && s in Suffixes(f) ==>
      Published(TombstoneTopic(root, f, id, s), "", true) in RetireIds(r, entry, root, f, ids).effects
    decreases |ids|
  {
    if ids != [] {
      var init := ids[..|ids| - 1];
      var id := ids[|ids| - 1];
      LastElement(ids);
      RetireIdsEffects(r, entry, root, f, init);
      var r1 := RetireIds(r, entry, root, f, init);
      RetireIdFacts(r1, entry, root, f, id);
      var r2 := RetireId(r1, entry, root, f, id);
      assert forall e :: e in r1.effects ==> e in r2.effects by {
        forall e | e in r1.effects ensures e in r2.effects {
          var j :| 0 <= j < |r1.effects| && r1.effects[j] == e;
          assert r2.effects[j] == e;
        }
      }
    }
  }

  /** The publishes of an effect log, in order. */
  function Publishes(e: seq<Effect>): (p: seq<Effect>)
    ensures |p| <= |e|
    ensures forall k :: 0 <= k < |p| ==> p[k].Published?
    decreases |e|
  {
    if e == [] then []
    else Publishes(e[..|e| - 1]) + (if e[|e| - 1].Published? then [e[|e| - 1]] else [])
  }

  lemma PublishesSnoc(e: seq<Effect>, x: Effect)
    ensures Publishes(e + [x]) == Publishes(e) + (if x.Published? then [x] else [])
  {
    assert (e + [x])[..|e + [x]| - 1] == e;
  }

  /** The tombstones of some metrics of one resource, one per metric in the order given. */
  function SuffixLog(root: string, f: Family, id: string, sfxs: seq<string>): (e: seq<Effect>)
    ensures |e| == |sfxs|
    ensures forall k :: 0 <= k < |sfxs| ==> e[k] == Published(TombstoneTopic(root, f, id, sfxs[k]), "", true)
    decreases |sfxs|
  {
    if sfxs == [] then []
    else SuffixLog(root, f, id, sfxs[..|sfxs| - 1]) + [Published(TombstoneTopic(root, f, id, sfxs[|sfxs| - 1]), "", true)]
  }

  /** The tombstones of a sequence of resources, resource by resource. */
  function RetireLog(root: string, f: Family, ids: seq<string>): (e: seq<Effect>)
    decreases |ids|
  {
    if ids == [] then [] else RetireLog(root, f, ids[..|ids| - 1]) + SuffixLog(root, f, ids[|ids| - 1], Suffixes(f))
  }

  /** Retiring some metrics publishes exactly their tombstones, in order. */
  lemma {:induction false} RetireSuffixesLog(r: Registry, entry: string, root: string, f: Family, id: string, sfxs: seq<string>)
    ensures Publishes(RetireSuffixes(r, entry, root, f, id, sfxs).effects) == Publishes(r.effects) + SuffixLog(root, f, id, sfxs)
    decreases |sfxs|
  {
    if sfxs != [] {
      var init := sfxs[..|sfxs| - 1];
      var s := sfxs[|sfxs| - 1];
      RetireSuffixesLog(r, entry, root, f, id, init);
      var r1 := RetireSuffixes(r, entry, root, f, id, init);
      var k := SensorKey(entry, f, id, s);
      var r2 := RemoveEntity(r1, k);
      if k in r1.entities {
        PublishesSnoc(r1.effects, RemovedEntity(k));
      } else {
        assert r2.effects == r1.effects;
      }
      assert Publishes(r2.effects) == Publishes(r1.effects);
      var t := Published(TombstoneTopic(root, f, id, s), "", true);
      PublishesSnoc(r2.effects, t);
      assert RetireSuffixes(r, entry, root, f, id, sfxs).effects == r2.effects + [t];
      assert SuffixLog(root, f, id, sfxs) == SuffixLog(root, f, id, init) + [t];
      ConcatAssoc(Publishes(r.effects), SuffixLog(root, f, id, init), [t]);
    }
  }

  /** The device removal that ends a resource's retirement publishes nothing. */
  lemma RemoveDeviceLog(r: Registry, d: string)
    ensures Publishes(RemoveDevice(r, d).effects) == Publishes(r.effects)
  {
    if d in r.devices {
      PublishesSnoc(r.effects, RemovedDevice(d));
    }
  }

  /**
   * Retiring a sequence of resources publishes exactly their tombstones, in
   * order: resource by resource, and metric by metric within each.
   */
  lemma {:induction false} RetireIdsLog(r: Registry, entry: string, root: string, f: Family, ids: seq<string>)
    ensures Publishes(RetireIds(r, entry, root, f, ids).effects) == Publishes(r.effects) + RetireLog(root, f, ids)
    decreases |ids|
  {
    if ids != [] {
      var init := ids[..|ids| - 1];
      var id := ids[|ids| - 1];
      RetireIdsLog(r, entry, root, f, init);
      var r1 := RetireIds(r, entry, root, f, init);
      RetireIdLog(r1, entry, root, f, id);
      assert RetireIds(r, entry, root, f, ids) == RetireId(r1, entry, root, f, id);
      assert RetireLog(root, f, ids) == RetireLog(root, f, init) + SuffixLog(root, f, id, Suffixes(f));
      ConcatAssoc(Publishes(r.effects), RetireLog(root, f, init), SuffixLog(root, f, id, Suffixes(f)));
    }
  }

  /** Retiring one resource publishes exactly its metrics' tombstones. */
  lemma RetireIdLog(r: Registry, entry: string, root: string, f: Family, id: string)
    ensures Publishes(RetireId(r, entry, root, f, id).effects) == Publishes(r.effects) + SuffixLog(root, f, id, Suffixes(f))
  {
    RetireSuffixesLog(r, entry, root, f, id, Suffixes(f));
    if f != Pool {
      RemoveDeviceLog(RetireSuffixes(r, entry, root, f, id, Suffixes(f)), DeviceId(entry, f, id));
    }
  }

  /** The unique ids of one resource's sensors are its metrics' ids. */
  lemma PerIdFacts(entry: string, f: Family, id: string)
    ensures |PerId(entry, f, id)| == |Suffixes(f)|
    ensures forall u :: u in PerId(entry, f, id) <==> exists s :: s in Suffixes(f) && u == UniqueId(entry, f, id, s)
  {
    UidsOverFacts(entry, f, id, Suffixes(f));
  }

  /** `PerIdFacts` for any list of metrics. */
  lemma UidsOverFacts(entry: string, f: Family, id: string, sfxs: seq<string>)
    ensures |UidsOver(entry, f, id, sfxs)| == |sfxs|
    ensures forall u :: u in UidsOver(entry, f, id, sfxs) <==> exists s :: s in sfxs && u == UniqueId(entry, f, id, s)
  {
    var p := UidsOver(entry, f, id, sfxs);
    forall u ensures u in p <==> exists s :: s in sfxs && u == UniqueId(entry, f, id, s) {
      if u in p {
        var j :| 0 <= j < |p| && p[j] == u;
        assert sfxs[j] in sfxs;
      }
      if s :| s in sfxs && u == UniqueId(entry, f, id, s) {
        var j :| 0 <= j < |sfxs| && sfxs[j] == s;
        assert p[j] == u;
      }
    }
  }

  /** The batch for new resources: one sensor per resource and metric, and nothing else. */
  lemma {:induction false} BatchFacts(entry: string, f: Family, ids: seq<string>)
    ensures |Batch(entry, f, ids)| == |ids| * |Suffixes(f)|
    ensures forall u :: u in Batch(entry, f, ids) <==> exists id, s :: id in ids && s in Suffixes(f) && u == UniqueId(entry, f, id, s)
    decreases |ids|
  {
    if ids != [] {
      var init := ids[..|ids| - 1];
      var id := ids[|ids| - 1];
      LastElement(ids);
      BatchFacts(entry, f, init);
      PerIdFacts(entry, f, id);
      assert |ids| * |Suffixes(f)| == |init| * |Suffixes(f)| + |Suffixes(f)|;
    }
  }

  /** Every metric of a retired resource is unregistered after the pass, even when new sensors were added. */
  lemma RetiredUnregistered(r: Registry, entry: string, root: string, f: Family, known: set<string>, detected: set<string>, id: string, s: string)
    requires '_' !in id && forall x :: x in detected ==> '_' !in x
    requires id in known - detected && s in Suffixes(f)
    ensures SensorKey(entry, f, id, s) !in Reconciled(r, entry, root, f, known, detected).entities
  {
    var order := Sorted(known - detected);
    var r1 := RetireIds(r, entry, root, f, order);
    RetireIdsEntities(r, entry, root, f, order);
    assert SensorKey(entry, f, id, s) in RetiredKeys(entry, f, order);
    var added := detected - known;
    if added != {} {
      var uids := Batch(entry, f, Sorted(added));
      BatchFacts(entry, f, Sorted(added));
      if UniqueId(entry, f, id, s) in uids {
        var id', s' :| id' in Sorted(added) && s' in Suffixes(f) && UniqueId(entry, f, id, s) == UniqueId(entry, f, id', s');
        UniqueIdInjective(entry, f, id, s, id', s');
        assert false;
      }
    }
  }

  /** Every metric of a retired resource got its empty retained publish, and the log only grew. */
  lemma RetiredTombstoned(r: Registry, entry: string, root: string, f: Family, known: set<string>, detected: set<string>)
    ensures r.effects <= Reconciled(r, entry, root, f, known, detected).effects
    ensures forall id, s :: id in known - detected && s in Suffixes(f) ==>
      Published(TombstoneTopic(root, f, id, s), "", true) in Reconciled(r, entry, root, f, known, detected).effects
  {
    var order := Sorted(known - detected);
    var r1 := RetireIds(r, entry, root, f, order);
    RetireIdsEffects(r, entry, root, f, order);
    var r' := Reconciled(r, entry, root, f, known, detected);
    assert r1.effects <= r'.effects;
    assert forall e :: e in r1.effects ==> e in r'.effects by {
      forall e | e in r1.effects ensures e in r'.effects {
        var j :| 0 <= j < |r1.effects| && r1.effects[j] == e;
        assert r'.effects[j] == e;
      }
    }
  }

  lemma DeviceIdInjective(entry: string, f: Family, a: string, b: string)
    requires f != Pool
    ensures DeviceId(entry, f, a) == DeviceId(entry, f, b) ==> a == b
  {
    var n := |entry| + |Category(f)| + 2;
    assert DeviceId(entry, f, a)[n..] == a && DeviceId(entry, f, b)[n..] == b;
  }

  /** A retired drive or NVMe resource loses its device. */
  lemma RetiredDeviceRemoved(r: Registry, entry: string, root: string, f: Family, known: set<string>, detected: set<string>, id: string)
    requires f != Pool && id in known - detected
    ensures DeviceId(entry, f, id) !in Reconciled(r, entry, root, f, known, detected).devices
  {
    var order := Sorted(known - detected);
    RetireIdsDevices(r, entry, root, f, order);
    var d := DeviceId(entry, f, id);
    assert d in set x | x in order :: DeviceId(entry, f, x);
    var r1 := RetireIds(r, entry, root, f, order);
    assert d !in r1.devices;
    var added := detected - known;
    forall x | x in added ensures DeviceId(entry, f, x) != d {
      DeviceIdInjective(entry, f, x, id);
    }
    assert d !in BatchDevices(entry, f, added);
  }

  /** A pool pass never removes a device. */
  lemma PoolKeepsDevices(r: Registry, entry: string, root: string, known: set<string>, detected: set<string>)
    ensures r.devices <= Reconciled(r, entry, root, Pool, known, detected).devices
  {
    RetireIdsDevices(r, entry, root, Pool, Sorted(known - detected));
  }

  /** Every metric of a new resource is registered to the entry. */
  lemma AddedRegistered(r: Registry, entry: string, root: string, f: Family, known: set<string>, detected: set<string>)
    ensures forall id, s :: id in detected - known && s in Suffixes(f) ==>
      var k := SensorKey(entry, f, id, s);
      k in Reconciled(r, entry, root, f, known, detected).entities && Reconciled(r, entry, root, f, known, detected).entities[k] == entry
  {
    var added := detected - known;
    if added != {} {
      BatchFacts(entry, f, Sorted(added));
    }
  }

  /** Entries that are not sensors of a retired resource stay registered. */
  lemma OthersKept(r: Registry, entry: string, root: string, f: Family, known: set<string>, detected: set<string>)
    ensures forall k :: k in r.entities && !SensorOf(entry, f, known - detected, k) ==> k in Reconciled(r, entry, root, f, known, detected).entities
  {
    var order := Sorted(known - detected);
    RetireIdsEntities(r, entry, root, f, order);
    forall k | k in r.entities && !SensorOf(entry, f, known - detected, k)
      ensures k in RetireIds(r, entry, root, f, order).entities
    {
    }
  }

  /** A pass with nothing missing and nothing new changes nothing. */
  lemma ReconciledStable(r: Registry, entry: string, root: string, f: Family, ids: set<string>)
    ensures Reconciled(r, entry, root, f, ids, ids) == r
  {
    assert Sorted(ids - ids) == [];
  }

  // ---------------------------------------------------------------------
  // a tombstone publish that raises

  /**
   * The position of the first metric in `sfxs` whose empty retained publish
   * raises (`pub` says which topics get through); `|sfxs|` when none does.
   */
  function FirstUnpublished(root: string, f: Family, id: string, sfxs: seq<string>, pub: string -> bool): (j: nat)
    ensures j <= |sfxs|
    ensures forall k {:trigger pub(TombstoneTopic(root, f, id, sfxs[k]))} :: 0 <= k < j ==> pub(TombstoneTopic(root, f, id, sfxs[k]))
    ensures j < |sfxs| ==> !pub(TombstoneTopic(root, f, id, sfxs[j]))
    decreases |sfxs|
  {
    if sfxs == [] || !pub(TombstoneTopic(root, f, id, sfxs[0])) then 0
    else 1 + FirstUnpublished(root, f, id, sfxs[1..], pub)
  }

  /** Every tombstone of one resource gets through. */
  predicate Tombstoned(root: string, f: Family, id: string, pub: string -> bool) {
    FirstUnpublished(root, f, id, Suffixes(f), pub) == |Suffixes(f)|
  }

  /** The position of the first resource in `ids` one of whose tombstones raises; `|ids|` when none does. */
  function FirstUntombstoned(root: string, f: Family, ids: seq<string>, pub: string -> bool): (i: nat)
    ensures i <= |ids|
    ensures forall k {:trigger Tombstoned(root, f, ids[k], pub)} :: 0 <= k < i ==> Tombstoned(root, f, ids[k], pub)
    ensures i < |ids| ==> !Tombstoned(root, f, ids[i], pub)
    decreases |ids|
  {
    if ids == [] || !Tombstoned(root, f, ids[0], pub) then 0
    else 1 + FirstUntombstoned(root, f, ids[1..], pub)
  }

  /** A position before which every tombstone gets through and at which one does not is the first such. */
  lemma {:induction false} FirstUnpublishedAt(root: string, f: Family, id: string, sfxs: seq<string>, pub: string -> bool, j: nat)
    requires j <= |sfxs| && forall k :: 0 <= k < j ==> pub(TombstoneTopic(root, f, id, sfxs[k]))
    requires j < |sfxs| ==> !pub(TombstoneTopic(root, f, id, sfxs[j]))
    ensures FirstUnpublished(root, f, id, sfxs, pub) == j
    decreases j
  {
    if j > 0 {
      assert pub(TombstoneTopic(root, f, id, sfxs[0]));
      assert forall k :: 0 <= k < j - 1 ==> sfxs[1..][k] == sfxs[k + 1];
      FirstUnpublishedAt(root, f, id, sfxs[1..], pub, j - 1);
    }
  }

  /** The same for the resources of a removal loop. */
  lemma {:induction false} FirstUntombstonedAt(root: string, f: Family, ids: seq<string>, pub: string -> bool, i: nat)
    requires i <= |ids| && forall k :: 0 <= k < i ==> Tombstoned(root, f, ids[k], pub)
    requires i < |ids| ==> !Tombstoned(root, f, ids[i], pub)
    ensures FirstUntombstoned(root, f, ids, pub) == i
    decreases i
  {
    if i > 0 {
      assert Tombstoned(root, f, ids[0], pub);
      assert forall k :: 0 <= k < i - 1 ==> ids[1..][k] == ids[k + 1];
      FirstUntombstonedAt(root, f, ids[1..], pub, i - 1);
    }
  }

  /** The removal loop over `ids` runs to its end. */
  predicate AllTombstoned(root: string, f: Family, ids: seq<string>, pub: string -> bool) {
    FirstUntombstoned(root, f, ids, pub) == |ids|
  }

  /** One resource's tombstones all get through exactly when each of its topics does. */
  lemma TombstonedMeans(root: string, f: Family, id: string, pub: string -> bool)
    ensures Tombstoned(root, f, id, pub) <==> forall s :: s in Suffixes(f) ==> pub(TombstoneTopic(root, f, id, s))
  {
    var sfxs := Suffixes(f);
    var j := FirstUnpublished(root, f, id, sfxs, pub);
    if j < |sfxs| {
      assert sfxs[j] in sfxs;
    } else {
      forall s | s in sfxs ensures pub(TombstoneTopic(root, f, id, s)) {
        var k :| 0 <= k < |sfxs| && sfxs[k] == s;
      }
    }
  }

  /** A removal loop runs to its end exactly when every tombstone of every resource gets through. */
  lemma {:induction false} AllTombstonedMeans(root: string, f: Family, ids: seq<string>, pub: string -> bool)
    ensures AllTombstoned(root, f, ids, pub) <==>
      (forall id, s :: id in ids && s in Suffixes(f) ==> pub(TombstoneTopic(root, f, id, s)))
  {
    var i := FirstUntombstoned(root, f, ids, pub);
    if i < |ids| {
      TombstonedMeans(root, f, ids[i], pub);
      assert ids[i] in ids;
    } else {
      forall id, s | id in ids && s in Suffixes(f) ensures pub(TombstoneTopic(root, f, id, s)) {
        var k :| 0 <= k < |ids| && ids[k] == id;
        TombstonedMeans(root, f, id, pub);
      }
    }
  }

  /**
   * The registry the removal loop of one resource leaves behind when one of
   * its tombstone publishes raises: the metrics before the failing one are
   * retired, and the failing metric's sensor is removed while its tombstone
   * never reaches the log.
   */
  function Halted(r: Registry, entry: string, root: string, f: Family, id: string, pub: string -> bool): (r': Registry)
    requires !Tombstoned(root, f, id, pub)
  {
    HaltedOver(r, entry, root, f, id, Suffixes(f), pub)
  }

  /** `Halted` over any list of metrics. */
  function HaltedOver(r: Registry, entry: string, root: string, f: Family, id: string, sfxs: seq<string>,
                      pub: string -> bool): (r': Registry)
    requires FirstUnpublished(root, f, id, sfxs, pub) < |sfxs|
  {
    var j := FirstUnpublished(root, f, id, sfxs, pub);
    RemoveEntity(RetireSuffixes(r, entry, root, f, id, sfxs[..j]), SensorKey(entry, f, id, sfxs[j]))
  }

  /** The registry a removal loop leaves behind when a publish raises: the resources before the failing one fully retired, the failing one halted. */
  function Aborted(r: Registry, entry: string, root: string, f: Family, ids: seq<string>, pub: string -> bool): (r': Registry)
    requires !AllTombstoned(root, f, ids, pub)
  {
    var i := FirstUntombstoned(root, f, ids, pub);
    Halted(RetireIds(r, entry, root, f, ids[..i]), entry, root, f, ids[i], pub)
  }

  /** One more resource whose tombstones all got through. */
  lemma TombstonedStep(root: string, f: Family, ids: seq<string>, pub: string -> bool, i: nat)
    requires i < |ids| && Tombstoned(root, f, ids[i], pub)
    requires forall k :: 0 <= k < i ==> Tombstoned(root, f, ids[k], pub)
    ensures forall k :: 0 <= k < i + 1 ==> Tombstoned(root, f, ids[k], pub)
  {
  }

  /** The metric keys of a longer prefix. */
  lemma MetricKeysStep(entry: string, f: Family, id: string, sfxs: seq<string>, j: nat)
    requires j < |sfxs|
    ensures MetricKeys(entry, f, id, sfxs[..j + 1]) == MetricKeys(entry, f, id, sfxs[..j]) + {SensorKey(entry, f, id, sfxs[j])}
  {
    var p := sfxs[..j + 1];
    assert p[..j] == sfxs[..j];
    LastElement(p);
  }

  /** The loop that raises at position `i` halts there. */
  lemma AbortedAt(r: Registry, entry: string, root: string, f: Family, ids: seq<string>, pub: string -> bool, i: nat)
    requires i < |ids| && FirstUntombstoned(root, f, ids, pub) == i
    ensures !AllTombstoned(root, f, ids, pub)
    ensures Aborted(r, entry, root, f, ids, pub) == Halted(RetireIds(r, entry, root, f, ids[..i]), entry, root, f, ids[i], pub)
  {
  }

  /**
   * What a halted removal loop of one resource did: the sensors of its
   * metrics up to and including the failing one are gone, its device is
   * kept, and the log gained the tombstones of the metrics before the
   * failing one and no other publish.
   */
  lemma HaltedFacts(r: Registry, entry: string, root: string, f: Family, id: string, pub: string -> bool)
    requires !Tombstoned(root, f, id, pub)
    ensures var j := FirstUnpublished(root, f, id, Suffixes(f), pub);
      var h := Halted(r, entry, root, f, id, pub);
      && h.entities == r.entities - MetricKeys(entry, f, id, Suffixes(f)[..j + 1])
      && h.devices == r.devices
      && r.effects <= h.effects
      && Publishes(h.effects) == Publishes(r.effects) + SuffixLog(root, f, id, Suffixes(f)[..j])
  {
    HaltedOverFacts(r, entry, root, f, id, Suffixes(f), pub);
  }

  /** `HaltedFacts` over any list of metrics. */
  lemma HaltedOverFacts(r: Registry, entry: string, root: string, f: Family, id: string, sfxs: seq<string>,
                        pub: string -> bool)
    requires FirstUnpublished(root, f, id, sfxs, pub) < |sfxs|
    ensures var j := FirstUnpublished(root, f, id, sfxs, pub);
      var h := HaltedOver(r, entry, root, f, id, sfxs, pub);
      && h.entities == r.entities - MetricKeys(entry, f, id, sfxs[..j + 1])
      && h.devices == r.devices
      && r.effects <= h.effects
      && Publishes(h.effects) == Publishes(r.effects) + SuffixLog(root, f, id, sfxs[..j])
  {
    HaltedAt(r, entry, root, f, id, sfxs, pub);
    HaltedLog(r, entry, root, f, id, sfxs, pub);
  }

  lemma HaltedAt(r: Registry, entry: string, root: string, f: Family, id: string, sfxs: seq<string>, pub: string -> bool)
    requires FirstUnpublished(root, f, id, sfxs, pub) < |sfxs|
    ensures var j := FirstUnpublished(root, f, id, sfxs, pub);
      var h := HaltedOver(r, entry, root, f, id, sfxs, pub);
      && h.entities == r.entities - MetricKeys(entry, f, id, sfxs[..j + 1])
      && h.devices == r.devices
      && r.effects <= h.effects
  {
    var j := FirstUnpublished(root, f, id, sfxs, pub);
    var r1 := RetireSuffixes(r, entry, root, f, id, sfxs[..j]);
    var k := SensorKey(entry, f, id, sfxs[j]);
    assert HaltedOver(r, entry, root, f, id, sfxs, pub) == RemoveEntity(r1, k);
    assert r1.entities == r.entities - MetricKeys(entry, f, id, sfxs[..j]) && r1.devices == r.devices
        && r.effects <= r1.effects by {
      RetireSuffixesFacts(r, entry, root, f, id, sfxs[..j]);
    }
    assert MetricKeys(entry, f, id, sfxs[..j + 1]) == MetricKeys(entry, f, id, sfxs[..j]) + {k} by {
      MetricKeysStep(entry, f, id, sfxs, j);
    }
    MinusTwice(r.entities, MetricKeys(entry, f, id, sfxs[..j]), {k});
  }

  /** Removing two key sets in turn is removing their union. */
  lemma MinusTwice<K, V>(m: map<K, V>, b: set<K>, c: set<K>)
    ensures m - b - c == m - (b + c)
  {
  }

  lemma HaltedLog(r: Registry, entry: string, root: string, f: Family, id: string, sfxs: seq<string>, pub: string -> bool)
    requires FirstUnpublished(root, f, id, sfxs, pub) < |sfxs|
    ensures var j := FirstUnpublished(root, f, id, sfxs, pub);
      Publishes(HaltedOver(r, entry, root, f, id, sfxs, pub).effects) == Publishes(r.effects) + SuffixLog(root, f, id, sfxs[..j])
  {
    var j := FirstUnpublished(root, f, id, sfxs, pub);
    RetireSuffixesLog(r, entry, root, f, id, sfxs[..j]);
    var r1 := RetireSuffixes(r, entry, root, f, id, sfxs[..j]);
    var k := SensorKey(entry, f, id, sfxs[j]);
    if k in r1.entities {
      PublishesSnoc(r1.effects, RemovedEntity(k));
    }
  }

  /**
   * What an aborted removal loop did to the entities: the sensors of the
   * resources before the failing one and of the failing one's metrics up to
   * and including the failing metric are gone, and no other.
   */
  lemma AbortedEntities(r: Registry, entry: string, root: string, f: Family, ids: seq<string>, pub: string -> bool)
    requires !AllTombstoned(root, f, ids, pub)
    ensures var i := FirstUntombstoned(root, f, ids, pub);
      var j := FirstUnpublished(root, f, ids[i], Suffixes(f), pub);
      Aborted(r, entry, root, f, ids, pub).entities
      == r.entities - RetiredKeys(entry, f, ids[..i]) - MetricKeys(entry, f, ids[i], Suffixes(f)[..j + 1])
  {
    var i := FirstUntombstoned(root, f, ids, pub);
    var r0 := RetireIds(r, entry, root, f, ids[..i]);
    RetireIdsEntities(r, entry, root, f, ids[..i]);
    HaltedAt(r0, entry, root, f, ids[i], Suffixes(f), pub);
  }

  /** After an aborted removal loop, only the devices of the resources before the failing one are removed. */
  lemma AbortedDevices(r: Registry, entry: string, root: string, f: Family, ids: seq<string>, pub: string -> bool)
    requires !AllTombstoned(root, f, ids, pub)
    ensures var i := FirstUntombstoned(root, f, ids, pub);
      Aborted(r, entry, root, f, ids, pub).devices == RetireIds(r, entry, root, f, ids[..i]).devices
  {
    var i := FirstUntombstoned(root, f, ids, pub);
    HaltedAfter(r, entry, root, f, ids[..i], ids[i], pub);
  }

  /** An aborted removal loop only appends to the log: exactly the tombstones sent before the failure, in order. */
  lemma AbortedLog(r: Registry, entry: string, root: string, f: Family, ids: seq<string>, pub: string -> bool)
    requires !AllTombstoned(root, f, ids, pub)
    ensures r.effects <= Aborted(r, entry, root, f, ids, pub).effects
    ensures var i := FirstUntombstoned(root, f, ids, pub);
      var j := FirstUnpublished(root, f, ids[i], Suffixes(f), pub);
      Publishes(Aborted(r, entry, root, f, ids, pub).effects)
      == Publishes(r.effects) + RetireLog(root, f, ids[..i]) + SuffixLog(root, f, ids[i], Suffixes(f)[..j])
  {
    var i := FirstUntombstoned(root, f, ids, pub);
    HaltedAfter(r, entry, root, f, ids[..i], ids[i], pub);
  }

  /** `HaltedFacts` for a resource whose loop fails after the ids `done` were fully retired. */
  lemma HaltedAfter(r: Registry, entry: string, root: string, f: Family, done: seq<string>, id: string, pub: string -> bool)
    requires !Tombstoned(root, f, id, pub)
    ensures var j := FirstUnpublished(root, f, id, Suffixes(f), pub);
      var h := Halted(RetireIds(r, entry, root, f, done), entry, root, f, id, pub);
      && h.entities == r.entities - RetiredKeys(entry, f, done) - MetricKeys(entry, f, id, Suffixes(f)[..j + 1])
      && h.devices == RetireIds(r, entry, root, f, done).devices
      && r.effects <= h.effects
      && Publishes(h.effects) == Publishes(r.effects) + RetireLog(root, f, done) + SuffixLog(root, f, id, Suffixes(f)[..j])
  {
    var r0 := RetireIds(r, entry, root, f, done);
    assert r0.entities == r.entities - RetiredKeys(entry, f, done) by {
      RetireIdsEntities(r, entry, root, f, done);
    }
    assert r.effects <= r0.effects by {
      RetireIdsEffects(r, entry, root, f, done);
    }
    assert Publishes(r0.effects) == Publishes(r.effects) + RetireLog(root, f, done) by {
      RetireIdsLog(r, entry, root, f, done);
    }
    HaltedFacts(r0, entry, root, f, id, pub);
  }

  /** The removal loop of a pass, over the missing ids in ascending order, raises. */
  ghost predicate PassRaises(root: string, f: Family, known: set<string>, detected: set<string>, pub: string -> bool) {
    !AllTombstoned(root, f, Sorted(known - detected), pub)
  }

  /** Some tombstone of a resource that is known but no longer detected does not get through. */
  ghost predicate TombstoneFails(root: string, f: Family, known: set<string>, detected: set<string>, pub: string -> bool) {
    exists id, s :: id in known - detected && s in Suffixes(f) && !pub(TombstoneTopic(root, f, id, s))
  }

  /** A pass raises exactly when some tombstone of a missing resource fails to get through. */
  lemma PassRaisesMeans(root: string, f: Family, known: set<string>, detected: set<string>, pub: string -> bool)
    ensures PassRaises(root, f, known, detected, pub) <==> TombstoneFails(root, f, known, detected, pub)
  {
    AllTombstonedMeans(root, f, Sorted(known - detected), pub);
  }

  /**
   * `model.split()[0] if model != "Unknown"`, the manufacturer of a drive
   * or NVMe device, raises on the stored model: a number or a JSON
   * container has no `split`, and blank text splits into no words.
   */
  predicate ModelRaises(v: Value) {
    match v
    case VStr(s) => s != "Unknown" && AllSpace(s)
    case VJson(j) => !j.JStr? || (j.s != "Unknown" && AllSpace(j.s))
    case _ => true
  }

  /**
   * The sensors of resource `id` can be created: pool sensors read no
   * model; a drive or NVMe sensor reads `unas_{hdd|nvme}_{id}_model`,
   * `"Unknown"` when it is absent.
   */
  predicate Buildable(f: Family, data: map<string, Value>, id: string) {
    f == Pool || KeyOf(f, id, "model") !in data || !ModelRaises(data[KeyOf(f, id, "model")])
  }

  /** Which stored models let a drive's sensors be created. */
  lemma ModelExamples(data: map<string, Value>, f: Family, id: string)
    requires f != Pool && KeyOf(f, id, "model") in data
    ensures data[KeyOf(f, id, "model")] == VStr("WDC WD40EFRX") ==> Buildable(f, data, id)
    ensures data[KeyOf(f, id, "model")] == VStr("Unknown") ==> Buildable(f, data, id)
    ensures data[KeyOf(f, id, "model")] == VStr("  ") ==> !Buildable(f, data, id)
    ensures data[KeyOf(f, id, "model")].VInt? ==> !Buildable(f, data, id)
  {
    assert "WDC WD40EFRX"[0] == 'W';
  }

  /** The creation loop raises: some new resource's sensors cannot be created. */
  ghost predicate BuildFails(f: Family, data: map<string, Value>, added: set<string>) {
    exists id :: id in added && !Buildable(f, data, id)
  }

  /** Some drive or NVMe model in the store makes sensor creation raise. */
  ghost predicate SomeUnbuildable(data: map<string, Value>) {
    exists f, id :: !Buildable(f, data, id)
  }

  // ---------------------------------------------------------------------
  // the reconciler passes

  /** The discovered set of a family: `discovered_bays`, `discovered_nvmes` or `discovered_pools`. */
  function Known(c: Coordinator, f: Family): set<string>
    reads c
  {
    match f
    case Drive => c.bays
    case Nvme => c.nvmes
    case Pool => c.pools
  }

  method SetKnown(c: Coordinator, f: Family, ids: set<string>)
    modifies c
    ensures Known(c, f) == ids
    ensures f != Drive ==> c.bays == old(c.bays)
    ensures f != Nvme ==> c.nvmes == old(c.nvmes)
    ensures f != Pool ==> c.pools == old(c.pools)
    ensures c.Reg() == old(c.Reg()) && c.switches == old(c.switches) && c.data == old(c.data)
    ensures c.sensorAdd == old(c.sensorAdd) && c.buttonAdd == old(c.buttonAdd) && c.switchAdd == old(c.switchAdd)
  {
    match f
    case Drive => c.bays := ids;
    case Nvme => c.nvmes := ids;
    case Pool => c.pools := ids;
  }

  /**
   * The inner removal loop: for each metric, the registry removal and then
   * the empty retained publish. A publish that does not get through raises
   * and ends the loop right after that metric's registry removal.
   */
  method RetireMetrics(r: Registry, entry: string, root: string, f: Family, id: string, sfxs: seq<string>, pub: string -> bool)
    returns (r': Registry, raised: bool)
    ensures raised <==> FirstUnpublished(root, f, id, sfxs, pub) < |sfxs|
    ensures !raised ==> r' == RetireSuffixes(r, entry, root, f, id, sfxs)
    ensures raised ==> var j := FirstUnpublished(root, f, id, sfxs, pub);
      r' == RemoveEntity(RetireSuffixes(r, entry, root, f, id, sfxs[..j]), SensorKey(entry, f, id, sfxs[j]))
  {
    r' := r;
    var j := 0;
    while j < |sfxs|
      invariant 0 <= j <= |sfxs|
      invariant r' == RetireSuffixes(r, entry, root, f, id, sfxs[..j])
      invariant forall k :: 0 <= k < j ==> pub(TombstoneTopic(root, f, id, sfxs[k]))
    {
      var s := sfxs[j];
      RetireSuffixesSnoc(r, entry, root, f, id, sfxs, j);
      r' := RemoveEntity(r', SensorKey(entry, f, id, s));
      if !pub(TombstoneTopic(root, f, id, s)) {
        FirstUnpublishedAt(root, f, id, sfxs, pub, j);
        raised := true;
        return;
      }
      r' := Publish(r', TombstoneTopic(root, f, id, s), "");
      j := j + 1;
    }
    assert sfxs[..|sfxs|] == sfxs;
    FirstUnpublishedAt(root, f, id, sfxs, pub, |sfxs|);
    raised := false;
  }

  /** Retiring one more metric extends the retirement of the metrics before it. */
  lemma RetireSuffixesSnoc(r: Registry, entry: string, root: string, f: Family, id: string, sfxs: seq<string>, j: nat)
    requires j < |sfxs|
    ensures RetireSuffixes(r, entry, root, f, id, sfxs[..j + 1]) ==
      Publish(RemoveEntity(RetireSuffixes(r, entry, root, f, id, sfxs[..j]), SensorKey(entry, f, id, sfxs[j])),
        TombstoneTopic(root, f, id, sfxs[j]), "")
  {
    assert sfxs[..j + 1][..j] == sfxs[..j];
  }

  /** The removal loop for one missing resource: each metric, then the device; a raise skips the device. */
  method RetireResource(r: Registry, entry: string, root: string, f: Family, id: string, pub: string -> bool)
    returns (r': Registry, raised: bool)
    ensures raised <==> !Tombstoned(root, f, id, pub)
    ensures !raised ==> r' == RetireId(r, entry, root, f, id)
    ensures raised ==> r' == Halted(r, entry, root, f, id, pub)
  {
    r', raised := RetireMetrics(r, entry, root, f, id, Suffixes(f), pub);
    if !raised && f != Pool {
      r' := RemoveDevice(r', DeviceId(entry, f, id));
    }
  }

  /** The removal loop over the missing resources, in the given order, ended by the first raise. */
  method RetireAll(r: Registry, entry: string, root: string, f: Family, ids: seq<string>, pub: string -> bool)
    returns (r': Registry, raised: bool)
    ensures raised <==> !AllTombstoned(root, f, ids, pub)
    ensures !raised ==> r' == RetireIds(r, entry, root, f, ids)
    ensures raised ==> r' == Aborted(r, entry, root, f, ids, pub)
  {
    r' := r;
    var i := 0;
    while i < |ids|
      invariant 0 <= i <= |ids|
      invariant r' == RetireIds(r, entry, root, f, ids[..i])
      invariant forall k :: 0 <= k < i ==> Tombstoned(root, f, ids[k], pub)
    {
      assert ids[..i + 1][..i] == ids[..i];
      var r0 := r';
      r', raised := RetireResource(r', entry, root, f, ids[i], pub);
      if raised {
        FirstUntombstonedAt(root, f, ids, pub, i);
        AbortedAt(r, entry, root, f, ids, pub, i);
        return;
      }
      TombstonedStep(root, f, ids, pub, i);
      i := i + 1;
    }
    assert ids[..|ids|] == ids;
    FirstUntombstonedAt(root, f, ids, pub, |ids|);
    raised := false;
  }

  /**
   * The creation loop: the unique ids of the new sensors, resource by
   * resource in the given order. Creating the first sensor of a resource
   * whose model does not split raises, and the whole batch is dropped.
   */
  method NewSensorIds(entry: string, f: Family, ids: seq<string>, data: map<string, Value>)
    returns (u: seq<string>, raised: bool)
    ensures raised <==> exists i :: 0 <= i < |ids| && !Buildable(f, data, ids[i])
    ensures !raised ==> u == Batch(entry, f, ids)
  {
    u := [];
    var i := 0;
    while i < |ids|
      invariant 0 <= i <= |ids|
      invariant u == Batch(entry, f, ids[..i])
      invariant forall k :: 0 <= k < i ==> Buildable(f, data, ids[k])
    {
      if !Buildable(f, data, ids[i]) {
        return u, true;
      }
      var v := PerIdSensorIds(entry, f, ids[i]);
      assert ids[..i + 1][..i] == ids[..i];
      u := u + v;
      i := i + 1;
    }
    assert ids[..|ids|] == ids;
    raised := false;
  }

  /** The inner creation loop: one sensor per suffix of the family, in table order. */
  method PerIdSensorIds(entry: string, f: Family, id: string) returns (u: seq<string>)
    ensures u == PerId(entry, f, id)
  {
    var sfxs := Suffixes(f);
    u := [];
    var j := 0;
    while j < |sfxs|
      invariant 0 <= j <= |sfxs|
      invariant u == PerId(entry, f, id)[..j]
    {
      assert PerId(entry, f, id)[..j + 1] == PerId(entry, f, id)[..j] + [UniqueId(entry, f, id, sfxs[j])];
      u := u + [UniqueId(entry, f, id, sfxs[j])];
      j := j + 1;
    }
    assert PerId(entry, f, id)[..|sfxs|] == PerId(entry, f, id);
  }

  /**
   * The registry effects of a pass, computed by the two loops; a raise in
   * the first skips the second, and a raise in the second adds nothing.
   */
  method PassEffects(r: Registry, entry: string, root: string, f: Family, known: set<string>, detected: set<string>,
                     data: map<string, Value>, pub: string -> bool) returns (r': Registry, raised: bool)
    ensures raised <==> PassRaises(root, f, known, detected, pub) || BuildFails(f, data, detected - known)
    ensures !raised ==> r' == Reconciled(r, entry, root, f, known, detected)
    ensures PassRaises(root, f, known, detected, pub) ==> r' == Aborted(r, entry, root, f, Sorted(known - detected), pub)
    ensures raised && !PassRaises(root, f, known, detected, pub) ==> r' == RetireIds(r, entry, root, f, Sorted(known - detected))
  {
    var missing := known - detected;
    var order := SortStrings(missing);
    r' := r;
    raised := false;
    if missing != {} {
      r', raised := RetireAll(r', entry, root, f, order, pub);
      if raised {
        return;
      }
    }
    r', raised := CreateSensors(r', entry, f, detected - known, data);
  }

  /** The creation loop over the new ids, in sorted order; nothing is added when it raises. */
  method CreateSensors(r: Registry, entry: string, f: Family, added: set<string>, data: map<string, Value>)
    returns (r': Registry, raised: bool)
    ensures raised <==> BuildFails(f, data, added)
    ensures raised ==> r' == r
    ensures !raised && added == {} ==> r' == r
    ensures !raised && added != {} ==> r' == AddEntities(r, "sensor", entry, Batch(entry, f, Sorted(added)), BatchDevices(entry, f, added))
  {
    r' := r;
    raised := false;
    if added != {} {
      var addOrder := SortStrings(added);
      var uids;
      uids, raised := NewSensorIds(entry, f, addOrder, data);
      BuildFailsInOrder(f, data, added);
      if raised {
        return;
      }
      r' := AddEntities(r, "sensor", entry, uids, BatchDevices(entry, f, added));
    }
  }

  /** Some new id fails to build exactly when one does in the sorted creation order. */
  lemma BuildFailsInOrder(f: Family, data: map<string, Value>, added: set<string>)
    ensures BuildFails(f, data, added) <==> exists i :: 0 <= i < |Sorted(added)| && !Buildable(f, data, Sorted(added)[i])
  {
    var order := Sorted(added);
    if BuildFails(f, data, added) {
      var id :| id in added && !Buildable(f, data, id);
      assert id in order;
      var i :| 0 <= i < |order| && order[i] == id;
    }
  }

  /**
   * The registry part of a pass: the discovered set first loses the missing
   * ids, the registry gets the pass's effects, and the new ids are added.
   * A raise in either loop leaves the discovered set without the missing
   * ids and adds nothing.
   */
  method ApplyPass(c: Coordinator, root: string, f: Family, detected: set<string>, data: map<string, Value>,
                   pub: string -> bool) returns (raised: bool)
    modifies c
    ensures raised <==> PassRaises(root, f, old(Known(c, f)), detected, pub) || BuildFails(f, data, detected - old(Known(c, f)))
    ensures !raised ==> Known(c, f) == detected
    ensures !raised ==> c.Reg() == Reconciled(old(c.Reg()), c.entryId, root, f, old(Known(c, f)), detected)
    ensures raised ==> Known(c, f) == old(Known(c, f)) * detected
    ensures PassRaises(root, f, old(Known(c, f)), detected, pub) ==>
      c.Reg() == Aborted(old(c.Reg()), c.entryId, root, f, Sorted(old(Known(c, f)) - detected), pub)
    ensures raised && !PassRaises(root, f, old(Known(c, f)), detected, pub) ==>
      c.Reg() == RetireIds(old(c.Reg()), c.entryId, root, f, Sorted(old(Known(c, f)) - detected))
    ensures f != Drive ==> c.bays == old(c.bays)
    ensures f != Nvme ==> c.nvmes == old(c.nvmes)
    ensures f != Pool ==> c.pools == old(c.pools)
    ensures c.switches == old(c.switches) && c.data == old(c.data)
    ensures c.sensorAdd == old(c.sensorAdd) && c.buttonAdd == old(c.buttonAdd) && c.switchAdd == old(c.switchAdd)
  {
    var known := Known(c, f);
    ghost var reg0 := c.Reg();
    ForgetMissing(c, f, detected);
    var reg;
    reg, raised := PassEffects(c.Reg(), c.entryId, root, f, known, detected, data, pub);
    c.SetReg(reg);
    assert Known(c, f) == known * detected;
    if raised {
      return;
    }
    RecordNew(c, f, detected);
    assert c.Reg() == reg == Reconciled(reg0, c.entryId, root, f, known, detected);
    assert Known(c, f) == known * detected + detected == detected;
  }

  /** `discovered -= missing`, before the removal loop. */
  method ForgetMissing(c: Coordinator, f: Family, detected: set<string>)
    modifies c
    ensures Known(c, f) == old(Known(c, f)) * detected
    ensures f != Drive ==> c.bays == old(c.bays)
    ensures f != Nvme ==> c.nvmes == old(c.nvmes)
    ensures f != Pool ==> c.pools == old(c.pools)
    ensures c.Reg() == old(c.Reg()) && c.switches == old(c.switches) && c.data == old(c.data)
    ensures c.sensorAdd == old(c.sensorAdd) && c.buttonAdd == old(c.buttonAdd) && c.switchAdd == old(c.switchAdd)
  {
    var known := Known(c, f);
    var missing := known - detected;
    if missing != {} {
      SetKnown(c, f, known - missing);
    }
    assert known - missing == known * detected;
  }

  /** `discovered.update(new)`, after the creation loop: the discovered set gains what is detected. */
  method RecordNew(c: Coordinator, f: Family, detected: set<string>)
    modifies c
    ensures Known(c, f) == old(Known(c, f)) + detected
    ensures f != Drive ==> c.bays == old(c.bays)
    ensures f != Nvme ==> c.nvmes == old(c.nvmes)
    ensures f != Pool ==> c.pools == old(c.pools)
    ensures c.Reg() == old(c.Reg()) && c.switches == old(c.switches) && c.data == old(c.data)
    ensures c.sensorAdd == old(c.sensorAdd) && c.buttonAdd == old(c.buttonAdd) && c.switchAdd == old(c.switchAdd)
  {
    var added := detected - Known(c, f);
    if added != {} {
      SetKnown(c, f, Known(c, f) + added);
    }
    assert old(Known(c, f)) + added == old(Known(c, f)) + detected;
  }

  /**
   * `_discover_and_add_drive_sensors` and its NVMe and pool twins: read
   * the store, retire what it no longer announces, create sensors for
   * what it newly announces. Afterwards the discovered set is the
   * detected set, unless a tombstone publish or a sensor's creation
   * raised. The sensors read the store at the same instant, so they see
   * the snapshot the pass detected from.
   */
  method Reconcile(c: Coordinator, store: TelemetryStore, f: Family, now: int, pub: string -> bool) returns (raised: bool)
    requires store.Valid()
    modifies c, store
    ensures store.Valid() && store.Meta() == old(store.Meta())
    ensures store.data == old(store.data) - StaleKeys(old(store.stamps), now)
    ensures store.stamps == old(store.stamps) - StaleKeys(old(store.stamps), now)
    ensures raised <==> (PassRaises(store.root, f, old(Known(c, f)), Detected(f, store.data.Keys), pub) ||
      BuildFails(f, store.data, Detected(f, store.data.Keys) - old(Known(c, f))))
    ensures !raised ==> Known(c, f) == Detected(f, store.data.Keys)
    ensures !raised ==> c.Reg() == Reconciled(old(c.Reg()), c.entryId, store.root, f, old(Known(c, f)), Detected(f, store.data.Keys))
    ensures raised ==> Known(c, f) == old(Known(c, f)) * Detected(f, store.data.Keys)
    ensures PassRaises(store.root, f, old(Known(c, f)), Detected(f, store.data.Keys), pub) ==>
      c.Reg() == Aborted(old(c.Reg()), c.entryId, store.root, f, Sorted(old(Known(c, f)) - Detected(f, store.data.Keys)), pub)
    ensures raised && !PassRaises(store.root, f, old(Known(c, f)), Detected(f, store.data.Keys), pub) ==>
      c.Reg() == RetireIds(old(c.Reg()), c.entryId, store.root, f, Sorted(old(Known(c, f)) - Detected(f, store.data.Keys)))
    ensures f != Drive ==> c.bays == old(c.bays)
    ensures f != Nvme ==> c.nvmes == old(c.nvmes)
    ensures f != Pool ==> c.pools == old(c.pools)
    ensures c.switches == old(c.switches) && c.data == old(c.data)
    ensures c.sensorAdd == old(c.sensorAdd) && c.buttonAdd == old(c.buttonAdd) && c.switchAdd == old(c.switchAdd)
  {
    var snapshot := store.GetData(now);
    raised := ApplyPass(c, store.root, f, Detected(f, snapshot.Keys), snapshot, pub);
  }

  /** Reading the store a second time at the same instant drops nothing more. */
  lemma CleanupIdempotent(stamps: map<string, int>, now: int)
    ensures StaleKeys(stamps - StaleKeys(stamps, now), now) == {}
  {
  }

  /** Family `f`'s pass raises, given its discovered set and the store it reads. */
  ghost predicate FamilyRaises(root: string, f: Family, known: set<string>, data: map<string, Value>, pub: string -> bool) {
    TombstoneFails(root, f, known, Detected(f, data.Keys), pub) || BuildFails(f, data, Detected(f, data.Keys) - known)
  }

  /** Some family's pass of a round raises, given the discovered sets and the store it reads. */
  ghost predicate RoundRaises(root: string, bays: set<string>, nvmes: set<string>, pools: set<string>,
                              data: map<string, Value>, pub: string -> bool) {
    FamilyRaises(root, Drive, bays, data, pub) || FamilyRaises(root, Nvme, nvmes, data, pub) ||
    FamilyRaises(root, Pool, pools, data, pub)
  }

  /** When every publish gets through, only a sensor's creation can make a round raise. */
  lemma RoundRaisesOnBuild(root: string, bays: set<string>, nvmes: set<string>, pools: set<string>,
                           data: map<string, Value>, pub: string -> bool)
    requires forall t :: pub(t)
    requires RoundRaises(root, bays, nvmes, pools, data, pub)
    ensures SomeUnbuildable(data)
  {
    var fk := if FamilyRaises(root, Drive, bays, data, pub) then (Drive, bays)
      else if FamilyRaises(root, Nvme, nvmes, data, pub) then (Nvme, nvmes) else (Pool, pools);
    var f, known := fk.0, fk.1;
    assert FamilyRaises(root, f, known, data, pub);
    assert !TombstoneFails(root, f, known, Detected(f, data.Keys), pub);
    var id :| id in Detected(f, data.Keys) - known && !Buildable(f, data, id);
  }

  /** The passes of all three families at one instant; a raise ends the round. */
  method AllFamilies(c: Coordinator, store: TelemetryStore, now: int, pub: string -> bool) returns (raised: bool)
    requires store.Valid()
    modifies c, store
    ensures store.Valid()
    ensures store.data == old(store.data) - StaleKeys(old(store.stamps), now)
    ensures store.stamps == old(store.stamps) - StaleKeys(old(store.stamps), now)
    ensures raised <==> RoundRaises(store.root, old(c.bays), old(c.nvmes), old(c.pools), store.data, pub)
    ensures !raised ==> c.bays == Detected(Drive, store.data.Keys)
    ensures !raised ==> c.nvmes == Detected(Nvme, store.data.Keys)
    ensures !raised ==> c.pools == Detected(Pool, store.data.Keys)
  {
    ghost var bays, nvmes, pools := c.bays, c.nvmes, c.pools;
    raised := FamilyPass(c, store, Drive, now, pub);
    ghost var data := store.data;
    if raised {
      return;
    }
    CleanupIdempotent(old(store.stamps), now);
    raised := FamilyPass(c, store, Nvme, now, pub);
    assert store.data == data;
    if raised {
      return;
    }
    raised := FamilyPass(c, store, Pool, now, pub);
    assert store.data == data;
  }

  /** `Reconcile` seen from the other two families: only its own one changes. */
  method FamilyPass(c: Coordinator, store: TelemetryStore, f: Family, now: int, pub: string -> bool) returns (raised: bool)
    requires store.Valid()
    modifies c, store
    ensures store.Valid()
    ensures store.data == old(store.data) - StaleKeys(old(store.stamps), now)
    ensures store.stamps == old(store.stamps) - StaleKeys(old(store.stamps), now)
    ensures raised <==> FamilyRaises(store.root, f, old(Known(c, f)), store.data, pub)
    ensures !raised ==> Known(c, f) == Detected(f, store.data.Keys)
    ensures f != Drive ==> c.bays == old(c.bays)
    ensures f != Nvme ==> c.nvmes == old(c.nvmes)
    ensures f != Pool ==> c.pools == old(c.pools)
  {
    ghost var known := Known(c, f);
    raised := Reconcile(c, store, f, now, pub);
    PassRaisesMeans(store.root, f, known, Detected(f, store.data.Keys), pub);
  }

  /** Messages that arrive while the setup task sleeps. */
  method Deliver(store: TelemetryStore, msgs: seq<(string, string)>, now: int, parse: string -> Option<Json.Json>)
    requires store.Valid()
    modifies store
    ensures store.Valid()
    ensures store.data == MqttClient.StoredAfter(store.root, old(store.data), msgs, parse)
    ensures store.stamps == MqttClient.StampsAfter(store.root, old(store.stamps), msgs, now, parse)
    ensures store.subscriptions == old(store.subscriptions) && store.refreshes == old(store.refreshes)
    ensures store.coordinatorAttached == old(store.coordinatorAttached)
  {
    var i := 0;
    while i < |msgs|
      invariant 0 <= i <= |msgs| && store.Valid()
      invariant store.data == MqttClient.StoredAfter(store.root, old(store.data), msgs[..i], parse)
      invariant store.stamps == MqttClient.StampsAfter(store.root, old(store.stamps), msgs[..i], now, parse)
      invariant store.subscriptions == old(store.subscriptions) && store.refreshes == old(store.refreshes)
      invariant store.coordinatorAttached == old(store.coordinatorAttached)
    {
      DeliverOne(store, msgs[i], now, parse);
      assert msgs[..i + 1][..i] == msgs[..i];
      i := i + 1;
    }
    assert msgs[..|msgs|] == msgs;
  }

  /** One message of a delivery. */
  method DeliverOne(store: TelemetryStore, m: (string, string), now: int, parse: string -> Option<Json.Json>)
    requires store.Valid()
    modifies store
    ensures store.Valid()
    ensures store.data == MqttClient.StoreStep(store.root, old(store.data), m, parse)
    ensures store.stamps == match MqttClient.Written(MqttClient.Dispatch(store.root, m.0), m.1, parse)
      case None => old(store.stamps)
      case Some(kv) => old(store.stamps)[kv.0 := now]
    ensures store.subscriptions == old(store.subscriptions) && store.refreshes == old(store.refreshes)
    ensures store.coordinatorAttached == old(store.coordinatorAttached)
  {
    store.HandleMessage(m.0, m.1, now, parse);
  }

  predicate AnyKnown(c: Coordinator)
    reads c
  {
    c.bays != {} || c.nvmes != {} || c.pools != {}
  }

  /** Some drive, NVMe or pool is detected in `data`. */
  predicate AnyDetected(data: map<string, Value>) {
    Detected(Drive, data.Keys) != {} || Detected(Nvme, data.Keys) != {} || Detected(Pool, data.Keys) != {}
  }

  /** The messages that arrive during the sleep before retry `k`: the run `arrivals[k]`, none past the end (no sleep precedes pass 0, so `arrivals[0]` is never delivered). */
  function Arrival(arrivals: seq<seq<(string, string)>>, k: nat): seq<(string, string)> {
    if k < |arrivals| then arrivals[k] else []
  }

  /** The data map and the stamps of a store, as one pass of the discovery reads them. */
  datatype StoreView = StoreView(data: map<string, Value>, stamps: map<string, int>)

  /** Retry `k` of the setup discovery runs `k` sleeps of 5 seconds after the first pass (times in microseconds). */
  function RetryAt(now: int, k: nat): int {
    now + 5_000_000 * k
  }

  /** The data and stamps after a pass's cleanup at `t`. */
  function CleanedAt(data: map<string, Value>, stamps: map<string, int>, t: int): StoreView {
    StoreView(data - StaleKeys(stamps, t), stamps - StaleKeys(stamps, t))
  }

  /** The view of pass `k > 0`: the messages `Arrival(arrivals, k)` handled over the view `v` of pass `k - 1`, cleaned 5 seconds later. */
  ghost function Advance(root: string, v: StoreView, now: int, arrivals: seq<seq<(string, string)>>,
                         parse: string -> Option<Json.Json>, k: nat): StoreView {
    CleanedAt(StoredAfter(root, v.data, Arrival(arrivals, k), parse),
              StampsAfter(root, v.stamps, Arrival(arrivals, k), RetryAt(now, k), parse), RetryAt(now, k))
  }

  /**
   * `views[k]` is the data and stamps that pass `k` of the setup discovery
   * reads: pass 0 cleans the store at `now`, every later pass advances from
   * the one before.
   */
  ghost predicate SetupViews(root: string, data0: map<string, Value>, stamps0: map<string, int>, now: int,
                             arrivals: seq<seq<(string, string)>>, parse: string -> Option<Json.Json>, views: seq<StoreView>) {
    |views| >= 1 && views[0] == CleanedAt(data0, stamps0, now) &&
    forall k :: 1 <= k < |views| ==> views[k] == Advance(root, views[k - 1], now, arrivals, parse, k)
  }

  /** The runs of views from the same store and the same arrivals agree pass for pass. */
  lemma {:induction false} SetupViewsUnique(root: string, data0: map<string, Value>, stamps0: map<string, int>, now: int,
                                            arrivals: seq<seq<(string, string)>>, parse: string -> Option<Json.Json>,
                                            views: seq<StoreView>, other: seq<StoreView>, n: nat)
    requires SetupViews(root, data0, stamps0, now, arrivals, parse, views)
    requires SetupViews(root, data0, stamps0, now, arrivals, parse, other)
    requires n < |views| && n < |other|
    ensures views[n] == other[n]
  {
    if n > 0 {
      SetupViewsUnique(root, data0, stamps0, now, arrivals, parse, views, other, n - 1);
    }
  }

  /** The discovered set pass `k` starts from: the initial one for pass 0, empty after a pass that found nothing. */
  function Before(s: set<string>, k: nat): set<string> {
    if k == 0 then s else {}
  }

  /** Pass `k`, reading `data` with the discovered sets it starts from, found nothing and did not raise. */
  ghost predicate Quiet(root: string, bays: set<string>, nvmes: set<string>, pools: set<string>, pub: string -> bool,
                        data: map<string, Value>, k: nat) {
    !AnyDetected(data) && !RoundRaises(root, Before(bays, k), Before(nvmes, k), Before(pools, k), data, pub)
  }

  /**
   * `discover_drives`: one pass of the three reconcilers at setup; while
   * nothing is discovered, up to 12 more, 5 seconds apart, with the
   * messages `Arrival(arrivals, i)` delivered during the sleep before pass `i`.
   * A raise ends the task. `views[k]` is what pass `k` read.
   */
  method DiscoverOnSetup(c: Coordinator, store: TelemetryStore, now: int, arrivals: seq<seq<(string, string)>>,
                         parse: string -> Option<Json.Json>, pub: string -> bool)
    returns (passes: nat, raised: bool, ghost views: seq<StoreView>)
    requires store.Valid()
    modifies c, store
    ensures store.Valid()
    ensures 1 <= passes <= 13 && |views| == passes
    ensures SetupViews(store.root, old(store.data), old(store.stamps), now, arrivals, parse, views)
    ensures store.data == views[passes - 1].data && store.stamps == views[passes - 1].stamps
    ensures forall k :: 0 <= k < passes - 1 ==> Quiet(store.root, old(c.bays), old(c.nvmes), old(c.pools), pub, views[k].data, k)
    ensures raised <==> RoundRaises(store.root, Before(old(c.bays), passes - 1), Before(old(c.nvmes), passes - 1), Before(old(c.pools), passes - 1), store.data, pub)
    ensures raised && (forall t :: pub(t)) ==> SomeUnbuildable(store.data)
    ensures !raised && passes < 13 ==> AnyDetected(store.data)
    ensures !raised ==> (AnyKnown(c) <==> AnyDetected(store.data))
  {
    ghost var bays, nvmes, pools := c.bays, c.nvmes, c.pools;
    raised := AllFamilies(c, store, now, pub);
    if raised && (forall t :: pub(t)) {
      RoundRaisesOnBuild(store.root, bays, nvmes, pools, store.data, pub);
    }
    views := [StoreView(store.data, store.stamps)];
    passes, raised, views := RetryLoop(c, store, old(store.data), old(store.stamps), now, arrivals, parse, pub,
                                       bays, nvmes, pools, raised, views);
  }

  /** The retries of `discover_drives`, after the first pass read `views[0]` and raised or not. */
  method RetryLoop(c: Coordinator, store: TelemetryStore, ghost data0: map<string, Value>, ghost stamps0: map<string, int>,
                   now: int, arrivals: seq<seq<(string, string)>>, parse: string -> Option<Json.Json>, pub: string -> bool,
                   ghost bays: set<string>, ghost nvmes: set<string>, ghost pools: set<string>,
                   raised0: bool, ghost views0: seq<StoreView>)
    returns (passes: nat, raised: bool, ghost views: seq<StoreView>)
    requires store.Valid() && |views0| == 1
    requires SetupViews(store.root, data0, stamps0, now, arrivals, parse, views0)
    requires store.data == views0[0].data && store.stamps == views0[0].stamps
    requires raised0 <==> RoundRaises(store.root, bays, nvmes, pools, store.data, pub)
    requires raised0 && (forall t :: pub(t)) ==> SomeUnbuildable(store.data)
    requires !raised0 ==> c.bays == Detected(Drive, store.data.Keys)
    requires !raised0 ==> c.nvmes == Detected(Nvme, store.data.Keys)
    requires !raised0 ==> c.pools == Detected(Pool, store.data.Keys)
    modifies c, store
    ensures store.Valid()
    ensures 1 <= passes <= 13 && |views| == passes
    ensures SetupViews(store.root, data0, stamps0, now, arrivals, parse, views)
    ensures store.data == views[passes - 1].data && store.stamps == views[passes - 1].stamps
    ensures forall k :: 0 <= k < passes - 1 ==> Quiet(store.root, bays, nvmes, pools, pub, views[k].data, k)
    ensures raised <==> RoundRaises(store.root, Before(bays, passes - 1), Before(nvmes, passes - 1), Before(pools, passes - 1), store.data, pub)
    ensures raised && (forall t :: pub(t)) ==> SomeUnbuildable(store.data)
    ensures !raised && passes < 13 ==> AnyDetected(store.data)
    ensures !raised ==> (AnyKnown(c) <==> AnyDetected(store.data))
  {
    raised, views := raised0, views0;
    passes := 1;
    while passes < 13 && !raised && !AnyKnown(c)
      invariant store.Valid() && 1 <= passes <= 13 && |views| == passes
      invariant SetupViews(store.root, data0, stamps0, now, arrivals, parse, views)
      invariant store.data == views[passes - 1].data && store.stamps == views[passes - 1].stamps
      invariant forall k :: 0 <= k < passes - 1 ==> Quiet(store.root, bays, nvmes, pools, pub, views[k].data, k)
      invariant raised <==> RoundRaises(store.root, Before(bays, passes - 1), Before(nvmes, passes - 1), Before(pools, passes - 1), store.data, pub)
      invariant raised && (forall t :: pub(t)) ==> SomeUnbuildable(store.data)
      invariant !raised ==> c.bays == Detected(Drive, store.data.Keys)
      invariant !raised ==> c.nvmes == Detected(Nvme, store.data.Keys)
      invariant !raised ==> c.pools == Detected(Pool, store.data.Keys)
      decreases 13 - passes
    {
      raised, views := Retry(c, store, data0, stamps0, now, arrivals, parse, pub, views, passes);
      passes := passes + 1;
    }
  }

  /** Retry `k` of `discover_drives`, with nothing discovered yet; its view is added to `views`. */
  method Retry(c: Coordinator, store: TelemetryStore, ghost data0: map<string, Value>, ghost stamps0: map<string, int>,
               now: int, arrivals: seq<seq<(string, string)>>, parse: string -> Option<Json.Json>, pub: string -> bool,
               ghost views: seq<StoreView>, k: nat) returns (raised: bool, ghost views': seq<StoreView>)
    requires store.Valid() && c.bays == {} && c.nvmes == {} && c.pools == {} && k == |views|
    requires SetupViews(store.root, data0, stamps0, now, arrivals, parse, views)
    requires store.data == views[|views| - 1].data && store.stamps == views[|views| - 1].stamps
    modifies c, store
    ensures store.Valid()
    ensures views' == views + [StoreView(store.data, store.stamps)]
    ensures SetupViews(store.root, data0, stamps0, now, arrivals, parse, views')
    ensures raised <==> RoundRaises(store.root, {}, {}, {}, store.data, pub)
    ensures raised && (forall t :: pub(t)) ==> SomeUnbuildable(store.data)
    ensures !raised ==> c.bays == Detected(Drive, store.data.Keys)
    ensures !raised ==> c.nvmes == Detected(Nvme, store.data.Keys)
    ensures !raised ==> c.pools == Detected(Pool, store.data.Keys)
  {
    ghost var prev := views[k - 1];
    raised := RetryPass(c, store, RetryAt(now, k), Arrival(arrivals, k), parse, pub);
    assert StoreView(store.data, store.stamps) == Advance(store.root, prev, now, arrivals, parse, k);
    SetupViewsSnoc(store.root, data0, stamps0, now, arrivals, parse, views, StoreView(store.data, store.stamps));
    views' := views + [StoreView(store.data, store.stamps)];
  }

  lemma SetupViewsSnoc(root: string, data0: map<string, Value>, stamps0: map<string, int>, now: int,
                       arrivals: seq<seq<(string, string)>>, parse: string -> Option<Json.Json>,
                       views: seq<StoreView>, v: StoreView)
    requires SetupViews(root, data0, stamps0, now, arrivals, parse, views)
    requires v == Advance(root, views[|views| - 1], now, arrivals, parse, |views|)
    ensures SetupViews(root, data0, stamps0, now, arrivals, parse, views + [v])
  {
    var ext := views + [v];
    forall k | 1 <= k < |ext|
      ensures ext[k] == Advance(root, ext[k - 1], now, arrivals, parse, k)
    {
      if k < |views| {
        assert ext[k] == views[k] && ext[k - 1] == views[k - 1];
      }
    }
  }

  /** One retry of `discover_drives`: the sleep's messages arrive at `t`, then the three reconcilers run with nothing discovered. */
  method RetryPass(c: Coordinator, store: TelemetryStore, t: int, msgs: seq<(string, string)>,
                   parse: string -> Option<Json.Json>, pub: string -> bool) returns (raised: bool)
    requires store.Valid() && c.bays == {} && c.nvmes == {} && c.pools == {}
    modifies c, store
    ensures store.Valid()
    ensures store.data == CleanedAt(StoredAfter(store.root, old(store.data), msgs, parse), StampsAfter(store.root, old(store.stamps), msgs, t, parse), t).data
    ensures store.stamps == CleanedAt(StoredAfter(store.root, old(store.data), msgs, parse), StampsAfter(store.root, old(store.stamps), msgs, t, parse), t).stamps
    ensures raised <==> RoundRaises(store.root, {}, {}, {}, store.data, pub)
    ensures raised && (forall t :: pub(t)) ==> SomeUnbuildable(store.data)
    ensures !raised ==> c.bays == Detected(Drive, store.data.Keys)
    ensures !raised ==> c.nvmes == Detected(Nvme, store.data.Keys)
    ensures !raised ==> c.pools == Detected(Pool, store.data.Keys)
  {
    Deliver(store, msgs, t, parse);
    raised := AllFamilies(c, store, t, pub);
    if raised && (forall t :: pub(t)) {
      RoundRaisesOnBuild(store.root, {}, {}, {}, store.data, pub);
    }
  }

  /** The empty retained publish that retires a metric comes back on the key it clears, and stores nothing. */
  lemma TombstoneIgnored(root: string, f: Family, id: string, sfx: string, parse: string -> Option<Json.Json>)
    requires '/' !in id && '/' !in sfx
    ensures Dispatch(root, TombstoneTopic(root, f, id, sfx)) == StoreValue(KeyOf(f, id, sfx))
    ensures Written(Dispatch(root, TombstoneTopic(root, f, id, sfx)), "", parse).None?
  {
    match f
    case Drive =>
      assert TombstoneTopic(root, f, id, sfx) == root + "/hdd/" + id + "/" + sfx;
      DriveTopicKey(root, id, sfx);
    case Nvme =>
      assert TombstoneTopic(root, f, id, sfx) == root + "/nvme/" + id + "/" + sfx;
      NvmeTopicKey(root, id, sfx);
    case Pool =>
      assert TombstoneTopic(root, f, id, sfx) == root + "/pool/" + id + "/" + sfx;
      PoolTopicKey(root, id, sfx);
  }

  /** Every new resource brings 9, 11 or 4 sensors. */
  lemma BatchSizes(entry: string, f: Family, ids: seq<string>)
    ensures |Batch(entry, f, ids)| == |ids| * (match f case Drive => 9 case Nvme => 11 case Pool => 4)
  {
    BatchFacts(entry, f, ids);
  }

  // ---------------------------------------------------------------------
  // the fixed sensors

  /** The rows of `UNAS_SENSORS`. */
  datatype SystemSensor =
    | CpuTemp | CpuUsage | FanSpeed | FanSpeedPercent | MemoryUsage | MemoryUsed | MemoryTotal
    | DiskRead | DiskWrite | SmbConnections | NfsMounts | Uptime | OsVersion | DriveVersion | ProtectVersion

  /** The table, in order. */
  const SystemTable: seq<SystemSensor> := [
    CpuTemp, CpuUsage, FanSpeed, FanSpeedPercent, MemoryUsage, MemoryUsed, MemoryTotal,
    DiskRead, DiskWrite, SmbConnections, NfsMounts, Uptime, OsVersion, DriveVersion, ProtectVersion]

  /** The store key each row reads. */
  function SystemKey(x: SystemSensor): string {
    match x
    case CpuTemp => "unas_cpu_temp"
    case CpuUsage => "unas_cpu_usage"
    case FanSpeed => "unas_fan_speed"
    case FanSpeedPercent => "unas_fan_speed_percent"
    case MemoryUsage => "unas_memory_usage"
    case MemoryUsed => "unas_memory_used"
    case MemoryTotal => "unas_memory_total"
    case DiskRead => "unas_disk_read"
    case DiskWrite => "unas_disk_write"
    case SmbConnections => "unas_smb_connections"
    case NfsMounts => "unas_nfs_mounts"
    case Uptime => "unas_uptime"
    case OsVersion => "unas_os_version"
    case DriveVersion => "unas_drive_version"
    case ProtectVersion => "unas_protect_version"
  }

  /** A UNVR has no SMB, NFS or Drive; every other model has no Protect. */
  function Excluded(model: string): set<SystemSensor> {
    if model == "UNVR" then {SmbConnections, NfsMounts, DriveVersion} else {ProtectVersion}
  }

  /** The rows of `rows` not in `ex`, in order. */
  function Without(rows: seq<SystemSensor>, ex: set<SystemSensor>): (r: seq<SystemSensor>)
    decreases |rows|
  {
    if rows == [] then []
    else
      Without(rows[..|rows| - 1], ex) + (if rows[|rows| - 1] in ex then [] else [rows[|rows| - 1]])
  }

  /** The rows kept are exactly the rows not excluded. */
  lemma {:induction false} WithoutMembers(rows: seq<SystemSensor>, ex: set<SystemSensor>)
    ensures forall x :: x in Without(rows, ex) <==> x in rows && x !in ex
    decreases |rows|
  {
    if rows != [] {
      LastElement(rows);
      WithoutMembers(rows[..|rows| - 1], ex);
    }
  }

  /** The setup loop over the sensor table: the rows that are not excluded, in table order. */
  method Filter(rows: seq<SystemSensor>, ex: set<SystemSensor>) returns (r: seq<SystemSensor>)
    ensures r == Without(rows, ex)
  {
    r := [];
    var i := 0;
    while i < |rows|
      invariant 0 <= i <= |rows|
      invariant r == Without(rows[..i], ex)
    {
      assert rows[..i + 1][..i] == rows[..i];
      if rows[i] !in ex {
        r := r + [rows[i]];
      }
      i := i + 1;
    }
    assert rows[..|rows|] == rows;
  }

  lemma {:induction false} WithoutAppend(a: seq<SystemSensor>, b: seq<SystemSensor>, ex: set<SystemSensor>)
    ensures Without(a + b, ex) == Without(a, ex) + Without(b, ex)
    decreases |b|
  {
    if b != [] {
      var b' := b[..|b| - 1];
      assert (a + b)[..|a + b| - 1] == a + b';
      assert (a + b)[|a + b| - 1] == b[|b| - 1];
      WithoutAppend(a, b', ex);
    } else {
      assert a + b == a;
    }
  }

  /** Excluding rows that are not there changes nothing. */
  lemma {:induction false} WithoutNone(rows: seq<SystemSensor>, ex: set<SystemSensor>)
    requires forall x :: x in rows ==> x !in ex
    ensures Without(rows, ex) == rows
    decreases |rows|
  {
    if rows != [] {
      LastElement(rows);
      WithoutNone(rows[..|rows| - 1], ex);
    }
  }

  /** The table split where the UNVR exclusions fall. */
  lemma TableParts()
    ensures SystemTable == SystemTable[..9] + SystemTable[9..11] + SystemTable[11..13] + SystemTable[13..]
    ensures SystemTable[9..11] == [SmbConnections, NfsMounts] && SystemTable[13..] == [DriveVersion, ProtectVersion]
  {
  }

  /** The UNVR exclusions drop the two share rows and the Drive row, and keep the rest. */
  lemma UnvrKeeps()
    ensures Without(SystemTable[..9], Excluded("UNVR")) == SystemTable[..9]
    ensures Without(SystemTable[11..13], Excluded("UNVR")) == SystemTable[11..13]
  {
    var ex := Excluded("UNVR");
    var front := [CpuTemp, CpuUsage, FanSpeed, FanSpeedPercent, MemoryUsage, MemoryUsed, MemoryTotal, DiskRead, DiskWrite];
    assert SystemTable[..9] == front;
    assert SystemTable[11..13] == [Uptime, OsVersion];
    WithoutNone(front, ex);
    WithoutNone([Uptime, OsVersion], ex);
  }

  lemma UnvrDrops()
    ensures Without([SmbConnections, NfsMounts], Excluded("UNVR")) == []
    ensures Without([DriveVersion, ProtectVersion], Excluded("UNVR")) == [ProtectVersion]
  {
    assert [SmbConnections, NfsMounts][..1] == [SmbConnections];
    assert [DriveVersion, ProtectVersion][..1] == [DriveVersion];
  }

  /** A UNVR gets 12 system sensors: Protect, but no SMB, NFS or Drive sensor. */
  lemma UnvrSystemSensors()
    ensures Without(SystemTable, Excluded("UNVR")) == SystemTable[..9] + SystemTable[11..13] + [ProtectVersion]
    ensures |Without(SystemTable, Excluded("UNVR"))| == 12
  {
    var ex := Excluded("UNVR");
    var front, shares, middle, tail := SystemTable[..9], SystemTable[9..11], SystemTable[11..13], SystemTable[13..];
    TableParts();
    UnvrKeeps();
    UnvrDrops();
    WithoutAppend(front + shares + middle, tail, ex);
    WithoutAppend(front + shares, middle, ex);
    WithoutAppend(front, shares, ex);
  }

  /** Every other model gets the other 14: all but the Protect sensor. */
  lemma OtherSystemSensors(model: string)
    requires model != "UNVR"
    ensures Without(SystemTable, Excluded(model)) == SystemTable[..14]
  {
    var ex := Excluded(model);
    LastElement(SystemTable);
    assert SystemTable[..|SystemTable| - 1] == SystemTable[..14];
    WithoutNone(SystemTable[..14], ex);
  }

  /**
   * The platform setup: the system sensors and the curve sensor are added
   * at once under the main device, and the add-entities callback is kept
   * for the poll cycle.
   */
  method SetupPlatform(c: Coordinator, model: string)
    modifies c
    ensures c.sensorAdd
    ensures c.Reg() == AddEntities(old(c.Reg()), "sensor", c.entryId, SetupIds(c.entryId, model), {c.entryId})
    ensures c.bays == old(c.bays) && c.nvmes == old(c.nvmes) && c.pools == old(c.pools) && c.switches == old(c.switches)
    ensures c.data == old(c.data) && c.buttonAdd == old(c.buttonAdd) && c.switchAdd == old(c.switchAdd)
  {
    var rows := Filter(SystemTable, Excluded(model));
    var uids := seq(|rows|, i requires 0 <= i < |rows| => c.entryId + "_" + SystemKey(rows[i])) + [c.entryId + "_fan_curve_viz"];
    c.SetReg(AddEntities(c.Reg(), "sensor", c.entryId, uids, {c.entryId}));
    c.sensorAdd := true;
  }

  /** The unique ids added at setup. */
  function SetupIds(entry: string, model: string): (u: seq<string>)
    ensures |u| == |Without(SystemTable, Excluded(model))| + 1
    ensures u[|u| - 1] == entry + "_fan_curve_viz"
  {
    var rows := Without(SystemTable, Excluded(model));
    seq(|rows|, i requires 0 <= i < |rows| => entry + "_" + SystemKey(rows[i])) + [entry + "_fan_curve_viz"]
  }
}
