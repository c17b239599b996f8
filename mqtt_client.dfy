/**
 * The MQTT telemetry store of `mqtt_client.py`: topics under the entry's
 * namespace are routed to keys, payloads are coerced to numbers where
 * they parse, every write is time-stamped, old values expire, and writes
 * schedule one debounced coordinator refresh.
 *
 * Time is a parameter in microseconds, the resolution of Python's
 * `datetime`.
 */
module MqttClient {
  import opened Text
  import opened Json
  import Const

  /** Half a second: the refresh debounce. */
  const RefreshDebounce := 500_000
  /** Values and the whole store are stale after 120 seconds. */
  const StaleAfter := 120_000_000

  /** A stored value: what `int()`/`float()` made of the payload, or the payload itself. */
  datatype Value =
    | VInt(i: int)
    | VFloat(raw: string)
    | VStr(s: string)
    | VJson(j: Json)

  /** What a message on a topic does. */
  datatype Action =
    | Ignore
    | SetStatus
    | StoreValue(key: string)
    | StoreAttributes(key: string)

  /** `s.lstrip(c)` for one character. */
  function LStripChar(s: string, c: char): (r: string)
    ensures |r| <= |s| && r == s[|s| - |r|..]
    ensures r == [] || r[0] != c
    ensures forall i :: 0 <= i < |s| - |r| ==> s[i] == c
    decreases |s|
  {
    if |s| > 0 && s[0] == c then LStripChar(s[1..], c) else s
  }

  /** `_handle_one_part`. */
  function RouteOne(level: string): (a: Action)
    ensures a == SetStatus || a == Ignore
  {
    if level == "availability" then SetStatus else Ignore
  }

  /** `_handle_two_part`. */
  function RouteTwo(category: string, item: string): (a: Action)
    ensures a != SetStatus
    ensures category == "system" ==> a == StoreValue("unas_" + item)
    ensures category == "control" ==> a == StoreValue(item)
    ensures a.StoreAttributes? <==> (category == "smb" || category == "nfs") && item == "clients"
    ensures category == "smb" && item == "connections" ==> a == StoreValue("unas_smb_connections")
    ensures category == "smb" && item == "clients" ==> a == StoreAttributes("unas_smb_connections")
    ensures category == "nfs" && item == "mounts" ==> a == StoreValue("unas_nfs_mounts")
    ensures category == "nfs" && item == "clients" ==> a == StoreAttributes("unas_nfs_mounts")
    ensures a == Ignore <==>
      (category !in ["system", "control", "smb", "nfs"] ||
       (category == "smb" && item !in ["connections", "clients"]) ||
       (category == "nfs" && item !in ["mounts", "clients"]))
  {
    if category == "system" then StoreValue("unas_" + item)
    else if category == "smb" then
      if item == "connections" then StoreValue("unas_smb_connections")
      else if item == "clients" then StoreAttributes("unas_smb_connections")
      else Ignore
    else if category == "nfs" then
      if item == "mounts" then StoreValue("unas_nfs_mounts")
      else if item == "clients" then StoreAttributes("unas_nfs_mounts")
      else Ignore
    else if category == "control" then StoreValue(item)
    else Ignore
  }

  /** `_handle_three_part`. */
  function RouteThree(category: string, identifier: string, metric: string): (a: Action)
    ensures a.StoreValue? || a.Ignore?
    ensures category == "hdd" || category == "nvme" ==> a == StoreValue("unas_" + category + "_" + identifier + "_" + metric)
    ensures category == "pool" ==> a == StoreValue("unas_pool" + identifier + "_" + metric)
    ensures category == "control" && identifier == "fan" && metric == "mode" ==> a == StoreValue("fan_mode")
    ensures a == Ignore <==>
      category !in ["hdd", "nvme", "pool"] && !(category == "control" && identifier == "fan" && metric == "mode")
  {
    if category == "hdd" || category == "nvme" then
      StoreValue("unas_" + category + "_" + identifier + "_" + metric)
    else if category == "pool" then StoreValue("unas_pool" + identifier + "_" + metric)
    else if category == "control" && identifier == "fan" && metric == "mode" then StoreValue("fan_mode")
    else Ignore
  }

  /** `_handle_four_part`. */
  function RouteFour(parts: seq<string>): (a: Action)
    requires |parts| == 4
    ensures a.StoreValue? || a.Ignore?
    ensures a.StoreValue? <==> parts[0] == "control" && parts[1] == "fan" && parts[2] == "curve"
    ensures a.StoreValue? ==> a.key == "fan_curve_" + parts[3]
  {
    assert parts[..3] == ["control", "fan", "curve"] <==> parts[0] == "control" && parts[1] == "fan" && parts[2] == "curve";
    if parts[..3] == ["control", "fan", "curve"] then StoreValue("fan_curve_" + parts[3]) else Ignore
  }

  /** The handlers, by number of topic levels below the namespace. */
  function Route(parts: seq<string>): (a: Action)
    ensures a == SetStatus <==> parts == ["availability"]
    ensures a.StoreAttributes? ==> |parts| == 2 && parts[1] == "clients"
    ensures |parts| == 1 && parts[0] != "availability" ==> a == Ignore
    ensures |parts| == 0 || |parts| > 4 ==> a == Ignore
  {
    if |parts| == 1 then RouteOne(parts[0])
    else if |parts| == 2 then RouteTwo(parts[0], parts[1])
    else if |parts| == 3 then RouteThree(parts[0], parts[1], parts[2])
    else if |parts| == 4 then RouteFour(parts)
    else Ignore
  }

  /**
   * Routing of a topic: it must start with the namespace (as text, with no
   * level boundary required); the rest, without leading slashes, is split
   * into levels. Splitting always yields at least one level, so the source's
   * empty-parts guard never fires.
   */
  function Dispatch(root: string, topic: string): (a: Action)
    ensures !StartsWith(topic, root) ==> a == Ignore
  {
    if !StartsWith(topic, root) then Ignore
    else Route(Split(LStripChar(topic[|root|..], '/'), "/"))
  }

  /**
   * `_store_value`'s coercion: an empty payload stores nothing; a payload
   * with a point becomes a float when `float()` accepts it; any other
   * payload becomes an int when `int()` accepts it; otherwise the text.
   */
  function Coerce(payload: string): (r: Option<Value>)
    ensures r.None? <==> payload == ""
    ensures r.Some? && r.value.VInt? ==> ParseInt(payload) == Some(r.value.i)
    ensures r.Some? && r.value.VFloat? ==> r.value.raw == payload && '.' in payload && ParseDecimal(payload).Some?
    ensures r.Some? && r.value.VStr? ==> r.value.s == payload
    ensures r.Some? ==> !r.value.VJson?
    ensures '.' !in payload && ParseInt(payload).Some? ==> r == Some(VInt(ParseInt(payload).value))
    ensures '.' in payload && ParseDecimal(payload).Some? ==> r == Some(VFloat(payload))
    ensures (payload != "" && ('.' in payload ==> ParseDecimal(payload).None?) &&
             ('.' !in payload ==> ParseInt(payload).None?)) ==> r == Some(VStr(payload))
  {
    if payload == "" then None
    else if '.' in payload then
      if ParseDecimal(payload).Some? then Some(VFloat(payload)) else Some(VStr(payload))
    else
      match ParseInt(payload)
      case Some(n) => Some(VInt(n))
      case None => Some(VStr(payload))
  }

  /** An integer published as `str(n)` is stored as that integer. */
  lemma CoerceInt(n: int)
    ensures Coerce(IntToString(n)) == Some(VInt(n))
  {
    IntRoundTrip(n);
    ContainsChar(IntToString(n), '.');
  }

  /** Keys that never expire: the fan-curve, fan-mode and interval settings. */
  predicate Exempt(key: string) {
    StartsWith(key, "fan_curve_") || StartsWith(key, "fan_mode") || StartsWith(key, "monitor_interval")
  }

  /** The keys `_cleanup_stale_data` deletes at time `now`. */
  function StaleKeys(stamps: map<string, int>, now: int): (r: set<string>)
    ensures forall k :: k in r <==> k in stamps && !Exempt(k) && now - stamps[k] > StaleAfter
  {
    set k | k in stamps && !Exempt(k) && now - stamps[k] > StaleAfter
  }

  /** A key survives the cleanup exactly when it is exempt or at most 120 seconds old. */
  lemma KeptKeys(data: map<string, Value>, stamps: map<string, int>, now: int)
    requires data.Keys == stamps.Keys
    ensures forall k :: k in data - StaleKeys(stamps, now) <==> k in data && (Exempt(k) || now - stamps[k] <= StaleAfter)
  {
  }

  /** The key/value pair a message writes, if any. */
  function Written(a: Action, payload: string, parse: string -> Option<Json>): (r: Option<(string, Value)>)
    ensures a.StoreValue? ==> (r.Some? <==> payload != "")
    ensures a.StoreAttributes? ==> (r.Some? <==> parse(payload).Some?)
    ensures (a.Ignore? || a.SetStatus?) ==> r.None?
    ensures r.Some? && a.StoreValue? ==> r.value == (a.key, Coerce(payload).value)
    ensures r.Some? && a.StoreAttributes? ==> r.value == (a.key + "_attributes", VJson(parse(payload).value))
  {
    match a
    case StoreValue(k) =>
      (match Coerce(payload) case None => None case Some(v) => Some((k, v)))
    case StoreAttributes(k) =>
      (match parse(payload) case None => None case Some(j) => Some((k + "_attributes", VJson(j))))
    case _ => None
  }

  /** The data map after a run of messages under `root`, each written in turn. */
  function StoredAfter(root: string, data: map<string, Value>, msgs: seq<(string, string)>,
                       parse: string -> Option<Json>): (r: map<string, Value>)
    ensures data.Keys <= r.Keys
    ensures (forall i :: 0 <= i < |msgs| ==> Written(Dispatch(root, msgs[i].0), msgs[i].1, parse).None?) ==> r == data
    decreases |msgs|
  {
    if msgs == [] then data
    else StoreStep(root, StoredAfter(root, data, msgs[..|msgs| - 1], parse), msgs[|msgs| - 1], parse)
  }

  /** The stamps after a run of messages delivered at `now`: every key a message writes is stamped `now`. */
  function StampsAfter(root: string, stamps: map<string, int>, msgs: seq<(string, string)>, now: int,
                       parse: string -> Option<Json>): (r: map<string, int>)
    ensures stamps.Keys <= r.Keys
    ensures forall k :: k in r ==> r[k] == now || (k in stamps && r[k] == stamps[k])
    decreases |msgs|
  {
    if msgs == [] then stamps
    else
      var prev := StampsAfter(root, stamps, msgs[..|msgs| - 1], now, parse);
      match Written(Dispatch(root, msgs[|msgs| - 1].0), msgs[|msgs| - 1].1, parse)
      case None => prev
      case Some(kv) => prev[kv.0 := now]
  }

  /** The data map after one message `(topic, payload)`. */
  function StoreStep(root: string, data: map<string, Value>, m: (string, string), parse: string -> Option<Json>): map<string, Value> {
    match Written(Dispatch(root, m.0), m.1, parse)
    case None => data
    case Some(kv) => data[kv.0 := kv.1]
  }

  /** `UNASMQTTClient`: one per config entry. */
  class TelemetryStore {
    const root: string
    var data: map<string, Value>
    var stamps: map<string, int>
    var status: string
    var lastUpdate: Option<int>
    /** The deadline of the pending refresh timer, if one is scheduled. */
    var pendingDue: Option<int>
    var coordinatorAttached: bool
    /** Number of live MQTT subscriptions. */
    var subscriptions: nat
    /** Coordinator refreshes requested so far. */
    var refreshes: nat

    /** Everything but the two maps. */
    function Meta(): (string, Option<int>, Option<int>, nat, nat, bool)
      reads this
    {
      (status, lastUpdate, pendingDue, subscriptions, refreshes, coordinatorAttached)
    }

    ghost predicate Valid()
      reads this
    {
      data.Keys == stamps.Keys && (lastUpdate.None? ==> stamps == map[])
    }

    constructor (entryId: string)
      ensures root == Const.MqttRoot(entryId)
      ensures data == map[] && stamps == map[] && status == "unknown" && lastUpdate == None
      ensures pendingDue == None && !coordinatorAttached && subscriptions == 0 && refreshes == 0
      ensures Valid()
    {
      root := Const.MqttRoot(entryId);
      data := map[];
      stamps := map[];
      status := "unknown";
      lastUpdate := None;
      pendingDue := None;
      coordinatorAttached := false;
      subscriptions := 0;
      refreshes := 0;
    }

    /** The coordinator registers itself so that refreshes reach it. */
    method AttachCoordinator()
      modifies this
      ensures coordinatorAttached
      ensures data == old(data) && stamps == old(stamps) && status == old(status) && lastUpdate == old(lastUpdate)
      ensures pendingDue == old(pendingDue) && subscriptions == old(subscriptions) && refreshes == old(refreshes)
    {
      coordinatorAttached := true;
    }

    /** Subscribes to the whole namespace; nothing happens when MQTT is not loaded or subscribing fails. */
    method Subscribe(mqttLoaded: bool, subscribeOk: bool)
      modifies this
      ensures subscriptions == if mqttLoaded && subscribeOk then old(subscriptions) + 1 else old(subscriptions)
      ensures data == old(data) && stamps == old(stamps) && status == old(status) && lastUpdate == old(lastUpdate)
      ensures pendingDue == old(pendingDue) && refreshes == old(refreshes) && coordinatorAttached == old(coordinatorAttached)
    {
      if mqttLoaded && subscribeOk {
        subscriptions := subscriptions + 1;
      }
    }

    /** Cancels the pending refresh and drops every subscription. */
    method Unsubscribe() returns (dropped: nat)
      modifies this
      ensures dropped == old(subscriptions) && subscriptions == 0 && pendingDue == None
      ensures data == old(data) && stamps == old(stamps) && status == old(status) && lastUpdate == old(lastUpdate)
      ensures refreshes == old(refreshes) && coordinatorAttached == old(coordinatorAttached)
    {
      pendingDue := None;
      dropped := subscriptions;
      subscriptions := 0;
    }

    /** `_schedule_refresh`: any pending timer is replaced by one due half a second from now. */
    method ScheduleRefresh(now: int)
      modifies this
      ensures pendingDue == Some(now + RefreshDebounce)
      ensures data == old(data) && stamps == old(stamps) && status == old(status) && lastUpdate == old(lastUpdate)
      ensures subscriptions == old(subscriptions) && refreshes == old(refreshes) && coordinatorAttached == old(coordinatorAttached)
    {
      pendingDue := Some(now + RefreshDebounce);
    }

    /** The event loop reaching time `now`: a due timer fires and asks the coordinator, if any, to refresh. */
    method Tick(now: int)
      modifies this
      ensures old(pendingDue).Some? && now >= old(pendingDue).value ==>
        pendingDue == None && refreshes == old(refreshes) + (if coordinatorAttached then 1 else 0)
      ensures !(old(pendingDue).Some? && now >= old(pendingDue).value) ==>
        pendingDue == old(pendingDue) && refreshes == old(refreshes)
      ensures data == old(data) && stamps == old(stamps) && status == old(status) && lastUpdate == old(lastUpdate)
      ensures subscriptions == old(subscriptions) && coordinatorAttached == old(coordinatorAttached)
    {
      if pendingDue.Some? && now >= pendingDue.value {
        pendingDue := None;
        if coordinatorAttached {
          refreshes := refreshes + 1;
        }
      }
    }

    /** `_handle_message`: route the topic, then write the status or a value. */
    method HandleMessage(topic: string, payload: string, now: int, parse: string -> Option<Json>)
      requires Valid()
      modifies this
      ensures Valid()
      ensures Dispatch(root, topic) == SetStatus ==> status == payload
      ensures Dispatch(root, topic) != SetStatus ==> status == old(status)
      ensures Written(Dispatch(root, topic), payload, parse).None? ==>
        data == old(data) && stamps == old(stamps) && lastUpdate == old(lastUpdate)
      ensures Written(Dispatch(root, topic), payload, parse).Some? ==>
        var kv := Written(Dispatch(root, topic), payload, parse).value;
        data == old(data)[kv.0 := kv.1] && stamps == old(stamps)[kv.0 := now] && lastUpdate == Some(now)
      ensures Dispatch(root, topic) == SetStatus || Written(Dispatch(root, topic), payload, parse).Some? ==>
        pendingDue == Some(now + RefreshDebounce)
      ensures Dispatch(root, topic) != SetStatus && Written(Dispatch(root, topic), payload, parse).None? ==>
        pendingDue == old(pendingDue)
      ensures subscriptions == old(subscriptions) && refreshes == old(refreshes) && coordinatorAttached == old(coordinatorAttached)
    {
      var a := Dispatch(root, topic);
      var w := Written(a, payload, parse);
      Apply(a, w, payload, now);
    }

    /** The effect of a dispatched message: a status update, or a store of `w`. */
    method Apply(a: Action, w: Option<(string, Value)>, payload: string, now: int)
      requires Valid()
      requires a == SetStatus ==> w.None?
      modifies this
      ensures Valid()
      ensures a == SetStatus ==> status == payload
      ensures a != SetStatus ==> status == old(status)
      ensures w.None? ==> data == old(data) && stamps == old(stamps) && lastUpdate == old(lastUpdate)
      ensures w.Some? ==> data == old(data)[w.value.0 := w.value.1] && stamps == old(stamps)[w.value.0 := now] && lastUpdate == Some(now)
      ensures a == SetStatus || w.Some? ==> pendingDue == Some(now + RefreshDebounce)
      ensures a != SetStatus && w.None? ==> pendingDue == old(pendingDue)
      ensures subscriptions == old(subscriptions) && refreshes == old(refreshes) && coordinatorAttached == old(coordinatorAttached)
    {
      if a == SetStatus {
        status := payload;
        ScheduleRefresh(now);
      } else if w.Some? {
        data := data[w.value.0 := w.value.1];
        stamps := stamps[w.value.0 := now];
        lastUpdate := Some(now);
        ScheduleRefresh(now);
      }
    }

    /**
     * `is_available`: not offline, and some value arrived within the last 120
     * seconds. An available store keeps its freshest samples through the next
     * cleanup; a store unavailable only because of age loses every
     * non-exempt sample no newer than its last update.
     */
    function IsAvailable(now: int): (r: bool)
      reads this
      ensures r ==> status != "offline" && lastUpdate.Some?
      ensures r ==> forall k :: k in stamps && stamps[k] == lastUpdate.value ==> k !in StaleKeys(stamps, now)
      ensures !r && status != "offline" && lastUpdate.Some? ==>
        forall k :: k in stamps && stamps[k] <= lastUpdate.value && !Exempt(k) ==> k in StaleKeys(stamps, now)
    {
      status != "offline" && lastUpdate.Some? && now - lastUpdate.value <= StaleAfter
    }

    /** `get_data`: drops stale values, then returns a copy of the store. */
    method GetData(now: int) returns (r: map<string, Value>)
      requires Valid()
      modifies this
      ensures Valid()
      ensures data == old(data) - StaleKeys(old(stamps), now)
      ensures stamps == old(stamps) - StaleKeys(old(stamps), now)
      ensures r == data
      ensures status == old(status) && lastUpdate == old(lastUpdate) && pendingDue == old(pendingDue)
      ensures subscriptions == old(subscriptions) && refreshes == old(refreshes) && coordinatorAttached == old(coordinatorAttached)
    {
      var stale := CollectStale(stamps, now);
      var d := DropKeys(data, stale);
      var st := DropKeys(stamps, stale);
      assert st.Keys <= stamps.Keys;
      if lastUpdate.None? {
        assert st == map[];
      }
      data, stamps := d, st;
      r := data;
    }
  }

  /** The first loop of `_cleanup_stale_data`: the keys to delete. */
  method CollectStale(stamps: map<string, int>, now: int) returns (stale: set<string>)
    ensures stale == StaleKeys(stamps, now)
  {
    stale := {};
    var todo := stamps.Keys;
    while todo != {}
      invariant todo <= stamps.Keys
      invariant forall k :: k in stale <==> k in stamps && k !in todo && !Exempt(k) && now - stamps[k] > StaleAfter
      decreases |todo|
    {
      var k :| k in todo;
      if !Exempt(k) && now - stamps[k] > StaleAfter {
        stale := stale + {k};
      }
      todo := todo - {k};
    }
  }

  /** The second loop: delete each collected key. */
  method DropKeys<V>(m: map<string, V>, keys: set<string>) returns (r: map<string, V>)
    ensures r == m - keys
  {
    r := m;
    var gone := keys;
    while gone != {}
      invariant gone <= keys
      invariant r == m - (keys - gone)
      decreases |gone|
    {
      var k :| k in gone;
      r := r - {k};
      gone := gone - {k};
    }
  }


  /** Routing goes through the levels below the namespace. */
  lemma DispatchVia(root: string, topic: string, parts: seq<string>)
    requires StartsWith(topic, root) && Split(LStripChar(topic[|root|..], '/'), "/") == parts
    ensures Dispatch(root, topic) == Route(parts)
  {
  }

  lemma StatusLevels()
    ensures Split(LStripChar("/availability", '/'), "/") == ["availability"]
  {
    var t := "/availability";
    assert forall i :: 1 <= i < |t| ==> t[i] != '/';
    OneLevel(t);
    assert t[1..] == "availability";
  }

  /** `/{level}` with a slash-free level splits into that one level. */
  lemma OneLevel(t: string)
    requires |t| > 1 && t[0] == '/' && t[1] != '/' && '/' !in t[1..]
    ensures Split(LStripChar(t, '/'), "/") == [t[1..]]
  {
    assert LStripChar(t[1..], '/') == t[1..];
    ContainsChar(t[1..], '/');
    SplitAbsent(t[1..], "/");
  }

  lemma RouteStatus()
    ensures Route(["availability"]) == SetStatus
  {
  }

  lemma RouteKeyHdd(bay: string, metric: string)
    ensures Route(["hdd", bay, metric]) == StoreValue("unas_hdd_" + bay + "_" + metric)
  {
  }

  lemma RouteKeyNvme(slot: string, metric: string)
    ensures Route(["nvme", slot, metric]) == StoreValue("unas_nvme_" + slot + "_" + metric)
  {
  }

  lemma RouteKeyPool(n: string, metric: string)
    ensures Route(["pool", n, metric]) == StoreValue("unas_pool" + n + "_" + metric)
  {
  }

  lemma RouteCpuTemp()
    ensures Route(["system", "cpu_temp"]) == StoreValue("unas_cpu_temp")
  {
  }

  lemma StatusTopic(root: string)
    ensures Dispatch(root, root + "/availability") == SetStatus
  {
    var t := root + "/availability";
    assert t[..|root|] == root;
    assert t[|root|..] == "/availability";
    StatusLevels();
    DispatchVia(root, t, ["availability"]);
    RouteStatus();
  }

  /** The status topic of the topic table sets the status. */
  lemma AvailabilityTopicSetsStatus(entryId: string)
    ensures Dispatch(Const.MqttRoot(entryId), Const.MqttTopics(entryId)["availability"]) == SetStatus
  {
    var root := Const.MqttRoot(entryId);
    assert Const.MqttTopics(entryId)["availability"] == root + "/availability";
    StatusTopic(root);
  }

  /** `{root}/{category}/{id}/{metric}` with slash-free levels splits into its three levels. */
  lemma {:induction false} ThreeLevels(root: string, category: string, id: string, metric: string)
    requires |category| > 0 && category[0] != '/'
    requires '/' !in category && '/' !in id && '/' !in metric
    ensures var t := root + "/" + category + "/" + id + "/" + metric;
      StartsWith(t, root) && Split(LStripChar(t[|root|..], '/'), "/") == [category, id, metric]
  {
    var t := root + "/" + category + "/" + id + "/" + metric;
    assert t[..|root|] == root;
    var rest := category + "/" + id + "/" + metric;
    assert t[|root|..] == "/" + rest;
    assert LStripChar("/" + rest, '/') == LStripChar(rest, '/');
    assert LStripChar(rest, '/') == rest;
    SplitThree(category, id, metric);
  }

  /** Three slash-free levels joined by slashes split back into themselves. */
  lemma SplitThree(a: string, b: string, c: string)
    requires '/' !in a && '/' !in b && '/' !in c
    ensures Split(a + "/" + b + "/" + c, "/") == [a, b, c]
  {
    ContainsChar(c, '/');
    SplitAbsent(c, "/");
    SplitCharCons(b, '/', c);
    assert a + "/" + b + "/" + c == a + "/" + (b + "/" + c);
    SplitCharCons(a, '/', b + "/" + c);
  }

  /** `{root}/{category}/{item}` with slash-free levels splits into its two levels. */
  lemma {:induction false} TwoLevels(root: string, category: string, item: string)
    requires |category| > 0 && category[0] != '/'
    requires '/' !in category && '/' !in item
    ensures var t := root + "/" + category + "/" + item;
      StartsWith(t, root) && Split(LStripChar(t[|root|..], '/'), "/") == [category, item]
  {
    var t := root + "/" + category + "/" + item;
    assert t[..|root|] == root;
    var rest := category + "/" + item;
    assert t[|root|..] == "/" + rest;
    assert LStripChar("/" + rest, '/') == LStripChar(rest, '/');
    assert LStripChar(rest, '/') == rest;
    ContainsChar(item, '/');
    SplitAbsent(item, "/");
    SplitCharCons(category, '/', item);
  }

  /** `{root}/{a}/{b}/{c}/{d}` with slash-free levels splits into its four levels. */
  lemma {:induction false} FourLevels(root: string, a: string, b: string, c: string, d: string)
    requires |a| > 0 && a[0] != '/'
    requires '/' !in a && '/' !in b && '/' !in c && '/' !in d
    ensures var t := root + "/" + a + "/" + b + "/" + c + "/" + d;
      StartsWith(t, root) && Split(LStripChar(t[|root|..], '/'), "/") == [a, b, c, d]
  {
    var rest := a + "/" + b + "/" + c + "/" + d;
    assert root + "/" + a + "/" + b + "/" + c + "/" + d == root + "/" + rest;
    RootLevels(root, rest);
    SplitFour(a, b, c, d);
  }

  /** Below the root and its slash, a topic is the rest as written when that rest starts with a level. */
  lemma RootLevels(root: string, rest: string)
    requires |rest| > 0 && rest[0] != '/'
    ensures var t := root + "/" + rest;
      StartsWith(t, root) && LStripChar(t[|root|..], '/') == rest
  {
    var t := root + "/" + rest;
    assert t[..|root|] == root;
    assert t[|root|..] == "/" + rest;
    assert LStripChar("/" + rest, '/') == LStripChar(rest, '/');
  }

  /** Four slash-free levels joined by slashes split back into themselves. */
  lemma SplitFour(a: string, b: string, c: string, d: string)
    requires '/' !in a && '/' !in b && '/' !in c && '/' !in d
    ensures Split(a + "/" + b + "/" + c + "/" + d, "/") == [a, b, c, d]
  {
    SplitThree(b, c, d);
    assert a + "/" + b + "/" + c + "/" + d == a + "/" + (b + "/" + c + "/" + d);
    SplitCharCons(a, '/', b + "/" + c + "/" + d);
  }

  /** A system metric `{root}/system/{m}` lands on `unas_{m}`. */
  lemma SystemTopicKey(root: string, m: string)
    requires '/' !in m
    ensures Dispatch(root, root + "/system/" + m) == StoreValue("unas_" + m)
  {
    var t := root + "/system/" + m;
    assert t == root + "/" + "system" + "/" + m;
    TwoLevelTopic(root, "system", m);
  }

  /** A control state `{root}/control/{x}` lands on the bare key `{x}`. */
  lemma ControlTopicKey(root: string, x: string)
    requires '/' !in x
    ensures Dispatch(root, root + "/control/" + x) == StoreValue(x)
  {
    var t := root + "/control/" + x;
    assert t == root + "/" + "control" + "/" + x;
    TwoLevelTopic(root, "control", x);
  }

  /** A fan-curve parameter `{root}/control/fan/curve/{p}` lands on `fan_curve_{p}`. */
  lemma CurveTopicKey(root: string, p: string)
    requires '/' !in p
    ensures Dispatch(root, root + "/control/fan/curve/" + p) == StoreValue("fan_curve_" + p)
  {
    assert "/control/fan/curve/" == "/" + "control" + "/" + "fan" + "/" + "curve" + "/";
    SlashJoinFour(root, "control", "fan", "curve", p);
    FourLevelTopic(root, "control", "fan", "curve", p);
    CurveRoute(p);
  }

  lemma CurveRoute(p: string)
    ensures Route(["control", "fan", "curve", p]) == StoreValue("fan_curve_" + p)
  {
    var parts := ["control", "fan", "curve", p];
    assert parts[0] == "control" && parts[1] == "fan" && parts[2] == "curve";
  }

  /** A four-level topic `{root}/{a}/{b}/{c}/{d}` takes the route of its four levels. */
  lemma FourLevelTopic(root: string, a: string, b: string, c: string, d: string)
    requires |a| > 0 && a[0] != '/'
    requires '/' !in a && '/' !in b && '/' !in c && '/' !in d
    ensures Dispatch(root, root + "/" + a + "/" + b + "/" + c + "/" + d) == Route([a, b, c, d])
  {
    FourLevels(root, a, b, c, d);
    DispatchVia(root, root + "/" + a + "/" + b + "/" + c + "/" + d, [a, b, c, d]);
  }

  lemma SlashJoinFour(root: string, a: string, b: string, c: string, d: string)
    ensures root + "/" + a + "/" + b + "/" + c + "/" + d == root + ("/" + a + "/" + b + "/" + c + "/") + d
  {
  }

  /** A two-level topic `{root}/{category}/{item}` takes the route of its two levels. */
  lemma TwoLevelTopic(root: string, category: string, item: string)
    requires |category| > 0 && category[0] != '/'
    requires '/' !in category && '/' !in item
    ensures Dispatch(root, root + "/" + category + "/" + item) == RouteTwo(category, item)
  {
    TwoLevels(root, category, item);
    DispatchVia(root, root + "/" + category + "/" + item, [category, item]);
  }

  /**
   * The SMB share topics: the connection count is stored as a value and
   * the client list as attributes of the same sensor.
   */
  lemma SmbTopicKeys(root: string, item: string)
    requires '/' !in item
    ensures item == "connections" ==> Dispatch(root, root + "/smb/" + item) == StoreValue("unas_smb_connections")
    ensures item == "clients" ==> Dispatch(root, root + "/smb/" + item) == StoreAttributes("unas_smb_connections")
  {
    assert "/smb/" == "/" + "smb" + "/";
    SlashJoin(root, "smb", item);
    TwoLevelTopic(root, "smb", item);
  }

  /** The NFS share topics: the mount count as a value, the client list as its attributes. */
  lemma NfsTopicKeys(root: string, item: string)
    requires '/' !in item
    ensures item == "mounts" ==> Dispatch(root, root + "/nfs/" + item) == StoreValue("unas_nfs_mounts")
    ensures item == "clients" ==> Dispatch(root, root + "/nfs/" + item) == StoreAttributes("unas_nfs_mounts")
  {
    assert "/nfs/" == "/" + "nfs" + "/";
    SlashJoin(root, "nfs", item);
    TwoLevelTopic(root, "nfs", item);
  }

  lemma SlashJoin(root: string, category: string, item: string)
    ensures root + "/" + category + "/" + item == root + ("/" + category + "/") + item
  {
  }

  /** A drive reading published by the monitor lands on `unas_hdd_{bay}_{metric}`. */
  lemma DriveTopicKey(root: string, bay: string, metric: string)
    requires '/' !in bay && '/' !in metric
    ensures Dispatch(root, root + "/hdd/" + bay + "/" + metric) == StoreValue("unas_hdd_" + bay + "_" + metric)
  {
    var t := root + "/hdd/" + bay + "/" + metric;
    assert t == root + "/" + "hdd" + "/" + bay + "/" + metric;
    ThreeLevels(root, "hdd", bay, metric);
    DispatchVia(root, t, ["hdd", bay, metric]);
    RouteKeyHdd(bay, metric);

  }

  /** An NVMe reading lands on `unas_nvme_{slot}_{metric}`. */
  lemma NvmeTopicKey(root: string, slot: string, metric: string)
    requires '/' !in slot && '/' !in metric
    ensures Dispatch(root, root + "/nvme/" + slot + "/" + metric) == StoreValue("unas_nvme_" + slot + "_" + metric)
  {
    var t := root + "/nvme/" + slot + "/" + metric;
    assert t == root + "/" + "nvme" + "/" + slot + "/" + metric;
    ThreeLevels(root, "nvme", slot, metric);
    DispatchVia(root, t, ["nvme", slot, metric]);
    RouteKeyNvme(slot, metric);

  }

  /** A pool reading lands on `unas_pool{n}_{metric}`, with no separator after `pool`. */
  lemma PoolTopicKey(root: string, n: string, metric: string)
    requires '/' !in n && '/' !in metric
    ensures Dispatch(root, root + "/pool/" + n + "/" + metric) == StoreValue("unas_pool" + n + "_" + metric)
  {
    var t := root + "/pool/" + n + "/" + metric;
    assert t == root + "/" + "pool" + "/" + n + "/" + metric;
    ThreeLevels(root, "pool", n, metric);
    DispatchVia(root, t, ["pool", n, metric]);
    RouteKeyPool(n, metric);

  }

  lemma SystemLevels()
    ensures Split(LStripChar("system/cpu_temp", '/'), "/") == ["system", "cpu_temp"]
  {
    StripNoSlash("system/cpu_temp");
    SplitCpuTemp();
  }

  lemma StripNoSlash(s: string)
    requires |s| > 0 && s[0] != '/'
    ensures LStripChar(s, '/') == s
  {
  }

  lemma SplitCpuTemp()
    ensures Split("system/cpu_temp", "/") == ["system", "cpu_temp"]
  {
    ContainsChar("cpu_temp", '/');
    SplitAbsent("cpu_temp", "/");
    SplitCharCons("system", '/', "cpu_temp");
    assert "system/cpu_temp" == "system" + "/" + "cpu_temp";
  }

  /**
   * The namespace test is a plain prefix test: a topic that continues the
   * root without a slash is still routed.
   */
  lemma NamespaceWithoutSlash(root: string)
    ensures Dispatch(root, root + "system/cpu_temp") == StoreValue("unas_cpu_temp")
  {
    var t := root + "system/cpu_temp";
    assert t[..|root|] == root;
    assert t[|root|..] == "system/cpu_temp";
    SystemLevels();
    DispatchVia(root, t, ["system", "cpu_temp"]);
    RouteCpuTemp();
  }

  /** Every key a control topic writes is exempt from expiry. */
  lemma ControlKeysExempt(param: string)
    ensures Exempt("fan_mode") && Exempt("monitor_interval") && Exempt("fan_curve_" + param)
  {
    assert ("fan_curve_" + param)[..10] == "fan_curve_";
  }

  /**
   * A sample written at time 0 is gone when the store is read 121 seconds
   * later, unless its key is exempt; the store then also reports itself
   * unavailable.
   */
  method StaleScenario(key: string) returns (kept: bool, available: bool)
    ensures kept <==> Exempt(key)
    ensures !available
  {
    var s := new TelemetryStore("01HXYZABCDEFG");
    s.data := map[key := VInt(1)];
    s.stamps := map[key := 0];
    s.lastUpdate := Some(0);
    var r := s.GetData(121_000_000);
    kept := key in r;
    available := s.IsAvailable(121_000_000);
  }

  /** A message that resets the refresh timer: a status update or a stored value. */
  predicate Schedules(root: string, msg: (string, string), parse: string -> Option<Json>) {
    Dispatch(root, msg.0) == SetStatus || Written(Dispatch(root, msg.0), msg.1, parse).Some?
  }

  /**
   * Debouncing, for any burst: messages at `times`, each within half a second
   * of the one before, with the event loop reaching each message's time just
   * before it arrives, and then reaching `now`. The burst asks for no refresh
   * while it lasts; the final tick asks for exactly one when it comes half a
   * second or more after the last message, and for none before that.
   */
  method Burst(s: TelemetryStore, msgs: seq<(string, string)>, times: seq<int>, now: int, parse: string -> Option<Json>)
    requires s.Valid() && s.coordinatorAttached && s.pendingDue == None
    requires |msgs| == |times| > 0
    requires forall i :: 0 <= i < |msgs| ==> Schedules(s.root, msgs[i], parse)
    requires forall i :: 0 < i < |times| ==> times[i - 1] <= times[i] < times[i - 1] + RefreshDebounce
    requires now >= times[|times| - 1]
    modifies s
    ensures s.Valid()
    ensures s.refreshes == old(s.refreshes) + (if now >= times[|times| - 1] + RefreshDebounce then 1 else 0)
    ensures s.pendingDue == if now >= times[|times| - 1] + RefreshDebounce then None else Some(times[|times| - 1] + RefreshDebounce)
  {
    ghost var r0 := s.refreshes;
    var last := times[|times| - 1];
    var i := 0;
    while i < |msgs|
      invariant 0 <= i <= |msgs|
      invariant s.Valid() && s.coordinatorAttached && s.refreshes == r0
      invariant s.pendingDue == if i == 0 then None else Some(times[i - 1] + RefreshDebounce)
    {
      assert Schedules(s.root, msgs[i], parse);
      assert i > 0 ==> times[i] < times[i - 1] + RefreshDebounce;
      BurstStep(s, msgs[i], times[i], parse);
      i := i + 1;
    }
    assert s.pendingDue == Some(last + RefreshDebounce);
    s.Tick(now);
  }

  /** One message of a burst: the loop reaches its time before any timer is due, then the message re-arms the timer. */
  method BurstStep(s: TelemetryStore, msg: (string, string), t: int, parse: string -> Option<Json>)
    requires s.Valid() && Schedules(s.root, msg, parse)
    requires s.pendingDue.None? || t < s.pendingDue.value
    modifies s
    ensures s.Valid() && s.coordinatorAttached == old(s.coordinatorAttached)
    ensures s.refreshes == old(s.refreshes) && s.pendingDue == Some(t + RefreshDebounce)
  {
    s.Tick(t);
    s.HandleMessage(msg.0, msg.1, t, parse);
  }

  /** Three status messages within half a second trigger exactly one coordinator refresh. */
  method BurstScenario(parse: string -> Option<Json>) returns (refreshed: nat)
    ensures refreshed == 1
  {
    var s := new TelemetryStore("01HXYZABCDEFG");
    s.AttachCoordinator();
    var t := s.root + "/availability";
    StatusTopic(s.root);
    s.HandleMessage(t, "online", 0, parse);
    s.Tick(100_000);
    s.HandleMessage(t, "online", 200_000, parse);
    s.Tick(400_000);
    s.HandleMessage(t, "online", 450_000, parse);
    s.Tick(949_999);
    s.Tick(950_000);
    s.Tick(2_000_000);
    refreshed := s.refreshes;
  }
}
