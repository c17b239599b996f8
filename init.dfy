/**
 * The integration's entry points in `__init__.py`: the config-entry
 * migration, the version comparison that gates the one-off MQTT cleanup,
 * the redeploy decision at setup, the list of retired discovery topics
 * the cleanup clears, and the coordinator's poll cycle with its status
 * record and best-effort backup-task fetch.
 *
 * `packaging.Version` is an oracle: `atLeast` compares two versions, and
 * is `None` when either is invalid. The integration's own version, the
 * MQTT integration's presence and the outcome of each publish are
 * parameters.
 */
module Init {
  import opened Text
  import opened Json
  import opened Coordinator
  import MqttClient
  import SshManager
  import Const

  /** A config entry: its schema version and its data. */
  datatype Entry = Entry(version: nat, data: map<string, Json>)

  const DeviceModelKey := "device_model"
  const ScanIntervalKey := "scan_interval"
  const LastCleanupKey := "last_cleanup_version"
  const LastDeployKey := "last_deploy_version"

  // ---------------------------------------------------------------------
  // migration

  /** `async_migrate_entry`: version 1 gets the default device model if it has none, and becomes version 2. */
  function Migrate(e: Entry): (r: Entry)
    ensures e.version != 1 ==> r == e
    ensures e.version == 1 ==> r.version == 2 && DeviceModelKey in r.data
    ensures e.version == 1 ==> r.data.Keys == e.data.Keys + {DeviceModelKey}
    ensures e.version == 1 ==> forall k :: k in e.data ==> r.data[k] == e.data[k]
    ensures e.version == 1 && DeviceModelKey !in e.data ==> r.data[DeviceModelKey] == JStr(Const.DefaultDeviceModel)
  {
    if e.version == 1 then
      Entry(2, if DeviceModelKey in e.data then e.data else e.data[DeviceModelKey := JStr(Const.DefaultDeviceModel)])
    else e
  }

  /** Migrating twice is migrating once. */
  lemma MigrateIdempotent(e: Entry)
    ensures Migrate(Migrate(e)) == Migrate(e)
  {
  }

  /** The device model every setup and redeploy reads; a missing key is the `KeyError` the caller sees. */
  function DeviceModelOf(data: map<string, Json>): (r: Option<string>)
    ensures r.Some? <==> DeviceModelKey in data && data[DeviceModelKey].JStr?
    ensures r.Some? ==> data[DeviceModelKey] == JStr(r.value)
  {
    if DeviceModelKey in data && data[DeviceModelKey].JStr? then Some(data[DeviceModelKey].s) else None
  }

  /** After migrating a version-1 entry, the device model can always be read. */
  lemma MigratedHasModel(e: Entry)
    requires e.version == 1
    requires DeviceModelKey in e.data ==> e.data[DeviceModelKey].JStr?
    ensures DeviceModelOf(Migrate(e).data).Some?
    ensures DeviceModelKey !in e.data ==> DeviceModelOf(Migrate(e).data) == Some(Const.DefaultDeviceModel)
  {
  }

  // ---------------------------------------------------------------------
  // versions

  /** A version recorded in the entry, when it is a string. */
  function StoredVersion(data: map<string, Json>, key: string): (r: Option<string>)
    ensures r.Some? <==> key in data && data[key].JStr?
    ensures r.Some? ==> data[key] == JStr(r.value)
  {
    if key in data && data[key].JStr? then Some(data[key].s) else None
  }

  function WithoutDev(v: string): string { Replace(v, "-dev", "") }

  /**
   * `_version_at_least`: nothing recorded is never recent enough; two
   * valid versions compare with `-dev` removed (`atLeast(a, b)` is
   * `Version(a) >= Version(b)`, `None` when either is invalid);
   * otherwise the strings must be equal.
   */
  function VersionAtLeast(stored: Option<string>, target: string, atLeast: (string, string) -> Option<bool>): (r: bool)
    ensures stored.None? ==> !r
    ensures stored.Some? && atLeast(WithoutDev(stored.value), WithoutDev(target)).Some? ==>
      r == atLeast(WithoutDev(stored.value), WithoutDev(target)).value
    ensures stored.Some? && atLeast(WithoutDev(stored.value), WithoutDev(target)).None? ==> (r <==> stored.value == target)
  {
    if stored.None? then false
    else
      var c := atLeast(WithoutDev(stored.value), WithoutDev(target));
      if c.Some? then c.value else stored.value == target
  }

  /** The version order is reflexive: a valid version is at least itself. */
  ghost predicate Reflexive(atLeast: (string, string) -> Option<bool>) {
    forall v :: atLeast(v, v) != Some(false)
  }

  /** For a reflexive order, a recorded version is at least itself, valid or not. */
  lemma {:induction false} VersionAtLeastSelf(v: string, atLeast: (string, string) -> Option<bool>)
    requires Reflexive(atLeast)
    ensures VersionAtLeast(Some(v), v, atLeast)
  {
    assert atLeast(WithoutDev(v), WithoutDev(v)) != Some(false);
  }

  /** A development build and its release compare the same when both parse. */
  lemma DevBuildComparesAsRelease(a: string, b: string, target: string, atLeast: (string, string) -> Option<bool>)
    requires WithoutDev(a) == WithoutDev(b)
    requires atLeast(WithoutDev(a), WithoutDev(target)).Some?
    ensures VersionAtLeast(Some(a), target, atLeast) == VersionAtLeast(Some(b), target, atLeast)
  {
  }

  // ---------------------------------------------------------------------
  // the redeploy decision at setup

  /** Setup redeploys when the recorded deploy is of another version, the scripts are missing, or this is a `-dev` build. */
  function ShouldRedeploy(lastDeploy: Option<string>, current: string, scriptsInstalled: bool): (r: bool)
    ensures !r <==> lastDeploy == Some(current) && scriptsInstalled && !Contains(current, "-dev")
  {
    lastDeploy != Some(current) || !scriptsInstalled || Contains(current, "-dev")
  }

  /** Once a release is deployed and its scripts are in place, setup leaves them alone; a `-dev` build is redeployed every time. */
  lemma RedeployAfterDeploy(current: string)
    ensures ShouldRedeploy(Some(current), current, true) <==> Contains(current, "-dev")
  {
  }

  /** Nothing recorded, or missing scripts, always redeploys. */
  lemma RedeployWhenUnknown(lastDeploy: Option<string>, current: string, scriptsInstalled: bool)
    requires lastDeploy.None? || !scriptsInstalled
    ensures ShouldRedeploy(lastDeploy, current, scriptsInstalled)
  {
  }

  /**
   * The deploy part of `async_setup_entry`: connect, check the scripts,
   * read the device model, and redeploy when `ShouldRedeploy` says so,
   * recording the version. `ok` is false for the exceptions that abort
   * the setup; the entry is then unchanged.
   */
  method SetupDeploy(s: SshManager.Session, entryId: string, entry: Entry, current: string, t: SshManager.Templates,
                     env: SshManager.Env) returns (entry': Entry, deployed: bool, ok: bool)
    requires s.Valid()
    modifies s
    ensures s.Valid()
    ensures deployed ==> ok
    ensures !ok ==> entry' == entry
    ensures ok ==> DeviceModelOf(entry.data).Some?
    ensures ok ==> (deployed <==> ShouldRedeploy(StoredVersion(entry.data, LastDeployKey), current,
                                                  SshManager.ScriptsInstalledOf(env.stdout(SshManager.ScriptsCheck))))
    ensures deployed ==> entry' == entry.(data := entry.data[LastDeployKey := JStr(current)])
    ensures deployed ==> StoredVersion(entry'.data, LastDeployKey) == Some(current)
    ensures ok && !deployed ==> entry' == entry
  {
    entry', deployed := entry, false;
    ok := s.Connect(env);
    if !ok {
      return;
    }
    var scripts := s.ScriptsInstalled(env);
    if scripts.None? {
      return entry, false, false;
    }
    var model := DeviceModelOf(entry.data);
    if model.None? {
      return entry, false, false;
    }
    assert scripts.value == SshManager.ScriptsInstalledOf(env.stdout(SshManager.ScriptsCheck));
    entry', deployed, ok := DeployIfDue(s, entryId, entry, current, model.value, scripts.value, t, env);
  }

  /**
   * The tail of `SetupDeploy` once the scripts check and the model are
   * known: redeploy when due and record the current version.
   */
  method DeployIfDue(s: SshManager.Session, entryId: string, entry: Entry, current: string, model: string,
                     installed: bool, t: SshManager.Templates, env: SshManager.Env)
    returns (entry': Entry, deployed: bool, ok: bool)
    requires s.Valid()
    modifies s
    ensures s.Valid()
    ensures deployed ==> ok
    ensures !ok ==> entry' == entry && !deployed
    ensures ok ==> (deployed <==> ShouldRedeploy(StoredVersion(entry.data, LastDeployKey), current, installed))
    ensures deployed ==> entry' == entry.(data := entry.data[LastDeployKey := JStr(current)])
    ensures deployed ==> StoredVersion(entry'.data, LastDeployKey) == Some(current)
    ensures ok && !deployed ==> entry' == entry
  {
    entry', deployed, ok := entry, false, true;
    if ShouldRedeploy(StoredVersion(entry.data, LastDeployKey), current, installed) {
      ok := Redeploy(s, model, entryId, t, env);
      if !ok {
        return entry, false, false;
      }
      entry' := entry.(data := entry.data[LastDeployKey := JStr(current)]);
      deployed := true;
    }
  }

  /** `deploy_scripts` with the entry's MQTT root; `false` for the exception it raises. */
  method Redeploy(s: SshManager.Session, model: string, entryId: string, t: SshManager.Templates, env: SshManager.Env)
    returns (ok: bool)
    requires s.Valid()
    modifies s
    ensures s.Valid()
    ensures ok <==> SshManager.Reachable(old(s.conn), env) && SshManager.DeployGetsThrough(env)
    ensures SshManager.Reachable(old(s.conn), env) ==> SshManager.Reachable(s.conn, env)
  {
    ghost var done;
    // the "root" entry of the topic map
    ok, done := s.DeployScripts(model, Const.MqttRoot(entryId), t, env);
  }

  /** The retained `monitor_interval` setup publishes: the configured scan interval, 30 by default. */
  function MonitorIntervalMessage(entryId: string, data: map<string, Json>): (m: Option<(string, string)>)
    ensures m.Some? <==> ScanIntervalKey !in data || data[ScanIntervalKey].JInt?
    ensures m.Some? ==> m.value.0 == Const.MqttRoot(entryId) + "/" + "control" + "/monitor_interval"
    ensures ScanIntervalKey !in data ==> m.value.1 == IntToString(Const.DefaultScanInterval)
    ensures ScanIntervalKey in data && data[ScanIntervalKey].JInt? ==> m.value.1 == IntToString(data[ScanIntervalKey].i)
  {
    var topic := Const.MqttTopics(entryId)["control"] + "/monitor_interval";
    if ScanIntervalKey !in data then
      Some((topic, IntToString(Const.DefaultScanInterval)))
    else if data[ScanIntervalKey].JInt? then Some((topic, IntToString(data[ScanIntervalKey].i)))
    else None
  }

  // ---------------------------------------------------------------------
  // the retired discovery topics

  const SystemCleanup := ["unas_uptime", "unas_os_version", "unas_drive_version", "unas_cpu_usage", "unas_memory_used",
                          "unas_memory_total", "unas_memory_usage", "unas_cpu", "unas_fan_speed", "unas_fan_speed_percent"]
  const PoolMetrics := ["usage", "size", "used", "available"]
  const HddMetrics := ["temperature", "model", "serial", "rpm", "firmware", "status", "total_size", "power_hours", "bad_sectors"]

  function PoolName(i: int, j: nat): string
    requires j < 4
  {
    "unas_pool" + IntToString(i) + "_" + PoolMetrics[j]
  }

  function HddName(bay: int, j: nat): string
    requires j < 9
  {
    "unas_hdd_" + IntToString(bay) + "_" + HddMetrics[j]
  }

  /** The names one pool adds. */
  function PoolTopics(i: int): (t: seq<string>)
    ensures |t| == 4 && forall j :: 0 <= j < 4 ==> t[j] == PoolName(i, j)
  {
    seq(4, j requires 0 <= j < 4 => PoolName(i, j))
  }

  /** The names one bay adds. */
  function HddTopics(bay: int): (t: seq<string>)
    ensures |t| == 9 && forall j :: 0 <= j < 9 ==> t[j] == HddName(bay, j)
  {
    seq(9, j requires 0 <= j < 9 => HddName(bay, j))
  }

  /** The pool names for pools 1..n. */
  function Pools(n: nat): seq<string>
  {
    if n == 0 then [] else Pools(n - 1) + PoolTopics(n)
  }

  /** The bay names for bays 1..n. */
  function Hdds(n: nat): seq<string>
  {
    if n == 0 then [] else Hdds(n - 1) + HddTopics(n)
  }

  /** The whole list: the system names, pools 1..5, bays 1..7. */
  function CleanupList(): seq<string> {
    SystemCleanup + Pools(5) + Hdds(7)
  }

  lemma {:induction false} PoolsLength(n: nat)
    ensures |Pools(n)| == 4 * n
  {
    if n > 0 {
      PoolsLength(n - 1);
    }
  }

  lemma {:induction false} PoolAt(n: nat, i: int, j: nat)
    requires 1 <= i <= n && j < 4
    ensures |Pools(n)| == 4 * n && Pools(n)[4 * (i - 1) + j] == PoolTopics(i)[j]
  {
    PoolsLength(n);
    PoolsLength(n - 1);
    if i < n {
      PoolAt(n - 1, i, j);
    }
  }

  lemma PoolsLayout(n: nat)
    ensures |Pools(n)| == 4 * n
    ensures forall i, j :: 1 <= i <= n && 0 <= j < 4 ==> Pools(n)[4 * (i - 1) + j] == PoolName(i, j)
  {
    PoolsLength(n);
    forall i, j | 1 <= i <= n && 0 <= j < 4
      ensures Pools(n)[4 * (i - 1) + j] == PoolName(i, j)
    {
      PoolAt(n, i, j);
    }
  }

  lemma {:induction false} HddsLength(n: nat)
    ensures |Hdds(n)| == 9 * n
  {
    if n > 0 {
      HddsLength(n - 1);
    }
  }

  lemma {:induction false} HddAt(n: nat, b: int, j: nat)
    requires 1 <= b <= n && j < 9
    ensures |Hdds(n)| == 9 * n && Hdds(n)[9 * (b - 1) + j] == HddTopics(b)[j]
  {
    HddsLength(n);
    HddsLength(n - 1);
    if b < n {
      HddAt(n - 1, b, j);
    }
  }

  lemma HddsLayout(n: nat)
    ensures |Hdds(n)| == 9 * n
    ensures forall b, j :: 1 <= b <= n && 0 <= j < 9 ==> Hdds(n)[9 * (b - 1) + j] == HddName(b, j)
  {
    HddsLength(n);
    forall b, j | 1 <= b <= n && 0 <= j < 9
      ensures Hdds(n)[9 * (b - 1) + j] == HddName(b, j)
    {
      HddAt(n, b, j);
    }
  }

  /** 10 system names, then 4 per pool for pools 1..5, then 9 per bay for bays 1..7: 93 in all. */
  lemma CleanupLayout()
    ensures |CleanupList()| == 93
    ensures CleanupList()[..10] == SystemCleanup
    ensures forall i, j :: 1 <= i <= 5 && 0 <= j < 4 ==> CleanupList()[10 + 4 * (i - 1) + j] == PoolName(i, j)
    ensures forall b, j :: 1 <= b <= 7 && 0 <= j < 9 ==> CleanupList()[30 + 9 * (b - 1) + j] == HddName(b, j)
  {
    PoolsLayout(5);
    HddsLayout(7);
  }

  /** `topics_to_clear`, built as the source builds it. */
  method CleanupTopics() returns (t: seq<string>)
    ensures t == CleanupList()
  {
    t := SystemCleanup;
    for i := 1 to 6
      invariant t == SystemCleanup + Pools(i - 1)
    {
      ConcatAssoc(SystemCleanup, Pools(i - 1), PoolTopics(i));
      t := t + PoolTopics(i);
    }
    for bay := 1 to 8
      invariant t == SystemCleanup + Pools(5) + Hdds(bay - 1)
    {
      ConcatAssoc(SystemCleanup + Pools(5), Hdds(bay - 1), HddTopics(bay));
      t := t + HddTopics(bay);
    }
  }

  function DiscoveryConfig(name: string): string { "homeassistant/sensor/" + name + "/config" }

  /** The publishes that went through, in order; `ok(k)` is whether the k-th did. */
  function Cleared(topics: seq<string>, ok: nat -> bool): seq<Effect>
    decreases |topics|
  {
    if topics == [] then []
    else
      var k := |topics| - 1;
      Cleared(topics[..k], ok) + (if ok(k) then [Published(DiscoveryConfig(topics[k]), "", true)] else [])
  }

  /** How many of the first n publishes went through. */
  function CountOk(n: nat, ok: nat -> bool): (c: nat)
    ensures c <= n
  {
    if n == 0 then 0 else CountOk(n - 1, ok) + (if ok(n - 1) then 1 else 0)
  }

  /** Each publish that went through is one empty retained config message, and only those are counted. */
  lemma {:induction false} ClearedCount(topics: seq<string>, ok: nat -> bool)
    ensures |Cleared(topics, ok)| == CountOk(|topics|, ok)
    ensures forall e :: e in Cleared(topics, ok) ==> e.Published? && e.payload == "" && e.retain
    decreases |topics|
  {
    if topics != [] {
      ClearedCount(topics[..|topics| - 1], ok);
    }
  }

  /** Every publish going through clears all of them. */
  lemma {:induction false} AllCleared(n: nat, ok: nat -> bool)
    requires forall k :: ok(k)
    ensures CountOk(n, ok) == n
  {
    if n > 0 {
      AllCleared(n - 1, ok);
    }
  }

  /**
   * `_cleanup_old_mqtt_configs_on_upgrade`: skipped when the recorded
   * cleanup version is at least the current one; otherwise every
   * retired name gets an empty retained config, failures are swallowed,
   * and the current version is recorded.
   */
  method CleanupOnUpgrade(entry: Entry, current: string, r: Registry, ok: nat -> bool,
                          atLeast: (string, string) -> Option<bool>)
    returns (entry': Entry, r': Registry, cleared: nat)
    ensures VersionAtLeast(StoredVersion(entry.data, LastCleanupKey), current, atLeast) ==>
      entry' == entry && r' == r && cleared == 0
    ensures !VersionAtLeast(StoredVersion(entry.data, LastCleanupKey), current, atLeast) ==>
      entry' == entry.(data := entry.data[LastCleanupKey := JStr(current)]) &&
      r'.entities == r.entities && r'.devices == r.devices &&
      r'.effects == r.effects + Cleared(CleanupList(), ok) && cleared == CountOk(|CleanupList()|, ok)
  {
    if VersionAtLeast(StoredVersion(entry.data, LastCleanupKey), current, atLeast) {
      return entry, r, 0;
    }
    var topics := CleanupTopics();
    r', cleared := ClearTopics(r, topics, ok);
    entry' := entry.(data := entry.data[LastCleanupKey := JStr(current)]);
  }

  /** The publishing loop of the cleanup: one empty retained config per topic, a failed publish skipped. */
  method ClearTopics(r: Registry, topics: seq<string>, ok: nat -> bool) returns (r': Registry, cleared: nat)
    ensures r'.entities == r.entities && r'.devices == r.devices
    ensures r'.effects == r.effects + Cleared(topics, ok) && cleared == CountOk(|topics|, ok)
  {
    r' := r;
    cleared := 0;
    for k := 0 to |topics|
      invariant r'.entities == r.entities && r'.devices == r.devices
      invariant r'.effects == r.effects + Cleared(topics[..k], ok)
      invariant cleared == CountOk(k, ok)
    {
      ClearedStep(topics, k, ok);
      if ok(k) {
        r' := Publish(r', DiscoveryConfig(topics[k]), "");
        cleared := cleared + 1;
      }
    }
    assert topics[..|topics|] == topics;
  }

  lemma ClearedStep(topics: seq<string>, k: nat, ok: nat -> bool)
    requires k < |topics|
    ensures Cleared(topics[..k + 1], ok) ==
      Cleared(topics[..k], ok) + (if ok(k) then [Published(DiscoveryConfig(topics[k]), "", true)] else [])
  {
    assert topics[..k + 1][..k] == topics[..k];
  }

  /** With a reflexive order, the cleanup runs once per version: the entry it leaves makes the next one a no-op. */
  lemma CleanupOnce(entry: Entry, current: string, atLeast: (string, string) -> Option<bool>)
    requires Reflexive(atLeast)
    ensures VersionAtLeast(StoredVersion(entry.data[LastCleanupKey := JStr(current)], LastCleanupKey), current, atLeast)
  {
    VersionAtLeastSelf(current, atLeast);
  }

  // ---------------------------------------------------------------------
  // the poll cycle

  /** The backup tasks the cycle keeps from the API reply: its truthy `"data"`, otherwise none. */
  function BackupTasksOf(reply: Json): (r: Json)
    ensures Get(reply, "data").Some? && Truthy(Get(reply, "data").value) ==> r == reply.fields["data"]
    ensures !(Get(reply, "data").Some? && Truthy(Get(reply, "data").value)) ==> r == JList([])
  {
    var d := Get(reply, "data");
    if d.Some? && Truthy(d.value) then d.value else JList([])
  }

  /** An empty or unparsable reply gives no tasks. */
  lemma EmptyReplyNoTasks(stdout: string, parse: string -> Option<Json>)
    requires AllSpace(stdout) || parse(stdout).None?
    ensures BackupTasksOf(SshManager.BackupApiResult(stdout, parse)) == JList([])
  {
  }

  const TasksEndpoint := "/api/v1/remote-backup/tasks"

  /** The four flags as the probes report them. */
  function FlagsFrom(d: CycleData, env: SshManager.Env): (r: bool)
    ensures r ==> d.sshConnected
    ensures r ==> (d.scriptsInstalled <==> Strip(env.stdout(SshManager.ScriptsCheck)) == "yes")
    ensures r ==> (d.monitorRunning <==> Strip(env.stdout(SshManager.ServiceCommand("unas_monitor"))) == "active")
    ensures r ==> (d.fanControlRunning <==> Strip(env.stdout(SshManager.ServiceCommand("fan_control"))) == "active")
  {
    d.sshConnected &&
    d.scriptsInstalled == SshManager.ScriptsInstalledOf(env.stdout(SshManager.ScriptsCheck)) &&
    d.monitorRunning == SshManager.ServiceRunningOf(env.stdout(SshManager.ServiceCommand("unas_monitor"))) &&
    d.fanControlRunning == SshManager.ServiceRunningOf(env.stdout(SshManager.ServiceCommand("fan_control")))
  }

  /**
   * The probes of a cycle all get through: the scripts check runs; when it
   * finds the scripts missing, the device model is recorded and the
   * redeploy runs to the end; and both service checks run.
   */
  predicate ProbeGetsThrough(entry: Entry, env: SshManager.Env) {
    env.runs(SshManager.ScriptsCheck) &&
    (SshManager.ScriptsInstalledOf(env.stdout(SshManager.ScriptsCheck)) ||
     (DeviceModelOf(entry.data).Some? && SshManager.DeployGetsThrough(env))) &&
    env.runs(SshManager.ServiceCommand("unas_monitor")) && env.runs(SshManager.ServiceCommand("fan_control"))
  }

  /**
   * The status part of `_async_update_data`: the record starts with every
   * flag false and the MQTT snapshot; the flags are filled in only once
   * the scripts check (and, when the scripts are missing, the redeploy)
   * and both service checks got through. Any failure returns the record
   * as it stands.
   */
  method ProbeStatus(s: SshManager.Session, entryId: string, entry: Entry, t: SshManager.Templates,
                     env: SshManager.Env, mqttData: map<string, MqttClient.Value>)
    returns (d: CycleData)
    requires s.Valid()
    modifies s
    ensures s.Valid()
    ensures d.mqttData == mqttData && d.backupTasks.None?
    ensures d.sshConnected ==> FlagsFrom(d, env)
    ensures !d.sshConnected ==> !d.scriptsInstalled && !d.monitorRunning && !d.fanControlRunning
    ensures d.sshConnected <==> SshManager.Reachable(old(s.conn), env) && ProbeGetsThrough(entry, env)
    ensures SshManager.Reachable(old(s.conn), env) ==> SshManager.Reachable(s.conn, env)
  {
    d := CycleData(false, false, false, false, mqttData, None);
    var scripts := s.ScriptsInstalled(env);
    if scripts.None? {
      return;
    }
    if !scripts.value {
      var model := DeviceModelOf(entry.data);
      if model.None? {
        return;
      }
      var ok := Redeploy(s, model.value, entryId, t, env);
      if !ok {
        return;
      }
    }
    var monitor := s.ServiceRunning("unas_monitor", env);
    if monitor.None? {
      return;
    }
    var fan := s.ServiceRunning("fan_control", env);
    if fan.None? {
      return;
    }
    d := d.(scriptsInstalled := scripts.value, sshConnected := true, monitorRunning := monitor.value,
            fanControlRunning := fan.value);
  }

  /** The tasks a cycle that reached the device records: the reply's tasks, or `[]` when the call raises. */
  function FetchedTasks(env: SshManager.Env, parse: string -> Option<Json>): Json {
    var command := SshManager.BackupApiCommand("GET", TasksEndpoint);
    if env.runs(command) then BackupTasksOf(SshManager.BackupApiResult(env.stdout(command), parse)) else JList([])
  }

  /** The best-effort fetch of the backup tasks: `[]` when the call fails. */
  method FetchTasks(s: SshManager.Session, env: SshManager.Env, parse: string -> Option<Json>) returns (tasks: Json)
    requires s.Valid()
    modifies s
    ensures s.Valid()
    ensures SshManager.Reachable(old(s.conn), env) ==> tasks == FetchedTasks(env, parse)
    ensures !SshManager.Reachable(old(s.conn), env) ==> tasks == JList([])
  {
    var reply := s.ExecuteBackupApi("GET", TasksEndpoint, env, parse);
    tasks := if reply.Some? then BackupTasksOf(reply.value) else JList([]);
  }

  /** The device half of the cycle: the status record, then the tasks once the device answered. */
  method ProbeDevice(s: SshManager.Session, entryId: string, entry: Entry, t: SshManager.Templates,
                     env: SshManager.Env, parse: string -> Option<Json>, mqttData: map<string, MqttClient.Value>)
    returns (d: CycleData)
    requires s.Valid()
    modifies s
    ensures s.Valid()
    ensures d.mqttData == mqttData
    ensures d.sshConnected ==> FlagsFrom(d, env) && d.backupTasks == Some(FetchedTasks(env, parse))
    ensures !d.sshConnected ==> !d.scriptsInstalled && !d.monitorRunning && !d.fanControlRunning && d.backupTasks.None?
    ensures d.sshConnected <==> SshManager.Reachable(old(s.conn), env) && ProbeGetsThrough(entry, env)
  {
    d := ProbeStatus(s, entryId, entry, t, env, mqttData);
    if d.sshConnected {
      var tasks := FetchTasks(s, env, parse);
      d := d.(backupTasks := Some(tasks));
    }
  }

  /** The discovery helpers the sensor module defines (sensor.py:269, :329, :389). */
  const SensorHelpers: set<string> :=
    {"_discover_and_add_drive_sensors", "_discover_and_add_nvme_sensors", "_discover_and_add_pool_sensors"}

  /** The button module defines no discovery helper, only its platform setup. */
  const ButtonHelpers: set<string> := {}

  /** The names the cycle's sensor block imports. */
  const SensorImports: seq<string> :=
    ["_discover_and_add_drive_sensors", "_discover_and_add_nvme_sensors", "_discover_and_add_pool_sensors",
     "_discover_and_add_backup_sensors"]

  /** The name the cycle's button block imports. */
  const ButtonImports: seq<string> := ["_discover_and_add_backup_buttons"]

  /** The discovery helper the switch module defines (switch.py:27). */
  const SwitchHelpers: set<string> := {"_discover_and_add_backup_switches"}

  /** The name the cycle's switch block imports. */
  const SwitchImports: seq<string> := ["_discover_and_add_backup_switches"]

  /** The top-level names the constants module defines (const.py:3-66). */
  const ConstNames: set<string> :=
    {"DOMAIN", "CONF_HOST", "HA_SSH_KEY_PATHS", "CONF_USERNAME", "CONF_PASSWORD", "CONF_MQTT_HOST",
     "CONF_MQTT_USER", "CONF_MQTT_PASSWORD", "CONF_SCAN_INTERVAL", "DEFAULT_USERNAME",
     "DEFAULT_SCAN_INTERVAL", "MIN_SCAN_INTERVAL", "MAX_SCAN_INTERVAL", "ATTR_SCRIPTS_INSTALLED",
     "ATTR_SSH_CONNECTED", "ATTR_MONITOR_RUNNING", "ATTR_FAN_CONTROL_RUNNING", "CONF_DEVICE_MODEL",
     "DEFAULT_DEVICE_MODEL", "DEVICE_MODELS", "get_device_info", "get_mqtt_root", "get_mqtt_topics"}

  /** What the switch module imports from the constants module when it loads. */
  const SwitchConstImports: seq<string> := ["DOMAIN", "format_remote_type"]

  /** `from m import a, b, ...` raises when any of the names is not defined in `m`. */
  predicate ImportFails(imports: seq<string>, defined: set<string>) {
    exists i :: 0 <= i < |imports| && imports[i] !in defined
  }

  /**
   * Whether the switch module loads at all. It imports a name the
   * constants module does not define, so it never loads: its platform
   * setup never runs, and importing from it raises.
   */
  function SwitchModuleLoads(): (r: bool)
    ensures !r
  {
    assert SwitchConstImports[1] !in ConstNames;
    !ImportFails(SwitchConstImports, ConstNames)
  }

  /**
   * An armed discovery block whose import raises; the cycle's handler
   * absorbs the error. The sensor and button blocks import a helper
   * their module lacks, and the switch block imports from a module that
   * does not load, so this is exactly "some block is armed".
   */
  function DiscoveryImportFails(c: Coordinator): (r: bool)
    reads c
    ensures r <==> c.sensorAdd || c.buttonAdd || c.switchAdd
  {
    assert SensorImports[3] !in SensorHelpers;
    assert ButtonImports[0] !in ButtonHelpers;
    (c.sensorAdd && ImportFails(SensorImports, SensorHelpers)) ||
    (c.buttonAdd && ImportFails(ButtonImports, ButtonHelpers)) ||
    (c.switchAdd && (!SwitchModuleLoads() || ImportFails(SwitchImports, SwitchHelpers)))
  }

  /**
   * The discovery half of the cycle, once the device answered. Each
   * armed block raises on its import before any discovery runs, and the
   * cycle's handler absorbs the error, so the coordinator is left as it
   * was; `raised` says whether the handler was reached.
   */
  method DiscoverFromCycle(c: Coordinator) returns (raised: bool)
    ensures raised <==> DiscoveryImportFails(c)
    ensures raised <==> c.sensorAdd || c.buttonAdd || c.switchAdd
  {
    raised := DiscoveryImportFails(c);
  }

  /**
   * One refresh of the coordinator. Without the MQTT integration the
   * cycle raises `UpdateFailed` (`None`) before touching the store or
   * SSH, and the previous record stays. Otherwise the stale telemetry is
   * dropped, the device is probed, discovery runs while the device
   * answered, and the new record is stored.
   */
  method Refresh(c: Coordinator, store: MqttClient.TelemetryStore, s: SshManager.Session, mqttLoaded: bool, now: int,
                 entry: Entry, t: SshManager.Templates, env: SshManager.Env, parse: string -> Option<Json>)
    returns (r: Option<CycleData>)
    requires store.Valid() && s.Valid()
    modifies c, store, s
    ensures store.Valid() && s.Valid()
    ensures r.None? <==> !mqttLoaded
    ensures !mqttLoaded ==> c.data == old(c.data) && c.switches == old(c.switches) && c.Reg() == old(c.Reg())
    ensures !mqttLoaded ==> s.log == old(s.log) && s.conn == old(s.conn)
    ensures !mqttLoaded ==> store.data == old(store.data) && store.stamps == old(store.stamps) && store.Meta() == old(store.Meta())
    ensures r.Some? ==> c.data == r.value
    ensures r.Some? ==> r.value.mqttData == old(store.data) - MqttClient.StaleKeys(old(store.stamps), now)
    ensures r.Some? && r.value.sshConnected ==> FlagsFrom(r.value, env) && r.value.backupTasks == Some(FetchedTasks(env, parse))
    ensures r.Some? ==> (r.value.sshConnected <==> SshManager.Reachable(old(s.conn), env) && ProbeGetsThrough(entry, env))
    ensures r.Some? && !r.value.sshConnected ==>
      !r.value.scriptsInstalled && !r.value.monitorRunning && !r.value.fanControlRunning && r.value.backupTasks.None?
    ensures r.Some? ==> store.data == r.value.mqttData
    ensures r.Some? ==> store.stamps == old(store.stamps) - MqttClient.StaleKeys(old(store.stamps), now)
    ensures store.Meta() == old(store.Meta())
    ensures c.bays == old(c.bays) && c.nvmes == old(c.nvmes) && c.pools == old(c.pools)
    ensures c.switches == old(c.switches) && c.Reg() == old(c.Reg())
    ensures c.sensorAdd == old(c.sensorAdd) && c.buttonAdd == old(c.buttonAdd) && c.switchAdd == old(c.switchAdd)
  {
    if !mqttLoaded {
      return None;
    }
    var d := Poll(c, store, s, now, entry, t, env, parse);
    r := Some(d);
  }

  /** One cycle of `_async_update_data` once MQTT is loaded: the fresh telemetry, the probes, then discovery. */
  method Poll(c: Coordinator, store: MqttClient.TelemetryStore, s: SshManager.Session, now: int,
              entry: Entry, t: SshManager.Templates, env: SshManager.Env, parse: string -> Option<Json>)
    returns (d: CycleData)
    requires store.Valid() && s.Valid()
    modifies c, store, s
    ensures store.Valid() && s.Valid()
    ensures c.data == d
    ensures d.mqttData == old(store.data) - MqttClient.StaleKeys(old(store.stamps), now)
    ensures d.sshConnected ==> FlagsFrom(d, env) && d.backupTasks == Some(FetchedTasks(env, parse))
    ensures d.sshConnected <==> SshManager.Reachable(old(s.conn), env) && ProbeGetsThrough(entry, env)
    ensures !d.sshConnected ==> !d.scriptsInstalled && !d.monitorRunning && !d.fanControlRunning && d.backupTasks.None?
    ensures store.data == d.mqttData
    ensures store.stamps == old(store.stamps) - MqttClient.StaleKeys(old(store.stamps), now)
    ensures store.Meta() == old(store.Meta())
    ensures c.bays == old(c.bays) && c.nvmes == old(c.nvmes) && c.pools == old(c.pools)
    ensures c.switches == old(c.switches) && c.Reg() == old(c.Reg())
    ensures c.sensorAdd == old(c.sensorAdd) && c.buttonAdd == old(c.buttonAdd) && c.switchAdd == old(c.switchAdd)
  {
    d := Gather(store, s, c.entryId, now, entry, t, env, parse);
    if d.sshConnected {
      var raised := DiscoverFromCycle(c);
    }
    c.data := d;
  }

  /** The store and SSH half of a refresh: drop the stale telemetry, then probe the device. */
  method Gather(store: MqttClient.TelemetryStore, s: SshManager.Session, entryId: string, now: int,
                entry: Entry, t: SshManager.Templates, env: SshManager.Env, parse: string -> Option<Json>)
    returns (d: CycleData)
    requires store.Valid() && s.Valid()
    modifies store, s
    ensures store.Valid() && s.Valid()
    ensures d.mqttData == old(store.data) - MqttClient.StaleKeys(old(store.stamps), now)
    ensures d.sshConnected ==> FlagsFrom(d, env) && d.backupTasks == Some(FetchedTasks(env, parse))
    ensures d.sshConnected <==> SshManager.Reachable(old(s.conn), env) && ProbeGetsThrough(entry, env)
    ensures !d.sshConnected ==> !d.scriptsInstalled && !d.monitorRunning && !d.fanControlRunning && d.backupTasks.None?
    ensures store.data == d.mqttData
    ensures store.stamps == old(store.stamps) - MqttClient.StaleKeys(old(store.stamps), now)
    ensures store.Meta() == old(store.Meta())
  {
    var mqttData := store.GetData(now);
    d := ProbeDevice(s, entryId, entry, t, env, parse, mqttData);
  }
}
