/**
 * `SSHManager` of `ssh_manager.py`: the SSH connection handle and the
 * commands the integration sends over it, the credential substitution
 * in the deployed script templates, the shell quoting it relies on, and
 * the reading of the commands' output.
 *
 * The transport is an environment the methods receive: whether an open
 * handle still answers, whether a new connection can be opened, which
 * files exist locally, what each command prints and which uploads
 * succeed. What the manager did to the transport is recorded in a log.
 */
module SshManager {
  import opened Text
  import opened Json
  import Const

  // ---------------------------------------------------------------------
  // shlex.quote

  /** The characters `shlex.quote` leaves bare: ASCII word characters and `@%+=:,./-`. */
  predicate SafeChar(c: char) {
    ('a' <= c <= 'z') || ('A' <= c <= 'Z') || ('0' <= c <= '9') ||
    c == '_' || c == '@' || c == '%' || c == '+' || c == '=' || c == ':' || c == ',' || c == '.' || c == '/' || c == '-'
  }

  predicate AllSafe(s: string) {
    forall i :: 0 <= i < |s| ==> SafeChar(s[i])
  }

  /** How a single quote is written inside single quotes: close, a double-quoted quote, reopen. */
  const QuoteEscape := "'\"'\"'"

  /** `shlex.quote(s)`. */
  function ShellQuote(s: string): (q: string)
    ensures q == s <==> s != "" && AllSafe(s)
    ensures |q| > 0
  {
    if s == "" then "''"
    else if AllSafe(s) then s
    else
      EscapeLonger(s);
      "'" + Replace(s, "'", QuoteEscape) + "'"
  }

  /** Escaping quotes never shortens a string. */
  lemma {:induction false} EscapeLonger(s: string)
    ensures |Replace(s, "'", QuoteEscape)| >= |s|
    decreases |s|
  {
    if s != [] {
      EscapeLonger(s[1..]);
    }
  }

  /** Where the shell is while reading one word: outside quotes, inside `'...'`, inside `"..."`. */
  datatype Mode = Bare | InSingle | InDouble

  function Prepend(c: char, o: Option<string>): Option<string> {
    if o.Some? then Some([c] + o.value) else None
  }

  /**
   * How a POSIX shell reads `q` as one word, starting in mode `m`: quotes
   * are removed, bare characters must be ones that need no quoting, and
   * the expanding characters `$`, `` ` `` and `\` are not allowed inside
   * double quotes. `None` when `q` is not read as one plain word.
   */
  function ShellWord(q: string, m: Mode): (r: Option<string>)
    ensures r.Some? ==> |r.value| <= |q| && forall c :: c in r.value ==> c in q
    ensures r.Some? && m != Bare ==> |r.value| < |q|
    decreases |q|
  {
    if q == [] then (if m == Bare then Some("") else None)
    else
      var c := q[0];
      match m
      case Bare =>
        if c == '\'' then ShellWord(q[1..], InSingle)
        else if c == '"' then ShellWord(q[1..], InDouble)
        else if SafeChar(c) then Prepend(c, ShellWord(q[1..], Bare))
        else None
      case InSingle =>
        if c == '\'' then ShellWord(q[1..], Bare) else Prepend(c, ShellWord(q[1..], InSingle))
      case InDouble =>
        if c == '"' then ShellWord(q[1..], Bare)
        else if c == '$' || c == '`' || c == '\\' then None
        else Prepend(c, ShellWord(q[1..], InDouble))
  }

  lemma {:induction false} BareReadsItself(s: string)
    requires AllSafe(s)
    ensures ShellWord(s, Bare) == Some(s)
    decreases |s|
  {
    if s != [] {
      BareReadsItself(s[1..]);
      assert [s[0]] + s[1..] == s;
    }
  }

  /** The escape `'"'"'` inside a single-quoted word reads as one literal quote. */
  lemma EscapeReadsBack(t: string)
    ensures ShellWord(QuoteEscape + t, InSingle) == Prepend('\'', ShellWord(t, InSingle))
  {
    var w := QuoteEscape + t;
    assert w == "'" + ("\"'\"" + ("'" + t));
    assert w[1..] == "\"'\"" + ("'" + t);
    assert w[1..][1..] == "'\"" + ("'" + t);
    assert w[1..][1..][1..] == "\"" + ("'" + t);
    assert w[1..][1..][1..][1..] == "'" + t;
    assert w[1..][1..][1..][1..][1..] == t;
    assert ShellWord(w, InSingle) == ShellWord(w[1..], Bare);
    assert ShellWord(w[1..], Bare) == ShellWord(w[1..][1..], InDouble);
    assert ShellWord(w[1..][1..], InDouble) == Prepend('\'', ShellWord(w[1..][1..][1..], InDouble));
    assert ShellWord(w[1..][1..][1..], InDouble) == ShellWord(w[1..][1..][1..][1..], Bare);
  }

  /** The body of a single-quoted word, followed by the closing quote, reads back as the original. */
  lemma {:induction false} SingleQuotedReadsBack(s: string)
    ensures ShellWord(Replace(s, "'", QuoteEscape) + "'", InSingle) == Some(s)
    decreases |s|
  {
    var e := Replace(s, "'", QuoteEscape);
    if s == [] {
      assert e + "'" == "'";
      assert ShellWord("'", InSingle) == ShellWord("", Bare);
    } else if s[0] == '\'' {
      var rest := Replace(s[1..], "'", QuoteEscape);
      SingleQuotedReadsBack(s[1..]);
      assert StartsWith(s, "'");
      assert e == QuoteEscape + rest;
      EscapeReadsBack(rest + "'");
      assert e + "'" == QuoteEscape + (rest + "'");
      assert [s[0]] + s[1..] == s;
    } else {
      var rest := Replace(s[1..], "'", QuoteEscape);
      SingleQuotedReadsBack(s[1..]);
      assert !StartsWith(s, "'");
      assert e == [s[0]] + rest;
      assert (e + "'")[1..] == rest + "'";
      assert [s[0]] + s[1..] == s;
    }
  }

  /** `shlex.quote` round-trips: the shell reads the quoted text as one word, the original string. */
  lemma ShellQuoteRoundTrip(s: string)
    ensures ShellWord(ShellQuote(s), Bare) == Some(s)
  {
    if s == "" {
      assert ShellQuote(s)[1..] == "'";
      assert ShellWord("'", InSingle) == ShellWord("", Bare);
    } else if AllSafe(s) {
      BareReadsItself(s);
    } else {
      var q := ShellQuote(s);
      SingleQuotedReadsBack(s);
      assert q[1..] == Replace(s, "'", QuoteEscape) + "'";
    }
  }

  /** Distinct values stay distinct once quoted. */
  lemma ShellQuoteInjective(a: string, b: string)
    requires ShellQuote(a) == ShellQuote(b)
    ensures a == b
  {
    ShellQuoteRoundTrip(a);
    ShellQuoteRoundTrip(b);
  }

  // ---------------------------------------------------------------------
  // credential substitution

  /** The placeholder of both templates, quotes included. */
  const Placeholder := "\"REPLACE_ME\""

  /** The four settings, in the order they are substituted. */
  const CredentialKeys := ["MQTT_HOST", "MQTT_USER", "MQTT_PASS", "MQTT_ROOT"]

  /** The Python template's form, `KEY = "REPLACE_ME"`, and what replaces it, `KEY = "value"`. */
  function PythonPattern(key: string): string { key + " = " + Placeholder }
  function PythonLine(key: string, value: string): string { key + " = \"" + value + "\"" }

  /** The shell template's form, `KEY="REPLACE_ME"`, and what replaces it, `KEY=` and the quoted value. */
  function ShellPattern(key: string): string { key + "=" + Placeholder }
  function ShellLine(key: string, value: string): string { key + "=" + ShellQuote(value) }

  /** One round of the loop: both forms of one setting. */
  function SubstituteOne(script: string, key: string, value: string): string {
    Replace(Replace(script, PythonPattern(key), PythonLine(key, value)), ShellPattern(key), ShellLine(key, value))
  }

  /** The rounds of the loop, in order. */
  function Substituted(script: string, pairs: seq<(string, string)>): string
    decreases |pairs|
  {
    if pairs == [] then script
    else
      var p := pairs[|pairs| - 1];
      SubstituteOne(Substituted(script, pairs[..|pairs| - 1]), p.0, p.1)
  }

  function CredentialPairs(host: string, user: string, password: string, root: string): (r: seq<(string, string)>)
    ensures |r| == 4 && forall i :: 0 <= i < 4 ==> r[i].0 == CredentialKeys[i]
  {
    [("MQTT_HOST", host), ("MQTT_USER", user), ("MQTT_PASS", password), ("MQTT_ROOT", root)]
  }

  /** `_replace_mqtt_credentials`: the loop over the four settings. */
  method ReplaceMqttCredentials(script: string, host: string, user: string, password: string, root: string) returns (r: string)
    ensures r == Substituted(script, CredentialPairs(host, user, password, root))
  {
    var pairs := CredentialPairs(host, user, password, root);
    r := script;
    var i := 0;
    while i < |pairs|
      invariant 0 <= i <= |pairs|
      invariant r == Substituted(script, pairs[..i])
    {
      assert pairs[..i + 1][..i] == pairs[..i];
      var key := pairs[i].0;
      var value := pairs[i].1;
      r := Replace(r, PythonPattern(key), PythonLine(key, value));
      r := Replace(r, ShellPattern(key), ShellLine(key, value));
      i := i + 1;
    }
    assert pairs[..|pairs|] == pairs;
  }

  lemma ContainsPart(s: string, a: string, t: string)
    requires Contains(s, a + t)
    ensures Contains(s, t)
  {
    var i := ContainsWitness(s, a + t);
    assert s[i + |a|..i + |a| + |t|] == (a + t)[|a|..];
    ContainsAt(s, t, i + |a|);
  }

  /** A template without the placeholder comes out unchanged, whatever the settings. */
  lemma {:induction false} NoPlaceholderUnchanged(script: string, pairs: seq<(string, string)>)
    requires !Contains(script, Placeholder)
    ensures Substituted(script, pairs) == script
    decreases |pairs|
  {
    if pairs != [] {
      var p := pairs[|pairs| - 1];
      NoPlaceholderUnchanged(script, pairs[..|pairs| - 1]);
      if Contains(script, PythonPattern(p.0)) {
        ContainsPart(script, p.0 + " = ", Placeholder);
      }
      ReplaceAbsent(script, PythonPattern(p.0), PythonLine(p.0, p.1));
      if Contains(script, ShellPattern(p.0)) {
        ContainsPart(script, p.0 + "=", Placeholder);
      }
      ReplaceAbsent(script, ShellPattern(p.0), ShellLine(p.0, p.1));
    }
  }

  /** In the shell template the shell reads back exactly the configured value after `KEY=`. */
  lemma ShellLineReadsBack(key: string, value: string)
    ensures ShellLine(key, value)[..|key| + 1] == key + "="
    ensures ShellWord(ShellLine(key, value)[|key| + 1..], Bare) == Some(value)
  {
    ShellQuoteRoundTrip(value);
    assert ShellLine(key, value)[|key| + 1..] == ShellQuote(value);
  }

  /** Whether the deploy substitutes credentials: host, user and password are all set and non-empty. */
  predicate CredentialsGiven(host: Option<string>, user: Option<string>, password: Option<string>) {
    host.Some? && host.value != "" && user.Some? && user.value != "" && password.Some? && password.value != ""
  }

  /** The model line of the monitor template, and what it becomes. */
  const ModelPattern := "DEVICE_MODEL = \"UNAS_PRO\""
  function ModelLine(model: string): string { "DEVICE_MODEL = \"" + model + "\"" }

  /** The four script templates shipped with the integration. */
  datatype Templates = Templates(monitorScript: string, monitorService: string, fanScript: string, fanService: string)

  /** The monitor script as uploaded: credentials when given, then the device model. */
  function DeployedMonitor(t: Templates, model: string, host: Option<string>, user: Option<string>, password: Option<string>, root: string): string {
    var m := if CredentialsGiven(host, user, password) then Substituted(t.monitorScript, CredentialPairs(host.value, user.value, password.value, root)) else t.monitorScript;
    Replace(m, ModelPattern, ModelLine(model))
  }

  /** The fan-control script as uploaded: credentials when given; the model line is never touched. */
  function DeployedFanScript(t: Templates, host: Option<string>, user: Option<string>, password: Option<string>, root: string): string {
    if CredentialsGiven(host, user, password) then Substituted(t.fanScript, CredentialPairs(host.value, user.value, password.value, root)) else t.fanScript
  }

  /** The files `deploy_scripts` uploads, in order, with their contents. */
  function DeployWrites(monitor: string, monitorService: string, fan: string, fanService: string): (w: seq<(string, string)>)
    ensures |w| == 4
  {
    [("/root/unas_monitor.py", monitor), ("/etc/systemd/system/unas_monitor.service", monitorService),
     ("/root/fan_control.sh", fan), ("/etc/systemd/system/fan_control.service", fanService)]
  }

  /** The files of `deploy_scripts` with the contents it uploads. */
  function DeployedFiles(t: Templates, model: string, host: Option<string>, user: Option<string>, password: Option<string>, root: string): seq<(string, string)> {
    DeployWrites(DeployedMonitor(t, model, host, user, password, root), t.monitorService, DeployedFanScript(t, host, user, password, root), t.fanService)
  }

  /** Without credentials only the model line of the monitor script changes; the other three files go up as shipped. */
  lemma NoCredentialsOnlyModel(t: Templates, model: string, host: Option<string>, user: Option<string>, password: Option<string>, root: string)
    requires !CredentialsGiven(host, user, password)
    ensures DeployedFiles(t, model, host, user, password, root) ==
      DeployWrites(Replace(t.monitorScript, ModelPattern, ModelLine(model)), t.monitorService, t.fanScript, t.fanService)
  {
  }

  /**
   * The model substitution is confined to the monitor script: a fan script
   * without credential placeholders goes up as shipped, whatever the settings.
   */
  lemma FanScriptWithoutPlaceholder(t: Templates, model: string, host: Option<string>, user: Option<string>, password: Option<string>, root: string)
    requires !Contains(t.fanScript, Placeholder)
    ensures DeployedFiles(t, model, host, user, password, root)[2] == ("/root/fan_control.sh", t.fanScript)
  {
    if CredentialsGiven(host, user, password) {
      NoPlaceholderUnchanged(t.fanScript, CredentialPairs(host.value, user.value, password.value, root));
    }
  }

  // ---------------------------------------------------------------------
  // reading command output

  /** `stdout.strip() == "yes"`. */
  predicate ScriptsInstalledOf(stdout: string) { Strip(stdout) == "yes" }

  /** `stdout.strip() == "active"`. */
  predicate ServiceRunningOf(stdout: string) { Strip(stdout) == "active" }

  /** `"kicked" in stdout`. */
  predicate KickedOf(stdout: string) { Contains(stdout, "kicked") }

  /** Stripping leaves nothing exactly when the text is all whitespace. */
  lemma StripEmpty(s: string)
    ensures Strip(s) == "" <==> AllSpace(s)
  {
    var a, b := StripSplits(s);
  }

  /** Output that passes the scripts check is `yes` between two runs of whitespace. */
  lemma ScriptsInstalledShape(stdout: string) returns (a: string, b: string)
    requires ScriptsInstalledOf(stdout)
    ensures AllSpace(a) && AllSpace(b) && stdout == a + "yes" + b
  {
    a, b := StripSplits(stdout);
  }

  /** ... and every such output passes it. */
  lemma ScriptsInstalledPadded(a: string, b: string)
    requires AllSpace(a) && AllSpace(b)
    ensures ScriptsInstalledOf(a + "yes" + b)
  {
    StripAround(a, "yes", b);
  }

  /** Output that passes the service check is `active` between two runs of whitespace. */
  lemma ServiceRunningShape(stdout: string) returns (a: string, b: string)
    requires ServiceRunningOf(stdout)
    ensures AllSpace(a) && AllSpace(b) && stdout == a + "active" + b
  {
    a, b := StripSplits(stdout);
  }

  /** ... and every such output passes it, while the command's fallback `inactive` does not. */
  lemma ServiceRunningPadded(a: string, b: string)
    requires AllSpace(a) && AllSpace(b)
    ensures ServiceRunningOf(a + "active" + b)
    ensures !ServiceRunningOf(a + "inactive" + b)
  {
    StripAround(a, "active", b);
    StripAround(a, "inactive", b);
  }

  /** The `systemctl is-active` command for a service, with the name quoted. */
  function ServiceCommand(name: string): string {
    "systemctl is-active " + ShellQuote(name) + " 2>/dev/null || echo 'inactive'"
  }

  /** The empty JSON object the backup calls degrade to. */
  const EmptyObject := JObj(map[])

  /**
   * `execute_backup_api` / `update_backup_task` on the reply text: `{}`
   * for a blank reply or one that is not JSON, otherwise the decoded
   * value (`parse` is `json.loads`).
   */
  function BackupApiResult(stdout: string, parse: string -> Option<Json>): (r: Json)
    ensures AllSpace(stdout) ==> r == EmptyObject
    ensures !AllSpace(stdout) && parse(stdout).None? ==> r == EmptyObject
    ensures !AllSpace(stdout) && parse(stdout).Some? ==> r == parse(stdout).value
  {
    StripEmpty(stdout);
    if Strip(stdout) == "" then EmptyObject
    else if parse(stdout).None? then EmptyObject
    else parse(stdout).value
  }

  // ---------------------------------------------------------------------
  // the connection handle

  /** The first path of `paths` that exists. */
  function {:induction false} FirstExisting(paths: seq<string>, present: string -> bool): (r: Option<string>)
    ensures r.None? <==> forall i :: 0 <= i < |paths| ==> !present(paths[i])
    ensures r.Some? ==> exists i :: 0 <= i < |paths| && paths[i] == r.value && present(paths[i]) &&
                                    forall j :: 0 <= j < i ==> !present(paths[j])
    decreases |paths|
  {
    if paths == [] then None
    else if present(paths[0]) then Some(paths[0])
    else
      var r := FirstExisting(paths[1..], present);
      if r.Some? then
        var i :| 0 <= i < |paths[1..]| && paths[1..][i] == r.value && present(paths[1..][i]) &&
                 forall j :: 0 <= j < i ==> !present(paths[1..][j]);
        assert paths[i + 1] == r.value && forall j :: 0 <= j < i + 1 ==> !present(paths[j]);
        r
      else r
  }

  predicate Truthy(s: Option<string>) { s.Some? && s.value != "" }

  /**
   * The `client_keys` of `connect`: a configured key wins; without a
   * password the first existing default key is used; otherwise none.
   */
  function ClientKeys(sshKey: Option<string>, password: Option<string>, home: string, present: string -> bool): (r: Option<seq<string>>)
    ensures Truthy(sshKey) ==> r == Some([sshKey.value])
    ensures !Truthy(sshKey) && Truthy(password) ==> r == None
    ensures !Truthy(sshKey) && !Truthy(password) ==>
      (r.None? <==> forall i :: 0 <= i < 4 ==> !present(Const.SshKeyPaths(home)[i]))
    ensures !Truthy(sshKey) && !Truthy(password) && r.Some? ==>
      |r.value| == 1 && exists i :: 0 <= i < 4 && r.value[0] == Const.SshKeyPaths(home)[i] && present(r.value[0])
  {
    if Truthy(sshKey) then Some([sshKey.value])
    else if !Truthy(password) then
      var p := FirstExisting(Const.SshKeyPaths(home), present);
      if p.Some? then Some([p.value]) else None
    else None
  }

  /** What the manager did on the transport. */
  datatype Op =
    | Opened(handle: nat, keys: Option<seq<string>>)
    | Probed(handle: nat)
    | Closed(handle: nat)
    | Ran(handle: nat, command: string)
    | Wrote(handle: nat, path: string, content: string)

  /**
   * The transport: whether a handle still answers the `true` probe,
   * whether a new connection opens, which local key files exist (and the
   * home directory), whether running a command on an open handle gets
   * through (`conn.run` raises otherwise), what it prints, and which
   * remote paths can be written.
   */
  datatype Env = Env(alive: nat -> bool, canOpen: bool, home: string, keyExists: string -> bool,
                     runs: string -> bool, stdout: string -> string, canWrite: string -> bool)

  /** The files written, in order. */
  function WritesOf(log: seq<Op>): (w: seq<(string, string)>)
    decreases |log|
  {
    if log == [] then []
    else
      var op := log[|log| - 1];
      WritesOf(log[..|log| - 1]) + (if op.Wrote? then [(op.path, op.content)] else [])
  }

  /** The commands run, in order. */
  function CommandsOf(log: seq<Op>): (c: seq<string>)
    decreases |log|
  {
    if log == [] then []
    else
      var op := log[|log| - 1];
      CommandsOf(log[..|log| - 1]) + (if op.Ran? then [op.command] else [])
  }

  lemma Append(log: seq<Op>, op: Op)
    ensures WritesOf(log + [op]) == WritesOf(log) + (if op.Wrote? then [(op.path, op.content)] else [])
    ensures CommandsOf(log + [op]) == CommandsOf(log) + (if op.Ran? then [op.command] else [])
  {
    assert (log + [op])[..|log|] == log;
  }

  /** An open handle that answers the probe is kept. */
  predicate Reusable(conn: Option<nat>, env: Env) {
    conn.Some? && env.alive(conn.value)
  }

  /** `connect` gets a handle: the held one answers, or a new one opens. */
  predicate Reachable(conn: Option<nat>, env: Env) {
    Reusable(conn, env) || env.canOpen
  }

  /** The transport operations of `connect`. */
  function ConnectOps(conn: Option<nat>, next: nat, keys: Option<seq<string>>, env: Env): (ops: seq<Op>)
    ensures Reusable(conn, env) ==> ops == [Probed(conn.value)]
    ensures !Reusable(conn, env) ==> |ops| <= 3 && (env.canOpen <==> |ops| > 0 && ops[|ops| - 1] == Opened(next, keys))
    ensures forall i :: 0 <= i < |ops| ==> ops[i].Probed? || ops[i].Closed? || ops[i].Opened?
  {
    if Reusable(conn, env) then [Probed(conn.value)]
    else (if conn.Some? then [Probed(conn.value), Closed(conn.value)] else []) +
         (if env.canOpen then [Opened(next, keys)] else [])
  }

  /** The check of `scripts_installed`. */
  const ScriptsCheck := "test -f /root/unas_monitor.py && test -f /root/fan_control.sh && python3 -c 'import paho.mqtt.client' 2>/dev/null && which mosquitto_sub >/dev/null 2>&1 && echo 'yes' || echo 'no'"

  /** The fan-profile toggle of `kick_native_fan_control`, which prints `kicked` when it got through. */
  const KickCommand := "python3 -c 'from ustd.tools.uhardware_fan import FanProfileManager; fpm = FanProfileManager(); cur = fpm.get_current_profile(); alt = \"quiet\" if cur != \"quiet\" else \"default\"; fpm.switch_profile(alt); fpm.switch_profile(cur); print(\"kicked\")' 2>&1"

  /** The service name of `service_running` is one shell word that reads back as the name. */
  lemma ServiceCommandQuotesName(name: string)
    ensures StartsWith(ServiceCommand(name), "systemctl is-active ")
    ensures ServiceCommand(name)[20..20 + |ShellQuote(name)|] == ShellQuote(name)
    ensures ShellWord(ShellQuote(name), Bare) == Some(name)
  {
    ShellQuoteRoundTrip(name);
  }

  /** The identity headers every backup API call sends. */
  const AuthHeaders := " -H \"X-UserId: $(jq -r '.[0].id' /data/unifi-core/config/cache/users.json)\" -H \"X-UserRole: owner\" -H \"X-UserAccessMask: 114654\" -H \"X-UserPermissionMask: 16382\""

  const BackupApiBase := "http://localhost:16080"

  /** The `curl` call of `execute_backup_api`. */
  function BackupApiCommand(verb: string, endpoint: string): string {
    "curl -s -X " + verb + " \"" + BackupApiBase + endpoint + "\"" + AuthHeaders
  }

  /** The `curl` call of `update_backup_task`, with the JSON body as one quoted word at the end. */
  function PatchCommand(taskId: string, payload: string): string {
    "curl -s -X PATCH \"" + BackupApiBase + "/api/v1/remote-backup/tasks/" + taskId + "\" -H \"Content-Type: application/json\"" +
    AuthHeaders + " -d " + ShellQuote(payload)
  }

  /** The body the shell hands to `curl -d` is the payload, whatever characters it holds. */
  lemma PatchSendsPayload(taskId: string, payload: string)
    ensures EndsWith(PatchCommand(taskId, payload), " -d " + ShellQuote(payload))
    ensures ShellWord(ShellQuote(payload), Bare) == Some(payload)
  {
    ShellQuoteRoundTrip(payload);
    var c := PatchCommand(taskId, payload);
    var t := " -d " + ShellQuote(payload);
    assert c[|c| - |t|..] == t;
  }

  /** The two scripts made executable, in the order they are uploaded. */
  const DeployChmods := ["chmod +x " + ShellQuote("/root/unas_monitor.py"), "chmod +x " + ShellQuote("/root/fan_control.sh")]

  /** The installation and service commands of `deploy_scripts`, in order. */
  function SetupCommand(k: nat): string
    requires k < 7
  {
    match k
    case 0 => "apt-get update && apt-get install -y mosquitto-clients python3-pip"
    case 1 => "pip3 install --ignore-installed paho-mqtt==2.1.0"
    case 2 => "systemctl daemon-reload"
    case 3 => "systemctl enable unas_monitor"
    case 4 => "systemctl restart unas_monitor"
    case 5 => "systemctl enable fan_control"
    case 6 => "systemctl restart fan_control"
  }

  const SetupCommands: seq<string> := seq(7, k requires 0 <= k < 7 => SetupCommand(k))

  /** Every setup command gets through. */
  predicate SetupRuns(env: Env) {
    env.runs(SetupCommand(0)) && env.runs(SetupCommand(1)) && env.runs(SetupCommand(2)) &&
    env.runs(SetupCommand(3)) && env.runs(SetupCommand(4)) && env.runs(SetupCommand(5)) && env.runs(SetupCommand(6))
  }

  /** A script, its `chmod +x` and its unit get through. */
  predicate PairGetsThrough(env: Env, scriptPath: string, unitPath: string) {
    env.canWrite(scriptPath) && env.runs("chmod +x " + ShellQuote(scriptPath)) && env.canWrite(unitPath)
  }

  /** Every upload of `deploy_scripts` gets through, with both `chmod` calls. */
  predicate UploadsGetThrough(env: Env) {
    PairGetsThrough(env, "/root/unas_monitor.py", "/etc/systemd/system/unas_monitor.service") &&
    PairGetsThrough(env, "/root/fan_control.sh", "/etc/systemd/system/fan_control.service")
  }

  /** The transport lets `deploy_scripts` run to the end, once a handle is there. */
  predicate DeployGetsThrough(env: Env) {
    UploadsGetThrough(env) && SetupRuns(env)
  }

  class Session {
    const host: string
    const username: string
    const password: Option<string>
    const sshKey: Option<string>
    const mqttHost: Option<string>
    const mqttUser: Option<string>
    const mqttPassword: Option<string>
    /** `_conn`: the open handle, if any. */
    var conn: Option<nat>
    /** Handles opened so far; the next one gets this number. */
    var handles: nat
    var log: seq<Op>

    ghost predicate Valid()
      reads this
    {
      conn.Some? ==> conn.value < handles
    }

    constructor (host: string, username: string, password: Option<string>, sshKey: Option<string>,
                 mqttHost: Option<string>, mqttUser: Option<string>, mqttPassword: Option<string>)
      ensures this.host == host && this.username == username && this.password == password && this.sshKey == sshKey
      ensures this.mqttHost == mqttHost && this.mqttUser == mqttUser && this.mqttPassword == mqttPassword
      ensures conn == None && handles == 0 && log == [] && Valid()
    {
      this.host := host;
      this.username := username;
      this.password := password;
      this.sshKey := sshKey;
      this.mqttHost := mqttHost;
      this.mqttUser := mqttUser;
      this.mqttPassword := mqttPassword;
      conn := None;
      handles := 0;
      log := [];
    }

    /**
     * `connect`: a handle that answers the probe is reused; otherwise it
     * is closed and dropped, and a new one is opened with the chosen
     * keys. `ok` is false when opening fails, which leaves no handle.
     */
    method Connect(env: Env) returns (ok: bool)
      requires Valid()
      modifies this
      ensures Valid()
      ensures ok <==> Reusable(old(conn), env) || env.canOpen
      ensures ok ==> conn.Some?
      ensures Reusable(old(conn), env) ==> conn == old(conn) && handles == old(handles)
      ensures !Reusable(old(conn), env) && env.canOpen ==> conn == Some(old(handles)) && handles == old(handles) + 1
      ensures log == old(log) + ConnectOps(old(conn), old(handles), ClientKeys(sshKey, password, env.home, env.keyExists), env)
      ensures !ok ==> conn == None
      ensures Reachable(old(conn), env) ==> Reachable(conn, env)
      ensures WritesOf(log) == WritesOf(old(log)) && CommandsOf(log) == CommandsOf(old(log))
    {
      var reused := DropStale(env);
      if reused {
        return true;
      }
      ghost var dropped := log[|old(log)|..];
      ok := OpenNew(env);
      ConcatAssoc(old(log), dropped, if env.canOpen then [Opened(old(handles), ClientKeys(sshKey, password, env.home, env.keyExists))] else []);
    }

    /** The first half of `connect`: a held handle is probed, and closed and dropped when it does not answer. */
    method DropStale(env: Env) returns (reused: bool)
      requires Valid()
      modifies this
      ensures Valid() && handles == old(handles)
      ensures reused <==> Reusable(old(conn), env)
      ensures if reused then conn == old(conn) else conn == None
      ensures log == old(log) + if reused then [Probed(old(conn).value)]
                                else if old(conn).Some? then [Probed(old(conn).value), Closed(old(conn).value)] else []
      ensures WritesOf(log) == WritesOf(old(log)) && CommandsOf(log) == CommandsOf(old(log))
    {
      reused := false;
      if conn.Some? {
        var h := conn.value;
        Append(log, Probed(h));
        log := log + [Probed(h)];
        if env.alive(h) {
          return true;
        }
        Append(log, Closed(h));
        ConcatAssoc(old(log), [Probed(h)], [Closed(h)]);
        log := log + [Closed(h)];
        conn := None;
      }
    }

    /** The second half of `connect`: a new handle with the chosen keys, when one can be opened. */
    method OpenNew(env: Env) returns (ok: bool)
      requires Valid() && conn == None
      modifies this
      ensures Valid()
      ensures ok == env.canOpen
      ensures ok ==> conn == Some(old(handles)) && handles == old(handles) + 1
      ensures !ok ==> conn == None && handles == old(handles)
      ensures log == old(log) + if ok then [Opened(old(handles), ClientKeys(sshKey, password, env.home, env.keyExists))] else []
      ensures WritesOf(log) == WritesOf(old(log)) && CommandsOf(log) == CommandsOf(old(log))
    {
      var keys := ClientKeys(sshKey, password, env.home, env.keyExists);
      if !env.canOpen {
        return false;
      }
      Append(log, Opened(handles, keys));
      log := log + [Opened(handles, keys)];
      conn := Some(handles);
      handles := handles + 1;
      return true;
    }

    /** `disconnect`: closes and drops the handle, if there is one. */
    method Disconnect()
      requires Valid()
      modifies this
      ensures Valid() && conn == None && handles == old(handles)
      ensures log == old(log) + (if old(conn).Some? then [Closed(old(conn).value)] else [])
    {
      if conn.Some? {
        log := log + [Closed(conn.value)];
        conn := None;
      }
    }

    /**
     * `execute_command`: connects (reusing a live handle), then runs the
     * command. `None` when connecting fails, when after it no handle is
     * there (`ConnectionError`), or when the run raises; the handle stays.
     */
    method ExecuteCommand(command: string, env: Env) returns (out: Option<string>)
      requires Valid()
      modifies this
      ensures Valid()
      ensures out.Some? <==> Reachable(old(conn), env) && env.runs(command)
      ensures Reachable(old(conn), env) ==> Reachable(conn, env) && conn.Some?
      ensures out.Some? ==> out.value == env.stdout(command) && conn.Some? && |log| > 0 && log[|log| - 1] == Ran(conn.value, command)
      ensures WritesOf(log) == WritesOf(old(log))
      ensures CommandsOf(log) == CommandsOf(old(log)) + (if out.Some? then [command] else [])
    {
      var ok := Connect(env);
      if ok && conn.Some? && env.runs(command) {
        Append(log, Ran(conn.value, command));
        log := log + [Ran(conn.value, command)];
        out := Some(env.stdout(command));
      } else {
        out := None;
      }
    }

    /**
     * `_upload_file`: needs an open handle (no reconnect); an executable
     * file is then made so with `chmod +x` on the quoted path, which goes
     * through `execute_command`.
     */
    method UploadFile(path: string, content: string, executable: bool, env: Env) returns (ok: bool)
      requires Valid()
      modifies this
      ensures Valid()
      ensures old(conn).None? ==> !ok && log == old(log)
      ensures ok ==> WritesOf(log) == WritesOf(old(log)) + [(path, content)]
      ensures ok ==> CommandsOf(log) == CommandsOf(old(log)) + (if executable then ["chmod +x " + ShellQuote(path)] else [])
      ensures !ok ==> WritesOf(log) == WritesOf(old(log)) || WritesOf(log) == WritesOf(old(log)) + [(path, content)]
      ensures ok <==> (old(conn).Some? && env.canWrite(path) &&
        (!executable || (Reachable(old(conn), env) && env.runs("chmod +x " + ShellQuote(path)))))
      ensures ok ==> conn.Some?
      ensures Reachable(old(conn), env) ==> Reachable(conn, env)
    {
      if conn.None? {
        return false;
      }
      if !env.canWrite(path) {
        return false;
      }
      Append(log, Wrote(conn.value, path, content));
      log := log + [Wrote(conn.value, path, content)];
      if executable {
        var out := ExecuteCommand("chmod +x " + ShellQuote(path), env);
        return out.Some?;
      }
      return true;
    }

    /** `scripts_installed`: `None` when the command could not be run. */
    method ScriptsInstalled(env: Env) returns (r: Option<bool>)
      requires Valid()
      modifies this
      ensures Valid()
      ensures r.Some? <==> Reachable(old(conn), env) && env.runs(ScriptsCheck)
      ensures Reachable(old(conn), env) ==> Reachable(conn, env)
      ensures r.Some? ==> (r.value <==> ScriptsInstalledOf(env.stdout(ScriptsCheck)))
      ensures WritesOf(log) == WritesOf(old(log))
      ensures CommandsOf(log) == CommandsOf(old(log)) + (if r.Some? then [ScriptsCheck] else [])
    {
      var out := ExecuteCommand(ScriptsCheck, env);
      r := if out.Some? then Some(ScriptsInstalledOf(out.value)) else None;
    }

    /** `service_running`: the quoted name goes to `systemctl is-active`. */
    method ServiceRunning(name: string, env: Env) returns (r: Option<bool>)
      requires Valid()
      modifies this
      ensures Valid()
      ensures r.Some? <==> Reachable(old(conn), env) && env.runs(ServiceCommand(name))
      ensures Reachable(old(conn), env) ==> Reachable(conn, env)
      ensures r.Some? ==> (r.value <==> ServiceRunningOf(env.stdout(ServiceCommand(name))))
      ensures WritesOf(log) == WritesOf(old(log))
      ensures CommandsOf(log) == CommandsOf(old(log)) + (if r.Some? then [ServiceCommand(name)] else [])
    {
      var out := ExecuteCommand(ServiceCommand(name), env);
      r := if out.Some? then Some(ServiceRunningOf(out.value)) else None;
    }

    /** `kick_native_fan_control`: true when the output mentions `kicked`. */
    method KickNativeFanControl(env: Env) returns (r: Option<bool>)
      requires Valid()
      modifies this
      ensures Valid()
      ensures r.Some? <==> Reachable(old(conn), env) && env.runs(KickCommand)
      ensures Reachable(old(conn), env) ==> Reachable(conn, env)
      ensures r.Some? ==> (r.value <==> KickedOf(env.stdout(KickCommand)))
      ensures WritesOf(log) == WritesOf(old(log))
      ensures CommandsOf(log) == CommandsOf(old(log)) + (if r.Some? then [KickCommand] else [])
    {
      var out := ExecuteCommand(KickCommand, env);
      r := if out.Some? then Some(KickedOf(out.value)) else None;
    }

    /** `execute_backup_api`: the parsed reply, `{}` for a blank or unparsable one. */
    method ExecuteBackupApi(verb: string, endpoint: string, env: Env, parse: string -> Option<Json>) returns (r: Option<Json>)
      requires Valid()
      modifies this
      ensures Valid()
      ensures r.Some? <==> Reachable(old(conn), env) && env.runs(BackupApiCommand(verb, endpoint))
      ensures Reachable(old(conn), env) ==> Reachable(conn, env)
      ensures r.Some? ==> r.value == BackupApiResult(env.stdout(BackupApiCommand(verb, endpoint)), parse)
      ensures WritesOf(log) == WritesOf(old(log))
      ensures CommandsOf(log) == CommandsOf(old(log)) + (if r.Some? then [BackupApiCommand(verb, endpoint)] else [])
    {
      var out := ExecuteCommand(BackupApiCommand(verb, endpoint), env);
      r := if out.Some? then Some(BackupApiResult(out.value, parse)) else None;
    }

    /** `update_backup_task`: `payload` is the serialised update. */
    method UpdateBackupTask(taskId: string, payload: string, env: Env, parse: string -> Option<Json>) returns (r: Option<Json>)
      requires Valid()
      modifies this
      ensures Valid()
      ensures r.Some? <==> Reachable(old(conn), env) && env.runs(PatchCommand(taskId, payload))
      ensures Reachable(old(conn), env) ==> Reachable(conn, env)
      ensures r.Some? ==> r.value == BackupApiResult(env.stdout(PatchCommand(taskId, payload)), parse)
      ensures WritesOf(log) == WritesOf(old(log))
      ensures CommandsOf(log) == CommandsOf(old(log)) + (if r.Some? then [PatchCommand(taskId, payload)] else [])
    {
      var out := ExecuteCommand(PatchCommand(taskId, payload), env);
      r := if out.Some? then Some(BackupApiResult(out.value, parse)) else None;
    }

    /**
     * One script made executable, then its service unit. On a failure
     * `done` of the two went up.
     */
    method UploadPair(scriptPath: string, script: string, unitPath: string, unit: string, env: Env)
      returns (ok: bool, ghost done: nat)
      requires Valid()
      modifies this
      ensures Valid()
      ensures done <= 2 && (ok ==> done == 2)
      ensures ok <==> old(conn).Some? && Reachable(old(conn), env) && PairGetsThrough(env, scriptPath, unitPath)
      ensures ok ==> conn.Some?
      ensures Reachable(old(conn), env) ==> Reachable(conn, env)
      ensures WritesOf(log) == WritesOf(old(log)) + [(scriptPath, script), (unitPath, unit)][..done]
      ensures ok ==> CommandsOf(log) == CommandsOf(old(log)) + ["chmod +x " + ShellQuote(scriptPath)]
    {
      ghost var w := [(scriptPath, script), (unitPath, unit)];
      ghost var w0 := WritesOf(log);
      assert w[..0] == [] && w[..1] == [w[0]] && w[..2] == w;
      ok := UploadFile(scriptPath, script, true, env);
      if !ok {
        done := if WritesOf(log) == w0 then 0 else 1;
        return;
      }
      ok := UploadFile(unitPath, unit, false, env);
      done := if !ok && WritesOf(log) == w0 + w[..1] then 1 else 2;
    }

    /** The four uploads of `deploy_scripts`; on a failure `done` of them went up. */
    method UploadAll(monitor: string, monitorService: string, fan: string, fanService: string, env: Env)
      returns (ok: bool, ghost done: nat)
      requires Valid()
      modifies this
      ensures Valid()
      ensures done <= 4 && (ok ==> done == 4)
      ensures ok <==> old(conn).Some? && Reachable(old(conn), env) && UploadsGetThrough(env)
      ensures ok ==> conn.Some?
      ensures Reachable(old(conn), env) ==> Reachable(conn, env)
      ensures WritesOf(log) == WritesOf(old(log)) + DeployWrites(monitor, monitorService, fan, fanService)[..done]
      ensures ok ==> CommandsOf(log) == CommandsOf(old(log)) + DeployChmods
    {
      ghost var w0, c0 := WritesOf(log), CommandsOf(log);
      var a, b := ("/root/unas_monitor.py", monitor), ("/etc/systemd/system/unas_monitor.service", monitorService);
      var c, e := ("/root/fan_control.sh", fan), ("/etc/systemd/system/fan_control.service", fanService);
      ghost var d;
      ghost var start := old(conn).Some? && Reachable(old(conn), env);
      ok, d := UploadPair(a.0, a.1, b.0, b.1, env);
      PairsPrefix(w0, a, b, c, e, d);
      if !ok {
        assert !(start && UploadsGetThrough(env));
        done := d;
        return;
      }
      assert start && conn.Some? && Reachable(conn, env);
      ghost var chmod := CommandsOf(log)[|c0|];
      ok, d := UploadPair(c.0, c.1, e.0, e.1, env);
      PairsPrefix(w0, a, b, c, e, 2 + d);
      if ok {
        assert CommandsOf(log) == c0 + [chmod, "chmod +x " + ShellQuote(c.0)];
      }
      done := 2 + d;
    }

    /** A prefix of the four uploads, taken after the first pair or inside it. */
    static lemma PairsPrefix<T>(w0: seq<T>, a: T, b: T, c: T, e: T, n: nat)
      requires n <= 4
      ensures n <= 2 ==> w0 + [a, b, c, e][..n] == w0 + [a, b][..n]
      ensures 2 <= n ==> w0 + [a, b, c, e][..n] == (w0 + [a, b]) + [c, e][..n - 2]
    {
      if n <= 2 {
        assert [a, b, c, e][..n] == [a, b][..n];
      } else {
        assert [a, b, c, e][..n] == [a, b] + [c, e][..n - 2];
      }
    }

    /** The seven setup commands of `deploy_scripts`; `false` at the first that cannot run. */
    method RunSetup(env: Env) returns (ok: bool)
      requires Valid()
      modifies this
      ensures Valid()
      ensures ok <==> Reachable(old(conn), env) && SetupRuns(env)
      ensures Reachable(old(conn), env) ==> Reachable(conn, env)
      ensures WritesOf(log) == WritesOf(old(log))
      ensures ok ==> CommandsOf(log) == CommandsOf(old(log)) + SetupCommands
    {
      ghost var c0 := CommandsOf(log);
      assert CommandsOf(log) == c0 + SetupCommands[..0];
      ok := InstallDependencies(c0, env);
      if !ok { return; }
      ok := RestartServices(c0, env);
      if !ok { return; }
      assert SetupCommands[..7] == SetupCommands;
    }

    /** The two package installs, the first two setup commands. */
    method InstallDependencies(ghost c0: seq<string>, env: Env) returns (ok: bool)
      requires Valid() && CommandsOf(log) == c0 + SetupCommands[..0]
      modifies this
      ensures Valid() && WritesOf(log) == WritesOf(old(log))
      ensures ok <==> Reachable(old(conn), env) && env.runs(SetupCommand(0)) && env.runs(SetupCommand(1))
      ensures Reachable(old(conn), env) ==> Reachable(conn, env)
      ensures ok ==> CommandsOf(log) == c0 + SetupCommands[..2]
    {
      ok := RunPair(0, c0, env);
    }

    /** The five `systemctl` commands, the rest of the setup commands. */
    method RestartServices(ghost c0: seq<string>, env: Env) returns (ok: bool)
      requires Valid() && CommandsOf(log) == c0 + SetupCommands[..2]
      modifies this
      ensures Valid() && WritesOf(log) == WritesOf(old(log))
      ensures ok <==> (Reachable(old(conn), env) && env.runs(SetupCommand(2)) && env.runs(SetupCommand(3)) &&
        env.runs(SetupCommand(4)) && env.runs(SetupCommand(5)) && env.runs(SetupCommand(6)))
      ensures Reachable(old(conn), env) ==> Reachable(conn, env)
      ensures ok ==> CommandsOf(log) == c0 + SetupCommands[..7]
    {
      ok := RunStep(2, c0, env);
      if !ok { return; }
      ok := RunPair(3, c0, env);
      if !ok { return; }
      ok := RunPair(5, c0, env);
    }

    /** Two consecutive commands of the setup sequence. */
    method RunPair(k: nat, ghost c0: seq<string>, env: Env) returns (ok: bool)
      requires Valid() && k + 1 < 7 && CommandsOf(log) == c0 + SetupCommands[..k]
      modifies this
      ensures Valid() && WritesOf(log) == WritesOf(old(log))
      ensures ok <==> Reachable(old(conn), env) && env.runs(SetupCommand(k)) && env.runs(SetupCommand(k + 1))
      ensures Reachable(old(conn), env) ==> Reachable(conn, env)
      ensures ok ==> CommandsOf(log) == c0 + SetupCommands[..k + 2]
    {
      ok := RunStep(k, c0, env);
      if !ok { return; }
      ok := RunStep(k + 1, c0, env);
    }

    /** One `execute_command` of the setup sequence. */
    method RunStep(k: nat, ghost c0: seq<string>, env: Env) returns (ok: bool)
      requires Valid() && k < 7 && CommandsOf(log) == c0 + SetupCommands[..k]
      modifies this
      ensures Valid() && WritesOf(log) == WritesOf(old(log))
      ensures ok <==> Reachable(old(conn), env) && env.runs(SetupCommand(k))
      ensures Reachable(old(conn), env) ==> Reachable(conn, env)
      ensures ok ==> CommandsOf(log) == c0 + SetupCommands[..k + 1]
    {
      var out := ExecuteCommand(SetupCommand(k), env);
      ok := out.Some?;
      SnocPrefix(c0, SetupCommands, k);
    }

    /**
     * `deploy_scripts`: connect, fill in the templates, upload the four
     * files, then install the dependencies and (re)start both services.
     * `false` stands for the exception it re-raises, after `done` uploads.
     */
    method DeployScripts(model: string, root: string, t: Templates, env: Env) returns (ok: bool, ghost done: nat)
      requires Valid()
      modifies this
      ensures Valid()
      ensures !Reusable(old(conn), env) && !env.canOpen ==> !ok && log == old(log) + ConnectOps(old(conn), old(handles), ClientKeys(sshKey, password, env.home, env.keyExists), env)
      ensures ok <==> Reachable(old(conn), env) && DeployGetsThrough(env)
      ensures Reachable(old(conn), env) ==> Reachable(conn, env)
      ensures done <= 4 && (ok ==> done == 4)
      ensures WritesOf(log) == WritesOf(old(log)) + DeployedFiles(t, model, mqttHost, mqttUser, mqttPassword, root)[..done]
      ensures ok ==> CommandsOf(log) == CommandsOf(old(log)) + DeployChmods + SetupCommands
    {
      ok := Connect(env);
      done := 0;
      if !ok {
        return;
      }
      var monitor := t.monitorScript;
      var fan := t.fanScript;
      if CredentialsGiven(mqttHost, mqttUser, mqttPassword) {
        monitor := ReplaceMqttCredentials(monitor, mqttHost.value, mqttUser.value, mqttPassword.value, root);
        fan := ReplaceMqttCredentials(fan, mqttHost.value, mqttUser.value, mqttPassword.value, root);
      }
      monitor := Replace(monitor, ModelPattern, ModelLine(model));
      assert DeployWrites(monitor, t.monitorService, fan, t.fanService) == DeployedFiles(t, model, mqttHost, mqttUser, mqttPassword, root);
      ok, done := UploadAll(monitor, t.monitorService, fan, t.fanService, env);
      if !ok {
        return;
      }
      ok := RunSetup(env);
    }
  }
}
