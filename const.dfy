/** The constants and naming helpers of `const.py`. */
module Const {
  import opened Text

  const Domain := "unifi_unas"

  const DefaultUsername := "root"
  const DefaultScanInterval := 30
  const MinScanInterval := 5
  const MaxScanInterval := 60

  const DefaultDeviceModel := "UNAS_PRO"

  /** Model identifier to display name. */
  const DeviceModels: map<string, string> := map[
    "UNAS_PRO" := "UNAS Pro (7-bay)",
    "UNAS_PRO_8" := "UNAS Pro 8",
    "UNAS_PRO_4" := "UNAS Pro 4",
    "UNAS_4" := "UNAS 4",
    "UNAS_2" := "UNAS 2",
    "UNVR" := "UNVR"
  ]

  /** The private keys tried, in order, when neither key nor password is configured. */
  function SshKeyPaths(home: string): (r: seq<string>)
    ensures |r| == 4
    ensures r[0] == "/config/.ssh/id_rsa" && r[1] == "/config/.ssh/id_ed25519"
    ensures r[2] == home + "/.ssh/id_rsa" && r[3] == home + "/.ssh/id_ed25519"
  {
    ["/config/.ssh/id_rsa", "/config/.ssh/id_ed25519", home + "/.ssh/id_rsa", home + "/.ssh/id_ed25519"]
  }

  /** The device name and model shown for a configured model identifier. */
  function DeviceInfo(model: string): (r: (string, string))
    ensures r.0 == "UNVR" || r.0 == "UNAS"
    ensures r.0 == "UNVR" <==> model == "UNVR"
    ensures r.1 == "UniFi " + r.0
  {
    if model == "UNVR" then ("UNVR", "UniFi UNVR") else ("UNAS", "UniFi UNAS")
  }

  /** `entry_id[:8]`: at most the first eight characters. */
  function Prefix8(entryId: string): (p: string)
    ensures |p| == if |entryId| < 8 then |entryId| else 8
    ensures StartsWith(entryId, p)
  {
    if |entryId| < 8 then entryId else entryId[..8]
  }

  /** The per-entry MQTT namespace, `unas/` and the entry id's first eight characters. */
  function MqttRoot(entryId: string): (r: string)
    ensures StartsWith(r, "unas/")
    ensures r[5..] == Prefix8(entryId)
  {
    var r := "unas/" + Prefix8(entryId);
    assert r[..5] == "unas/";
    r
  }

  /** Two entries whose ids agree on eight characters share one namespace. */
  lemma {:induction false} MqttRootSharedPrefix(a: string, b: string)
    requires |a| >= 8 && |b| >= 8 && a[..8] == b[..8]
    ensures MqttRoot(a) == MqttRoot(b)
  {
  }

  /** Distinct namespaces come from ids that differ within their first eight characters. */
  lemma {:induction false} MqttRootInjective(a: string, b: string)
    requires MqttRoot(a) == MqttRoot(b)
    ensures Prefix8(a) == Prefix8(b)
  {
    assert MqttRoot(a)[5..] == MqttRoot(b)[5..];
  }

  const TopicKeys: set<string> := {"availability", "control", "system", "hdd", "nvme", "pool", "smb", "nfs"}

  /** The topic table: the root, and one sub-topic per category. */
  function MqttTopics(entryId: string): (r: map<string, string>)
    ensures r.Keys == TopicKeys + {"root"}
    ensures r["root"] == MqttRoot(entryId)
    ensures forall k :: k in TopicKeys ==> r[k] == MqttRoot(entryId) + "/" + k
  {
    var root := MqttRoot(entryId);
    map k | k in TopicKeys + {"root"} :: if k == "root" then root else root + "/" + k
  }
}
