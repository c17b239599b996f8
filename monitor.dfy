/**
 * The appliance-side monitor `scripts/unas_monitor.py`: the ATA-port to
 * bay tables and the cached bay lookup, the drive bookkeeping of
 * `get_drives` with its removal grace period, the monitor-interval
 * control message, the temperature file for the fan script, and the
 * parsers of `df`, `smbstatus` and `showmount` output.
 *
 * Command output (`udevadm`, `df`, `smbstatus`, `showmount`) arrives as
 * strings; what `smartctl` reports for a device is an oracle returning
 * the serial and temperature, or `None` when the device is skipped.
 * Time is an integer in microseconds.
 */
module Monitor {
  import opened Text
  import Const

  // ---------------------------------------------------------------------
  // BAY_MAPPINGS

  /** `BAY_MAPPINGS.get(model)`: ATA port number to bay number. */
  function BayMapping(model: string): (m: Option<map<string, string>>)
  {
    if model == "UNAS_PRO" then Some(map["1" := "6", "3" := "7", "4" := "3", "5" := "5", "6" := "2", "7" := "4", "8" := "1"])
    else if model == "UNAS_PRO_8" then Some(map["1" := "1", "2" := "2", "3" := "3", "4" := "4", "5" := "5", "6" := "6", "7" := "7", "8" := "8"])
    else if model == "UNAS_PRO_4" then Some(map["1" := "1", "2" := "2", "3" := "3", "4" := "4"])
    else if model == "UNAS_4" then Some(map["1" := "1", "2" := "2", "3" := "3", "4" := "4"])
    else if model == "UNAS_2" then Some(map["1" := "1", "2" := "2"])
    else if model == "UNVR" then Some(map["1" := "3", "3" := "4", "5" := "2", "7" := "1"])
    else None
  }

  /** Every model the integration offers has a table, and only those. */
  lemma EveryModelHasBays(model: string)
    ensures BayMapping(model).Some? <==> model in Const.DeviceModels
  {
  }

  ghost predicate Injective(m: map<string, string>) {
    forall a, b :: a in m && b in m && a != b ==> m[a] != m[b]
  }

  /** No two ATA ports share a bay, in any table. */
  lemma BayMappingsInjective(model: string)
    requires BayMapping(model).Some?
    ensures Injective(BayMapping(model).value)
  {
  }

  // ---------------------------------------------------------------------
  // get_bay_number

  /** A `udevadm` path segment `ata<N>` whose N is a port of the table. */
  predicate AtaPort(part: string, table: map<string, string>) {
    StartsWith(part, "ata") && part[3..] in table
  }

  /** The bay of the first segment naming a known ATA port. */
  function {:induction false} BayOf(parts: seq<string>, table: map<string, string>): (r: Option<string>)
    ensures r.Some? ==> r.value in table.Values
    ensures r.None? <==> forall i :: 0 <= i < |parts| ==> !AtaPort(parts[i], table)
    decreases |parts|
  {
    if parts == [] then None
    else if AtaPort(parts[0], table) then Some(table[parts[0][3..]])
    else
      var r := BayOf(parts[1..], table);
      assert forall i :: 1 <= i < |parts| ==> parts[i] == parts[1..][i - 1];
      r
  }

  /** The segment `BayOf` reads is the first one naming a known port. */
  lemma {:induction false} BayOfFirst(parts: seq<string>, table: map<string, string>) returns (i: nat)
    requires BayOf(parts, table).Some?
    ensures i < |parts| && AtaPort(parts[i], table) && BayOf(parts, table) == Some(table[parts[i][3..]])
    ensures forall j :: 0 <= j < i ==> !AtaPort(parts[j], table)
    decreases |parts|
  {
    if AtaPort(parts[0], table) {
      i := 0;
    } else {
      var k := BayOfFirst(parts[1..], table);
      i := k + 1;
      assert forall j :: 1 <= j <= k ==> parts[j] == parts[1..][j - 1];
    }
  }

  /** The bay of a device, read from the cache when it holds an entry (even `None`). */
  function BayFor(cache: map<string, Option<string>>, device: string, udev: string -> string, table: map<string, string>): Option<string> {
    if device in cache then cache[device] else BayOf(Split(udev(device), "/"), table)
  }

  /** A cache that only ever adds answers keeps every answer the original cache would give. */
  lemma CacheStep(cache0: map<string, Option<string>>, cache1: map<string, Option<string>>, device: string,
                  bay: Option<string>, udev: string -> string, table: map<string, string>)
    requires cache0.Keys <= cache1.Keys
    requires forall d :: d in cache1 ==> cache1[d] == BayFor(cache0, d, udev, table)
    requires bay == BayFor(cache1, device, udev, table)
    ensures bay == BayFor(cache0, device, udev, table)
    ensures forall d :: d in cache1[device := bay] ==> cache1[device := bay][d] == BayFor(cache0, d, udev, table)
  {
  }

  // ---------------------------------------------------------------------
  // the drive scan of get_drives

  /** What `smartctl` tells the bookkeeping about a drive. */
  datatype Smart = Smart(serial: string, temperature: int)

  /** A drive that was published, in discovery order. */
  datatype Drive = Drive(bay: string, serial: string, temperature: int)

  /**
   * The scan loop: devices without a bay or without usable `smartctl`
   * output are skipped; the others are listed, and the serial map keeps
   * the last bay seen for each serial.
   */
  function Scan(devices: seq<string>, cache: map<string, Option<string>>, udev: string -> string, table: map<string, string>,
                smart: string -> Option<Smart>): (r: (seq<Drive>, map<string, string>))
    ensures |r.0| <= |devices| && forall i :: 0 <= i < |r.0| ==> r.0[i].bay != ""
    decreases |devices|
  {
    if devices == [] then ([], map[])
    else
      var d := devices[|devices| - 1];
      var prev := Scan(devices[..|devices| - 1], cache, udev, table, smart);
      var bay := BayFor(cache, d, udev, table);
      if bay.None? || bay.value == "" || smart(d).None? then prev
      else (prev.0 + [Drive(bay.value, smart(d).value.serial, smart(d).value.temperature)],
            prev.1[smart(d).value.serial := bay.value])
  }

  /** One more device for the scan. */
  lemma ScanNext(devices: seq<string>, k: nat, cache: map<string, Option<string>>, udev: string -> string,
                 table: map<string, string>, smart: string -> Option<Smart>)
    requires k < |devices|
    ensures var prev := Scan(devices[..k], cache, udev, table, smart);
      var d := devices[k];
      var bay := BayFor(cache, d, udev, table);
      Scan(devices[..k + 1], cache, udev, table, smart) ==
        if bay.None? || bay.value == "" || smart(d).None? then prev
        else (prev.0 + [Drive(bay.value, smart(d).value.serial, smart(d).value.temperature)],
              prev.1[smart(d).value.serial := bay.value])
  {
    assert devices[..k + 1][..k] == devices[..k] && devices[..k + 1][k] == devices[k];
  }

  /** The bay of the last listed drive with this serial. */
  function LastBay(drives: seq<Drive>, serial: string): (r: Option<string>)
    ensures r.Some? <==> exists i :: 0 <= i < |drives| && drives[i].serial == serial
    decreases |drives|
  {
    if drives == [] then None
    else if drives[|drives| - 1].serial == serial then Some(drives[|drives| - 1].bay)
    else
      var r := LastBay(drives[..|drives| - 1], serial);
      assert forall i :: 0 <= i < |drives| - 1 ==> drives[..|drives| - 1][i] == drives[i];
      r
  }

  /** The serial map holds exactly the listed serials, each with the bay of its last listing. */
  lemma {:induction false} ScanFacts(devices: seq<string>, cache: map<string, Option<string>>, udev: string -> string,
                                     table: map<string, string>, smart: string -> Option<Smart>, serial: string)
    ensures var r := Scan(devices, cache, udev, table, smart);
      (serial in r.1 ==> LastBay(r.0, serial) == Some(r.1[serial])) && (serial !in r.1 ==> LastBay(r.0, serial) == None)
    decreases |devices|
  {
    if devices != [] {
      var d := devices[|devices| - 1];
      var ds := devices[..|devices| - 1];
      ScanFacts(ds, cache, udev, table, smart, serial);
      var p := Scan(ds, cache, udev, table, smart);
      var bay := BayFor(cache, d, udev, table);
      if !(bay.None? || bay.value == "" || smart(d).None?) {
        var x := Drive(bay.value, smart(d).value.serial, smart(d).value.temperature);
        var r0 := p.0 + [x];
        assert r0[..|r0| - 1] == p.0 && r0[|r0| - 1] == x;
      }
    }
  }

  // ---------------------------------------------------------------------
  // the removal grace period

  /** `self.grace_period`, 60 s. */
  const GracePeriod := 60_000_000

  /** Serials that disappeared get a removal stamp, unless they already have one. */
  function Stamped(removedAt: map<string, (int, string)>, prev: map<string, string>, current: map<string, string>, now: int):
    (r: map<string, (int, string)>)
    ensures r.Keys == removedAt.Keys + (prev.Keys - current.Keys)
    ensures forall s :: s in removedAt ==> r[s] == removedAt[s]
    ensures forall s :: s in prev && s !in current && s !in removedAt ==> r[s] == (now, prev[s])
  {
    removedAt + map s | s in prev.Keys - current.Keys && s !in removedAt :: (now, prev[s])
  }

  /** Stamps are dropped for serials that are back and for those whose grace period ran out. */
  function Expired(stamps: map<string, (int, string)>, current: map<string, string>, now: int): (r: map<string, (int, string)>)
    ensures forall s :: s in r <==> s in stamps && s !in current && now - stamps[s].0 <= GracePeriod
    ensures forall s :: s in r ==> r[s] == stamps[s]
  {
    map s | s in stamps && s !in current && !(now - stamps[s].0 > GracePeriod) :: stamps[s]
  }

  /** A map with the keys and values of `Stamped` is `Stamped`. */
  lemma StampedPointwise(m: map<string, (int, string)>, removedAt: map<string, (int, string)>, prev: map<string, string>,
                         current: map<string, string>, now: int)
    requires m.Keys == removedAt.Keys + (prev.Keys - current.Keys)
    requires forall k :: k in m ==> m[k] == if k in removedAt then removedAt[k] else (now, prev[k])
    ensures m == Stamped(removedAt, prev, current, now)
  {
  }

  /** The removal stamps after one scan. */
  function GraceAfter(removedAt: map<string, (int, string)>, prev: map<string, string>, current: map<string, string>, now: int):
    (r: map<string, (int, string)>)
    ensures forall s :: s in r ==> s !in current && now - r[s].0 <= GracePeriod && (s in removedAt || s in prev)
    ensures forall s :: s in r && s in removedAt ==> r[s] == removedAt[s]
    ensures forall s :: s in r && s !in removedAt ==> r[s] == (now, prev[s])
  {
    Expired(Stamped(removedAt, prev, current, now), current, now)
  }

  /**
   * The grace period: a drive that disappears is stamped once, with the
   * time and its old bay; a drive that is back loses its stamp; a stamp
   * older than the grace period is dropped; an existing stamp is never
   * renewed.
   */
  lemma GraceFacts(removedAt: map<string, (int, string)>, prev: map<string, string>, current: map<string, string>, now: int)
    ensures var r := GraceAfter(removedAt, prev, current, now);
      (forall s :: s in r ==> s !in current && (s in removedAt || s in prev)) &&
      (forall s :: s in prev && s !in current && s !in removedAt ==> s in r && r[s] == (now, prev[s])) &&
      (forall s :: s in removedAt && s !in current && now - removedAt[s].0 <= GracePeriod ==> s in r && r[s] == removedAt[s]) &&
      (forall s :: s in removedAt && now - removedAt[s].0 > GracePeriod ==> s !in r)
  {
  }

  /** A drive that stays away is forgotten once its stamp is older than the grace period. */
  lemma {:induction false} StampAge(removedAt: map<string, (int, string)>, prev: map<string, string>, current: map<string, string>,
                                    now: int, s: string)
    requires s in GraceAfter(removedAt, prev, current, now)
    ensures now - GraceAfter(removedAt, prev, current, now)[s].0 <= GracePeriod
    ensures s in removedAt ==> GraceAfter(removedAt, prev, current, now)[s] == removedAt[s]
  {
    var st := Stamped(removedAt, prev, current, now);
    assert s in st;
  }

  /** The loop over the serials that disappeared, in the order given, stamping those without a stamp. */
  method StampLoop(removedAt: map<string, (int, string)>, prev: map<string, string>, current: map<string, string>, now: int,
                   order: seq<string>)
    returns (stamps: map<string, (int, string)>)
    requires forall k :: k in order <==> k in prev && k !in current
    ensures stamps == Stamped(removedAt, prev, current, now)
  {
    stamps := removedAt;
    for i := 0 to |order|
      invariant forall k :: k in stamps <==> k in removedAt || k in order[..i]
      invariant forall k :: k in stamps ==> stamps[k] == if k in removedAt then removedAt[k] else (now, prev[k])
    {
      var s := order[i];
      assert order[..i + 1] == order[..i] + [s];
      if s !in stamps {
        stamps := stamps[s := (now, prev[s])];
      }
    }
    assert order[..|order|] == order;
    StampedPointwise(stamps, removedAt, prev, current, now);
  }

  /** A map with the keys and values of `Expired` is `Expired`. */
  lemma ExpiredPointwise(m: map<string, (int, string)>, stamps: map<string, (int, string)>, current: map<string, string>, now: int)
    requires forall k :: k in m <==> k in stamps && k !in current && !(now - stamps[k].0 > GracePeriod)
    requires forall k :: k in m ==> m[k] == stamps[k]
    ensures m == Expired(stamps, current, now)
  {
  }

  /** The loop over the stamped serials, in the order given, dropping the stamps of drives that are back or expired. */
  method ExpireLoop(stamps: map<string, (int, string)>, current: map<string, string>, now: int, order: seq<string>)
    returns (kept: map<string, (int, string)>)
    requires forall k :: k in order <==> k in stamps
    ensures kept == Expired(stamps, current, now)
  {
    kept := stamps;
    for i := 0 to |order|
      invariant forall k :: k in kept <==> k in stamps && (k !in order[..i] || (k !in current && !(now - stamps[k].0 > GracePeriod)))
      invariant forall k :: k in kept ==> kept[k] == stamps[k]
    {
      var s := order[i];
      assert order[..i + 1] == order[..i] + [s];
      var stamp := stamps[s];
      if s in current || now - stamp.0 > GracePeriod {
        kept := kept - {s};
      }
    }
    assert order[..|order|] == order;
    ExpiredPointwise(kept, stamps, current, now);
  }

  // ---------------------------------------------------------------------
  // the temperature file

  function InsertDesc(x: int, s: seq<int>): (r: seq<int>)
    decreases |s|
  {
    if s == [] || x >= s[0] then [x] + s else [s[0]] + InsertDesc(x, s[1..])
  }

  /** `sorted(s, reverse=True)`. */
  function SortDesc(s: seq<int>): (r: seq<int>)
    decreases |s|
  {
    if s == [] then [] else InsertDesc(s[0], SortDesc(s[1..]))
  }

  predicate Descending(s: seq<int>) {
    forall i, j :: 0 <= i < j < |s| ==> s[i] >= s[j]
  }

  lemma {:induction false} InsertDescOrder(x: int, s: seq<int>)
    requires Descending(s)
    ensures Descending(InsertDesc(x, s)) && |InsertDesc(x, s)| == |s| + 1
    ensures InsertDesc(x, s)[0] == (if s == [] || x >= s[0] then x else s[0])
    decreases |s|
  {
    if s != [] && x < s[0] {
      var t := InsertDesc(x, s[1..]);
      assert Descending(s[1..]) by {
        forall i, j | 0 <= i < j < |s[1..]| ensures s[1..][i] >= s[1..][j] {
          assert s[1..][i] == s[i + 1] && s[1..][j] == s[j + 1];
        }
      }
      InsertDescOrder(x, s[1..]);
      assert t[0] <= s[0] by {
        if |s| > 1 {
          assert s[1..][0] == s[1];
        }
      }
      var r := [s[0]] + t;
      assert InsertDesc(x, s) == r;
      forall i, j | 0 <= i < j < |r| ensures r[i] >= r[j] {
        assert r[j] == t[j - 1];
        if i == 0 {
          if j > 1 {
            assert t[0] >= t[j - 1];
          }
        } else {
          assert r[i] == t[i - 1];
        }
      }
    } else {
      assert InsertDesc(x, s) == [x] + s;
    }
  }

  lemma {:induction false} InsertDescPerm(x: int, s: seq<int>)
    ensures multiset(InsertDesc(x, s)) == multiset(s) + multiset{x}
    decreases |s|
  {
    if s != [] && x < s[0] {
      InsertDescPerm(x, s[1..]);
      assert s == [s[0]] + s[1..];
    }
  }

  /** The sort is descending and a permutation. */
  lemma {:induction false} SortDescFacts(s: seq<int>)
    ensures Descending(SortDesc(s)) && multiset(SortDesc(s)) == multiset(s) && |SortDesc(s)| == |s|
    decreases |s|
  {
    if s != [] {
      SortDescFacts(s[1..]);
      InsertDescOrder(s[0], SortDesc(s[1..]));
      InsertDescPerm(s[0], SortDesc(s[1..]));
      assert s == [s[0]] + s[1..];
    }
  }

  function IntStrings(s: seq<int>): (r: seq<string>)
    ensures |r| == |s| && forall i :: 0 <= i < |s| ==> r[i] == IntToString(s[i])
  {
    seq(|s|, i requires 0 <= i < |s| => IntToString(s[i]))
  }

  /** `write_hdd_temps`: the temperatures, hottest first, separated by spaces. */
  function TempString(temps: seq<int>): string {
    Join(IntStrings(SortDesc(temps)), " ")
  }

  /** The positions of the drives reporting a positive temperature, ascending. */
  function PositiveIndices(drives: seq<Drive>): (idx: seq<nat>)
    ensures forall j :: 0 <= j < |idx| ==> idx[j] < |drives|
    ensures forall j, k :: 0 <= j < k < |idx| ==> idx[j] < idx[k]
    ensures forall i :: 0 <= i < |drives| ==> (i in idx <==> drives[i].temperature > 0)
    decreases |drives|
  {
    if drives == [] then []
    else
      var idx := PositiveIndices(drives[..|drives| - 1]);
      if drives[|drives| - 1].temperature > 0 then idx + [|drives| - 1] else idx
  }

  /**
   * The positive temperatures of the listed drives, in order (see
   * `PositiveTempsInOrder`).
   */
  function PositiveTemps(drives: seq<Drive>): (t: seq<int>)
    ensures |t| <= |drives| && forall i :: 0 <= i < |t| ==> t[i] > 0
    ensures t == [] <==> forall i :: 0 <= i < |drives| ==> drives[i].temperature <= 0
    decreases |drives|
  {
    if drives == [] then []
    else
      var t := PositiveTemps(drives[..|drives| - 1]);
      if drives[|drives| - 1].temperature > 0 then t + [drives[|drives| - 1].temperature] else t
  }

  /**
   * `PositiveTemps` keeps the order of the drives: its j-th entry is the
   * temperature of the j-th drive that reports a positive one.
   */
  lemma {:induction false} PositiveTempsInOrder(drives: seq<Drive>)
    ensures var idx := PositiveIndices(drives); var t := PositiveTemps(drives);
      |t| == |idx| && forall j :: 0 <= j < |idx| ==> t[j] == drives[idx[j]].temperature
    decreases |drives|
  {
    if drives != [] {
      var init := drives[..|drives| - 1];
      var last := |drives| - 1;
      PositiveTempsInOrder(init);
      var idx0, t0 := PositiveIndices(init), PositiveTemps(init);
      if drives[last].temperature > 0 {
        assert PositiveIndices(drives) == idx0 + [last];
        assert PositiveTemps(drives) == t0 + [drives[last].temperature];
        forall j | 0 <= j < |idx0|
          ensures (t0 + [drives[last].temperature])[j] == drives[(idx0 + [last])[j]].temperature
        {
          assert init[idx0[j]] == drives[idx0[j]];
        }
      } else {
        assert PositiveIndices(drives) == idx0;
        assert PositiveTemps(drives) == t0;
        forall j | 0 <= j < |idx0|
          ensures t0[j] == drives[idx0[j]].temperature
        {
          assert init[idx0[j]] == drives[idx0[j]];
        }
      }
    }
  }

  /** What goes to the temperature file: the positive temperatures, or `[0]` when there are none. */
  function HddTemps(drives: seq<Drive>): (r: seq<int>)
    ensures |r| >= 1 && forall i :: 0 <= i < |r| ==> r[i] >= 0
    ensures r == [0] <==> forall i :: 0 <= i < |drives| ==> drives[i].temperature <= 0
    ensures r != [0] ==> r == PositiveTemps(drives)
  {
    var t := PositiveTemps(drives);
    if t == [] then [0] else assert t[0] != 0; t
  }

  /** With no drive reporting a temperature the file holds `0`. */
  lemma NoTemperatures(drives: seq<Drive>)
    requires PositiveTemps(drives) == []
    ensures TempString(HddTemps(drives)) == "0"
  {
    assert SortDesc([0]) == [0];
    assert IntStrings([0]) == ["0"];
  }

  /** The file lists each temperature once, hottest first. */
  lemma TempStringHottestFirst(temps: seq<int>)
    ensures var s := SortDesc(temps);
      Descending(s) && multiset(s) == multiset(temps) && TempString(temps) == Join(IntStrings(s), " ")
  {
    SortDescFacts(temps);
  }

  // ---------------------------------------------------------------------
  // the monitor interval

  const MinInterval := 5
  const MaxInterval := 60
  const DefaultInterval := 30

  /** The interval a control message sets: `int(float(payload))` when it lies in 5..60. */
  function IntervalOf(payload: string): (r: Option<int>)
    ensures r.Some? ==> MinInterval <= r.value <= MaxInterval
    ensures r.Some? <==> TruncFloat(payload).Some? && MinInterval <= TruncFloat(payload).value <= MaxInterval
    ensures r.Some? ==> r == TruncFloat(payload)
  {
    var v := TruncFloat(payload);
    if v.Some? && MinInterval <= v.value <= MaxInterval then v else None
  }

  /** Every scan interval the integration allows and publishes is taken as is. */
  lemma AcceptsConfiguredInterval(n: int)
    requires Const.MinScanInterval <= n <= Const.MaxScanInterval
    ensures IntervalOf(IntToString(n)) == Some(n)
  {
    TruncFloatOfInt(n);
  }

  // ---------------------------------------------------------------------
  // the monitor object

  class UnasMonitor {
    /** `ATA_TO_BAY`. */
    const table: map<string, string>
    /** `MONITOR_INTERVAL_TOPIC`. */
    const intervalTopic: string
    var monitorInterval: int
    /** The last content written to the interval file. */
    var intervalFile: Option<string>
    var bayCache: map<string, Option<string>>
    var knownDrives: set<string>
    /** Serial to bay, as of the previous scan. */
    var previousDriveMap: map<string, string>
    /** Serial to removal stamp and old bay. */
    var driveRemovedAt: map<string, (int, string)>
    /** The last content written to the temperature file. */
    var tempFile: Option<string>

    /** Everything but the bay cache, as one value. */
    function BesidesCache(): (set<string>, map<string, string>, map<string, (int, string)>, Option<string>, int, Option<string>)
      reads this
    {
      (knownDrives, previousDriveMap, driveRemovedAt, tempFile, monitorInterval, intervalFile)
    }

    /** The drive bookkeeping, as one value. */
    function DriveState(): (map<string, Option<string>>, set<string>, map<string, string>, map<string, (int, string)>, Option<string>)
      reads this
    {
      (bayCache, knownDrives, previousDriveMap, driveRemovedAt, tempFile)
    }

    /**
     * The monitor for `model`, publishing under `root`. A model without a
     * table would fail at the first bay lookup; the integration deploys
     * only models that have one.
     */
    constructor (model: string, root: string)
      requires BayMapping(model).Some?
      ensures table == BayMapping(model).value && intervalTopic == root + "/control" + "/monitor_interval"
      ensures monitorInterval == DefaultInterval && intervalFile == None
      ensures bayCache == map[] && knownDrives == {} && previousDriveMap == map[] && driveRemovedAt == map[] && tempFile == None
    {
      table := BayMapping(model).value;
      intervalTopic := root + "/control" + "/monitor_interval";
      monitorInterval := DefaultInterval;
      intervalFile := None;
      bayCache := map[];
      knownDrives := {};
      previousDriveMap := map[];
      driveRemovedAt := map[];
      tempFile := None;
    }

    /** `_on_message`: an interval in range on the interval topic is taken and written for the fan script. */
    method OnMessage(topic: string, payload: string)
      modifies this
      ensures topic == intervalTopic && IntervalOf(payload).Some? ==>
        monitorInterval == IntervalOf(payload).value && intervalFile == Some(IntToString(monitorInterval))
      ensures !(topic == intervalTopic && IntervalOf(payload).Some?) ==>
        monitorInterval == old(monitorInterval) && intervalFile == old(intervalFile)
      ensures DriveState() == old(DriveState())
    {
      if topic == intervalTopic {
        var v := IntervalOf(payload);
        if v.Some? {
          monitorInterval := v.value;
          intervalFile := Some(IntToString(v.value));
        }
      }
    }

    /** `run` at start-up: the current interval is written for the fan script. */
    method Start()
      modifies this
      ensures intervalFile == Some(IntToString(monitorInterval))
      ensures monitorInterval == old(monitorInterval) && DriveState() == old(DriveState())
    {
      intervalFile := Some(IntToString(monitorInterval));
    }

    /** `get_bay_number`: a cached answer, or the first known ATA port of the device path, cached (even when `None`). */
    method GetBayNumber(device: string, udev: string -> string) returns (bay: Option<string>)
      modifies this
      ensures bay == BayFor(old(bayCache), device, udev, table)
      ensures bayCache == old(bayCache)[device := bay]
      ensures BesidesCache() == old(BesidesCache())
    {
      if device in bayCache {
        bay := bayCache[device];
        assert bayCache == bayCache[device := bay];
        return;
      }
      var parts := Split(udev(device), "/");
      bay := None;
      var i := 0;
      while i < |parts|
        invariant 0 <= i <= |parts|
        invariant BayOf(parts[i..], table) == BayOf(parts, table)
      {
        if StartsWith(parts[i], "ata") && parts[i][3..] in table {
          bay := Some(table[parts[i][3..]]);
          break;
        }
        assert parts[i..][1..] == parts[i + 1..];
        i := i + 1;
      }
      bayCache := bayCache[device := bay];
    }

    /** A change in the set of `sd?` devices clears the bay cache. */
    method NoteDevices(current: set<string>)
      modifies this
      ensures knownDrives == current
      ensures bayCache == if current != old(knownDrives) then map[] else old(bayCache)
      ensures previousDriveMap == old(previousDriveMap) && driveRemovedAt == old(driveRemovedAt) && tempFile == old(tempFile)
      ensures monitorInterval == old(monitorInterval) && intervalFile == old(intervalFile)
    {
      if current != knownDrives {
        bayCache := map[];
        knownDrives := current;
      }
    }

    /** The scan loop over the devices. */
    method ScanDevices(devices: seq<string>, udev: string -> string, smart: string -> Option<Smart>)
      returns (drives: seq<Drive>, current: map<string, string>)
      modifies this
      ensures (drives, current) == Scan(devices, old(bayCache), udev, table, smart)
      ensures bayCache.Keys == old(bayCache).Keys + set i | 0 <= i < |devices| :: devices[i]
      ensures forall d :: d in bayCache ==> bayCache[d] == BayFor(old(bayCache), d, udev, table)
      ensures BesidesCache() == old(BesidesCache())
    {
      ghost var cache0 := bayCache;
      drives, current := [], map[];
      for k := 0 to |devices|
        invariant (drives, current) == Scan(devices[..k], cache0, udev, table, smart)
        invariant bayCache.Keys == cache0.Keys + set i | 0 <= i < k :: devices[i]
        invariant forall d :: d in bayCache ==> bayCache[d] == BayFor(cache0, d, udev, table)
        invariant BesidesCache() == old(BesidesCache())
      {
        var device := devices[k];
        assert (set i | 0 <= i < k + 1 :: devices[i]) == (set i | 0 <= i < k :: devices[i]) + {device};
        ghost var cache1 := bayCache;
        var bay := GetBayNumber(device, udev);
        CacheStep(cache0, cache1, device, bay, udev, table);
        ScanNext(devices, k, cache0, udev, table, smart);
        if bay.None? || bay.value == "" {
          continue;
        }
        var s := smart(device);
        if s.None? {
          continue;
        }
        drives := drives + [Drive(bay.value, s.value.serial, s.value.temperature)];
        current := current[s.value.serial := bay.value];
      }
      assert devices[..|devices|] == devices;
    }

    /** The first grace loop: stamping the serials that disappeared. */
    method StampRemoved(current: map<string, string>, now: int)
      modifies this
      ensures driveRemovedAt == Stamped(old(driveRemovedAt), previousDriveMap, current, now)
      ensures bayCache == old(bayCache) && knownDrives == old(knownDrives) && previousDriveMap == old(previousDriveMap)
      ensures tempFile == old(tempFile) && monitorInterval == old(monitorInterval) && intervalFile == old(intervalFile)
    {
      var order := SortStrings(previousDriveMap.Keys - current.Keys);
      driveRemovedAt := StampLoop(driveRemovedAt, previousDriveMap, current, now, order);
    }

    /** The second grace loop: dropping the stamps of drives that are back or whose period ran out. */
    method ExpireStamps(current: map<string, string>, now: int)
      modifies this
      ensures driveRemovedAt == Expired(old(driveRemovedAt), current, now)
      ensures bayCache == old(bayCache) && knownDrives == old(knownDrives) && previousDriveMap == old(previousDriveMap)
      ensures tempFile == old(tempFile) && monitorInterval == old(monitorInterval) && intervalFile == old(intervalFile)
    {
      var order := SortStrings(driveRemovedAt.Keys);
      driveRemovedAt := ExpireLoop(driveRemovedAt, current, now, order);
    }

    /**
     * `get_drives` without the `smartctl` field extraction: the bay
     * cache follows the device set, the drives with a bay and usable
     * `smartctl` output are listed, the removal stamps are updated, the
     * serial map replaced, and the temperature file rewritten.
     */
    method GetDrives(devices: seq<string>, now: int, udev: string -> string, smart: string -> Option<Smart>)
      returns (drives: seq<Drive>)
      modifies this
      ensures knownDrives == set d | d in devices
      ensures var cache0 := if (set d | d in devices) != old(knownDrives) then map[] else old(bayCache);
        (drives, previousDriveMap) == Scan(devices, cache0, udev, table, smart) &&
        driveRemovedAt == GraceAfter(old(driveRemovedAt), old(previousDriveMap), previousDriveMap, now)
      ensures tempFile == Some(TempString(HddTemps(drives)))
      ensures monitorInterval == old(monitorInterval) && intervalFile == old(intervalFile)
    {
      NoteDevices(set d | d in devices);
      var current;
      drives, current := ScanDevices(devices, udev, smart);
      StampRemoved(current, now);
      ExpireStamps(current, now);
      previousDriveMap := current;
      tempFile := Some(TempString(HddTemps(drives)));
    }
  }

  // ---------------------------------------------------------------------
  // get_pools

  /** `s.rstrip(c)`: every trailing `c` removed. */
  function RStripChar(s: string, c: char): (r: string)
    ensures |r| <= |s| && r == s[..|r|]
    ensures r == [] || r[|r| - 1] != c
    ensures forall i :: |r| <= i < |s| ==> s[i] == c
    decreases |s|
  {
    if |s| > 0 && s[|s| - 1] == c then RStripChar(s[..|s| - 1], c) else s
  }

  /** A `df -BG` figure: the number with its unit suffix stripped. */
  function Figure(field: string, unit: char): Option<int> {
    ParseInt(RStripChar(field, unit))
  }

  /** One volume of `get_pools`: skipped, kept with its figures, or an exception. */
  datatype Volume = Skipped | Kept(size: int, used: int, available: int, usage: int) | Failed

  /** A pool as published. */
  datatype Pool = Pool(num: int, size: int, used: int, available: int, usage: int)

  /** The smallest size, in GB, a volume must exceed to count as a pool. */
  const MinPoolSize := 75

  /**
   * The `df` output of one volume: fewer than two lines is skipped; a
   * size of 75 GB or less is skipped; a missing column or a figure that
   * is no integer raises.
   */
  function VolumeOf(df: string): (v: Volume)
    ensures v.Kept? ==> v.size > MinPoolSize
  {
    var lines := Split(Strip(df), "\n");
    if |lines| < 2 then Skipped
    else
      var parts := SplitWs(lines[1]);
      if |parts| < 2 || Figure(parts[1], 'G').None? then Failed
      else if Figure(parts[1], 'G').value <= MinPoolSize then Skipped
      else if |parts| < 5 || Figure(parts[2], 'G').None? || Figure(parts[3], 'G').None? || Figure(parts[4], '%').None? then Failed
      else Kept(Figure(parts[1], 'G').value, Figure(parts[2], 'G').value, Figure(parts[3], 'G').value, Figure(parts[4], '%').value)
  }

  /** What each directory yields: a non-directory is skipped, a directory is measured. */
  function VolumesOf(dirs: seq<string>, isDir: string -> bool, df: string -> string): (r: seq<Volume>)
    ensures |r| == |dirs| && forall i :: 0 <= i < |dirs| ==> r[i] == if isDir(dirs[i]) then VolumeOf(df(dirs[i])) else Skipped
  {
    seq(|dirs|, i requires 0 <= i < |dirs| => if isDir(dirs[i]) then VolumeOf(df(dirs[i])) else Skipped)
  }

  /** The pools of the volumes in order, numbered as they qualify; `None` when one of them raised. */
  function PoolsOf(vols: seq<Volume>): (r: Option<seq<Pool>>)
    ensures r.Some? ==> |r.value| <= |vols|
    ensures r.Some? ==> forall i :: 0 <= i < |r.value| ==> r.value[i].num == i + 1
    decreases |vols|
  {
    if vols == [] then Some([])
    else AddVolume(PoolsOf(vols[..|vols| - 1]), vols[|vols| - 1])
  }

  /** One more volume: a kept one is the next pool, a skipped one changes nothing, a failed one raises. */
  function AddVolume(prev: Option<seq<Pool>>, v: Volume): Option<seq<Pool>> {
    if prev.None? then None
    else
      match v
      case Skipped => prev
      case Failed => None
      case Kept(size, used, available, usage) => Some(prev.value + [Pool(|prev.value| + 1, size, used, available, usage)])
  }

  lemma PoolsStep(vols: seq<Volume>, k: nat)
    requires k < |vols|
    ensures PoolsOf(vols[..k + 1]) == AddVolume(PoolsOf(vols[..k]), vols[k])
  {
    assert vols[..k + 1][..k] == vols[..k];
  }

  /** The call raises exactly when some volume raised. */
  lemma {:induction false} PoolsFailIff(vols: seq<Volume>)
    ensures PoolsOf(vols).None? <==> exists i :: 0 <= i < |vols| && vols[i].Failed?
    decreases |vols|
  {
    if vols != [] {
      var n := |vols| - 1;
      PoolsFailIff(vols[..n]);
      assert forall i :: 0 <= i < n ==> vols[..n][i] == vols[i];
    }
  }

  /** Every qualifying volume gives one pool: as many pools as kept volumes. */
  function KeptCount(vols: seq<Volume>): (n: nat)
    decreases |vols|
  {
    if vols == [] then 0 else KeptCount(vols[..|vols| - 1]) + if vols[|vols| - 1].Kept? then 1 else 0
  }

  lemma {:induction false} PoolsCount(vols: seq<Volume>)
    requires PoolsOf(vols).Some?
    ensures |PoolsOf(vols).value| == KeptCount(vols)
    decreases |vols|
  {
    if vols != [] {
      PoolsCount(vols[..|vols| - 1]);
    }
  }

  /** Only volumes larger than 75 GB become pools. */
  lemma {:induction false} PoolsLarge(vols: seq<Volume>)
    requires forall i :: 0 <= i < |vols| && vols[i].Kept? ==> vols[i].size > MinPoolSize
    requires PoolsOf(vols).Some?
    ensures forall i :: 0 <= i < |PoolsOf(vols).value| ==> PoolsOf(vols).value[i].size > MinPoolSize
    decreases |vols|
  {
    if vols != [] {
      var n := |vols| - 1;
      assert forall i :: 0 <= i < n ==> vols[..n][i] == vols[i];
      PoolsLarge(vols[..n]);
    }
  }

  /** Every pool `get_pools` reports is larger than 75 GB. */
  lemma ReportedPoolsLarge(dirs: seq<string>, isDir: string -> bool, df: string -> string)
    requires PoolsOf(VolumesOf(dirs, isDir, df)).Some?
    ensures forall p :: p in PoolsOf(VolumesOf(dirs, isDir, df)).value ==> p.size > MinPoolSize
  {
    PoolsLarge(VolumesOf(dirs, isDir, df));
  }

  /** `get_pools`: the volume directories in sorted order, numbered from 1 as they qualify. */
  method GetPools(dirs: set<string>, isDir: string -> bool, df: string -> string) returns (r: Option<seq<Pool>>)
    ensures r == PoolsOf(VolumesOf(Sorted(dirs), isDir, df))
  {
    var sorted := SortStrings(dirs);
    r := ScanVolumes(sorted, isDir, df);
  }

  /** The loop of `get_pools` over the directories in the order given. */
  method ScanVolumes(sorted: seq<string>, isDir: string -> bool, df: string -> string) returns (r: Option<seq<Pool>>)
    ensures r == PoolsOf(VolumesOf(sorted, isDir, df))
  {
    var measure := d => if isDir(d) then VolumeOf(df(d)) else Skipped;
    r := CollectPools(sorted, measure, VolumesOf(sorted, isDir, df));
  }

  /**
   * The pool numbering of the loop: `measure` is what one directory
   * yields, and a failed one ends the call.
   */
  method CollectPools(sorted: seq<string>, measure: string -> Volume, ghost vols: seq<Volume>)
    returns (r: Option<seq<Pool>>)
    requires |vols| == |sorted| && forall i :: 0 <= i < |sorted| ==> vols[i] == measure(sorted[i])
    ensures r == PoolsOf(vols)
  {
    var pools: seq<Pool> := [];
    for k := 0 to |sorted|
      invariant PoolsOf(vols[..k]) == Some(pools)
    {
      PoolsStep(vols, k);
      var v := measure(sorted[k]);
      if v.Failed? {
        FailureSticks(vols, k + 1, |vols|);
        assert vols[..|vols|] == vols;
        return None;
      }
      if v.Kept? {
        pools := pools + [Pool(|pools| + 1, v.size, v.used, v.available, v.usage)];
      }
    }
    assert vols[..|vols|] == vols;
    r := Some(pools);
  }

  /** Once a volume raised, the whole call raises. */
  lemma {:induction false} FailureSticks(vols: seq<Volume>, k: nat, j: nat)
    requires k <= j <= |vols|
    requires PoolsOf(vols[..k]) == None
    ensures PoolsOf(vols[..j]) == None
    decreases j - k
  {
    if j > k {
      FailureSticks(vols, k, j - 1);
      assert vols[..j][..j - 1] == vols[..j - 1];
    }
  }

  // ---------------------------------------------------------------------
  // smbstatus and showmount

  /** `lines[n:]`. */
  function Drop(lines: seq<string>, n: nat): seq<string> {
    if |lines| <= n then [] else lines[n..]
  }

  /** The lines of a command's output, as the parsers take them. */
  function OutputLines(output: string): (r: seq<string>)
    ensures |r| >= 1
  {
    Split(Strip(output), "\n")
  }

  /** Blank lines and `---` rules carry no rows. */
  predicate Filler(line: string) {
    Strip(line) == "" || StartsWith(line, "---")
  }

  datatype SmbSession = SmbSession(username: string, ip: string)

  /** The client address of a machine column: inside `(proto:addr:port)` when present. */
  function ClientIp(machine: string): string {
    if Contains(machine, "(") then
      var open := Split(machine, "(");
      OpenHasTwoPieces(machine);
      Split(open[1], ":")[0]
    else machine
  }

  lemma OpenHasTwoPieces(machine: string)
    requires Contains(machine, "(")
    ensures |Split(machine, "(")| >= 2
  {
    if |Split(machine, "(")| == 1 {
      JoinSplit(machine, "(");
      SplitPiecesFree(machine, "(");
    }
  }

  /** A session row of `smbstatus -b`: pid, user and address, from rows of six fields or more. */
  function SessionRow(line: string): (r: Option<(string, SmbSession)>)
    ensures r.Some? ==> !Filler(line) && |SplitWs(line)| >= 6 && r.value.0 == SplitWs(line)[0]
  {
    if Filler(line) then None
    else
      var parts := SplitWs(line);
      if |parts| < 6 then None else Some((parts[0], SmbSession(parts[1], ClientIp(parts[3]))))
  }

  /** Keyed rows folded into a map, a later row replacing an earlier one with the same key. */
  function Latest<V>(rows: seq<Option<(string, V)>>): (r: map<string, V>)
    decreases |rows|
  {
    if rows == [] then map[]
    else
      var prev := Latest(rows[..|rows| - 1]);
      var row := rows[|rows| - 1];
      if row.Some? then prev[row.value.0 := row.value.1] else prev
  }

  lemma LatestStep<V>(rows: seq<Option<(string, V)>>, k: nat)
    requires k < |rows|
    ensures Latest(rows[..k + 1]) ==
      if rows[k].Some? then Latest(rows[..k])[rows[k].value.0 := rows[k].value.1] else Latest(rows[..k])
  {
    assert rows[..k + 1][..k] == rows[..k];
  }

  /** Row `i` carries `key`. */
  predicate RowFor<V>(rows: seq<Option<(string, V)>>, i: int, key: string) {
    0 <= i < |rows| && rows[i].Some? && rows[i].value.0 == key
  }

  /** A key is in the map exactly when some row carries it. */
  lemma {:induction false} LatestPresent<V>(rows: seq<Option<(string, V)>>, key: string)
    ensures key in Latest(rows) <==> exists i :: RowFor(rows, i, key)
    decreases |rows|
  {
    if rows != [] {
      var n := |rows| - 1;
      LatestPresent(rows[..n], key);
      if key in Latest(rows) && !RowFor(rows, n, key) {
        var i :| RowFor(rows[..n], i, key);
        assert rows[..n][i] == rows[i];
        assert RowFor(rows, i, key);
      }
      if exists i :: RowFor(rows, i, key) {
        var i :| RowFor(rows, i, key);
        if i < n {
          assert rows[..n][i] == rows[i];
          assert RowFor(rows[..n], i, key);
        }
      }
    }
  }

  /** The value of a key is the one of the last row carrying it. */
  lemma {:induction false} LatestLast<V>(rows: seq<Option<(string, V)>>, key: string) returns (i: nat)
    requires key in Latest(rows)
    ensures RowFor(rows, i, key) && Latest(rows)[key] == rows[i].value.1
    ensures forall j :: i < j < |rows| ==> !RowFor(rows, j, key)
    decreases |rows|
  {
    var n := |rows| - 1;
    if RowFor(rows, n, key) {
      i := n;
    } else {
      i := LatestLast(rows[..n], key);
      assert rows[..n][i] == rows[i];
      forall j | i < j < |rows| ensures !RowFor(rows, j, key) {
        if j < n {
          assert rows[..n][j] == rows[j];
          assert !RowFor(rows[..n], j, key);
        }
      }
    }
  }

  /** The session rows of `smbstatus -b` output lines, one per line. */
  function SessionRows(rows: seq<string>): (r: seq<Option<(string, SmbSession)>>)
    ensures |r| == |rows| && forall i :: 0 <= i < |rows| ==> r[i] == SessionRow(rows[i])
  {
    seq(|rows|, i requires 0 <= i < |rows| => SessionRow(rows[i]))
  }

  /** `get_smb_connections`: the rows after the three header lines, a later row of a pid replacing an earlier one. */
  method GetSmbConnections(output: string) returns (r: map<string, SmbSession>)
    ensures r == Latest(SessionRows(Drop(OutputLines(output), 3)))
  {
    var rows := Drop(OutputLines(output), 3);
    ghost var parsed := SessionRows(rows);
    r := map[];
    for k := 0 to |rows|
      invariant r == Latest(parsed[..k])
    {
      LatestStep(parsed, k);
      var row := SessionRow(rows[k]);
      if row.Some? {
        r := r[row.value.0 := row.value.1];
      }
    }
    assert parsed[..|rows|] == parsed;
  }

  datatype SmbShare = SmbShare(share: string, pid: string, ip: string)

  /** A share row of `smbstatus -S`: share, pid and address, from rows of three fields or more. */
  function ShareRow(line: string): (r: Option<SmbShare>)
    ensures r.Some? ==> !Filler(line) && |SplitWs(line)| >= 3
    ensures r.Some? ==> r.value == SmbShare(SplitWs(line)[0], SplitWs(line)[1], SplitWs(line)[2])
  {
    if Filler(line) then None
    else
      var parts := SplitWs(line);
      if |parts| < 3 then None else Some(SmbShare(parts[0], parts[1], parts[2]))
  }

  /** The share rows in order. */
  function Shares(rows: seq<string>): (r: seq<SmbShare>)
    ensures |r| <= |rows|
    decreases |rows|
  {
    if rows == [] then []
    else
      var prev := Shares(rows[..|rows| - 1]);
      var row := ShareRow(rows[|rows| - 1]);
      if row.Some? then prev + [row.value] else prev
  }

  /** `get_smb_shares`: the rows after the two header lines. */
  method GetSmbShares(output: string) returns (r: seq<SmbShare>)
    ensures r == Shares(Drop(OutputLines(output), 2))
  {
    var rows := Drop(OutputLines(output), 2);
    r := [];
    for k := 0 to |rows|
      invariant r == Shares(rows[..k])
    {
      SharesStep(rows, k);
      var row := ShareRow(rows[k]);
      if row.Some? {
        r := r + [row.value];
      }
    }
    assert rows[..|rows|] == rows;
  }

  lemma SharesStep(rows: seq<string>, k: nat)
    requires k < |rows|
    ensures Shares(rows[..k + 1]) == Shares(rows[..k]) + (if ShareRow(rows[k]).Some? then [ShareRow(rows[k]).value] else [])
  {
    assert rows[..k + 1][..k] == rows[..k];
  }

  datatype SmbClient = SmbClient(username: string, ip: string, share: string)

  /**
   * The SMB summary of `collect_and_publish`: one client per share row,
   * with the user of the session of its pid, `unknown` without one.
   */
  method SmbClients(sessions: map<string, SmbSession>, shares: seq<SmbShare>) returns (count: nat, clients: seq<SmbClient>)
    ensures count == |shares| && |clients| == |shares|
    ensures forall i :: 0 <= i < |shares| ==>
      clients[i].ip == shares[i].ip && clients[i].share == shares[i].share &&
      clients[i].username == (if shares[i].pid in sessions then sessions[shares[i].pid].username else "unknown")
  {
    count := |shares|;
    clients := [];
    for k := 0 to |shares|
      invariant |clients| == k
      invariant forall i :: 0 <= i < k ==>
        clients[i].ip == shares[i].ip && clients[i].share == shares[i].share &&
        clients[i].username == (if shares[i].pid in sessions then sessions[shares[i].pid].username else "unknown")
    {
      var user := if shares[k].pid in sessions then sessions[shares[k].pid].username else "unknown";
      clients := clients + [SmbClient(user, shares[k].ip, shares[k].share)];
    }
  }

  datatype NfsMount = NfsMount(ip: string, share: string)

  const DriveRoot := "/.srv/.unifi-drive/"

  /** The share of an export path: the first component under the drive root, `unknown` otherwise. */
  function ShareOf(path: string): string {
    var m := Split(path, DriveRoot);
    if |m| == 2 then Split(m[1], "/")[0] else "unknown"
  }

  /** A `showmount -a` row: exactly two `:`-separated fields. */
  function MountRow(line: string): (r: Option<NfsMount>)
    ensures r.Some? ==> |Split(line, ":")| == 2 && Strip(line) != ""
    ensures r.Some? ==> r.value == NfsMount(Split(line, ":")[0], ShareOf(Split(line, ":")[1]))
  {
    if Strip(line) == "" then None
    else
      var parts := Split(line, ":");
      if |parts| != 2 then None else Some(NfsMount(parts[0], ShareOf(parts[1])))
  }

  function Mounts(rows: seq<string>): (r: seq<NfsMount>)
    ensures |r| <= |rows|
    decreases |rows|
  {
    if rows == [] then []
    else
      var prev := Mounts(rows[..|rows| - 1]);
      var row := MountRow(rows[|rows| - 1]);
      if row.Some? then prev + [row.value] else prev
  }

  /** `get_nfs_mounts`: the rows after the header line. */
  method GetNfsMounts(output: string) returns (r: seq<NfsMount>)
    ensures r == Mounts(Drop(OutputLines(output), 1))
  {
    var rows := Drop(OutputLines(output), 1);
    r := [];
    for k := 0 to |rows|
      invariant r == Mounts(rows[..k])
    {
      MountsStep(rows, k);
      var row := MountRow(rows[k]);
      if row.Some? {
        r := r + [row.value];
      }
    }
    assert rows[..|rows|] == rows;
  }

  lemma MountsStep(rows: seq<string>, k: nat)
    requires k < |rows|
    ensures Mounts(rows[..k + 1]) == Mounts(rows[..k]) + (if MountRow(rows[k]).Some? then [MountRow(rows[k]).value] else [])
  {
    assert rows[..k + 1][..k] == rows[..k];
  }

  /** An `ip:path` line splits into its two fields. */
  lemma LineFields(ip: string, path: string)
    requires ':' !in ip && ':' !in path
    ensures Split(ip + ":" + path, ":") == [ip, path]
  {
    assert ip + ":" + path == ip + [':'] + path;
    ContainsChar(path, ':');
    SplitAbsent(path, ":");
    SplitCharCons(ip, ':', path);
  }

  /** The share of a path under the drive root is its first component there. */
  lemma ShareUnderDriveRoot(share: string, rest: string)
    requires '/' !in share && !Contains(share + "/" + rest, DriveRoot)
    ensures ShareOf(DriveRoot + share + "/" + rest) == share
  {
    var tail := share + "/" + rest;
    var path := DriveRoot + tail;
    assert DriveRoot + share + "/" + rest == path;
    assert StartsWith(path, DriveRoot);
    assert path[|DriveRoot|..] == tail;
    SplitAbsent(tail, DriveRoot);
    assert Split(path, DriveRoot) == [""] + [tail];
    assert tail == share + ['/'] + rest;
    SplitCharCons(share, '/', rest);
  }

  /** A line with a non-blank character is not blank after stripping. */
  lemma NotBlank(s: string, i: nat)
    requires i < |s| && !IsSpace(s[i])
    ensures Strip(s) != ""
  {
  }

  /** A client mounting a share under the drive root is reported with that share. */
  lemma MountOfDriveShare(ip: string, share: string, rest: string)
    requires ':' !in ip && ':' !in share && ':' !in rest && '/' !in share
    requires !Contains(share + "/" + rest, DriveRoot)
    ensures MountRow(ip + ":" + DriveRoot + share + "/" + rest) == Some(NfsMount(ip, share))
  {
    var tail := share + "/" + rest;
    var path := DriveRoot + tail;
    var line := ip + ":" + path;
    assert ip + ":" + DriveRoot + share + "/" + rest == line;
    assert path == DriveRoot + share + "/" + rest;
    assert ':' !in path;
    assert line[|ip|] == ':';
    NotBlank(line, |ip|);
    LineFields(ip, path);
    ShareUnderDriveRoot(share, rest);
    assert Split(line, ":") == [ip, path];
  }

  /** A client mounting a path outside the drive root is reported with share `unknown`. */
  lemma MountOutsideDrive(ip: string, path: string)
    requires ':' !in ip && ':' !in path && !Contains(path, DriveRoot)
    ensures MountRow(ip + ":" + path) == Some(NfsMount(ip, "unknown"))
  {
    assert (ip + ":" + path)[|ip|] == ':';
    NotBlank(ip + ":" + path, |ip|);
    assert ip + ":" + path == ip + [':'] + path;
    assert !Contains(path, ":") by {
      ContainsChar(path, ':');
    }
    SplitAbsent(path, ":");
    SplitCharCons(ip, ':', path);
    SplitAbsent(path, DriveRoot);
  }
}
