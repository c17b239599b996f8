/**
 * The switch platform of `switch.py`: one "schedule enabled" switch per
 * backup task of the appliance. A reconciler pass removes the switches
 * of tasks that disappeared, sweeps away registry entries of this entry
 * that look like backup switches of unknown tasks, and creates switches
 * for new tasks in list order; afterwards the discovered set is the set
 * of task ids. A switch reads its task from the coordinator's last
 * record, and toggling it sends a copy of the task's schedule with only
 * `enable` changed.
 */
module Switch {
  import opened Text
  import opened Json
  import opened Coordinator

  /** A backup task of the on-device API: its id and the whole JSON object. */
  datatype Task = Task(id: string, fields: map<string, Json>)

  /** A JSON object with a string `"id"` as a task. */
  function TaskOf(j: Json): (r: Option<Task>)
    ensures r.Some? <==> j.JObj? && "id" in j.fields && j.fields["id"].JStr?
    ensures r.Some? ==> r.value == Task(j.fields["id"].s, j.fields)
  {
    if j.JObj? && "id" in j.fields && j.fields["id"].JStr? then Some(Task(j.fields["id"].s, j.fields)) else None
  }

  /** A JSON list as tasks, when every element is one. */
  function {:induction false} TaskListOf(items: seq<Json>): (r: Option<seq<Task>>)
    ensures r.Some? <==> forall i :: 0 <= i < |items| ==> TaskOf(items[i]).Some?
    ensures r.Some? ==> |r.value| == |items| && forall i :: 0 <= i < |items| ==> r.value[i] == TaskOf(items[i]).value
    decreases |items|
  {
    if items == [] then Some([])
    else
      var front := TaskListOf(items[..|items| - 1]);
      var last := TaskOf(items[|items| - 1]);
      if front.Some? && last.Some? then Some(front.value + [last.value]) else None
  }

  /**
   * `coordinator.data.get("backup_tasks", [])` as a list of tasks: a
   * missing entry is the empty list, and so is an empty string or object
   * (iterating them yields nothing); any other value makes `task["id"]`
   * raise, which is `None` here.
   */
  function Tasks(backupTasks: Option<Json>): (r: Option<seq<Task>>)
    ensures r.Some? <==> (
      || backupTasks.None? || backupTasks == Some(JStr("")) || backupTasks == Some(JObj(map[]))
      || (backupTasks.Some? && backupTasks.value.JList? &&
          forall i :: 0 <= i < |backupTasks.value.items| ==> TaskOf(backupTasks.value.items[i]).Some?))
    ensures r.Some? && backupTasks.Some? && backupTasks.value.JList? ==>
      |r.value| == |backupTasks.value.items| &&
      forall i :: 0 <= i < |r.value| ==> r.value[i] == TaskOf(backupTasks.value.items[i]).value
    ensures r.Some? && !(backupTasks.Some? && backupTasks.value.JList?) ==> r.value == []
  {
    match backupTasks
    case None => Some([])
    case Some(JList(items)) => TaskListOf(items)
    case Some(JStr(s)) => if s == "" then Some([]) else None
    case Some(JObj(m)) => if m == map[] then Some([]) else None
    case Some(_) => None
  }

  /** `{task["id"] for task in backup_tasks}`. */
  function TaskIds(tasks: seq<Task>): (r: set<string>)
    ensures forall x :: x in r <==> exists t :: t in tasks && t.id == x
  {
    set t | t in tasks :: t.id
  }

  /** The fixed parts of a backup switch's unique id. */
  function Prefix(entry: string): string { entry + "_backup_" }
  const Suffix := "_schedule_enabled"

  /** `f"{entry_id}_backup_{task_id}_schedule_enabled"`. */
  function SwitchUid(entry: string, id: string): string { Prefix(entry) + id + Suffix }

  function SwitchKey(entry: string, id: string): EntityKey { EntityKey("switch", SwitchUid(entry, id)) }

  /** The device of a task's switch, `f"{entry_id}_backup_{task_id}"`. */
  function BackupDeviceId(entry: string, id: string): string { Prefix(entry) + id }

  /**
   * `unique_id[len(prefix):-len(suffix)]` for an id that ends with the
   * suffix: Python yields the empty string when the two overlap.
   */
  function Middle(uid: string, entry: string): (m: string)
    requires |Suffix| <= |uid|
    ensures |Prefix(entry)| + |Suffix| <= |uid| ==> Prefix(entry) + m + Suffix == uid || !StartsWith(uid, Prefix(entry)) || !EndsWith(uid, Suffix)
  {
    if |Prefix(entry)| <= |uid| - |Suffix| then uid[|Prefix(entry)|..|uid| - |Suffix|] else ""
  }

  /** A registry entry the orphan sweep removes: backup-switch shaped, with a middle that is no known task. */
  predicate Orphan(uid: string, entry: string, ids: set<string>) {
    StartsWith(uid, Prefix(entry)) && EndsWith(uid, Suffix) && Middle(uid, entry) !in ids
  }

  /** The middle of a switch's own unique id is its task id, so a switch of a listed task is never an orphan. */
  lemma MiddleOfSwitchUid(entry: string, id: string)
    ensures StartsWith(SwitchUid(entry, id), Prefix(entry)) && EndsWith(SwitchUid(entry, id), Suffix)
    ensures Middle(SwitchUid(entry, id), entry) == id
  {
    var u := SwitchUid(entry, id);
    assert u[..|Prefix(entry)|] == Prefix(entry);
    assert u[|u| - |Suffix|..] == Suffix;
    assert u[|Prefix(entry)|..|u| - |Suffix|] == id;
  }

  lemma SwitchUidInjective(entry: string, a: string, b: string)
    requires SwitchUid(entry, a) == SwitchUid(entry, b)
    ensures a == b
  {
    MiddleOfSwitchUid(entry, a);
    MiddleOfSwitchUid(entry, b);
  }

  /** A unique id that is one overlapping prefix and suffix: its middle is empty, and it is swept unless some task has the empty id. */
  lemma OverlapIsOrphan(entry: string)
    ensures Orphan(entry + "_backup_schedule_enabled", entry, {"x"})
    ensures Middle(entry + "_backup_schedule_enabled", entry) == ""
  {
    var u := entry + "_backup_schedule_enabled";
    assert u[..|Prefix(entry)|] == Prefix(entry);
    assert u[|u| - |Suffix|..] == Suffix;
  }

  /** The unique ids of this entry's switch-domain registry entries. */
  function Candidates(entities: map<EntityKey, string>, entry: string): (r: set<string>)
    ensures forall u :: u in r <==> EntityKey("switch", u) in entities && entities[EntityKey("switch", u)] == entry
  {
    set k | k in entities && k.domain == "switch" && entities[k] == entry :: k.uniqueId
  }

  /** Removal of the switches of the missing tasks, in order. */
  function RemoveSwitches(r: Registry, entry: string, ids: seq<string>): Registry
    decreases |ids|
  {
    if ids == [] then r
    else RemoveEntity(RemoveSwitches(r, entry, ids[..|ids| - 1]), SwitchKey(entry, ids[|ids| - 1]))
  }

  /** The orphan sweep over the listed unique ids, in order. */
  function Sweep(r: Registry, entry: string, ids: set<string>, uids: seq<string>): Registry
    decreases |uids|
  {
    if uids == [] then r
    else
      var u := uids[|uids| - 1];
      var r1 := Sweep(r, entry, ids, uids[..|uids| - 1]);
      if Orphan(u, entry, ids) then RemoveEntity(r1, EntityKey("switch", u)) else r1
  }

  /** The unique ids of the new switches: one per task with a new id, in list order. */
  function NewSwitchUids(entry: string, tasks: seq<Task>, added: set<string>): seq<string>
    decreases |tasks|
  {
    if tasks == [] then []
    else
      var t := tasks[|tasks| - 1];
      NewSwitchUids(entry, tasks[..|tasks| - 1], added) + (if t.id in added then [SwitchUid(entry, t.id)] else [])
  }

  function BackupDevices(entry: string, added: set<string>): set<string> {
    set id | id in added :: BackupDeviceId(entry, id)
  }

  /**
   * `BackupScheduleSwitch(coordinator, task)` gets through its
   * constructor: it reads `task["name"]`, and calls `.get` on
   * `task.get("remote", {})`, which must then be an object.
   */
  predicate Buildable(t: Task) {
    "name" in t.fields && ("remote" !in t.fields || t.fields["remote"].JObj?)
  }

  /** Every listed task with a new id builds its switch. */
  predicate AllBuild(tasks: seq<Task>, added: set<string>) {
    forall i :: 0 <= i < |tasks| && tasks[i].id in added ==> Buildable(tasks[i])
  }

  /**
   * The pass raises in the creation loop: some task with a new id has no
   * name or a remote that is no object. The missing ids are already
   * forgotten and the registry already cleaned up by then, and nothing is
   * added.
   */
  predicate SwitchRaises(known: set<string>, tasks: seq<Task>) {
    !AllBuild(tasks, TaskIds(tasks) - known)
  }

  /** The discovered set after a pass: the task ids, or only the known ones among them when the pass raised. */
  function SwitchKnown(known: set<string>, tasks: seq<Task>): (k: set<string>)
    ensures k <= TaskIds(tasks) && known * TaskIds(tasks) <= k
    ensures !SwitchRaises(known, tasks) <==> k == TaskIds(tasks) || TaskIds(tasks) - known == {}
  {
    if SwitchRaises(known, tasks) then known * TaskIds(tasks) else TaskIds(tasks)
  }

  /** The registry after removing the missing tasks' switches, in sorted order. */
  ghost function AfterRemoval(r: Registry, entry: string, known: set<string>, ids: set<string>): Registry {
    RemoveSwitches(r, entry, Sorted(known - ids))
  }

  /** The registry after the orphan sweep over this entry's switch entries, in sorted order. */
  ghost function AfterSweep(r: Registry, entry: string, ids: set<string>): Registry {
    Sweep(r, entry, ids, Sorted(Candidates(r.entities, entry)))
  }

  /** What a whole pass does to the registry. */
  ghost function SwitchRegistry(r: Registry, entry: string, known: set<string>, tasks: seq<Task>): Registry {
    var ids := TaskIds(tasks);
    var r2 := AfterSweep(AfterRemoval(r, entry, known, ids), entry, ids);
    var added := ids - known;
    if added == {} || SwitchRaises(known, tasks) then r2
    else AddEntities(r2, "switch", entry, NewSwitchUids(entry, tasks, added), BackupDevices(entry, added))
  }

  lemma LastElement<T>(q: seq<T>)
    requires q != []
    ensures forall x :: x in q <==> x in q[..|q| - 1] || x == q[|q| - 1]
  {
    assert q == q[..|q| - 1] + [q[|q| - 1]];
  }

  ghost function MissingKeys(entry: string, ids: seq<string>): set<EntityKey> {
    set id | id in ids :: SwitchKey(entry, id)
  }

  lemma {:induction false} RemoveSwitchesFacts(r: Registry, entry: string, ids: seq<string>)
    ensures RemoveSwitches(r, entry, ids).entities == r.entities - MissingKeys(entry, ids)
    ensures RemoveSwitches(r, entry, ids).devices == r.devices
    decreases |ids|
  {
    if ids != [] {
      var init := ids[..|ids| - 1];
      RemoveSwitchesFacts(r, entry, init);
      LastElement(ids);
      assert MissingKeys(entry, ids) == MissingKeys(entry, init) + {SwitchKey(entry, ids[|ids| - 1])};
    }
  }

  ghost function SweptKeys(entry: string, ids: set<string>, uids: seq<string>): set<EntityKey> {
    set u | u in uids && Orphan(u, entry, ids) :: EntityKey("switch", u)
  }

  lemma {:induction false} SweepFacts(r: Registry, entry: string, ids: set<string>, uids: seq<string>)
    ensures Sweep(r, entry, ids, uids).entities == r.entities - SweptKeys(entry, ids, uids)
    ensures Sweep(r, entry, ids, uids).devices == r.devices
    decreases |uids|
  {
    if uids != [] {
      var init := uids[..|uids| - 1];
      var u := uids[|uids| - 1];
      SweepFacts(r, entry, ids, init);
      LastElement(uids);
      if Orphan(u, entry, ids) {
        assert SweptKeys(entry, ids, uids) == SweptKeys(entry, ids, init) + {EntityKey("switch", u)};
      } else {
        assert SweptKeys(entry, ids, uids) == SweptKeys(entry, ids, init);
      }
    }
  }

  /** The new switches are exactly those of the listed tasks whose ids are new. */
  lemma {:induction false} NewSwitchUidsFacts(entry: string, tasks: seq<Task>, added: set<string>)
    ensures forall u :: u in NewSwitchUids(entry, tasks, added) <==> exists t :: t in tasks && t.id in added && u == SwitchUid(entry, t.id)
    decreases |tasks|
  {
    if tasks != [] {
      NewSwitchUidsFacts(entry, tasks[..|tasks| - 1], added);
      LastElement(tasks);
    }
  }

  /** A sweep over entries none of which is an orphan changes nothing. */
  lemma {:induction false} SweepNone(r: Registry, entry: string, ids: set<string>, uids: seq<string>)
    requires forall u :: u in uids ==> !Orphan(u, entry, ids)
    ensures Sweep(r, entry, ids, uids) == r
    decreases |uids|
  {
    if uids != [] {
      LastElement(uids);
      SweepNone(r, entry, ids, uids[..|uids| - 1]);
    }
  }

  /** The switch of every task that disappeared is gone from the registry after the pass. */
  lemma MissingRemoved(r: Registry, entry: string, known: set<string>, tasks: seq<Task>, id: string)
    requires id in known && id !in TaskIds(tasks)
    ensures SwitchKey(entry, id) !in SwitchRegistry(r, entry, known, tasks).entities
  {
    var ids := TaskIds(tasks);
    var r1 := AfterRemoval(r, entry, known, ids);
    RemoveSwitchesFacts(r, entry, Sorted(known - ids));
    assert SwitchKey(entry, id) in MissingKeys(entry, Sorted(known - ids));
    var r2 := AfterSweep(r1, entry, ids);
    SweepFacts(r1, entry, ids, Sorted(Candidates(r1.entities, entry)));
    var added := ids - known;
    if added != {} && !SwitchRaises(known, tasks) {
      NewSwitchUidsFacts(entry, tasks, added);
      if SwitchUid(entry, id) in NewSwitchUids(entry, tasks, added) {
        var t :| t in tasks && t.id in added && SwitchUid(entry, id) == SwitchUid(entry, t.id);
        SwitchUidInjective(entry, id, t.id);
      }
    }
  }

  /** No orphan of this entry survives a pass: every backup-switch entry left names a listed task. */
  lemma NoOrphansLeft(r: Registry, entry: string, known: set<string>, tasks: seq<Task>, k: EntityKey)
    requires k in SwitchRegistry(r, entry, known, tasks).entities
    requires k.domain == "switch" && SwitchRegistry(r, entry, known, tasks).entities[k] == entry
    ensures !Orphan(k.uniqueId, entry, TaskIds(tasks))
  {
    var ids := TaskIds(tasks);
    var r1 := AfterRemoval(r, entry, known, ids);
    var uids := Sorted(Candidates(r1.entities, entry));
    var r2 := AfterSweep(r1, entry, ids);
    SweepFacts(r1, entry, ids, uids);
    var added := ids - known;
    var fromAdd := added != {} && !SwitchRaises(known, tasks) && k.uniqueId in NewSwitchUids(entry, tasks, added);
    if fromAdd {
      NewSwitchUidsFacts(entry, tasks, added);
      var t :| t in tasks && t.id in added && k.uniqueId == SwitchUid(entry, t.id);
      MiddleOfSwitchUid(entry, t.id);
    } else {
      assert k in r2.entities && r2.entities[k] == entry;
      assert k == EntityKey("switch", k.uniqueId);
      assert k.uniqueId in uids;
    }
  }

  /**
   * Every other entry survives a pass with its value: unless it is the
   * switch of a missing task or an orphan of this entry, it stays, and
   * only the creation of a switch can re-assign it.
   */
  lemma OthersKept(r: Registry, entry: string, known: set<string>, tasks: seq<Task>, k: EntityKey)
    requires k in r.entities
    requires k !in MissingKeys(entry, Sorted(known - TaskIds(tasks)))
    requires !(k.domain == "switch" && r.entities[k] == entry && Orphan(k.uniqueId, entry, TaskIds(tasks)))
    ensures k in SwitchRegistry(r, entry, known, tasks).entities
    ensures SwitchRegistry(r, entry, known, tasks).entities[k] == r.entities[k] ||
      (k.domain == "switch" && SwitchRegistry(r, entry, known, tasks).entities[k] == entry)
  {
    var ids := TaskIds(tasks);
    var r1 := AfterRemoval(r, entry, known, ids);
    assert k in r1.entities && r1.entities[k] == r.entities[k] by {
      RemoveSwitchesFacts(r, entry, Sorted(known - ids));
    }
    var uids := Sorted(Candidates(r1.entities, entry));
    assert k !in SweptKeys(entry, ids, uids);
    var r2 := AfterSweep(r1, entry, ids);
    assert k in r2.entities && r2.entities[k] == r.entities[k] by {
      SweepFacts(r1, entry, ids, uids);
    }
  }

  /**
   * Every new task gets its switch, registered under this entry, unless
   * the creation loop raises; then the registry is left as the removal
   * and the sweep made it.
   */
  lemma NewCreated(r: Registry, entry: string, known: set<string>, tasks: seq<Task>, id: string)
    requires id in TaskIds(tasks) && id !in known
    ensures !SwitchRaises(known, tasks) ==> SwitchKey(entry, id) in SwitchRegistry(r, entry, known, tasks).entities
    ensures !SwitchRaises(known, tasks) ==> SwitchRegistry(r, entry, known, tasks).entities[SwitchKey(entry, id)] == entry
    ensures !SwitchRaises(known, tasks) ==> BackupDeviceId(entry, id) in SwitchRegistry(r, entry, known, tasks).devices
    ensures SwitchRaises(known, tasks) ==>
      SwitchRegistry(r, entry, known, tasks) == AfterSweep(AfterRemoval(r, entry, known, TaskIds(tasks)), entry, TaskIds(tasks))
  {
    var ids := TaskIds(tasks);
    var added := ids - known;
    assert id in added;
    if !SwitchRaises(known, tasks) {
      NewSwitchUidsFacts(entry, tasks, added);
      var t :| t in tasks && t.id == id;
      assert SwitchUid(entry, id) in NewSwitchUids(entry, tasks, added);
    }
  }

  /**
   * A new task without a name makes the pass raise: nothing is added, and
   * the discovered set keeps only the known ids that are still listed.
   */
  lemma NamelessTaskRaises(r: Registry, entry: string, known: set<string>, tasks: seq<Task>, i: int)
    requires 0 <= i < |tasks| && tasks[i].id !in known && "name" !in tasks[i].fields
    ensures SwitchRaises(known, tasks)
    ensures SwitchKnown(known, tasks) == known * TaskIds(tasks) && tasks[i].id !in SwitchKnown(known, tasks)
    ensures SwitchRegistry(r, entry, known, tasks) == AfterSweep(AfterRemoval(r, entry, known, TaskIds(tasks)), entry, TaskIds(tasks))
  {
    assert tasks[i] in tasks;
    assert tasks[i].id in TaskIds(tasks) - known;
  }

  /**
   * A pass that finds nothing missing, nothing to sweep and nothing it
   * can add changes nothing at all: either every task is known, or the
   * creation loop raises again.
   */
  lemma SwitchPassStable(r: Registry, entry: string, known: set<string>, tasks: seq<Task>)
    requires known <= TaskIds(tasks)
    requires known == TaskIds(tasks) || SwitchRaises(known, tasks)
    requires forall u :: u in Candidates(r.entities, entry) ==> !Orphan(u, entry, TaskIds(tasks))
    ensures SwitchRegistry(r, entry, known, tasks) == r
    ensures SwitchKnown(known, tasks) == known
  {
    var ids := TaskIds(tasks);
    assert known - ids == {};
    SweepNone(r, entry, ids, Sorted(Candidates(r.entities, entry)));
  }

  /** Running the pass twice on the same task list is the same as running it once, whether or not it raised. */
  lemma SwitchPassIdempotent(r: Registry, entry: string, known: set<string>, tasks: seq<Task>)
    ensures var r' := SwitchRegistry(r, entry, known, tasks);
      var k' := SwitchKnown(known, tasks);
      SwitchRegistry(r', entry, k', tasks) == r' && SwitchKnown(k', tasks) == k'
  {
    var r' := SwitchRegistry(r, entry, known, tasks);
    var k' := SwitchKnown(known, tasks);
    forall u | u in Candidates(r'.entities, entry)
      ensures !Orphan(u, entry, TaskIds(tasks))
    {
      NoOrphansLeft(r, entry, known, tasks, EntityKey("switch", u));
    }
    if SwitchRaises(known, tasks) {
      assert TaskIds(tasks) - k' == TaskIds(tasks) - known;
    }
    SwitchPassStable(r', entry, k', tasks);
  }

  /** The removal loop over the missing ids. */
  method RemoveMissing(r: Registry, entry: string, ids: seq<string>) returns (r': Registry)
    ensures r' == RemoveSwitches(r, entry, ids)
  {
    r' := r;
    var i := 0;
    while i < |ids|
      invariant 0 <= i <= |ids|
      invariant r' == RemoveSwitches(r, entry, ids[..i])
    {
      assert ids[..i + 1][..i] == ids[..i];
      r' := RemoveEntity(r', SwitchKey(entry, ids[i]));
      i := i + 1;
    }
    assert ids[..|ids|] == ids;
  }

  /** The orphan-sweep loop over the entry's registry entries. */
  method SweepOrphans(r: Registry, entry: string, ids: set<string>, uids: seq<string>) returns (r': Registry)
    ensures r' == Sweep(r, entry, ids, uids)
  {
    r' := r;
    var i := 0;
    while i < |uids|
      invariant 0 <= i <= |uids|
      invariant r' == Sweep(r, entry, ids, uids[..i])
    {
      assert uids[..i + 1][..i] == uids[..i];
      var u := uids[i];
      if StartsWith(u, Prefix(entry)) && EndsWith(u, Suffix) {
        var taskId := Middle(u, entry);
        if taskId !in ids {
          r' := RemoveEntity(r', EntityKey("switch", u));
        }
      }
      i := i + 1;
    }
    assert uids[..|uids|] == uids;
  }

  /**
   * The loop that builds the new switches in list order; `built` is false
   * when a constructor raised, which ends the loop.
   */
  method NewSwitches(entry: string, tasks: seq<Task>, added: set<string>) returns (uids: seq<string>, built: bool)
    ensures built <==> AllBuild(tasks, added)
    ensures built ==> uids == NewSwitchUids(entry, tasks, added)
  {
    uids := [];
    var i := 0;
    while i < |tasks|
      invariant 0 <= i <= |tasks|
      invariant uids == NewSwitchUids(entry, tasks[..i], added)
      invariant AllBuild(tasks[..i], added)
    {
      assert tasks[..i + 1][..i] == tasks[..i];
      if tasks[i].id in added {
        if !Buildable(tasks[i]) {
          return uids, false;
        }
        uids := uids + [SwitchUid(entry, tasks[i].id)];
      }
      i := i + 1;
    }
    assert tasks[..|tasks|] == tasks;
    built := true;
  }

  /** The registry effects of one pass, and whether the creation loop raised. */
  method SwitchEffects(r: Registry, entry: string, known: set<string>, tasks: seq<Task>) returns (r': Registry, raised: bool)
    ensures raised <==> SwitchRaises(known, tasks)
    ensures r' == SwitchRegistry(r, entry, known, tasks)
  {
    var ids := TaskIds(tasks);
    var missing := known - ids;
    var order := SortStrings(missing);
    r' := r;
    if missing != {} {
      r' := RemoveMissing(r', entry, order);
    }
    var entries := SortStrings(Candidates(r'.entities, entry));
    r' := SweepOrphans(r', entry, ids, entries);
    var added := ids - known;
    raised := false;
    if added != {} {
      var uids, built := NewSwitches(entry, tasks, added);
      if built {
        r' := AddEntities(r', "switch", entry, uids, BackupDevices(entry, added));
      }
      raised := !built;
    }
  }

  /** `discovered_backup_task_switches -= missing_tasks`: only the listed known ids stay. */
  method ForgetMissing(c: Coordinator, ids: set<string>)
    modifies c
    ensures c.switches == old(c.switches) * ids && c.Reg() == old(c.Reg())
    ensures c.bays == old(c.bays) && c.nvmes == old(c.nvmes) && c.pools == old(c.pools) && c.data == old(c.data)
    ensures c.sensorAdd == old(c.sensorAdd) && c.buttonAdd == old(c.buttonAdd) && c.switchAdd == old(c.switchAdd)
  {
    var missing := c.switches - ids;
    assert c.switches - missing == c.switches * ids;
    if missing != {} {
      c.switches := c.switches - missing;
    }
  }

  /** `discovered_backup_task_switches.update(new_tasks)`, once the new switches were added. */
  method RecordNew(c: Coordinator, added: set<string>)
    modifies c
    ensures c.switches == old(c.switches) + added && c.Reg() == old(c.Reg())
    ensures c.bays == old(c.bays) && c.nvmes == old(c.nvmes) && c.pools == old(c.pools) && c.data == old(c.data)
    ensures c.sensorAdd == old(c.sensorAdd) && c.buttonAdd == old(c.buttonAdd) && c.switchAdd == old(c.switchAdd)
  {
    c.switches := c.switches + added;
  }

  /**
   * The pass on a task list that could be read: the missing ids are
   * forgotten first; the new ones are recorded only when every new
   * switch was built.
   */
  method ApplySwitchPass(c: Coordinator, tasks: seq<Task>) returns (raised: bool)
    modifies c
    ensures raised <==> SwitchRaises(old(c.switches), tasks)
    ensures c.switches == SwitchKnown(old(c.switches), tasks)
    ensures c.Reg() == SwitchRegistry(old(c.Reg()), c.entryId, old(c.switches), tasks)
    ensures c.bays == old(c.bays) && c.nvmes == old(c.nvmes) && c.pools == old(c.pools) && c.data == old(c.data)
    ensures c.sensorAdd == old(c.sensorAdd) && c.buttonAdd == old(c.buttonAdd) && c.switchAdd == old(c.switchAdd)
  {
    var ids := TaskIds(tasks);
    var known := c.switches;
    var reg;
    reg, raised := SwitchEffects(c.Reg(), c.entryId, known, tasks);
    ForgetMissing(c, ids);
    if !raised {
      RecordNew(c, ids - known);
      assert known * ids + (ids - known) == ids;
    }
    c.SetReg(reg);
  }

  /**
   * `_discover_and_add_backup_switches`: reads the tasks of the
   * coordinator's last record; when they cannot be read the pass raises
   * before changing anything. Otherwise the pass runs, and raises when a
   * new switch cannot be built.
   */
  method ReconcileSwitches(c: Coordinator) returns (raised: bool)
    modifies c
    ensures raised <==> Tasks(c.data.backupTasks).None? || SwitchRaises(old(c.switches), Tasks(c.data.backupTasks).value)
    ensures Tasks(c.data.backupTasks).None? ==> c.switches == old(c.switches) && c.Reg() == old(c.Reg())
    ensures Tasks(c.data.backupTasks).Some? ==> c.switches == SwitchKnown(old(c.switches), Tasks(c.data.backupTasks).value)
    ensures Tasks(c.data.backupTasks).Some? ==>
      c.Reg() == SwitchRegistry(old(c.Reg()), c.entryId, old(c.switches), Tasks(c.data.backupTasks).value)
    ensures c.bays == old(c.bays) && c.nvmes == old(c.nvmes) && c.pools == old(c.pools) && c.data == old(c.data)
    ensures c.sensorAdd == old(c.sensorAdd) && c.buttonAdd == old(c.buttonAdd) && c.switchAdd == old(c.switchAdd)
  {
    var tasks := Tasks(c.data.backupTasks);
    if tasks.None? {
      return true;
    }
    raised := ApplySwitchPass(c, tasks.value);
  }

  /** `i` is the position of the first task with the id. */
  predicate FirstIndex(tasks: seq<Task>, id: string, i: int) {
    0 <= i < |tasks| && tasks[i].id == id && forall j :: 0 <= j < i ==> tasks[j].id != id
  }

  /** `_find_backup_task` as a definition: the first task with the id. */
  function {:induction false} FirstTask(tasks: seq<Task>, id: string): (r: Option<Task>)
    ensures r.None? <==> id !in TaskIds(tasks)
    ensures r.Some? ==> exists i :: FirstIndex(tasks, id, i) && tasks[i] == r.value
    decreases |tasks|
  {
    if tasks == [] then None
    else if tasks[0].id == id then Some(tasks[0])
    else
      var r := FirstTask(tasks[1..], id);
      assert forall t :: t in tasks ==> t == tasks[0] || t in tasks[1..];
      if r.Some? then
        var i :| FirstIndex(tasks[1..], id, i) && tasks[1..][i] == r.value;
        assert FirstIndex(tasks, id, i + 1) && tasks[i + 1] == r.value;
        r
      else r
  }

  /** The search reaches `j` looking for `id`: `task["id"] == task_id` holds. */
  predicate Matches(j: Json, id: string) {
    j.JObj? && "id" in j.fields && j.fields["id"] == JStr(id)
  }

  /** `task["id"]` raises on `j`: it is no dict, or a dict without `"id"`. */
  predicate Unindexable(j: Json) {
    !(j.JObj? && "id" in j.fields)
  }

  /** Some element before any match makes `task["id"]` raise. */
  predicate Blocked(items: seq<Json>, id: string) {
    exists i :: 0 <= i < |items| && Unindexable(items[i]) && forall k :: 0 <= k < i ==> !Matches(items[k], id)
  }

  /** Every element can be indexed and none matches. */
  predicate NoneMatch(items: seq<Json>, id: string) {
    forall i :: 0 <= i < |items| ==> !Unindexable(items[i]) && !Matches(items[i], id)
  }

  /** `t` is built from a match that every earlier element lets the search reach. */
  predicate FoundAs(items: seq<Json>, id: string, t: Task) {
    exists i :: 0 <= i < |items| && Matches(items[i], id) && t == Task(id, items[i].fields) &&
      forall k :: 0 <= k < i ==> !Unindexable(items[k]) && !Matches(items[k], id)
  }

  /**
   * `_find_backup_task` over a raw JSON list: the elements are tried in
   * order and the first match is returned, so an element after the match
   * is never looked at; `None` when an element reached before any match
   * makes `task["id"]` raise, `Some(None)` when nothing matches.
   */
  function {:induction false} FindIn(items: seq<Json>, id: string): (r: Option<Option<Task>>)
    ensures r.None? <==> Blocked(items, id)
    ensures r == Some(None) <==> NoneMatch(items, id)
    ensures r.Some? && r.value.Some? ==> FoundAs(items, id, r.value.value)
    decreases |items|
  {
    if items == [] then Some(None)
    else if Unindexable(items[0]) then None
    else if Matches(items[0], id) then
      assert FoundAs(items, id, Task(id, items[0].fields)) by {
        assert Matches(items[0], id) && Task(id, items[0].fields) == Task(id, items[0].fields);
      }
      Some(Some(Task(id, items[0].fields)))
    else
      var r := FindIn(items[1..], id);
      ShiftSearch(items, id);
      if r.Some? && r.value.Some? then
        ShiftFound(items, id, r.value.value);
        r
      else r
  }

  /** Past an indexable head that does not match, the search goes on in the tail. */
  lemma ShiftSearch(items: seq<Json>, id: string)
    requires |items| > 0 && !Unindexable(items[0]) && !Matches(items[0], id)
    ensures Blocked(items, id) <==> Blocked(items[1..], id)
    ensures NoneMatch(items, id) <==> NoneMatch(items[1..], id)
  {
    var tail := items[1..];
    assert forall k :: 1 <= k < |items| ==> items[k] == tail[k - 1];
    if Blocked(items, id) {
      var i :| 0 <= i < |items| && Unindexable(items[i]) && forall k :: 0 <= k < i ==> !Matches(items[k], id);
      assert i > 0;
      assert Unindexable(tail[i - 1]) && forall k :: 0 <= k < i - 1 ==> !Matches(tail[k], id);
    }
    if Blocked(tail, id) {
      var i :| 0 <= i < |tail| && Unindexable(tail[i]) && forall k :: 0 <= k < i ==> !Matches(tail[k], id);
      assert Unindexable(items[i + 1]) && forall k :: 0 <= k < i + 1 ==> !Matches(items[k], id);
    }
  }

  /** A task found in the tail is found in the whole list. */
  lemma ShiftFound(items: seq<Json>, id: string, t: Task)
    requires |items| > 0 && !Unindexable(items[0]) && !Matches(items[0], id)
    requires FoundAs(items[1..], id, t)
    ensures FoundAs(items, id, t)
  {
    var tail := items[1..];
    var i :| 0 <= i < |tail| && Matches(tail[i], id) && t == Task(id, tail[i].fields) &&
      forall k :: 0 <= k < i ==> !Unindexable(tail[k]) && !Matches(tail[k], id);
    assert forall k :: 1 <= k < |items| ==> items[k] == tail[k - 1];
    assert Matches(items[i + 1], id) && t == Task(id, items[i + 1].fields) &&
      forall k :: 0 <= k < i + 1 ==> !Unindexable(items[k]) && !Matches(items[k], id);
  }

  /** On a list of tasks, the raw search finds what `FirstTask` defines. */
  lemma FindInAgrees(items: seq<Json>, id: string)
    ensures TaskListOf(items).Some? ==> FindIn(items, id) == Some(FirstTask(TaskListOf(items).value, id))
  {
    if TaskListOf(items).Some? {
      FindInTasks(items, TaskListOf(items).value, id);
    }
  }

  lemma {:induction false} FindInTasks(items: seq<Json>, tasks: seq<Task>, id: string)
    requires |tasks| == |items| && forall i :: 0 <= i < |items| ==> TaskOf(items[i]) == Some(tasks[i])
    ensures FindIn(items, id) == Some(FirstTask(tasks, id))
    decreases |items|
  {
    if items != [] {
      assert TaskOf(items[0]) == Some(tasks[0]);
      assert !Unindexable(items[0]) && (Matches(items[0], id) <==> tasks[0].id == id);
      if tasks[0].id != id {
        assert forall i :: 0 <= i < |items[1..]| ==> TaskOf(items[1..][i]) == Some(tasks[1..][i]) by {
          forall i | 0 <= i < |items[1..]| ensures TaskOf(items[1..][i]) == Some(tasks[1..][i]) {
            assert items[1..][i] == items[i + 1] && tasks[1..][i] == tasks[i + 1];
          }
        }
        FindInTasks(items[1..], tasks[1..], id);
      }
    }
  }

  /** `_find_backup_task`: the loop over the raw list, stopping at the first match. */
  method FindBackupTask(items: seq<Json>, id: string) returns (r: Option<Option<Task>>)
    ensures r == FindIn(items, id)
  {
    var i := 0;
    while i < |items|
      invariant 0 <= i <= |items|
      invariant FindIn(items[i..], id) == FindIn(items, id)
    {
      if Unindexable(items[i]) {
        return None;
      }
      if Matches(items[i], id) {
        return Some(Some(Task(id, items[i].fields)));
      }
      assert items[i..][1..] == items[i + 1..];
      i := i + 1;
    }
    return Some(None);
  }

  /**
   * `_find_backup_task` on the record's `backup_tasks`: a missing entry,
   * `""` and `{}` hold no task; iterating any other non-list value either
   * fails or yields elements `task["id"]` raises on.
   */
  function FindTask(backupTasks: Option<Json>, id: string): (r: Option<Option<Task>>)
    ensures Tasks(backupTasks).Some? ==> r == Some(FirstTask(Tasks(backupTasks).value, id))
    ensures !(backupTasks.Some? && backupTasks.value.JList?) ==> (r.Some? <==> Tasks(backupTasks).Some?)
    ensures r.Some? && r.value.Some? ==> r.value.value.id == id
  {
    match backupTasks
    case None => Some(None)
    case Some(JList(items)) =>
      FindInAgrees(items, id);
      var r := FindIn(items, id);
      assert r.Some? && r.value.Some? ==> r.value.value.id == id;
      r
    case Some(JStr(s)) => if s == "" then Some(None) else None
    case Some(JObj(m)) => if m == map[] then Some(None) else None
    case Some(_) => None
  }

  /** `task.get("schedule", {}).get("enable", False)`, as the switch state; `None` when the schedule is no object. */
  function ScheduleEnabled(t: Task): Option<bool> {
    if "schedule" !in t.fields then Some(false)
    else
      match t.fields["schedule"]
      case JObj(m) => Some("enable" in m && Truthy(m["enable"]))
      case _ => None
  }

  /** `is_on`: off when the task is not found, otherwise its schedule's `enable`; `None` when the search raises. */
  function IsOn(data: CycleData, id: string): (r: Option<bool>)
    ensures FindTask(data.backupTasks, id).None? ==> r.None?
    ensures FindTask(data.backupTasks, id) == Some(None) ==> r == Some(false)
    ensures FindTask(data.backupTasks, id).Some? && FindTask(data.backupTasks, id).value.Some? ==>
      r == ScheduleEnabled(FindTask(data.backupTasks, id).value.value)
    ensures Tasks(data.backupTasks).Some? && id !in TaskIds(Tasks(data.backupTasks).value) ==> r == Some(false)
    ensures Tasks(data.backupTasks).Some? && id in TaskIds(Tasks(data.backupTasks).value) ==>
      r == ScheduleEnabled(FirstTask(Tasks(data.backupTasks).value, id).value)
  {
    var f := FindTask(data.backupTasks, id);
    if f.None? then None
    else if f.value.None? then Some(false)
    else ScheduleEnabled(f.value.value)
  }

  /** `available`: SSH is connected and the search finds the task; `None` when the search raises. */
  function Available(data: CycleData, id: string): (r: Option<bool>)
    ensures !data.sshConnected ==> r == Some(false)
    ensures data.sshConnected ==> (r.None? <==> FindTask(data.backupTasks, id).None?)
    ensures r == Some(true) <==>
      data.sshConnected && FindTask(data.backupTasks, id).Some? && FindTask(data.backupTasks, id).value.Some?
    ensures Tasks(data.backupTasks).Some? ==>
      (r == Some(true) <==> data.sshConnected && id in TaskIds(Tasks(data.backupTasks).value))
  {
    if !data.sshConnected then Some(false)
    else
      var f := FindTask(data.backupTasks, id);
      if f.None? then None else Some(f.value.Some?)
  }

  /** What toggling a switch does. */
  datatype ScheduleUpdate =
    | NoTask
    | Send(taskId: string, body: Json)
    | Raised

  /** The schedule of a task, if it has an object one or none (`{}`). */
  function ScheduleOf(t: Task): Option<map<string, Json>> {
    if "schedule" !in t.fields then Some(map[])
    else if t.fields["schedule"].JObj? then Some(t.fields["schedule"].fields)
    else None
  }

  /**
   * `_set_schedule_enabled`: nothing when the task is not found;
   * otherwise a copy of its schedule with `enable` set is sent as
   * `{"schedule": ...}`. The search raising, or a schedule that is no
   * object, raises.
   */
  function SetScheduleEnabled(data: CycleData, id: string, enabled: bool): (u: ScheduleUpdate)
    ensures FindTask(data.backupTasks, id) == Some(None) <==> u == NoTask
    ensures FindTask(data.backupTasks, id).None? ==> u == Raised
    ensures u.Send? ==> (u.taskId == id && FindTask(data.backupTasks, id).Some? &&
      FindTask(data.backupTasks, id).value.Some? && ScheduleOf(FindTask(data.backupTasks, id).value.value).Some?)
    ensures Tasks(data.backupTasks).Some? && id !in TaskIds(Tasks(data.backupTasks).value) ==> u == NoTask
  {
    var f := FindTask(data.backupTasks, id);
    if f.None? then Raised
    else if f.value.None? then NoTask
    else
      var s := ScheduleOf(f.value.value);
      if s.None? then Raised
      else Send(id, JObj(map["schedule" := JObj(s.value["enable" := JBool(enabled)])]))
  }

  /** The schedule sent is the cached one with only `enable` changed. */
  lemma SentScheduleChangesOnlyEnable(data: CycleData, id: string, enabled: bool)
    requires SetScheduleEnabled(data, id, enabled).Send?
    ensures var t := FindTask(data.backupTasks, id).value.value;
      var body := SetScheduleEnabled(data, id, enabled).body;
      ScheduleOf(t).Some? && body.JObj? && body.fields.Keys == {"schedule"} && body.fields["schedule"].JObj? &&
      var sent := body.fields["schedule"].fields;
      var cached := ScheduleOf(t).value;
      sent.Keys == cached.Keys + {"enable"} && sent["enable"] == JBool(enabled) &&
      forall k :: k in cached && k != "enable" ==> sent[k] == cached[k]
  {
  }

  /** Once the appliance stores the sent schedule, the switch reports the state it was set to. */
  lemma ToggleRoundTrip(data: CycleData, id: string, enabled: bool)
    requires SetScheduleEnabled(data, id, enabled).Send?
    ensures var t := FindTask(data.backupTasks, id).value.value;
      var sent := SetScheduleEnabled(data, id, enabled).body.fields["schedule"];
      ScheduleEnabled(Task(t.id, t.fields["schedule" := sent])) == Some(enabled)
  {
  }

  /** With SSH connected, every discovered switch (a task of the record) is available. */
  lemma DiscoveredAvailable(data: CycleData, id: string)
    requires data.sshConnected && Tasks(data.backupTasks).Some?
    requires id in TaskIds(Tasks(data.backupTasks).value)
    ensures Available(data, id) == Some(true)
    ensures IsOn(data, id).Some? <==> ScheduleOf(FirstTask(Tasks(data.backupTasks).value, id).value).Some?
  {
  }

  /**
   * The search stops at the first match: a list whose second element is
   * no task (so the list as a whole is unreadable) still gives the first
   * task's state.
   */
  lemma MatchBeforeBadElement(data: CycleData, task: map<string, Json>, bad: Json, a: string, b: string)
    requires data.backupTasks == Some(JList([JObj(task), bad]))
    requires "id" in task && task["id"] == JStr(a) && a != b
    requires "schedule" in task && task["schedule"] == JObj(map["enable" := JBool(true)])
    requires !bad.JObj?
    ensures Tasks(data.backupTasks).None?
    ensures IsOn(data, a) == Some(true)
    ensures IsOn(data, b).None?
  {
    var items := data.backupTasks.value.items;
    assert TaskOf(items[1]).None?;
    assert Matches(items[0], a);
    assert !Matches(items[0], b) && Unindexable(items[1]);
  }

}
