/** Which unhealthy hosts raise an alert, and which do not. */
module Alarms {
  import opened Folds
  import opened Health
  import opened HostAlerts
  import opened Inventory
  import opened Source
  import opened SourceCollector
  import opened SourceTheorems
  import opened TaskHistory

  /** The findings of a node's calls that raise an alert of at least a level. */
  ghost predicate CallAlarms(a: NodeAnswer, level: Health) {
    || SomeFinding(Map(a.certificates, (f: Finding) => f.health), level)
    || (a.servicesFailed > 0 && AtLeast(Warning, level))
    || SomeFinding(Map(a.pools, PoolHealth), level)
  }

  ghost predicate FullStorage(c: Client, n: string, storages: seq<Storage>, level: Health) {
    exists s :: s in storages && s.node == n
             && (s.pct >= c.thresholds.storageCritical || (level == Warning && s.pct >= c.thresholds.storageWarning))
  }

  /** The fullest storage that the host knows of, its root file system included, reaches the level. */
  predicate StoragePressed(t: Thresholds, h: Host, level: Health) {
    var pct := if h.storageMaxPct > h.storagePct then h.storageMaxPct else h.storagePct;
    pct >= t.storageCritical || (level == Warning && pct >= t.storageWarning)
  }

  /** What on an online node raises an alert of at least a level: disks and subscriptions do not, and
      neither does a root file system on a host that names a storage. */
  ghost predicate Alarming(c: Client, a: Answers, n: string, level: Health) {
    var h, t := AfterTasks(c, a, n), c.thresholds;
    || CallAlarms(AnswerOf(a, n), level)
    || (SomeTaskFailed(c.now, AnswerOf(a, n).tasks) && AtLeast(Warning, level))
    || h.memoryPct >= t.memoryCritical || (level == Warning && h.memoryPct >= t.memoryWarning)
    || (h.storageMaxName == "" && StoragePressed(t, h, level))
    || FullStorage(c, n, Storages(c, a.resources), level)
  }

  /** Some alert in the list is at least at the level. */
  ghost predicate Raises(alerts: seq<Alert>, level: Health) {
    exists al :: al in alerts && AtLeast(al.severity, level)
  }

  // ---- Loop by loop ----

  lemma FindingsAlarm<T>(items: seq<T>, get: T -> Health, emits: T -> seq<Alert>, level: Health)
    requires forall x | x in items :: if NeedsAttention(get(x)) then |emits(x)| == 1 && emits(x)[0].severity == get(x)
                                      else emits(x) == []
    ensures Raises(Stream(items, emits, []), level) <==> SomeFinding(Map(items, get), level)
  {
    if al :| al in Stream(items, emits, []) && AtLeast(al.severity, level) {
      var x := StreamMember(items, emits, al);
      MapHas(items, get, x);
      assert get(x) in Map(items, get);
    }
    if f :| f in Map(items, get) && NeedsAttention(f) && AtLeast(f, level) {
      var i :| 0 <= i < |items| && Map(items, get)[i] == f;
      assert emits(items[i])[0] in emits(items[i]);
      StreamHas(items, emits, items[i], emits(items[i])[0]);
    }
  }

  lemma CallAlarmsExactly(host: string, a: NodeAnswer, level: Health)
    ensures Raises(NodeAlerts(host, a), level) <==> CallAlarms(a, level)
  {
    hide PoolHealth, SomeFinding;
    var certificates := Stream(a.certificates, f => CertificateAlert(host, f), []);
    var pools := Stream(a.pools, p => PoolAlert(host, p), []);
    FindingsAlarm(a.certificates, (f: Finding) => f.health, f => CertificateAlert(host, f), level);
    FindingsAlarm(a.pools, PoolHealth, p => PoolAlert(host, p), level);
    hide CertificateAlert, PoolAlert, Stream;
    RaisesConcat(certificates + ServicesAlert(host, a.servicesFailed), pools, level);
    RaisesConcat(certificates, ServicesAlert(host, a.servicesFailed), level);
    ServicesAlarm(host, a.servicesFailed, level);
  }

  lemma ServicesAlarm(host: string, failed: nat, level: Health)
    ensures Raises(ServicesAlert(host, failed), level) <==> failed > 0 && AtLeast(Warning, level)
  {
    if failed > 0 {
      assert ServicesAlert(host, failed)[0] in ServicesAlert(host, failed);
    }
  }

  lemma RaisesConcat(a: seq<Alert>, b: seq<Alert>, level: Health)
    ensures Raises(a + b, level) <==> Raises(a, level) || Raises(b, level)
  {
    if al :| al in a && AtLeast(al.severity, level) { assert al in a + b; }
    if al :| al in b && AtLeast(al.severity, level) { assert al in a + b; }
  }

  lemma LevelAlarm(h: Host, what: string, level: Health, cause: Cause, asked: Health)
    requires NeedsAttention(asked) && level != Unknown
    ensures Raises(LevelAlert(h, what, level, cause), asked) <==> AtLeast(level, asked)
  {
    if NeedsAttention(level) {
      assert LevelAlert(h, what, level, cause)[0] in LevelAlert(h, what, level, cause);
    }
  }

  lemma HostAlarmsExactly(t: Thresholds, h: Host, level: Health)
    requires h.online && NeedsAttention(level)
    ensures Raises(AlertsOf(t, h), level) <==>
              || h.memoryPct >= t.memoryCritical || (level == Warning && h.memoryPct >= t.memoryWarning)
              || (h.storageMaxName == "" && StoragePressed(t, h, level))
  {
    LevelAlarm(h, "memory", MemoryLevel(t, h.memoryPct), Memory, level);
    LevelAlarm(h, "storage", StorageLevel(t, h), HostStorage, level);
    RaisesConcat(LevelAlert(h, "memory", MemoryLevel(t, h.memoryPct), Memory),
                 if h.storageMaxName == "" then LevelAlert(h, "storage", StorageLevel(t, h), HostStorage) else [],
                 level);
  }

  lemma TaskAlarmsExactly(c: Client, a: Answers, n: string, level: Health)
    requires NeedsAttention(level)
    ensures Raises(TaskAlertsOf(c, a, n), level) <==>
              SomeTaskFailed(c.now, AnswerOf(a, n).tasks) && AtLeast(Warning, level)
  {
    hide AfterGuests;
    StageFacts(c, a, n);
    if AnswerOf(a, n).tasks.Some? {
      FailuresReported(AfterGuests(c, a, n), c.now, AnswerOf(a, n).tasks.value);
      var alerts := TaskAlertsOf(c, a, n);
      if alerts != [] { assert alerts[0] in alerts && alerts[0].severity == Warning; }
    }
  }

  // ---- All loops together ----

  /** The alert is about the host itself or a full storage of it, and at least at the level. */
  predicate IsAlarm(al: Alert, host: string, level: Health) {
    al.host == host && AtLeast(al.severity, level) && (AboutHost(al.cause) || al.cause.StorageFull?)
  }

  ghost predicate Alarmed(c: Client, a: Answers, o: Orders, n: string, level: Health) {
    exists al :: al in AllAlerts(c, a, o) && IsAlarm(al, HostID(c, n), level)
  }

  lemma CallAlertHost(c: Client, a: Answers, n: string, al: Alert)
    requires al in CallAlerts(c, a, n)
    ensures al.host == HostID(c, n) && AboutHost(al.cause)
  {
    hide CallReaches;
    CallAlertReaches(HostID(c, n), AnswerOf(a, n), al);
  }

  lemma TaskAlertHost(c: Client, a: Answers, n: string, al: Alert)
    requires al in TaskAlertsOf(c, a, n)
    ensures al.host == HostID(c, n) && AboutHost(al.cause)
  {
    hide AfterGuests;
    StageFacts(c, a, n);
  }

  lemma HostAlertHost(c: Client, a: Answers, n: string, al: Alert)
    requires al in HostAlertsOf(c, a, n)
    ensures al.host == HostID(c, n) && AboutHost(al.cause)
  {
    hide AfterTasks, AlertsOf, AboutHost;
    HostAlertsOn(c, a, n, al);
    HostAlertCauses(c.thresholds, AfterTasks(c, a, n), al);
  }

  lemma HostAlertCauses(t: Thresholds, h: Host, al: Alert)
    requires al in AlertsOf(t, h)
    ensures AboutHost(al.cause)
  {
  }

  /** Where an alarm about a node comes from. */
  lemma AlarmOrigin(c: Client, a: Answers, o: Orders, n: string, al: Alert, level: Health)
    requires NeedsAttention(level) && al in AllAlerts(c, a, o) && IsAlarm(al, HostID(c, n), level)
    ensures || al in CallAlerts(c, a, n) || al in TaskAlertsOf(c, a, n) || al in HostAlertsOf(c, a, n)
            || FullStorage(c, n, Storages(c, a.resources), level)
  {
    hide CallAlerts, TaskAlertsOf, HostAlertsOf, ClusterAlerts, GuestLoopAlerts, StorageAlerts, Storages;
    hide AboutHost, HostID;
    if al in CallLoopAlerts(c, a, o.reading) {
      var m := StreamMember(o.reading, n => CallAlerts(c, a, n), al);
      CallAlertHost(c, a, m, al);
      HostIDInjective(c, m, n);
    } else if al in TasksLoopAlerts(c, a, o.tasks) {
      var m := StreamMember(o.tasks, n => TaskAlertsOf(c, a, n), al);
      TaskAlertHost(c, a, m, al);
      HostIDInjective(c, m, n);
    } else if al in AlertLoopAlerts(c, a, o.alerts) {
      var m := StreamMember(o.alerts, n => HostAlertsOf(c, a, n), al);
      HostAlertHost(c, a, m, al);
      HostIDInjective(c, m, n);
    } else {
      OtherCauses(c, a, al);
      FullAlertStorage(c, a, o, n, al, level);
    }
  }

  lemma FullAlertStorage(c: Client, a: Answers, o: Orders, n: string, al: Alert, level: Health)
    requires al in AllAlerts(c, a, o) && al.cause.StorageFull? && al !in AlertLoopAlerts(c, a, o.alerts)
    requires al.host == HostID(c, n) && AtLeast(al.severity, level) && NeedsAttention(level)
    ensures FullStorage(c, n, Storages(c, a.resources), level)
  {
    hide AllAlerts, StorageAlerts, Storages, HostID, AlertLoopAlerts;
    StorageAlertOrigin(c, a, o, al);
    var s := StreamMember(Storages(c, a.resources), s => StorageAlerts(c, s), al);
    StorageAlertsAbout(c, s, al);
    HostIDInjective(c, s.node, n);
  }

  lemma NodeLoopsReachAll(c: Client, a: Answers, o: Orders, n: string, al: Alert)
    requires VisitsAll(o, Nodes(c, a)) && n in Nodes(c, a)
    requires al in CallAlerts(c, a, n) || al in TaskAlertsOf(c, a, n) || al in HostAlertsOf(c, a, n)
    ensures al in AllAlerts(c, a, o) && al.host == HostID(c, n) && AboutHost(al.cause)
  {
    hide CallAlerts, TaskAlertsOf, HostAlertsOf, Visits, Nodes, AboutHost, HostID;
    if al in CallAlerts(c, a, n) {
      VisitsEvery(o.reading, Nodes(c, a));
      StreamHas(o.reading, n => CallAlerts(c, a, n), n, al);
      assert al in CallLoopAlerts(c, a, o.reading);
      CallAlertHost(c, a, n, al);
    } else if al in TaskAlertsOf(c, a, n) {
      VisitsEvery(o.tasks, Nodes(c, a));
      StreamHas(o.tasks, n => TaskAlertsOf(c, a, n), n, al);
      assert al in TasksLoopAlerts(c, a, o.tasks);
      TaskAlertHost(c, a, n, al);
    } else {
      HostAlertAmongAll(c, a, o, n, al);
      HostAlertHost(c, a, n, al);
    }
  }

  lemma FullStorageAlarms(c: Client, a: Answers, o: Orders, n: string, level: Health)
    requires NeedsAttention(level) && FullStorage(c, n, Storages(c, a.resources), level)
    ensures Alarmed(c, a, o, n, level)
  {
    hide Storages, AllAlerts, HostID;
    var s :| && s in Storages(c, a.resources) && s.node == n
             && (s.pct >= c.thresholds.storageCritical || (level == Warning && s.pct >= c.thresholds.storageWarning));
    var al := StorageAlertAmongAll(c, a, o, s, Fullness(c.thresholds, s.pct));
    assert IsAlarm(al, HostID(c, n), level);
  }

  lemma NodeLoopsAlarm(c: Client, a: Answers, o: Orders, n: string, alerts: seq<Alert>, level: Health)
    requires VisitsAll(o, Nodes(c, a)) && n in Nodes(c, a) && Raises(alerts, level)
    requires alerts == CallAlerts(c, a, n) || alerts == TaskAlertsOf(c, a, n) || alerts == HostAlertsOf(c, a, n)
    ensures Alarmed(c, a, o, n, level)
  {
    hide CallAlerts, TaskAlertsOf, HostAlertsOf, VisitsAll, Nodes, AllAlerts;
    var al :| al in alerts && AtLeast(al.severity, level);
    NodeLoopsReachAll(c, a, o, n, al);
    assert IsAlarm(al, HostID(c, n), level);
  }

  /** An online listed host has an alert about it, or about a full storage of it, of at least a level
      exactly when a certificate, service, pool, failed task, memory, unnamed storage or full storage
      reaches that level. */
  lemma AlarmedExactly(c: Client, a: Answers, o: Orders, n: string, level: Health)
    requires VisitsAll(o, Nodes(c, a)) && n in Nodes(c, a) && FinalHost(c, a, n).online && NeedsAttention(level)
    ensures Alarmed(c, a, o, n, level) <==> Alarming(c, a, n, level)
  {
    AlertedChangesHealth(c.thresholds, AfterTasks(c, a, n));
    CallAlarmsExactly(HostID(c, n), AnswerOf(a, n), level);
    TaskAlarmsExactly(c, a, n, level);
    HostAlarmsExactly(c.thresholds, AfterTasks(c, a, n), level);
    hide AllAlerts, VisitsAll, Nodes, NodeAlerts, AlertsOf, TaskAlertsOf, AfterTasks, FinalHost, CallAlarms;
    hide FullStorage, SomeTaskFailed, Raises;
    if Alarmed(c, a, o, n, level) {
      var al :| al in AllAlerts(c, a, o) && IsAlarm(al, HostID(c, n), level);
      AlarmOrigin(c, a, o, n, al, level);
      AlarmRaises(c, a, n, al, level);
    }
    if Raises(CallAlerts(c, a, n), level) {
      NodeLoopsAlarm(c, a, o, n, CallAlerts(c, a, n), level);
    }
    if Raises(TaskAlertsOf(c, a, n), level) {
      NodeLoopsAlarm(c, a, o, n, TaskAlertsOf(c, a, n), level);
    }
    if Raises(HostAlertsOf(c, a, n), level) {
      NodeLoopsAlarm(c, a, o, n, HostAlertsOf(c, a, n), level);
    }
    if FullStorage(c, n, Storages(c, a.resources), level) {
      FullStorageAlarms(c, a, o, n, level);
    }
  }

  lemma AlarmRaises(c: Client, a: Answers, n: string, al: Alert, level: Health)
    requires AtLeast(al.severity, level)
    ensures al in CallAlerts(c, a, n) ==> Raises(CallAlerts(c, a, n), level)
    ensures al in TaskAlertsOf(c, a, n) ==> Raises(TaskAlertsOf(c, a, n), level)
    ensures al in HostAlertsOf(c, a, n) ==> Raises(HostAlertsOf(c, a, n), level)
  {
  }

  /** So an online host is at a level without any such alert exactly when nothing alarming reaches the
      level, but a disk, a lapsed subscription or the storage pressure does. */
  lemma UnhealthyWithoutAlarm(c: Client, a: Answers, o: Orders, n: string, level: Health)
    requires VisitsAll(o, Nodes(c, a)) && n in Nodes(c, a) && FinalHost(c, a, n).online && NeedsAttention(level)
    ensures AtLeast(FinalHost(c, a, n).health, level) && !Alarmed(c, a, o, n, level) <==>
              && !Alarming(c, a, n, level)
              && (|| SomeFinding(AnswerOf(a, n).disks, level)
                  || (AnswerOf(a, n).subscription == Warning && AtLeast(Warning, level))
                  || StoragePressed(c.thresholds, AfterTasks(c, a, n), level))
  {
    AlarmedExactly(c, a, o, n, level);
    HealthExplained(c, a, n, level);
    AlertedChangesHealth(c.thresholds, AfterTasks(c, a, n));
    hide Alarmed, AllAlerts, VisitsAll, Nodes, AfterTasks, SomeFinding, FullStorage, SomeTaskFailed;
  }
}
