/** What holds of a source once all its loops have run: health against causes, alerts against
    health, and the conservation of guests. */
module SourceTheorems {
  import opened Folds
  import opened Health
  import opened HostAlerts
  import opened Inventory
  import opened Source
  import opened SourceCollector
  import opened TaskHistory
  import opened Text
  import opened Wrappers
  import Zfs

  predicate AtLeast(h: Health, level: Health) {
    SeverityRank(h) >= SeverityRank(level)
  }

  // ---- The health of a host, cause by cause ----

  ghost predicate SomeFinding(findings: seq<Health>, level: Health) {
    exists f :: f in findings && NeedsAttention(f) && AtLeast(f, level)
  }

  lemma {:induction false} RaisedMeaning(h: Health, findings: seq<Health>, level: Health)
    ensures AtLeast(Raised(h, findings), level) <==> AtLeast(h, level) || SomeFinding(findings, level)
  {
    if findings != [] {
      var front, last := findings[..|findings| - 1], findings[|findings| - 1];
      RaisedMeaning(h, front, level);
      assert forall f :: f in findings <==> f in front || f == last;
      assert SomeFinding(findings, level) <==>
               SomeFinding(front, level) || (NeedsAttention(last) && AtLeast(last, level));
    }
  }

  /** The findings of the calls for one node that reach a level. */
  ghost predicate CallReaches(a: NodeAnswer, level: Health) {
    || SomeFinding(Map(a.certificates, (f: Finding) => f.health), level)
    || (a.servicesFailed > 0 && AtLeast(Warning, level))
    || SomeFinding(Map(a.pools, PoolHealth), level)
    || (a.subscription == Warning && AtLeast(Warning, level))
    || SomeFinding(a.disks, level)
  }

  lemma CallHealth(h: Host, a: NodeAnswer, level: Health)
    ensures AtLeast(NodeHost(h, a).health, level) <==> AtLeast(h.health, level) || CallReaches(a, level)
  {
    hide PoolHealth, SomeFinding, Raised, Map;
    var certificates, pools := Map(a.certificates, (f: Finding) => f.health), Map(a.pools, PoolHealth);
    var h1 := Raised(h.health, certificates);
    var h2 := if a.servicesFailed > 0 then MaxHealth(h1, Warning) else h1;
    var h3 := Raised(h2, pools);
    var h4 := if a.subscription == Warning then MaxHealth(h3, Warning) else h3;
    RaisedMeaning(h.health, certificates, level);
    RaisedMeaning(h2, pools, level);
    RaisedMeaning(h4, a.disks, level);
  }

  /** The node's task list shows a task that failed within a day. */
  ghost predicate SomeTaskFailed(now: int, tasks: Option<seq<Task>>) {
    tasks.Some? && exists t :: t in tasks.value && FailedRecently(now, t)
  }

  /** Everything that can make a listed host at least this unhealthy. */
  ghost predicate Reaches(c: Client, a: Answers, n: string, level: Health) {
    var h, t := AfterTasks(c, a, n), c.thresholds;
    var storage := if h.storageMaxPct > h.storagePct then h.storageMaxPct else h.storagePct;
    || !h.online
    || CallReaches(AnswerOf(a, n), level)
    || (SomeTaskFailed(c.now, AnswerOf(a, n).tasks) && AtLeast(Warning, level))
    || h.memoryPct >= t.memoryCritical || (level == Warning && h.memoryPct >= t.memoryWarning)
    || storage >= t.storageCritical || (level == Warning && storage >= t.storageWarning)
  }

  lemma ListedIsNew(c: Client, a: Answers, n: string)
    ensures IsNew(c, n, Listed(c, a, n))
  {
  }

  /** What the stages leave of a host as it was listed. */
  lemma StageFacts(c: Client, a: Answers, n: string)
    ensures var h, g := Listed(c, a, n), AfterGuests(c, a, n);
            && g.id == HostID(c, n) && g.node == n && g.online == h.online
            && g.health == AfterCalls(c, a, n).health
            && AfterCalls(c, a, n).storageMaxName == "" && AfterCalls(c, a, n).online == h.online
            && g.failedTasks24h == 0 && g.lastBackupStatus == "" && g.lastBackupAgeSec == 0
            && g.storageMaxPct == AfterStorages(c, a, n).storageMaxPct
            && g.storageMaxName == AfterStorages(c, a, n).storageMaxName
            && g.storagePct == AfterCalls(c, a, n).storagePct
  {
    ListedIsNew(c, a, n);
    StorageMaximum(AfterCalls(c, a, n), n, Storages(c, a.resources));
  }

  lemma TaskHealth(h: Host, now: int, tasks: Option<seq<Task>>, level: Health)
    requires h.failedTasks24h == 0
    ensures AtLeast(TaskHost(h, now, tasks).health, level)
            <==> AtLeast(h.health, level) || (SomeTaskFailed(now, tasks) && AtLeast(Warning, level))
    ensures TaskHost(h, now, tasks).(health := h.health, lastBackupStatus := h.lastBackupStatus,
                                     lastBackupAgeSec := h.lastBackupAgeSec, failedTasks24h := 0) == h
  {
    if tasks.Some? {
      FailuresReported(h, now, tasks.value);
    }
  }

  lemma AlertedHealth(t: Thresholds, h: Host, level: Health)
    requires NeedsAttention(level) && (!h.online ==> h.health == Critical)
    ensures var storage := if h.storageMaxPct > h.storagePct then h.storageMaxPct else h.storagePct;
            AtLeast(Alerted(t, h).health, level) <==>
              || !h.online || AtLeast(h.health, level)
              || h.memoryPct >= t.memoryCritical || (level == Warning && h.memoryPct >= t.memoryWarning)
              || storage >= t.storageCritical || (level == Warning && storage >= t.storageWarning)
  {
  }

  lemma OfflineIsCritical(c: Client, a: Answers, n: string)
    ensures AfterTasks(c, a, n).online == Listed(c, a, n).online
    ensures !AfterTasks(c, a, n).online ==> AfterTasks(c, a, n).health == Critical
  {
    hide AfterGuests, NodeHost;
    StageFacts(c, a, n);
    ListedIsNew(c, a, n);
    TaskHealth(AfterGuests(c, a, n), c.now, AnswerOf(a, n).tasks, Critical);
    CallHealth(Listed(c, a, n), AnswerOf(a, n), Critical);
  }

  /** A host ends at least at a level exactly when some cause reaches it, whatever the loops' order. */
  lemma HealthExplained(c: Client, a: Answers, n: string, level: Health)
    requires NeedsAttention(level)
    ensures AtLeast(FinalHost(c, a, n).health, level) <==> Reaches(c, a, n, level)
  {
    hide AfterGuests, NodeHost, Alerted, TaskHost, CallReaches;
    StageFacts(c, a, n);
    ListedIsNew(c, a, n);
    OfflineIsCritical(c, a, n);
    AlertedHealth(c.thresholds, AfterTasks(c, a, n), level);
    TaskHealth(AfterGuests(c, a, n), c.now, AnswerOf(a, n).tasks, level);
    CallHealth(Listed(c, a, n), AnswerOf(a, n), level);
  }

  // ---- Alerts are covered by health ----

  /** The causes that a loop reports about a host whose health it has raised. */
  predicate AboutHost(cause: Cause) {
    cause in {NodeOffline, Certificate, Services, ZfsPool, Memory, HostStorage, FailedTasks}
  }

  /** The alert is about a listed node whose final health is at least as severe. */
  ghost predicate Covered(c: Client, a: Answers, al: Alert, n: string) {
    al.host == HostID(c, n) && AtLeast(FinalHost(c, a, n).health, al.severity)
  }

  lemma FindingReaches(findings: seq<Health>, f: Health)
    requires f in findings && NeedsAttention(f)
    ensures SomeFinding(findings, f)
  {
  }

  lemma MapHas<T>(s: seq<T>, f: T -> Health, x: T)
    requires x in s
    ensures f(x) in Map(s, f)
  {
  }

  lemma CallAlertReaches(host: string, a: NodeAnswer, al: Alert)
    requires al in NodeAlerts(host, a)
    ensures NeedsAttention(al.severity) && al.host == host && CallReaches(a, al.severity)
    ensures AboutHost(al.cause)
  {
    hide PoolHealth, SomeFinding, Map;
    if al in Stream(a.certificates, f => CertificateAlert(host, f), []) {
      var f := StreamMember(a.certificates, f => CertificateAlert(host, f), al);
      MapHas(a.certificates, (f: Finding) => f.health, f);
      FindingReaches(Map(a.certificates, (f: Finding) => f.health), f.health);
    } else if al in Stream(a.pools, p => PoolAlert(host, p), []) {
      var p := StreamMember(a.pools, p => PoolAlert(host, p), al);
      MapHas(a.pools, PoolHealth, p);
      FindingReaches(Map(a.pools, PoolHealth), PoolHealth(p));
    } else {
      assert al in ServicesAlert(host, a.servicesFailed);
    }
  }

  lemma CallAlertCovered(c: Client, a: Answers, n: string, al: Alert)
    requires al in CallAlerts(c, a, n)
    ensures Covered(c, a, al, n) && AboutHost(al.cause)
  {
    hide CallReaches, AfterTasks, FinalHost, NodeAlerts;
    CallAlertReaches(HostID(c, n), AnswerOf(a, n), al);
    HealthExplained(c, a, n, al.severity);
  }

  lemma TaskAlertCovered(c: Client, a: Answers, n: string, al: Alert)
    requires al in TaskAlertsOf(c, a, n)
    ensures Covered(c, a, al, n) && AboutHost(al.cause)
  {
    hide CallReaches, AfterTasks, FinalHost, AfterGuests;
    StageFacts(c, a, n);
    FailuresReported(AfterGuests(c, a, n), c.now, AnswerOf(a, n).tasks.value);
    HealthExplained(c, a, n, Warning);
  }

  lemma HostAlertCovered(c: Client, a: Answers, n: string, al: Alert)
    requires al in HostAlertsOf(c, a, n)
    ensures Covered(c, a, al, n) && AboutHost(al.cause)
  {
    hide AfterGuests, TaskHost;
    OfflineIsCritical(c, a, n);
    StageFacts(c, a, n);
    TaskHealth(AfterGuests(c, a, n), c.now, AnswerOf(a, n).tasks, Critical);
    HostAlertsCovered(c.thresholds, AfterTasks(c, a, n), al);
  }

  /** No loop but the three over the host table reports about a host's own health. */
  lemma OtherCauses(c: Client, a: Answers, al: Alert)
    requires al in ClusterAlerts(a.cluster) || al in StorageLoopAlerts(c, a) || al in GuestLoopAlerts(c, a)
             || al in ClusterAlerts(a.replications)
    ensures !AboutHost(al.cause)
  {
    if al in ClusterAlerts(a.cluster) {
      var f := StreamMember(a.cluster, ClusterAlert, al);
    } else if al in ClusterAlerts(a.replications) {
      var f := StreamMember(a.replications, ClusterAlert, al);
    } else if al in StorageLoopAlerts(c, a) {
      var s := StreamMember(Storages(c, a.resources), s => StorageAlerts(c, s), al);
    } else {
      var g := StreamMember(Guests(c, a.current, a.resources), g => GuestAlerts(c, g), al);
    }
  }

  /** Every alert about a host's own state belongs to a listed node, and that node's final health is
      at least as severe. */
  lemma AlertsCovered(c: Client, a: Answers, o: Orders, al: Alert) returns (n: string)
    requires VisitsAll(o, Nodes(c, a))
    requires al in AllAlerts(c, a, o) && AboutHost(al.cause)
    ensures n in Nodes(c, a) && Covered(c, a, al, n)
  {
    hide ClusterAlerts, StorageLoopAlerts, GuestLoopAlerts, CallAlerts, TaskAlertsOf, HostAlertsOf;
    hide Covered, AboutHost, Nodes;
    if al in CallLoopAlerts(c, a, o.reading) {
      n := StreamMember(o.reading, n => CallAlerts(c, a, n), al);
      CallAlertCovered(c, a, n, al);
    } else if al in TasksLoopAlerts(c, a, o.tasks) {
      n := StreamMember(o.tasks, n => TaskAlertsOf(c, a, n), al);
      TaskAlertCovered(c, a, n, al);
    } else if al in AlertLoopAlerts(c, a, o.alerts) {
      n := StreamMember(o.alerts, n => HostAlertsOf(c, a, n), al);
      HostAlertCovered(c, a, n, al);
    } else {
      OtherCauses(c, a, al);
      n := "";
    }
  }

  /** A storage's fullness alert on a listed node is matched by the host's health as well, although
      the host never sees the storage's own alert. */
  lemma FullStorageCovered(c: Client, a: Answers, n: string, s: Storage, al: Alert)
    requires s in Storages(c, a.resources) && s.node == n
    requires al in StorageAlerts(c, s) && al.cause.StorageFull?
    ensures Covered(c, a, al, n)
  {
    hide CallReaches, AfterGuests, FinalHost, Storages;
    StageFacts(c, a, n);
    StorageMaximum(AfterCalls(c, a, n), n, Storages(c, a.resources));
    var h := AfterTasks(c, a, n);
    TaskHealth(AfterGuests(c, a, n), c.now, AnswerOf(a, n).tasks, Critical);
    var pct := if h.storageMaxPct > h.storagePct then h.storageMaxPct else h.storagePct;
    FullnessMonotone(c.thresholds, s.pct, pct);
    HealthExplained(c, a, n, al.severity);
  }

  /** The levels of `PressureLevels`, for the host at the end of the run. */
  lemma FinalPressure(c: Client, a: Answers, n: string)
    requires FinalHost(c, a, n).online
    requires NeedsAttention(StorageLevel(c.thresholds, AfterTasks(c, a, n)))
    ensures var h := FinalHost(c, a, n);
            var level := StorageLevel(c.thresholds, AfterTasks(c, a, n));
            && AtLeast(h.health, level)
            && ((exists al | al in HostAlertsOf(c, a, n) :: al.cause == HostStorage && al.severity == level)
                <==> h.storageMaxName == "")
            && (h.storageMaxName != "" ==>
                  (StorageAt(c, n, Storages(c, a.resources), level)
                   <==> Fullness(c.thresholds, h.storageMaxPct) == level))
            && (h.storageMaxName != "" && h.storageMaxPct >= h.storagePct ==>
                  NamedStorageAt(c, n, Storages(c, a.resources), h.storageMaxName, level))
  {
    hide AfterGuests, AfterCalls, StorageAt, NamedStorageAt, TaskHost, AlertsOf;
    StageFacts(c, a, n);
    TaskHealth(AfterGuests(c, a, n), c.now, AnswerOf(a, n).tasks, Critical);
    PressureLevels(c, AfterCalls(c, a, n), n, Storages(c, a.resources), AfterTasks(c, a, n));
  }

  /** An alert about the storage of the node, by the host or by a storage. */
  predicate AboutStorage(al: Alert, host: string, level: Health) {
    al.host == host && al.severity == level && (al.cause == HostStorage || al.cause.StorageFull?)
  }

  /** What the last loop says about storage. */
  lemma HostAlertsAboutStorage(t: Thresholds, h: Host, al: Alert)
    requires al in AlertsOf(t, h)
    ensures al.host == h.id && !al.cause.StorageFull?
  {
  }

  /** What a storage's own alerts say: the only fullness alert is at the storage's level. */
  lemma StorageAlertsAbout(c: Client, s: Storage, al: Alert)
    requires al in StorageAlerts(c, s)
    ensures al.host == HostID(c, s.node) && al.cause != HostStorage
    ensures al.cause.StorageFull? ==> al.severity == Fullness(c.thresholds, s.pct)
  {
  }

  lemma CallAlertCauses(host: string, a: NodeAnswer, al: Alert)
    requires al in NodeAlerts(host, a)
    ensures al.cause in {Certificate, Services, ZfsPool}
  {
    hide PoolHealth;
    if al in Stream(a.certificates, f => CertificateAlert(host, f), []) {
      var f := StreamMember(a.certificates, f => CertificateAlert(host, f), al);
    } else if al in Stream(a.pools, p => PoolAlert(host, p), []) {
      var p := StreamMember(a.pools, p => PoolAlert(host, p), al);
    }
  }

  lemma TaskAlertCauses(h: Host, now: int, tasks: Option<seq<Task>>, al: Alert)
    requires al in TaskAlerts(h, now, tasks)
    ensures al.cause == FailedTasks
  {
  }

  /** Alerts about storage come from the storage loop or from the last loop. */
  lemma StorageAlertOrigin(c: Client, a: Answers, o: Orders, al: Alert)
    requires al in AllAlerts(c, a, o) && (al.cause == HostStorage || al.cause.StorageFull?)
    ensures al in StorageLoopAlerts(c, a) || al in AlertLoopAlerts(c, a, o.alerts)
  {
    hide StorageLoopAlerts, AlertLoopAlerts, CallAlerts, TaskAlertsOf;
    if al in CallLoopAlerts(c, a, o.reading) {
      var n := StreamMember(o.reading, n => CallAlerts(c, a, n), al);
      CallAlertIsNoStorage(c, a, n, al);
    } else if al in TasksLoopAlerts(c, a, o.tasks) {
      var n := StreamMember(o.tasks, n => TaskAlertsOf(c, a, n), al);
      TaskAlertIsNoStorage(c, a, n, al);
    } else if al in ClusterAlerts(a.cluster) {
      var f := StreamMember(a.cluster, ClusterAlert, al);
    } else if al in ClusterAlerts(a.replications) {
      var f := StreamMember(a.replications, ClusterAlert, al);
    } else if al in GuestLoopAlerts(c, a) {
      var g := StreamMember(Guests(c, a.current, a.resources), g => GuestAlerts(c, g), al);
    }
  }

  lemma CallAlertIsNoStorage(c: Client, a: Answers, n: string, al: Alert)
    requires al in CallAlerts(c, a, n)
    ensures al.cause != HostStorage && !al.cause.StorageFull?
  {
    CallAlertCauses(HostID(c, n), AnswerOf(a, n), al);
  }

  lemma TaskAlertIsNoStorage(c: Client, a: Answers, n: string, al: Alert)
    requires al in TaskAlertsOf(c, a, n)
    ensures al.cause == FailedTasks
  {
    hide TaskAlerts;
    TaskAlertCauses(AfterGuests(c, a, n), c.now, AnswerOf(a, n).tasks, al);
  }

  lemma AfterTasksID(c: Client, a: Answers, n: string)
    ensures AfterTasks(c, a, n).id == HostID(c, n)
  {
    hide AfterGuests;
    StageFacts(c, a, n);
    TaskHealth(AfterGuests(c, a, n), c.now, AnswerOf(a, n).tasks, Critical);
  }

  /** An alert about the node's storage among all alerts comes from the node's own host, which then
      names no storage, or from a storage of the node at that level. */
  lemma StorageAlertMeans(c: Client, a: Answers, o: Orders, n: string, al: Alert, level: Health)
    requires al in AllAlerts(c, a, o) && AboutStorage(al, HostID(c, n), level)
    ensures (al in HostAlertsOf(c, a, n) && al.cause == HostStorage) || StorageAt(c, n, Storages(c, a.resources), level)
  {
    hide AllAlerts, Storages, StorageAlerts, HostID, AfterTasks, AlertsOf;
    StorageAlertOrigin(c, a, o, al);
    if al in StorageLoopAlerts(c, a) {
      var s := StreamMember(Storages(c, a.resources), s => StorageAlerts(c, s), al);
      StorageAlertsAbout(c, s, al);
      HostIDInjective(c, s.node, n);
    } else {
      var m := StreamMember(o.alerts, n => HostAlertsOf(c, a, n), al);
      HostAlertsAboutStorage(c.thresholds, AfterTasks(c, a, m), al);
      AfterTasksID(c, a, m);
      HostIDInjective(c, m, n);
    }
  }

  /** And each of these does put an alert among all alerts. */
  lemma HostAlertAmongAll(c: Client, a: Answers, o: Orders, n: string, al: Alert)
    requires VisitsAll(o, Nodes(c, a)) && n in Nodes(c, a) && al in HostAlertsOf(c, a, n)
    ensures al in AllAlerts(c, a, o) && al.host == HostID(c, n)
  {
    hide HostAlertsOf, Visits, Nodes;
    VisitsEvery(o.alerts, Nodes(c, a));
    StreamHas(o.alerts, n => HostAlertsOf(c, a, n), n, al);
    assert al in AlertLoopAlerts(c, a, o.alerts);
    HostAlertsOn(c, a, n, al);
  }

  lemma HostAlertsOn(c: Client, a: Answers, n: string, al: Alert)
    requires al in HostAlertsOf(c, a, n)
    ensures al.host == HostID(c, n)
  {
    hide AfterTasks, AlertsOf;
    HostAlertsAboutStorage(c.thresholds, AfterTasks(c, a, n), al);
    AfterTasksID(c, a, n);
  }

  lemma StorageAlertAmongAll(c: Client, a: Answers, o: Orders, s: Storage, level: Health) returns (al: Alert)
    requires s in Storages(c, a.resources) && NeedsAttention(level) && Fullness(c.thresholds, s.pct) == level
    ensures al in AllAlerts(c, a, o) && AboutStorage(al, HostID(c, s.node), level) && al.cause == StorageFull(s.name)
  {
    hide Storages, StorageAlerts, Fullness;
    StorageAlertsMeaning(c, s, level);
    al :| && al in StorageAlerts(c, s) && al.cause == StorageFull(s.name) && al.severity == level
          && al.host == HostID(c, s.node);
    StreamHas(Storages(c, a.resources), s => StorageAlerts(c, s), s, al);
    assert al in StorageLoopAlerts(c, a);
  }

  /** Among the alerts that a source emits, there is one about the storage of an online node at the level
      that its health is raised to exactly when no storage is named on the host, or the fullest storage
      is itself at that level; and it is about the named storage whenever that is not less full than the
      root file system. Otherwise the pressure is silent. */
  lemma PressureReported(c: Client, a: Answers, o: Orders, n: string)
    requires VisitsAll(o, Nodes(c, a)) && n in Nodes(c, a) && FinalHost(c, a, n).online
    requires NeedsAttention(StorageLevel(c.thresholds, AfterTasks(c, a, n)))
    ensures var h := FinalHost(c, a, n);
            var level := StorageLevel(c.thresholds, AfterTasks(c, a, n));
            && AtLeast(h.health, level)
            && ((exists al :: al in AllAlerts(c, a, o) && AboutStorage(al, HostID(c, n), level))
                <==> h.storageMaxName == "" || Fullness(c.thresholds, h.storageMaxPct) == level)
            && (h.storageMaxName != "" && h.storageMaxPct >= h.storagePct ==>
                  exists al :: al in AllAlerts(c, a, o) && AboutStorage(al, HostID(c, n), level)
                            && al.cause == StorageFull(h.storageMaxName))
  {
    FinalPressure(c, a, n);
    var h, storages := FinalHost(c, a, n), Storages(c, a.resources);
    var level := StorageLevel(c.thresholds, AfterTasks(c, a, n));
    hide AllAlerts, FinalHost, AfterTasks, HostAlertsOf, Storages, Visits, Nodes, Fullness, StorageLevel, HostID;
    if al :| al in AllAlerts(c, a, o) && AboutStorage(al, HostID(c, n), level) {
      StorageAlertMeans(c, a, o, n, al, level);
    }
    if h.storageMaxName == "" {
      var al :| al in HostAlertsOf(c, a, n) && al.cause == HostStorage && al.severity == level;
      HostAlertAmongAll(c, a, o, n, al);
    } else if StorageAt(c, n, storages, level) {
      var s :| s in storages && s.node == n && Fullness(c.thresholds, s.pct) == level;
      var al := StorageAlertAmongAll(c, a, o, s, level);
      if h.storageMaxPct >= h.storagePct {
        var t :| t in storages && t.node == n && t.name == h.storageMaxName && Fullness(c.thresholds, t.pct) == level;
        var named := StorageAlertAmongAll(c, a, o, t, level);
      }
    }
  }

  // ---- Tasks, at the end of the run ----

  /** The last stage changes a host's health only. */
  lemma AlertedChangesHealth(t: Thresholds, h: Host)
    ensures Alerted(t, h) == h.(health := Alerted(t, h).health)
  {
  }

  predicate ShowsTask(h: Host, now: int, t: Task) {
    h.lastBackupStatus == t.status && h.lastBackupAgeSec == if t.startedAt > 0 then now - t.startedAt else 0
  }

  /** The host shows the last-listed of the latest backups, or nothing when there is none. */
  ghost predicate ShowsBackup(h: Host, now: int, tasks: Option<seq<Task>>) {
    if tasks.None? || NoBackup(tasks.value) then h.lastBackupStatus == "" && h.lastBackupAgeSec == 0
    else exists i | 0 <= i < |tasks.value| :: IsLastBackup(tasks.value, i) && ShowsTask(h, now, tasks.value[i])
  }

  /** The backup that a listed node shows in the end: the last-listed of the latest backups of its task
      list, or nothing without a backup or without an answer. */
  lemma FinalBackup(c: Client, a: Answers, n: string)
    ensures ShowsBackup(FinalHost(c, a, n), c.now, AnswerOf(a, n).tasks)
  {
    hide AfterGuests, Alerted, IsLastBackup, NoBackup, Backups;
    StageFacts(c, a, n);
    AlertedChangesHealth(c.thresholds, AfterTasks(c, a, n));
    var tasks := AnswerOf(a, n).tasks;
    if tasks.Some? {
      if NoBackup(tasks.value) {
        NoBackupFound(Backup("", 0, 0), c.now, tasks.value);
      } else {
        var i := LastBackupFound(Backup("", 0, 0), c.now, tasks.value);
      }
    }
  }

  /** For one: the latest vzdump task, where only one started last. */
  lemma LatestBackupShown(c: Client, a: Answers, n: string, tasks: seq<Task>, i: nat)
    requires AnswerOf(a, n).tasks == Some(tasks) && i < |tasks|
    requires tasks[i].kind == "vzdump" && tasks[i].startedAt > 0
    requires forall j | 0 <= j < |tasks| && j != i && tasks[j].kind == "vzdump" ::
               tasks[j].startedAt < tasks[i].startedAt
    ensures FinalHost(c, a, n).lastBackupStatus == tasks[i].status
    ensures FinalHost(c, a, n).lastBackupAgeSec == c.now - tasks[i].startedAt
  {
    hide FinalHost;
    FinalBackup(c, a, n);
    assert IsBackup(tasks[i]) && IsLastBackup(tasks, i);
    LastBackupUnique(tasks, i);
  }

  /** A listed node shows how many disks it has, and how many of them need attention. */
  lemma FinalDisks(c: Client, a: Answers, n: string)
    requires n in Nodes(c, a)
    ensures FinalHost(c, a, n).diskCount == |AnswerOf(a, n).disks|
    ensures FinalHost(c, a, n).diskIssues == Sum(AnswerOf(a, n).disks, d => if d in {Warning, Critical} then 1 else 0)
  {
    hide FinalHost, NewHosts, AnswerOf;
    SumSame(AnswerOf(a, n).disks, HasIssue, d => if d in {Warning, Critical} then 1 else 0);
    NoDisksYet(c, a.resources, n);
    DisksStay(c, a, n);
  }

  lemma DisksStay(c: Client, a: Answers, n: string)
    ensures FinalHost(c, a, n).diskCount == AfterCalls(c, a, n).diskCount
    ensures FinalHost(c, a, n).diskIssues == AfterCalls(c, a, n).diskIssues
  {
    hide AfterCalls, Storages, Guests, Alerted, TaskHost, StorageHost;
    AlertedChangesHealth(c.thresholds, AfterTasks(c, a, n));
    StageFacts(c, a, n);
    TaskHealth(AfterGuests(c, a, n), c.now, AnswerOf(a, n).tasks, Critical);
    StorageMaximum(AfterCalls(c, a, n), n, Storages(c, a.resources));
  }

  lemma {:induction false} NoDisksYet(c: Client, resources: seq<Resource>, n: string)
    requires n in NewHosts(c, resources)
    ensures NewHosts(c, resources)[n].diskCount == 0 && NewHosts(c, resources)[n].diskIssues == 0
  {
    var front, r := resources[..|resources| - 1], resources[|resources| - 1];
    if !(r.kind == "node" && NodeName(c, r) == n) { NoDisksYet(c, front, n); }
  }

  /** The failures that a listed node shows in the end are exactly its tasks that failed within a day,
      and there are any exactly when its alert is emitted. */
  lemma FinalFailures(c: Client, a: Answers, n: string)
    ensures var h, tasks := FinalHost(c, a, n), AnswerOf(a, n).tasks;
            && h.failedTasks24h == (if tasks.None? then 0 else Sum(tasks.value, t => Failures(c.now, t)))
            && (h.failedTasks24h > 0 <==> SomeTaskFailed(c.now, tasks))
            && (h.failedTasks24h > 0 <==> TaskAlertsOf(c, a, n) != [])
  {
    hide AfterGuests, Alerted;
    StageFacts(c, a, n);
    AlertedChangesHealth(c.thresholds, AfterTasks(c, a, n));
    if AnswerOf(a, n).tasks.Some? {
      FailuresReported(AfterGuests(c, a, n), c.now, AnswerOf(a, n).tasks.value);
    }
  }

  /** Listing a node's tasks in another order gives the same host in every field, unless two of its
      backups start together. */
  lemma TaskOrderIrrelevant(c: Client, a: Answers, n: string, p: seq<Task>, q: seq<Task>)
    requires n in a.nodes && a.nodes[n].tasks == Some(p)
    requires multiset(p) == multiset(q) && DistinctStarts(p)
    ensures FinalHost(c, a.(nodes := a.nodes[n := a.nodes[n].(tasks := Some(q))]), n) == FinalHost(c, a, n)
  {
    var b := a.(nodes := a.nodes[n := a.nodes[n].(tasks := Some(q))]);
    CallsIgnoreTasks(Listed(c, a, n), a.nodes[n], Some(q));
    assert AfterGuests(c, b, n) == AfterGuests(c, a, n) by {
      hide NodeHost, Listed, Storages, Guests;
      SameInventory(c, a, b, n);
    }
    hide AfterGuests, Alerted, Backups;
    StageFacts(c, a, n);
    BackupIgnoresOrder(Backup("", 0, 0), c.now, p, q);
    SumPermuted(p, q, t => Failures(c.now, t));
  }

  lemma CallsIgnoreTasks(h: Host, a: NodeAnswer, tasks: Option<seq<Task>>)
    ensures NodeHost(h, a.(tasks := tasks)) == NodeHost(h, a)
  {
  }

  lemma SameInventory(c: Client, a: Answers, b: Answers, n: string)
    requires a.resources == b.resources && a.current == b.current
    requires NodeHost(Listed(c, a, n), AnswerOf(a, n)) == NodeHost(Listed(c, a, n), AnswerOf(b, n))
    ensures AfterGuests(c, b, n) == AfterGuests(c, a, n)
  {
    hide NodeHost, Storages, Guests, StorageHost, GuestHost, NewHosts, AnswerOf;
  }

  // ---- A suspect device, from the tree to the host ----

  lemma BlankIsUnknown(text: string)
    requires TrimSpace(text) == ""
    ensures HealthFromText(text) == Unknown
  {
  }

  /** A pool reaches a level exactly by what the list says of it, or once its detail is read, by a suspect
      device or by the state that the detail gives, for which the list's stands in. */
  lemma PoolHealthMeaning(p: PoolAnswer, level: Health)
    requires NeedsAttention(level)
    ensures AtLeast(PoolHealth(p), level) <==>
              || AtLeast(HealthFromText(if TrimSpace(p.health) != "" then p.health else p.status), level)
              || (p.detail.Some?
                  && var state := p.detail.value.info.state;
                     || AtLeast(HealthFromText(if TrimSpace(state) != "" then state else p.health), level)
                     || (level == Warning && exists l :: l in Zfs.Flatten(p.detail.value.children) && Zfs.Suspect(l)))
  {
    hide HealthFromText, TrimSpace, Zfs.Flatten, Zfs.Suspect;
    if TrimSpace(p.health) == "" { BlankIsUnknown(p.health); }
    if TrimSpace(p.status) == "" { BlankIsUnknown(p.status); }
    BlankIsUnknown("") by { assert Trimmed(""); }
    if p.detail.Some? { Zfs.IssuesMeaning(Zfs.Flatten(p.detail.value.children)); }
  }

  /** A counted device in a bad state or with errors, at any depth of a pool's tree, makes the pool and
      the host at least a warning, and the pool's alert is among the source's alerts. */
  lemma SuspectDeviceReported(c: Client, a: Answers, o: Orders, n: string, p: PoolAnswer, l: Zfs.Label)
    requires VisitsAll(o, Nodes(c, a)) && n in Nodes(c, a)
    requires p in AnswerOf(a, n).pools && p.detail.Some?
    requires l in Zfs.Flatten(p.detail.value.children) && Zfs.Suspect(l)
    ensures NeedsAttention(PoolHealth(p)) && AtLeast(FinalHost(c, a, n).health, Warning)
    ensures Alert(HostID(c, n) + "/" + p.name + "/zfs", HostID(c, n), PoolHealth(p), ZfsPool) in AllAlerts(c, a, o)
  {
    SuspectPool(p, l);
    hide PoolHealth, AfterTasks, FinalHost, Visits;
    var host := HostID(c, n);
    var al := Alert(host + "/" + p.name + "/zfs", host, PoolHealth(p), ZfsPool);
    var answer := AnswerOf(a, n);
    StreamHas(answer.pools, p => PoolAlert(host, p), p, al);
    assert al in CallAlerts(c, a, n);
    VisitsEvery(o.reading, Nodes(c, a));
    StreamHas(o.reading, n => CallAlerts(c, a, n), n, al);
    assert al in CallLoopAlerts(c, a, o.reading);
    CallAlertCovered(c, a, n, al);
  }

  lemma SuspectPool(p: PoolAnswer, l: Zfs.Label)
    requires p.detail.Some? && l in Zfs.Flatten(p.detail.value.children) && Zfs.Suspect(l)
    ensures NeedsAttention(PoolHealth(p))
  {
    Zfs.SuspectRaisesPool(Zfs.PoolOf(p.name, p.health, p.status), p.detail.value, l);
  }
}
