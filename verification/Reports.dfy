/** What the alerts of a source say, told from the answers of its API. */
module Reports {
  import opened Folds
  import opened Health
  import opened HostAlerts
  import opened Inventory
  import opened Levels
  import opened Source
  import opened SourceCollector
  import opened SourceTheorems
  import opened Text
  import Zfs

  /** The loop that speaks of each cause. */
  ghost predicate FromItsLoop(c: Client, a: Answers, o: Orders, al: Alert) {
    match al.cause
    case Certificate | Services | ZfsPool => al in CallLoopAlerts(c, a, o.reading)
    case StorageStatus | StorageFull(_) => al in StorageLoopAlerts(c, a)
    case GuestStatus => al in GuestLoopAlerts(c, a)
    case FailedTasks => al in TasksLoopAlerts(c, a, o.tasks)
    case Memory | HostStorage | NodeOffline => al in AlertLoopAlerts(c, a, o.alerts)
    case Cluster => al in ClusterAlerts(a.cluster) || al in ClusterAlerts(a.replications)
    case SourceOffline => false
  }

  lemma CallCauses(c: Client, a: Answers, o: Orders, al: Alert)
    requires al in CallLoopAlerts(c, a, o.reading)
    ensures al.cause in {Certificate, Services, ZfsPool}
  {
    hide CallAlerts;
    var n := StreamMember(o.reading, n => CallAlerts(c, a, n), al);
    NotByCalls(c, a, n, al);
  }

  lemma TaskCauses(c: Client, a: Answers, o: Orders, al: Alert)
    requires al in TasksLoopAlerts(c, a, o.tasks)
    ensures al.cause == FailedTasks
  {
    hide TaskAlertsOf;
    var n := StreamMember(o.tasks, n => TaskAlertsOf(c, a, n), al);
    TaskAlertIsNoStorage(c, a, n, al);
  }

  lemma HostCauses(c: Client, a: Answers, o: Orders, al: Alert)
    requires al in AlertLoopAlerts(c, a, o.alerts)
    ensures al.cause in {Memory, HostStorage, NodeOffline}
  {
    hide AfterTasks;
    var n := StreamMember(o.alerts, n => HostAlertsOf(c, a, n), al);
  }

  lemma InventoryCauses(c: Client, a: Answers, al: Alert)
    ensures al in StorageLoopAlerts(c, a) ==> al.cause == StorageStatus || al.cause.StorageFull?
    ensures al in GuestLoopAlerts(c, a) ==> al.cause == GuestStatus
  {
    if al in StorageLoopAlerts(c, a) {
      var s := StreamMember(Storages(c, a.resources), s => StorageAlerts(c, s), al);
    }
    if al in GuestLoopAlerts(c, a) {
      var g := StreamMember(Guests(c, a.current, a.resources), g => GuestAlerts(c, g), al);
    }
  }

  lemma ClusterCause(findings: seq<Finding>, al: Alert)
    requires al in ClusterAlerts(findings)
    ensures al.cause == Cluster
  {
    var f := StreamMember(findings, ClusterAlert, al);
  }

  lemma Origin(c: Client, a: Answers, o: Orders, al: Alert)
    requires al in AllAlerts(c, a, o)
    ensures FromItsLoop(c, a, o, al)
  {
    hide CallLoopAlerts, StorageLoopAlerts, GuestLoopAlerts, TasksLoopAlerts, AlertLoopAlerts, ClusterAlerts;
    InventoryCauses(c, a, al);
    if al in CallLoopAlerts(c, a, o.reading) {
      CallCauses(c, a, o, al);
    } else if al in TasksLoopAlerts(c, a, o.tasks) {
      TaskCauses(c, a, o, al);
    } else if al in AlertLoopAlerts(c, a, o.alerts) {
      HostCauses(c, a, o, al);
    } else if al in ClusterAlerts(a.cluster) {
      ClusterCause(a.cluster, al);
    } else if al in ClusterAlerts(a.replications) {
      ClusterCause(a.replications, al);
    }
  }

  // ---- Ids ----

  function Suffix(critical: string, warning: string, severity: Health): string {
    if severity == Critical then critical else warning
  }

  /** What an alert is called, by what it is about. */
  ghost predicate Named(c: Client, a: Answers, al: Alert) {
    match al.cause
    case NodeOffline => al.id == al.host + "/offline"
    case Memory => al.id == al.host + Suffix("/memory-critical", "/memory-warning", al.severity)
    case HostStorage => al.id == al.host + Suffix("/storage-critical", "/storage-warning", al.severity)
    case Services => al.id == al.host + "/services-failed"
    case FailedTasks => al.id == al.host + "/tasks-failed-24h"
    case StorageStatus => exists s :: s in Storages(c, a.resources) && al.id == s.id + "/status"
    case StorageFull(name) => exists s :: s in Storages(c, a.resources) && s.name == name
                                          && al.id == s.id + Suffix("/critical", "/warning", al.severity)
    case GuestStatus => exists g :: g in Guests(c, a.current, a.resources) && al.id == g.id + "/unexpected-status"
    case Certificate => exists n, f :: f in AnswerOf(a, n).certificates && al.host == HostID(c, n)
                                       && al.id == f.id + "/expiry"
    case ZfsPool => exists n, p :: p in AnswerOf(a, n).pools && al.host == HostID(c, n)
                                   && al.id == al.host + "/" + p.name + "/zfs"
    case Cluster => exists f :: f in a.cluster + a.replications && al.id == f.id
    case SourceOffline => false
  }

  lemma InventoryNamed(c: Client, a: Answers, al: Alert)
    requires al in StorageLoopAlerts(c, a) || al in GuestLoopAlerts(c, a)
    ensures Named(c, a, al)
  {
    InventoryCauses(c, a, al);
    hide Storages, Guests;
    if al in StorageLoopAlerts(c, a) {
      var s := StreamMember(Storages(c, a.resources), s => StorageAlerts(c, s), al);
    } else {
      var g := StreamMember(Guests(c, a.current, a.resources), g => GuestAlerts(c, g), al);
    }
  }

  lemma LevelNamed(t: Thresholds, h: Host, al: Alert)
    requires al in AlertsOf(t, h)
    ensures match al.cause
            case NodeOffline => al.id == al.host + "/offline"
            case Memory => al.id == al.host + Suffix("/memory-critical", "/memory-warning", al.severity)
            case HostStorage => al.id == al.host + Suffix("/storage-critical", "/storage-warning", al.severity)
            case _ => false
  {
    Joined(h.id, "memory");
    Joined(h.id, "storage");
    hide MemoryLevel, StorageLevel;
  }

  lemma Joined(id: string, what: string)
    requires what in {"memory", "storage"}
    ensures id + "/" + what + "-critical" == id + if what == "memory" then "/memory-critical" else "/storage-critical"
    ensures id + "/" + what + "-warning" == id + if what == "memory" then "/memory-warning" else "/storage-warning"
  {
  }

  lemma AlertNames(c: Client, a: Answers, o: Orders, al: Alert)
    requires al in AllAlerts(c, a, o)
    ensures Named(c, a, al)
  {
    hide AllAlerts, StorageLoopAlerts, GuestLoopAlerts, NodeAlerts, AfterTasks, AfterGuests, AlertsOf;
    Origin(c, a, o, al);
    match al.cause
    case StorageStatus | StorageFull(_) | GuestStatus => InventoryNamed(c, a, al);
    case Memory | HostStorage | NodeOffline =>
      var n := StreamMember(o.alerts, n => HostAlertsOf(c, a, n), al);
      LevelNamed(c.thresholds, AfterTasks(c, a, n), al);
    case FailedTasks =>
      var n := StreamMember(o.tasks, n => TaskAlertsOf(c, a, n), al);
    case Services =>
      var n := StreamMember(o.reading, n => CallAlerts(c, a, n), al);
      ServiceNamed(HostID(c, n), AnswerOf(a, n), al);
    case Certificate | ZfsPool =>
      var n := StreamMember(o.reading, n => CallAlerts(c, a, n), al);
      FindingNamed(c, a, n, al);
    case Cluster => ClusterNamed(c, a, al);
  }

  lemma ClusterNamed(c: Client, a: Answers, al: Alert)
    requires al.cause == Cluster && (al in ClusterAlerts(a.cluster) || al in ClusterAlerts(a.replications))
    ensures Named(c, a, al)
  {
    if al in ClusterAlerts(a.cluster) {
      var f := StreamMember(a.cluster, ClusterAlert, al);
      assert f in a.cluster + a.replications;
    } else {
      var f := StreamMember(a.replications, ClusterAlert, al);
      assert f in a.cluster + a.replications;
    }
  }

  lemma FindingNamed(c: Client, a: Answers, n: string, al: Alert)
    requires al in CallAlerts(c, a, n) && al.cause in {Certificate, ZfsPool}
    ensures Named(c, a, al)
  {
    hide PoolHealth, AnswerOf;
    var host, answer := HostID(c, n), AnswerOf(a, n);
    StreamCauses(host, answer, al);
    if al.cause == Certificate {
      var f := StreamMember(answer.certificates, f => CertificateAlert(host, f), al);
    } else {
      var p := StreamMember(answer.pools, p => PoolAlert(host, p), al);
    }
  }

  lemma ServiceNamed(host: string, a: NodeAnswer, al: Alert)
    requires al in NodeAlerts(host, a) && al.cause == Services
    ensures al.id == al.host + "/services-failed"
  {
    hide PoolAlert, CertificateAlert;
    StreamCauses(host, a, al);
  }

  // ---- Nodes ----

  lemma OfflineSays(t: Thresholds, h: Host)
    ensures Says(AlertsOf(t, h), h.id, NodeOffline, Critical) <==> !h.online
  {
    if !h.online { assert AlertsOf(t, h)[0] in AlertsOf(t, h); }
  }

  /** An alert that a node is offline is there exactly when it is. */
  lemma OfflineReported(c: Client, a: Answers, o: Orders, n: string)
    requires VisitsAll(o, Nodes(c, a)) && n in Nodes(c, a)
    ensures Says(AllAlerts(c, a, o), HostID(c, n), NodeOffline, Critical) <==> !FinalHost(c, a, n).online
  {
    hide AllAlerts, AfterTasks, Nodes, VisitsAll, AlertsOf, Says, FinalHost, HostID;
    FinalLevels(c, a, n);
    SaidLast(c, a, o, n, NodeOffline, Critical);
    OfflineSays(c.thresholds, AfterTasks(c, a, n));
  }

  lemma CallsSay(c: Client, a: Answers, o: Orders, n: string, cause: Cause, severity: Health)
    requires VisitsAll(o, Nodes(c, a)) && n in Nodes(c, a) && cause in {Certificate, Services, ZfsPool}
    ensures Says(AllAlerts(c, a, o), HostID(c, n), cause, severity)
       <==> Says(NodeAlerts(HostID(c, n), AnswerOf(a, n)), HostID(c, n), cause, severity)
  {
    hide AllAlerts, NodeAlerts, Nodes, HostID;
    var host := HostID(c, n);
    if al :| al in AllAlerts(c, a, o) && al.host == host && al.cause == cause && al.severity == severity {
      Origin(c, a, o, al);
      var m := StreamMember(o.reading, n => CallAlerts(c, a, n), al);
      CallAlertOn(c, a, m, al);
      HostIDInjective(c, m, n);
    }
    if al :| al in CallAlerts(c, a, n) && al.host == host && al.cause == cause && al.severity == severity {
      VisitsEvery(o.reading, Nodes(c, a));
      StreamHas(o.reading, n => CallAlerts(c, a, n), n, al);
      InCalls(c, a, o, al);
    }
  }

  lemma CallAlertOn(c: Client, a: Answers, n: string, al: Alert)
    requires al in CallAlerts(c, a, n)
    ensures al.host == HostID(c, n)
  {
    hide NodeAlerts, CallReaches;
    CallAlertReaches(HostID(c, n), AnswerOf(a, n), al);
  }

  lemma InCalls(c: Client, a: Answers, o: Orders, al: Alert)
    requires al in CallLoopAlerts(c, a, o.reading) || al in TasksLoopAlerts(c, a, o.tasks)
    ensures al in AllAlerts(c, a, o)
  {
    hide CallLoopAlerts, StorageLoopAlerts, GuestLoopAlerts, TasksLoopAlerts, AlertLoopAlerts, ClusterAlerts;
  }

  lemma StreamCauses(host: string, a: NodeAnswer, al: Alert)
    ensures al in Stream(a.certificates, f => CertificateAlert(host, f), []) ==> al.cause == Certificate
    ensures al in Stream(a.pools, p => PoolAlert(host, p), []) ==> al.cause == ZfsPool
    ensures al in ServicesAlert(host, a.servicesFailed) ==> al.cause == Services
  {
    hide PoolHealth;
    if al in Stream(a.certificates, f => CertificateAlert(host, f), []) {
      var f := StreamMember(a.certificates, f => CertificateAlert(host, f), al);
    }
    if al in Stream(a.pools, p => PoolAlert(host, p), []) {
      var p := StreamMember(a.pools, p => PoolAlert(host, p), al);
    }
  }

  lemma CertificatesSay(host: string, a: NodeAnswer, severity: Health)
    requires NeedsAttention(severity)
    ensures Says(NodeAlerts(host, a), host, Certificate, severity) <==>
              exists f :: f in a.certificates && f.health == severity
  {
    hide PoolHealth, ServicesAlert;
    var alerts := NodeAlerts(host, a);
    if al :| al in alerts && al.host == host && al.cause == Certificate && al.severity == severity {
      StreamCauses(host, a, al);
      var f := StreamMember(a.certificates, f => CertificateAlert(host, f), al);
    }
    if f :| f in a.certificates && f.health == severity {
      var al := CertificateAlert(host, f)[0];
      StreamHas(a.certificates, f => CertificateAlert(host, f), f, al);
      assert al in alerts;
    }
  }

  lemma PoolsSay(host: string, a: NodeAnswer, severity: Health)
    requires NeedsAttention(severity)
    ensures Says(NodeAlerts(host, a), host, ZfsPool, severity) <==>
              exists p :: p in a.pools && PoolHealth(p) == severity
  {
    hide PoolHealth, ServicesAlert;
    var alerts := NodeAlerts(host, a);
    if al :| al in alerts && al.host == host && al.cause == ZfsPool && al.severity == severity {
      StreamCauses(host, a, al);
      var p := StreamMember(a.pools, p => PoolAlert(host, p), al);
    }
    if p :| p in a.pools && PoolHealth(p) == severity {
      var al := PoolAlert(host, p)[0];
      StreamHas(a.pools, p => PoolAlert(host, p), p, al);
      assert al in alerts;
    }
  }

  lemma ServicesSay(host: string, a: NodeAnswer)
    ensures Says(NodeAlerts(host, a), host, Services, Warning) <==> a.servicesFailed > 0
  {
    hide PoolHealth, PoolAlert, CertificateAlert;
    var alerts := NodeAlerts(host, a);
    if al :| al in alerts && al.host == host && al.cause == Services && al.severity == Warning {
      StreamCauses(host, a, al);
    }
    if a.servicesFailed > 0 { assert ServicesAlert(host, a.servicesFailed)[0] in alerts; }
  }

  /** Certificates, services and pools of a listed node are each reported exactly when one calls for it, and
      at the severity that it calls for. */
  lemma CallsReported(c: Client, a: Answers, o: Orders, n: string, severity: Health)
    requires VisitsAll(o, Nodes(c, a)) && n in Nodes(c, a) && NeedsAttention(severity)
    ensures Says(AllAlerts(c, a, o), HostID(c, n), Certificate, severity) <==>
              exists f :: f in AnswerOf(a, n).certificates && f.health == severity
    ensures Says(AllAlerts(c, a, o), HostID(c, n), ZfsPool, severity) <==>
              exists p :: p in AnswerOf(a, n).pools && PoolHealth(p) == severity
    ensures Says(AllAlerts(c, a, o), HostID(c, n), Services, Warning) <==> AnswerOf(a, n).servicesFailed > 0
  {
    hide AllAlerts, Nodes, VisitsAll, NodeAlerts, PoolHealth, Says;
    CallsSay(c, a, o, n, Certificate, severity);
    CallsSay(c, a, o, n, ZfsPool, severity);
    CallsSay(c, a, o, n, Services, Warning);
    CertificatesSay(HostID(c, n), AnswerOf(a, n), severity);
    PoolsSay(HostID(c, n), AnswerOf(a, n), severity);
    ServicesSay(HostID(c, n), AnswerOf(a, n));
  }

  /** A node whose task list shows a task that ended with a warning within the last 86400 seconds, and no
      other one, is reported for failed tasks. */
  lemma FailedTasksReported(c: Client, a: Answers, o: Orders, n: string)
    requires VisitsAll(o, Nodes(c, a)) && n in Nodes(c, a)
    ensures Says(AllAlerts(c, a, o), HostID(c, n), FailedTasks, Warning) <==>
              AnswerOf(a, n).tasks.Some?
              && exists t :: t in AnswerOf(a, n).tasks.value
                             && t.health == Warning && t.endedAt > 0 && c.now - t.endedAt <= 86400
  {
    FinalFailures(c, a, n);
    hide AllAlerts, Nodes, VisitsAll, FinalHost, TaskAlertsOf, HostID;
    var host := HostID(c, n);
    if al :| al in AllAlerts(c, a, o) && al.host == host && al.cause == FailedTasks && al.severity == Warning {
      Origin(c, a, o, al);
      var m := StreamMember(o.tasks, n => TaskAlertsOf(c, a, n), al);
      TaskAlertOn(c, a, m, al);
      HostIDInjective(c, m, n);
    }
    if TaskAlertsOf(c, a, n) != [] {
      var al := TaskAlertsOf(c, a, n)[0];
      TaskAlertOn(c, a, n, al);
      VisitsTasks(o, Nodes(c, a));
      VisitsEvery(o.tasks, Nodes(c, a));
      StreamHas(o.tasks, n => TaskAlertsOf(c, a, n), n, al);
      InCalls(c, a, o, al);
    }
  }

  lemma VisitsTasks(o: Orders, nodes: set<string>)
    requires VisitsAll(o, nodes)
    ensures Visits(o.tasks, nodes)
  {
  }

  lemma TaskAlertOn(c: Client, a: Answers, n: string, al: Alert)
    requires al in TaskAlertsOf(c, a, n)
    ensures al.host == HostID(c, n) && al.cause == FailedTasks && al.severity == Warning
  {
    hide AfterGuests;
    StageFacts(c, a, n);
  }

  // ---- Storages and guests ----

  /** What a resource says about a storage. A storage without a node is on "pve", and one without a status
      has the status "unknown". */
  ghost predicate SaysStorage(c: Client, r: Resource, s: Storage) {
    && r.kind == "storage"
    && s.node == (if TrimSpace(r.node) != "" then r.node else "pve")
    && (if TrimSpace(r.storage) != "" then s.name == r.storage
        else TrimSpace(s.name) != "" ==> r.id in {s.name, "storage/" + s.node + "/" + s.name})
    && s.status == (if TrimSpace(r.status) != "" then r.status else "unknown")
    && s.pct == Pct(r.used, r.total)
  }

  lemma StorageSaid(c: Client, r: Resource)
    requires r.kind == "storage"
    ensures SaysStorage(c, r, StorageOf(c, r))
    ensures var s := StorageOf(c, r);
            s.health == if s.pct >= c.thresholds.storageCritical then Critical
                        else if s.pct >= c.thresholds.storageWarning || s.status !in {"available", "ok"} then Warning
                        else OK
  {
    hide Pct, TrimSpace;
    assert TrimSpace("pve") == "pve" && TrimSpace("unknown") == "unknown" && TrimSpace("") == "" by {
      assert Trimmed("pve") && Trimmed("unknown") && Trimmed("");
    }
    var prefix := "storage/" + StorageOf(c, r).node + "/";
    if prefix <= r.id { assert r.id == prefix + r.id[|prefix|..]; }
  }

  /** The storages of a source are those that its resources list. */
  lemma StoragesListed(c: Client, resources: seq<Resource>, s: Storage) returns (r: Resource)
    requires s in Storages(c, resources)
    ensures r in resources && SaysStorage(c, r, s)
    ensures s.health == (if s.pct >= c.thresholds.storageCritical then Critical
                         else if s.pct >= c.thresholds.storageWarning || s.status !in {"available", "ok"} then Warning
                         else OK)
  {
    hide StorageOf, SaysStorage;
    r := StreamMember(resources, r => StoragesIn(c, r), s);
    StorageSaid(c, r);
  }

  lemma StorageOfResource(c: Client, resources: seq<Resource>, r: Resource) returns (s: Storage)
    requires r in resources && r.kind == "storage"
    ensures s in Storages(c, resources) && SaysStorage(c, r, s)
  {
    hide StorageOf, SaysStorage;
    s := StorageOf(c, r);
    StorageSaid(c, r);
    StreamHas(resources, r => StoragesIn(c, r), r, s);
  }

  lemma StatusSays(c: Client, s: Storage)
    requires s.status != ""
    ensures s.status !in {"available", "ok"} <==>
              exists al :: al in StorageAlerts(c, s) && al.cause == StorageStatus && al.severity == Warning
    ensures forall al :: al in StorageAlerts(c, s) ==> al.host == HostID(c, s.node)
  {
    if s.status !in {"available", "ok"} {
      assert StorageAlerts(c, s)[0].cause == StorageStatus && StorageAlerts(c, s)[0] in StorageAlerts(c, s);
    }
  }

  lemma BadStatusSays(c: Client, a: Answers, o: Orders, s: Storage)
    requires s in Storages(c, a.resources) && s.status !in {"", "available", "ok"}
    ensures Says(AllAlerts(c, a, o), HostID(c, s.node), StorageStatus, Warning)
  {
    hide AllAlerts, Storages, StorageAlerts, HostID;
    StatusSays(c, s);
    var al :| al in StorageAlerts(c, s) && al.cause == StorageStatus && al.severity == Warning;
    StreamHas(Storages(c, a.resources), s => StorageAlerts(c, s), s, al);
    InInventory(c, a, o, al);
  }

  lemma SaidOfStatus(c: Client, a: Answers, o: Orders, n: string) returns (s: Storage, r: Resource)
    requires Says(AllAlerts(c, a, o), HostID(c, n), StorageStatus, Warning)
    ensures s in Storages(c, a.resources) && r in a.resources && SaysStorage(c, r, s)
    ensures s.node == n && s.status !in {"available", "ok"}
  {
    hide AllAlerts, Storages, StorageAlerts, HostID, SaysStorage;
    var al :| && al in AllAlerts(c, a, o) && al.host == HostID(c, n)
              && al.cause == StorageStatus && al.severity == Warning;
    Origin(c, a, o, al);
    s := StreamMember(Storages(c, a.resources), s => StorageAlerts(c, s), al);
    r := StoragesListed(c, a.resources, s);
    HasStatus(c, r, s);
    StatusSays(c, s);
    HostIDInjective(c, s.node, n);
  }

  lemma HasStatus(c: Client, r: Resource, s: Storage)
    requires SaysStorage(c, r, s)
    ensures s.status != ""
  {
    assert TrimSpace("") == "";
  }

  /** A node is reported for the status of a storage exactly when a resource on it has one that is neither
      "available" nor "ok"; a storage without a status is among them. */
  lemma StorageStatusReported(c: Client, a: Answers, o: Orders, n: string)
    ensures Says(AllAlerts(c, a, o), HostID(c, n), StorageStatus, Warning) <==>
              exists r :: r in a.resources && r.kind == "storage" && r.status !in {"available", "ok"}
                          && n == if TrimSpace(r.node) != "" then r.node else "pve"
  {
    hide AllAlerts, Storages, HostID, TrimSpace, Pct, Says;
    if Says(AllAlerts(c, a, o), HostID(c, n), StorageStatus, Warning) {
      var s, r := SaidOfStatus(c, a, o, n);
    }
    if r :| r in a.resources && r.kind == "storage" && r.status !in {"available", "ok"}
            && n == if TrimSpace(r.node) != "" then r.node else "pve" {
      var s := StorageOfResource(c, a.resources, r);
      HasStatus(c, r, s);
      BadStatusSays(c, a, o, s);
    }
  }

  lemma InInventory(c: Client, a: Answers, o: Orders, al: Alert)
    requires al in StorageLoopAlerts(c, a) || al in GuestLoopAlerts(c, a)
    ensures al in AllAlerts(c, a, o)
  {
    hide CallLoopAlerts, StorageLoopAlerts, GuestLoopAlerts, TasksLoopAlerts, AlertLoopAlerts, ClusterAlerts;
  }

  /** The number of a guest: the one that the resource gives, or what its id says after its kind. */
  ghost predicate Numbers(r: Resource, vmid: string) {
    if r.vmid != 0 || r.id == "" then vmid == Itoa(r.vmid)
    else if r.kind + "/" <= r.id then r.id == r.kind + "/" + vmid
    else vmid == r.id
  }

  /** What a resource and the status call for it say about a guest. */
  ghost predicate SaysGuest(c: Client, current: map<GuestKey, string>, r: Resource, vmid: string, g: Guest) {
    var listed := if TrimSpace(r.status) != "" then r.status else "unknown";
    var key := GuestKey(r.node, r.kind, vmid);
    && r.kind in {"qemu", "lxc"} && Numbers(r, vmid)
    && g.id == c.id + "/" + vmid && g.node == r.node
    && g.status == (if key in current && TrimSpace(current[key]) != "" then current[key] else listed)
  }

  lemma GuestSaid(c: Client, current: map<GuestKey, string>, r: Resource)
    requires r.kind in {"qemu", "lxc"}
    ensures SaysGuest(c, current, r, VmidOf(r), GuestOf(c, current, r))
  {
    hide TrimSpace, Itoa;
    assert TrimSpace("unknown") == "unknown" && TrimSpace("") == "" by {
      assert Trimmed("unknown") && Trimmed("");
    }
    if r.kind + "/" <= r.id { assert r.id == r.kind + "/" + r.id[|r.kind| + 1..]; }
  }

  /** The guests of a source are those that its resources list, one by one. */
  lemma GuestsListed(c: Client, a: Answers, g: Guest) returns (r: Resource, vmid: string)
    requires g in Guests(c, a.current, a.resources)
    ensures r in a.resources && SaysGuest(c, a.current, r, vmid, g)
    ensures g.pinned <==> g.id in c.pins
    ensures g.health == if g.id in c.pins && c.pins[g.id] != "" && g.status != c.pins[g.id] then Warning else OK
  {
    hide VmidOf, SaysGuest;
    r := StreamMember(a.resources, r => GuestsIn(c, a.current, r), g);
    vmid := VmidOf(r);
    GuestSaid(c, a.current, r);
  }

  lemma GuestOfResource(c: Client, a: Answers, r: Resource) returns (g: Guest, vmid: string)
    requires r in a.resources && r.kind in {"qemu", "lxc"}
    ensures g in Guests(c, a.current, a.resources) && SaysGuest(c, a.current, r, vmid, g)
  {
    hide VmidOf, SaysGuest;
    g, vmid := GuestOf(c, a.current, r), VmidOf(r);
    GuestSaid(c, a.current, r);
    StreamHas(a.resources, r => GuestsIn(c, a.current, r), r, g);
  }

  /** A node is reported for a guest exactly when a pinned one on it is not in the status expected of it. */
  lemma GuestStatusReported(c: Client, a: Answers, o: Orders, n: string)
    ensures Says(AllAlerts(c, a, o), HostID(c, n), GuestStatus, Warning) <==>
              exists g :: g in Guests(c, a.current, a.resources) && g.node == n
                          && g.id in c.pins && c.pins[g.id] != "" && g.status != c.pins[g.id]
  {
    hide AllAlerts, Guests, HostID;
    if al :| al in AllAlerts(c, a, o) && al.host == HostID(c, n) && al.cause == GuestStatus && al.severity == Warning {
      Origin(c, a, o, al);
      var g := StreamMember(Guests(c, a.current, a.resources), g => GuestAlerts(c, g), al);
      HostIDInjective(c, g.node, n);
    }
    if g :| g in Guests(c, a.current, a.resources) && g.node == n
            && g.id in c.pins && c.pins[g.id] != "" && g.status != c.pins[g.id] {
      var al := GuestAlerts(c, g)[0];
      StreamHas(Guests(c, a.current, a.resources), g => GuestAlerts(c, g), g, al);
      InInventory(c, a, o, al);
    }
  }

  // ---- The cluster, and pools ----

  /** A finding of a cluster-wide call is reported exactly when it needs attention. */
  lemma ClusterReported(c: Client, a: Answers, o: Orders, severity: Health)
    requires NeedsAttention(severity)
    ensures Says(AllAlerts(c, a, o), "", Cluster, severity) <==>
              exists f :: f in a.cluster + a.replications && f.health == severity
  {
    hide AllAlerts;
    if al :| al in AllAlerts(c, a, o) && al.host == "" && al.cause == Cluster && al.severity == severity {
      Origin(c, a, o, al);
      if al in ClusterAlerts(a.cluster) {
        var f := StreamMember(a.cluster, ClusterAlert, al);
        assert f in a.cluster + a.replications;
      } else {
        var f := StreamMember(a.replications, ClusterAlert, al);
        assert f in a.cluster + a.replications;
      }
    }
    if f :| f in a.cluster + a.replications && f.health == severity {
      var al := ClusterAlert(f)[0];
      if f in a.cluster {
        StreamHas(a.cluster, ClusterAlert, f, al);
      } else {
        StreamHas(a.replications, ClusterAlert, f, al);
      }
      InCluster(c, a, o, al);
    }
  }

  lemma InCluster(c: Client, a: Answers, o: Orders, al: Alert)
    requires al in ClusterAlerts(a.cluster) || al in ClusterAlerts(a.replications)
    ensures al in AllAlerts(c, a, o)
  {
    hide CallLoopAlerts, StorageLoopAlerts, GuestLoopAlerts, TasksLoopAlerts, AlertLoopAlerts, ClusterAlerts;
  }

  /** A pool that is unavailable or suspended goes unnoticed when its detail is not read, or shows no issue
      and does not contradict the list. */
  lemma UnavailablePoolUnnoticed(p: PoolAnswer)
    requires LowerAll(TrimSpace(FirstNonEmpty(p.health, p.status))) in {"unavail", "suspended"}
    requires p.detail.Some? ==>
               && LowerAll(TrimSpace(p.detail.value.info.state)) in {"", "unavail", "suspended"}
               && Zfs.Detailed(Zfs.PoolOf(p.name, p.health, p.status), p.detail.value).issues == 0
    ensures PoolHealth(p) == Unknown
  {
    hide HealthFromText, LowerAll, TrimSpace, Zfs.Flatten;
    StateLevels(FirstNonEmpty(p.health, p.status));
    if p.detail.Some? { StateLevels(p.detail.value.info.state); }
    assert TrimSpace("") == "" by { assert Trimmed(""); }
  }
}
