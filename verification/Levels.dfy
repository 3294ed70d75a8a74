/** Percentages against thresholds, from the answers of the API to the hosts and alerts of a source. */
module Levels {
  import opened Folds
  import opened Health
  import opened HostAlerts
  import opened Inventory
  import opened Source
  import opened SourceCollector
  import opened SourceTheorems
  import opened TaskHistory
  import opened Text

  /** Some alert about the host has this cause and this severity. */
  ghost predicate Says(alerts: seq<Alert>, host: string, cause: Cause, severity: Health) {
    exists al :: al in alerts && al.host == host && al.cause == cause && al.severity == severity
  }

  // ---- The last loop ----

  lemma SaysSplit(a: seq<Alert>, b: seq<Alert>, host: string, cause: Cause, severity: Health)
    ensures Says(a + b, host, cause, severity) <==> Says(a, host, cause, severity) || Says(b, host, cause, severity)
  {
    if al :| al in a && al.host == host && al.cause == cause && al.severity == severity { assert al in a + b; }
    if al :| al in b && al.host == host && al.cause == cause && al.severity == severity { assert al in a + b; }
  }

  lemma LevelSays(h: Host, what: string, level: Health, own: Cause, cause: Cause, severity: Health)
    requires NeedsAttention(severity)
    ensures Says(LevelAlert(h, what, level, own), h.id, cause, severity) <==> cause == own && severity == level
  {
    if NeedsAttention(level) {
      assert LevelAlert(h, what, level, own)[0] in LevelAlert(h, what, level, own);
    }
  }

  /** What the last loop says about one host. */
  lemma LastLoopSays(t: Thresholds, h: Host, cause: Cause, severity: Health)
    requires h.online && NeedsAttention(severity)
    ensures Says(AlertsOf(t, h), h.id, cause, severity) <==>
              || (cause == Memory && severity == MemoryLevel(t, h.memoryPct))
              || (cause == HostStorage && severity == StorageLevel(t, h) && h.storageMaxName == "")
  {
    var memory := LevelAlert(h, "memory", MemoryLevel(t, h.memoryPct), Memory);
    var storage := LevelAlert(h, "storage", StorageLevel(t, h), HostStorage);
    LevelSays(h, "memory", MemoryLevel(t, h.memoryPct), Memory, cause, severity);
    LevelSays(h, "storage", StorageLevel(t, h), HostStorage, cause, severity);
    SaysSplit(memory, if h.storageMaxName == "" then storage else [], h.id, cause, severity);
  }

  /** Only the last loop speaks of memory and of a host's own storage. */
  lemma SaidLast(c: Client, a: Answers, o: Orders, n: string, cause: Cause, severity: Health)
    requires VisitsAll(o, Nodes(c, a)) && n in Nodes(c, a) && cause in {Memory, HostStorage, NodeOffline}
    ensures Says(AllAlerts(c, a, o), HostID(c, n), cause, severity)
       <==> Says(HostAlertsOf(c, a, n), HostID(c, n), cause, severity)
  {
    hide AllAlerts, HostAlertsOf, Nodes, VisitsAll;
    if al :| al in AllAlerts(c, a, o) && al.host == HostID(c, n) && al.cause == cause && al.severity == severity {
      LastLoopOrigin(c, a, o, n, al);
    }
    if al :| al in HostAlertsOf(c, a, n) && al.host == HostID(c, n) && al.cause == cause && al.severity == severity {
      VisitsAgain(o, Nodes(c, a));
      HostAlertAmongAll(c, a, o, n, al);
    }
  }

  lemma VisitsAgain(o: Orders, nodes: set<string>)
    requires VisitsAll(o, nodes)
    ensures Visits(o.reading, nodes) && Visits(o.tasks, nodes) && Visits(o.alerts, nodes)
  {
  }

  lemma LastLoopOrigin(c: Client, a: Answers, o: Orders, n: string, al: Alert)
    requires al in AllAlerts(c, a, o) && al.host == HostID(c, n) && al.cause in {Memory, HostStorage, NodeOffline}
    ensures al in HostAlertsOf(c, a, n)
  {
    hide CallAlerts, TaskAlertsOf, HostAlertsOf, ClusterAlerts, GuestLoopAlerts, StorageLoopAlerts, HostID;
    if al in CallLoopAlerts(c, a, o.reading) {
      var m := StreamMember(o.reading, n => CallAlerts(c, a, n), al);
      NotByCalls(c, a, m, al);
    } else if al in TasksLoopAlerts(c, a, o.tasks) {
      var m := StreamMember(o.tasks, n => TaskAlertsOf(c, a, n), al);
      TaskAlertIsNoStorage(c, a, m, al);
    } else if al in AlertLoopAlerts(c, a, o.alerts) {
      var m := StreamMember(o.alerts, n => HostAlertsOf(c, a, n), al);
      HostAlertsOn(c, a, m, al);
      HostIDInjective(c, m, n);
    } else {
      OtherCauses(c, a, al);
    }
  }

  lemma NotByCalls(c: Client, a: Answers, n: string, al: Alert)
    requires al in CallAlerts(c, a, n)
    ensures al.cause in {Certificate, Services, ZfsPool}
  {
    hide NodeAlerts;
    CallAlertCauses(HostID(c, n), AnswerOf(a, n), al);
  }

  // ---- On the final host and among all alerts ----

  lemma FinalLevels(c: Client, a: Answers, n: string)
    ensures var h, g := FinalHost(c, a, n), AfterTasks(c, a, n);
            && h.id == g.id == HostID(c, n) && h.online == g.online == Listed(c, a, n).online
            && h.memoryPct == g.memoryPct && h.storagePct == g.storagePct
            && h.storageMaxPct == g.storageMaxPct && h.storageMaxName == g.storageMaxName
  {
    hide AfterTasks, Listed;
    AlertedChangesHealth(c.thresholds, AfterTasks(c, a, n));
    AfterTasksID(c, a, n);
    OfflineIsCritical(c, a, n);
  }

  /** The thresholds as lower bounds of a final health. */
  lemma HealthFloors(c: Client, a: Answers, n: string)
    ensures var h, t := FinalHost(c, a, n), c.thresholds;
            var pct := if h.storageMaxPct > h.storagePct then h.storageMaxPct else h.storagePct;
            && (h.memoryPct >= t.memoryCritical || pct >= t.storageCritical ==> h.health == Critical)
            && (h.memoryPct >= t.memoryWarning || pct >= t.storageWarning ==> h.health in {Warning, Critical})
  {
    hide AfterTasks, CallReaches, SomeTaskFailed;
    FinalLevels(c, a, n);
    HealthExplained(c, a, n, Critical);
    HealthExplained(c, a, n, Warning);
    hide FinalHost;
  }

  lemma FinallySays(c: Client, a: Answers, o: Orders, n: string, cause: Cause, severity: Health)
    requires VisitsAll(o, Nodes(c, a)) && n in Nodes(c, a) && FinalHost(c, a, n).online
    requires cause in {Memory, HostStorage} && NeedsAttention(severity)
    ensures var h := FinalHost(c, a, n);
            Says(AllAlerts(c, a, o), HostID(c, n), cause, severity) <==>
              if cause == Memory then severity == MemoryLevel(c.thresholds, h.memoryPct)
              else severity == StorageLevel(c.thresholds, h) && h.storageMaxName == ""
  {
    hide AllAlerts, AlertsOf, AfterTasks, Nodes, VisitsAll, Says, Alerted, MemoryLevel, Fullness;
    FinalLevels(c, a, n);
    LastLoopSays(c.thresholds, AfterTasks(c, a, n), cause, severity);
    SaidLast(c, a, o, n, cause, severity);
  }

  /** An online listed node has a memory alert that is critical exactly from the critical threshold on, and
      one that is a warning exactly between the two thresholds; and its health is no better than either. */
  lemma MemoryReported(c: Client, a: Answers, o: Orders, n: string)
    requires VisitsAll(o, Nodes(c, a)) && n in Nodes(c, a) && FinalHost(c, a, n).online
    ensures var h, t, host := FinalHost(c, a, n), c.thresholds, HostID(c, n);
            && (Says(AllAlerts(c, a, o), host, Memory, Critical) <==> h.memoryPct >= t.memoryCritical)
            && (Says(AllAlerts(c, a, o), host, Memory, Warning) <==>
                  t.memoryWarning <= h.memoryPct < t.memoryCritical)
            && (h.memoryPct >= t.memoryCritical ==> h.health == Critical)
            && (h.memoryPct >= t.memoryWarning ==> h.health in {Warning, Critical})
  {
    hide AllAlerts, Nodes, VisitsAll, Says, FinalHost;
    FinallySays(c, a, o, n, Memory, Critical);
    FinallySays(c, a, o, n, Memory, Warning);
    HealthFloors(c, a, n);
  }

  /** And an alert about its own storage, on the same terms, exactly while it names no storage; the health
      does not depend on that. */
  lemma HostStorageReported(c: Client, a: Answers, o: Orders, n: string)
    requires VisitsAll(o, Nodes(c, a)) && n in Nodes(c, a) && FinalHost(c, a, n).online
    ensures var h, t, host := FinalHost(c, a, n), c.thresholds, HostID(c, n);
            var pct := if h.storageMaxPct > h.storagePct then h.storageMaxPct else h.storagePct;
            && (Says(AllAlerts(c, a, o), host, HostStorage, Critical) <==>
                  h.storageMaxName == "" && pct >= t.storageCritical)
            && (Says(AllAlerts(c, a, o), host, HostStorage, Warning) <==>
                  h.storageMaxName == "" && t.storageWarning <= pct < t.storageCritical)
            && (pct >= t.storageCritical ==> h.health == Critical)
            && (pct >= t.storageWarning ==> h.health in {Warning, Critical})
  {
    hide AllAlerts, Nodes, VisitsAll, Says, FinalHost;
    FinallySays(c, a, o, n, HostStorage, Critical);
    FinallySays(c, a, o, n, HostStorage, Warning);
    HealthFloors(c, a, n);
  }

  lemma StorageSays(c: Client, a: Answers, o: Orders, n: string, name: string, level: Health)
    requires NeedsAttention(level)
    ensures Says(AllAlerts(c, a, o), HostID(c, n), StorageFull(name), level) <==>
              exists s :: s in Storages(c, a.resources) && s.node == n && s.name == name
                          && Fullness(c.thresholds, s.pct) == level
  {
    hide AllAlerts, Storages, StorageAlerts, HostID, Fullness;
    if al :| al in AllAlerts(c, a, o) && al.host == HostID(c, n) && al.cause == StorageFull(name)
             && al.severity == level {
      NotByLastLoop(c, a, o, al);
      var s := StreamMember(Storages(c, a.resources), s => StorageAlerts(c, s), al);
      StorageAlertsAbout(c, s, al);
      FullName(c, s, al);
      HostIDInjective(c, s.node, n);
    }
    if s :| s in Storages(c, a.resources) && s.node == n && s.name == name && Fullness(c.thresholds, s.pct) == level {
      var al := StorageAlertAmongAll(c, a, o, s, level);
    }
  }

  lemma FullName(c: Client, s: Storage, al: Alert)
    requires al in StorageAlerts(c, s) && al.cause.StorageFull?
    ensures al.cause == StorageFull(s.name)
  {
  }

  lemma NotByLastLoop(c: Client, a: Answers, o: Orders, al: Alert)
    requires al in AllAlerts(c, a, o) && al.cause.StorageFull?
    ensures al in StorageLoopAlerts(c, a)
  {
    hide AllAlerts, StorageLoopAlerts, AfterTasks, AlertsOf;
    StorageAlertOrigin(c, a, o, al);
    if al in AlertLoopAlerts(c, a, o.alerts) {
      var n := StreamMember(o.alerts, n => HostAlertsOf(c, a, n), al);
      HostAlertsAboutStorage(c.thresholds, AfterTasks(c, a, n), al);
    }
  }

  /** A fullness alert of a severity is about a storage of that name exactly when one on the node is filled
      up to that severity's threshold, and not up to the next one. */
  lemma FullStorageReported(c: Client, a: Answers, o: Orders, n: string, name: string)
    ensures Says(AllAlerts(c, a, o), HostID(c, n), StorageFull(name), Critical) <==>
              exists s :: s in Storages(c, a.resources) && s.node == n && s.name == name
                          && s.pct >= c.thresholds.storageCritical
    ensures Says(AllAlerts(c, a, o), HostID(c, n), StorageFull(name), Warning) <==>
              exists s :: s in Storages(c, a.resources) && s.node == n && s.name == name
                          && c.thresholds.storageWarning <= s.pct < c.thresholds.storageCritical
  {
    hide AllAlerts, Storages, HostID, Says;
    StorageSays(c, a, o, n, name, Critical);
    StorageSays(c, a, o, n, name, Warning);
  }

  // ---- Where the percentages come from ----

  /** A resource lists a node under its node name, or else its own name, or else the client's. */
  predicate Lists(c: Client, r: Resource, n: string) {
    && r.kind == "node"
    && n == if TrimSpace(r.node) != "" then r.node else if TrimSpace(r.name) != "" then r.name else c.name
  }

  /** The last resource that lists the node. */
  predicate LastListed(c: Client, resources: seq<Resource>, n: string, i: nat) {
    && i < |resources| && Lists(c, resources[i], n)
    && forall j | i < j < |resources| :: !Lists(c, resources[j], n)
  }

  lemma ListsMeaning(c: Client, r: Resource, n: string)
    ensures Lists(c, r, n) <==> r.kind == "node" && NodeName(c, r) == n
  {
    hide TrimSpace;
    assert TrimSpace("") == "";
  }

  lemma {:induction false} ListedBy(c: Client, resources: seq<Resource>, n: string) returns (i: nat)
    requires n in NewHosts(c, resources)
    ensures LastListed(c, resources, n, i) && NewHosts(c, resources)[n] == NewHost(c, resources[i])
  {
    hide NewHost, NodeName, Lists;
    i := |resources| - 1;
    ListsMeaning(c, resources[i], n);
    if !(resources[i].kind == "node" && NodeName(c, resources[i]) == n) {
      i := ListedBy(c, resources[..|resources| - 1], n);
    }
  }

  /** A node ends with the percentages that its status call reports, and where that gives none, with those
      of the last resource that lists it; that resource also says whether it is online. */
  lemma FinalPercentages(c: Client, a: Answers, n: string) returns (i: nat)
    requires n in Nodes(c, a)
    ensures LastListed(c, a.resources, n, i)
    ensures var h, r, status := FinalHost(c, a, n), a.resources[i], AnswerOf(a, n).status;
            && h.memoryPct == (if status.Some? && status.value.memoryTotal > 0
                               then Pct(status.value.memoryUsed, status.value.memoryTotal)
                               else Pct(r.memory, r.maxMemory))
            && h.storagePct == (if status.Some? && status.value.rootTotal > 0
                                then Pct(status.value.rootUsed, status.value.rootTotal)
                                else Pct(r.used, r.total))
            && (h.online <==> r.status == "online" || r.status == "")
  {
    i := ListedBy(c, a.resources, n);
    CalledPercentages(c, a, n);
    hide AfterTasks, LastListed, Pct, NewHosts;
  }

  lemma CalledPercentages(c: Client, a: Answers, n: string)
    ensures var h, was, status := FinalHost(c, a, n), Listed(c, a, n), AnswerOf(a, n).status;
            && h.memoryPct == (if status.Some? && status.value.memoryTotal > 0
                               then Pct(status.value.memoryUsed, status.value.memoryTotal) else was.memoryPct)
            && h.storagePct == (if status.Some? && status.value.rootTotal > 0
                                then Pct(status.value.rootUsed, status.value.rootTotal) else was.storagePct)
            && h.online == was.online
  {
    hide Listed, NodeHealth, Storages, Guests, AnswerOf, Pct, Alerted, TaskHost;
    AlertedChangesHealth(c.thresholds, AfterTasks(c, a, n));
    StageFacts(c, a, n);
    StorageMaximum(AfterCalls(c, a, n), n, Storages(c, a.resources));
    TaskHealth(AfterGuests(c, a, n), c.now, AnswerOf(a, n).tasks, Critical);
  }
}
