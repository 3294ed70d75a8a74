/** The last stage of a source: the alerts of each host, from its counters as the loops left them. */
module HostAlerts {
  import opened Health
  import opened Inventory
  import opened Source

  function MemoryLevel(t: Thresholds, pct: int): Health {
    if pct >= t.memoryCritical then Critical else if pct >= t.memoryWarning then Warning else OK
  }

  /** The fullest storage a host knows of, the root file system included. */
  function StorageLevel(t: Thresholds, h: Host): Health {
    Fullness(t, if h.storageMaxPct > h.storagePct then h.storageMaxPct else h.storagePct)
  }

  function Lifted(h: Health, level: Health): Health {
    if NeedsAttention(level) then MaxHealth(h, level) else h
  }

  /** An offline host is left as it is. */
  function Alerted(t: Thresholds, h: Host): Host {
    if !h.online then h
    else h.(health := Lifted(Lifted(h.health, MemoryLevel(t, h.memoryPct)), StorageLevel(t, h)))
  }

  function LevelAlert(h: Host, what: string, level: Health, cause: Cause): seq<Alert> {
    match level
    case Critical => [Alert(h.id + "/" + what + "-critical", h.id, Critical, cause)]
    case Warning => [Alert(h.id + "/" + what + "-warning", h.id, Warning, cause)]
    case _ => []
  }

  /** The storage alert of the host itself gives way to that of a named storage. */
  function AlertsOf(t: Thresholds, h: Host): seq<Alert> {
    if !h.online then [Alert(h.id + "/offline", h.id, Critical, NodeOffline)]
    else
      LevelAlert(h, "memory", MemoryLevel(t, h.memoryPct), Memory)
      + (if h.storageMaxName == "" then LevelAlert(h, "storage", StorageLevel(t, h), HostStorage) else [])
  }

  method ApplyHostAlerts(t: Thresholds, ref: HostRef) returns (alerts: seq<Alert>)
    modifies ref
    ensures ref.host == Alerted(t, old(ref.host))
    ensures alerts == AlertsOf(t, old(ref.host))
  {
    alerts := [];
    if !ref.host.online {
      alerts := [Alert(ref.host.id + "/offline", ref.host.id, Critical, NodeOffline)];
      return;
    }
    if ref.host.memoryPct >= t.memoryCritical {
      ref.host := ref.host.(health := MaxHealth(ref.host.health, Critical));
      alerts := alerts + [Alert(ref.host.id + "/" + "memory" + "-critical", ref.host.id, Critical, Memory)];
    } else if ref.host.memoryPct >= t.memoryWarning {
      ref.host := ref.host.(health := MaxHealth(ref.host.health, Warning));
      alerts := alerts + [Alert(ref.host.id + "/" + "memory" + "-warning", ref.host.id, Warning, Memory)];
    }
    var pct := ref.host.storagePct;
    if ref.host.storageMaxPct > pct {
      pct := ref.host.storageMaxPct;
    }
    if pct >= t.storageCritical {
      ref.host := ref.host.(health := MaxHealth(ref.host.health, Critical));
      if ref.host.storageMaxName == "" {
        alerts := alerts + [Alert(ref.host.id + "/" + "storage" + "-critical", ref.host.id, Critical, HostStorage)];
      }
    } else if pct >= t.storageWarning {
      ref.host := ref.host.(health := MaxHealth(ref.host.health, Warning));
      if ref.host.storageMaxName == "" {
        alerts := alerts + [Alert(ref.host.id + "/" + "storage" + "-warning", ref.host.id, Warning, HostStorage)];
      }
    }
  }

  /** Every alert of a host is about that host and covered by the health it ends with. */
  lemma HostAlertsCovered(t: Thresholds, h: Host, a: Alert)
    requires a in AlertsOf(t, h)
    requires !h.online ==> h.health == Critical
    ensures a.host == h.id
    ensures SeverityRank(Alerted(t, h).health) >= SeverityRank(a.severity)
  {
  }

  /** A fuller storage never calls for less. */
  lemma FullnessMonotone(t: Thresholds, p: int, q: int)
    requires p <= q
    ensures SeverityRank(Fullness(t, p)) <= SeverityRank(Fullness(t, q))
  {
  }

  /** Some storage of the node is filled to this level. */
  ghost predicate StorageAt(c: Client, n: string, storages: seq<Storage>, severity: Health) {
    exists s :: s in storages && s.node == n && Fullness(c.thresholds, s.pct) == severity
  }

  /** So is one of that name. */
  ghost predicate NamedStorageAt(c: Client, n: string, storages: seq<Storage>, name: string, severity: Health) {
    exists s :: s in storages && s.node == n && s.name == name && Fullness(c.thresholds, s.pct) == severity
  }

  /** A storage raises a fullness alert of its level, and no other one. */
  lemma StorageAlertsMeaning(c: Client, s: Storage, severity: Health)
    requires NeedsAttention(severity)
    ensures (exists a | a in StorageAlerts(c, s) ::
               a.cause == StorageFull(s.name) && a.severity == severity && a.host == HostID(c, s.node))
            <==> Fullness(c.thresholds, s.pct) == severity
  {
    var full := match Fullness(c.thresholds, s.pct)
      case Critical => [Alert(s.id + "/critical", HostID(c, s.node), Critical, StorageFull(s.name))]
      case Warning => [Alert(s.id + "/warning", HostID(c, s.node), Warning, StorageFull(s.name))]
      case _ => [];
    if Fullness(c.thresholds, s.pct) == severity {
      assert full[0] in StorageAlerts(c, s);
    }
  }

  /** The levels behind the pressure on an online node's storage: the host alerts on its own exactly when
      no storage is named; some storage of the node is at the level of the pressure exactly when the
      fullest one is; and if none is, the root file system is fuller than all of them. */
  lemma PressureLevels(c: Client, h: Host, n: string, storages: seq<Storage>, raised: Host)
    requires h.storageMaxName == "" && h.online
    requires raised.online && raised.storageMaxPct == StorageHost(h, n, storages).storageMaxPct
    requires raised.storageMaxName == StorageHost(h, n, storages).storageMaxName
    requires NeedsAttention(StorageLevel(c.thresholds, raised))
    ensures var level := StorageLevel(c.thresholds, raised);
            var name := raised.storageMaxName;
            && SeverityRank(Alerted(c.thresholds, raised).health) >= SeverityRank(level)
            && ((exists a | a in AlertsOf(c.thresholds, raised) :: a.cause == HostStorage && a.severity == level)
                <==> name == "")
            && (name != "" ==>
                  (StorageAt(c, n, storages, level) <==> Fullness(c.thresholds, raised.storageMaxPct) == level))
            && (name != "" && Fullness(c.thresholds, raised.storageMaxPct) == level ==>
                  NamedStorageAt(c, n, storages, name, level))
            && (Fullness(c.thresholds, raised.storageMaxPct) != level ==> raised.storagePct > raised.storageMaxPct)
  {
    var level, name, t := StorageLevel(c.thresholds, raised), raised.storageMaxName, c.thresholds;
    StorageMaximum(h, n, storages);
    HostStorageAlert(t, raised);
    if name != "" {
      var s :| s in storages && s.node == n && s.pct == raised.storageMaxPct && s.name == name;
      if s :| s in storages && s.node == n && Fullness(t, s.pct) == level {
        FullnessMonotone(t, s.pct, raised.storageMaxPct);
        FullnessMonotone(t, raised.storageMaxPct,
                         if raised.storageMaxPct > raised.storagePct then raised.storageMaxPct else raised.storagePct);
      }
    }
  }

  lemma HostStorageAlert(t: Thresholds, h: Host)
    requires h.online && NeedsAttention(StorageLevel(t, h))
    ensures (exists a | a in AlertsOf(t, h) :: a.cause == HostStorage && a.severity == StorageLevel(t, h))
            <==> h.storageMaxName == ""
  {
    var own := LevelAlert(h, "storage", StorageLevel(t, h), HostStorage);
    if h.storageMaxName == "" {
      assert own[0] in AlertsOf(t, h);
    }
  }
}
