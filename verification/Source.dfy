/** One source: the loops of the per-source collector over shared, mutable hosts. */
module Source {
  import opened Folds
  import opened Health
  import opened Text
  import opened Wrappers
  import Zfs

  /** The client that is read, the collector's configuration, and the time of reading. `pins` maps
      the ids of pinned guests to the status expected of them. */
  datatype Client = Client(id: string, name: string, thresholds: Thresholds, pins: map<string, string>, now: int)

  /** Round half up of 100 * used / total, kept within 0 to 100. */
  function Pct(used: int, total: int): (p: int)
    ensures 0 <= p <= 100
  {
    if used <= 0 || total <= 0 then 0
    else
      var p := (200 * used + total) / (2 * total);
      if p < 0 then 0 else if p > 100 then 100 else p
  }

  /** Beyond 0 and 100 it is the nearer of them, and without a total it is 0. */
  lemma PctBeyond(used: int, total: int)
    ensures total <= 0 || used <= 0 ==> Pct(used, total) == 0
    ensures 0 < total <= used ==> Pct(used, total) == 100
  {
    if 0 < total <= used {
      OverFull(200 * used + total, total, (200 * used + total) / (2 * total));
    }
  }

  /** It is a nearest integer to the exact percentage, wherever that is between 0 and 100. */
  lemma PctNearest(used: int, total: int)
    requires 0 <= used <= total && 0 < total
    ensures -total <= 2 * (100 * used - Pct(used, total) * total) <= total
  {
    if used > 0 {
      var q := (200 * used + total) / (2 * total);
      RoundedQuotient(200 * used + total, total, q);
      assert Pct(used, total) == q;
    }
  }

  lemma RoundedQuotient(n: int, total: int, q: int)
    requires 0 < total <= n <= 201 * total && q == n / (2 * total)
    ensures 2 * (q * total) <= n < 2 * (q * total) + 2 * total
    ensures 0 <= q <= 100
  {
    var r := n % (2 * total);
    assert n == q * (2 * total) + r;
    assert q * (2 * total) == 2 * (q * total);
    if q > 100 {
      Scaled(101, q, total);
    }
    if q < 0 {
      Scaled(q, -1, total);
    }
  }

  lemma OverFull(n: int, total: int, q: int)
    requires 0 < total && 201 * total <= n && q == n / (2 * total)
    ensures q >= 100
  {
    var r := n % (2 * total);
    assert n == q * (2 * total) + r;
    assert q * (2 * total) == 2 * (q * total);
    if q < 100 {
      Scaled(q, 99, total);
    }
  }

  lemma Scaled(p: int, q: int, total: int)
    requires p <= q && 0 < total
    ensures p * total <= q * total
  {
  }

  datatype Resource = Resource(kind: string, id: string, node: string, name: string, storage: string, status: string,
                               vmid: int, used: int, total: int, memory: int, maxMemory: int)

  datatype Host = Host(id: string, node: string, online: bool, memoryPct: int, storagePct: int,
                       storageMaxPct: int, storageMaxName: string, diskCount: nat, diskIssues: nat,
                       guestsRunning: nat, guestsStopped: nat, failedTasks24h: nat,
                       lastBackupStatus: string, lastBackupAgeSec: int, health: Health)

  /** A host as the host table refers to it. */
  class HostRef {
    var host: Host

    constructor (host: Host)
      ensures this.host == host
    {
      this.host := host;
    }
  }

  datatype Cause =
    | Cluster | SourceOffline | NodeOffline | Certificate | Services | ZfsPool | Memory | HostStorage | FailedTasks
    | StorageStatus | StorageFull(storage: string) | GuestStatus

  datatype Alert = Alert(id: string, host: string, severity: Health, cause: Cause)

  datatype Storage = Storage(id: string, node: string, name: string, status: string, pct: int, health: Health)

  datatype Guest = Guest(id: string, node: string, status: string, pinned: bool, health: Health)

  datatype Task = Task(kind: string, status: string, startedAt: int, endedAt: int, health: Health)

  datatype Finding = Finding(id: string, health: Health)

  datatype PoolAnswer = PoolAnswer(name: string, health: string, status: string, detail: Option<Zfs.Vdev>)

  datatype NodeStatus = NodeStatus(memoryUsed: int, memoryTotal: int, rootUsed: int, rootTotal: int)

  /** What the API says about one node; a failed call is None or an empty list. */
  datatype NodeAnswer = NodeAnswer(status: Option<NodeStatus>, certificates: seq<Finding>, servicesFailed: nat,
                                   pools: seq<PoolAnswer>, subscription: Health, disks: seq<Health>,
                                   tasks: Option<seq<Task>>)

  predicate NeedsAttention(h: Health) {
    h == Warning || h == Critical
  }

  function HostID(client: Client, node: string): string {
    client.id + "/" + node
  }

  lemma HostIDInjective(client: Client, m: string, n: string)
    requires HostID(client, m) == HostID(client, n)
    ensures m == n
  {
    assert HostID(client, m)[|client.id| + 1..] == m && HostID(client, n)[|client.id| + 1..] == n;
  }

  // ---- The host table ----

  function NodeName(client: Client, r: Resource): string {
    var n := FirstNonEmpty(r.node, r.name);
    if n == "" then client.name else n
  }

  function NewHost(client: Client, r: Resource): Host {
    var online := r.status == "online" || r.status == "";
    Host(HostID(client, NodeName(client, r)), NodeName(client, r), online, Pct(r.memory, r.maxMemory),
         Pct(r.used, r.total), Pct(r.used, r.total), "", 0, 0, 0, 0, 0, "", 0, if online then OK else Critical)
  }

  /** One entry per node name, the last resource of a name winning. */
  function NewHosts(client: Client, resources: seq<Resource>): (hosts: map<string, Host>)
    ensures forall n | n in hosts :: IsNew(client, n, hosts[n])
  {
    if resources == [] then map[]
    else
      var before := NewHosts(client, resources[..|resources| - 1]);
      var r := resources[|resources| - 1];
      if r.kind == "node" then before[NodeName(client, r) := NewHost(client, r)] else before
  }

  predicate IsNew(client: Client, n: string, h: Host) {
    && h.id == HostID(client, n) && h.node == n
    && h.storageMaxName == "" && h.storageMaxPct == h.storagePct
    && h.guestsRunning == h.guestsStopped == 0 && h.failedTasks24h == 0
    && h.lastBackupStatus == "" && h.lastBackupAgeSec == 0
    && h.health == (if h.online then OK else Critical)
  }

  /** No two names share a host object. */
  ghost predicate Distinct(hosts: map<string, HostRef>) {
    forall m, n | m in hosts && n in hosts && m != n :: hosts[m] != hosts[n]
  }

  method BuildHosts(client: Client, resources: seq<Resource>) returns (hosts: map<string, HostRef>)
    ensures Distinct(hosts) && forall n | n in hosts :: fresh(hosts[n])
    ensures hosts.Keys == NewHosts(client, resources).Keys
    ensures forall n | n in hosts :: hosts[n].host == NewHosts(client, resources)[n]
  {
    hosts := map[];
    for i := 0 to |resources|
      invariant Distinct(hosts) && forall n | n in hosts :: fresh(hosts[n])
      invariant hosts.Keys == NewHosts(client, resources[..i]).Keys
      invariant forall n | n in hosts :: hosts[n].host == NewHosts(client, resources[..i])[n]
    {
      var r := resources[i];
      assert resources[..i + 1][..i] == resources[..i];
      if r.kind != "node" {
        continue;
      }
      var ref := new HostRef(NewHost(client, r));
      hosts := hosts[NodeName(client, r) := ref];
    }
    assert resources[..|resources|] == resources;
  }

  // ---- Per-node calls: findings raise the host's health, and some leave an alert ----

  function Raised(h: Health, findings: seq<Health>): (r: Health)
    ensures SeverityRank(r) >= SeverityRank(h)
  {
    if findings == [] then h
    else
      var before, last := Raised(h, findings[..|findings| - 1]), findings[|findings| - 1];
      if NeedsAttention(last) then MaxHealth(before, last) else before
  }

  lemma {:induction false} RaisedCovers(h: Health, findings: seq<Health>, f: Health)
    requires f in findings && NeedsAttention(f)
    ensures SeverityRank(Raised(h, findings)) >= SeverityRank(f)
  {
    if f != findings[|findings| - 1] {
      assert f in findings[..|findings| - 1];
      RaisedCovers(h, findings[..|findings| - 1], f);
    }
  }

  lemma RaisedSnoc(h: Health, findings: seq<Health>, f: Health)
    ensures Raised(h, findings + [f])
         == if NeedsAttention(f) then MaxHealth(Raised(h, findings), f) else Raised(h, findings)
  {
  }

  function PoolHealth(p: PoolAnswer): Health {
    var pool := Zfs.PoolOf(p.name, p.health, p.status);
    match p.detail
    case None => pool.health
    case Some(detail) => Zfs.Detailed(pool, detail).health
  }

  function CertificateAlert(host: string, f: Finding): seq<Alert> {
    if NeedsAttention(f.health) then [Alert(f.id + "/expiry", host, f.health, Certificate)] else []
  }

  function PoolAlert(host: string, p: PoolAnswer): seq<Alert> {
    if NeedsAttention(PoolHealth(p)) then [Alert(host + "/" + p.name + "/zfs", host, PoolHealth(p), ZfsPool)] else []
  }

  function NodeAlerts(host: string, a: NodeAnswer): seq<Alert> {
    Stream(a.certificates, f => CertificateAlert(host, f), [])
    + ServicesAlert(host, a.servicesFailed)
    + Stream(a.pools, p => PoolAlert(host, p), [])
  }

  function HasIssue(h: Health): nat {
    if NeedsAttention(h) then 1 else 0
  }

  function WithStatus(h: Host, status: Option<NodeStatus>): Host {
    match status
    case None => h
    case Some(s) =>
      h.(memoryPct := if s.memoryTotal > 0 then Pct(s.memoryUsed, s.memoryTotal) else h.memoryPct,
         storagePct := if s.rootTotal > 0 then Pct(s.rootUsed, s.rootTotal) else h.storagePct)
  }

  function NodeHealth(h: Health, a: NodeAnswer): Health {
    var h1 := Raised(h, Map(a.certificates, (f: Finding) => f.health));
    var h2 := if a.servicesFailed > 0 then MaxHealth(h1, Warning) else h1;
    var h3 := Raised(h2, Map(a.pools, PoolHealth));
    var h4 := if a.subscription == Warning then MaxHealth(h3, Warning) else h3;
    Raised(h4, a.disks)
  }

  function NodeHost(h: Host, a: NodeAnswer): Host {
    WithStatus(h, a.status).(health := NodeHealth(h.health, a),
                             diskCount := h.diskCount + |a.disks|, diskIssues := h.diskIssues + Sum(a.disks, HasIssue))
  }

  method CertificateLoop(ref: HostRef, certificates: seq<Finding>) returns (alerts: seq<Alert>)
    modifies ref
    ensures ref.host
         == old(ref.host).(health := Raised(old(ref.host.health), Map(certificates, (f: Finding) => f.health)))
    ensures alerts == Stream(certificates, f => CertificateAlert(old(ref.host.id), f), [])
  {
    alerts := [];
    var host := ref.host.id;
    ghost var get := (f: Finding) => f.health;
    for i := 0 to |certificates|
      invariant ref.host == old(ref.host).(health := Raised(old(ref.host.health), Map(certificates[..i], get)))
      invariant alerts == Stream(certificates[..i], f => CertificateAlert(host, f), [])
    {
      var f := certificates[i];
      StreamStep(certificates, i, f => CertificateAlert(host, f), []);
      assert Map(certificates[..i + 1], get) == Map(certificates[..i], get) + [f.health];
      RaisedSnoc(old(ref.host.health), Map(certificates[..i], get), f.health);
      if f.health == Warning || f.health == Critical {
        ref.host := ref.host.(health := MaxHealth(ref.host.health, f.health));
        alerts := alerts + [Alert(f.id + "/expiry", host, f.health, Certificate)];
      }
    }
    assert certificates[..|certificates|] == certificates;
  }

  method ReadPool(p: PoolAnswer) returns (health: Health)
    ensures health == PoolHealth(p)
  {
    var pool := Zfs.PoolOf(p.name, p.health, p.status);
    if p.detail.Some? {
      pool := Zfs.ApplyDetail(pool, p.detail.value);
    }
    health := pool.health;
  }

  method PoolLoop(ref: HostRef, pools: seq<PoolAnswer>) returns (alerts: seq<Alert>)
    modifies ref
    ensures ref.host == old(ref.host).(health := Raised(old(ref.host.health), Map(pools, PoolHealth)))
    ensures alerts == Stream(pools, p => PoolAlert(old(ref.host.id), p), [])
  {
    hide PoolHealth;
    alerts := [];
    var host := ref.host.id;
    for i := 0 to |pools|
      invariant ref.host == old(ref.host).(health := Raised(old(ref.host.health), Map(pools[..i], PoolHealth)))
      invariant alerts == Stream(pools[..i], p => PoolAlert(host, p), [])
    {
      var p := pools[i];
      StreamStep(pools, i, p => PoolAlert(host, p), []);
      assert Map(pools[..i + 1], PoolHealth) == Map(pools[..i], PoolHealth) + [PoolHealth(p)];
      RaisedSnoc(old(ref.host.health), Map(pools[..i], PoolHealth), PoolHealth(p));
      var health := ReadPool(p);
      if health == Warning || health == Critical {
        ref.host := ref.host.(health := MaxHealth(ref.host.health, health));
        alerts := alerts + [Alert(host + "/" + p.name + "/zfs", host, health, ZfsPool)];
      }
    }
    assert pools[..|pools|] == pools;
  }

  method DiskLoop(ref: HostRef, disks: seq<Health>)
    modifies ref
    ensures ref.host == old(ref.host).(health := Raised(old(ref.host.health), disks),
                                       diskCount := old(ref.host.diskCount) + |disks|,
                                       diskIssues := old(ref.host.diskIssues) + Sum(disks, HasIssue))
  {
    for i := 0 to |disks|
      invariant ref.host == old(ref.host).(health := Raised(old(ref.host.health), disks[..i]),
                                           diskCount := old(ref.host.diskCount) + i,
                                           diskIssues := old(ref.host.diskIssues) + Sum(disks[..i], HasIssue))
    {
      assert disks[..i + 1] == disks[..i] + [disks[i]];
      RaisedSnoc(old(ref.host.health), disks[..i], disks[i]);
      SumSnoc(disks[..i], disks[i], HasIssue);
      ref.host := ref.host.(diskCount := ref.host.diskCount + 1);
      if disks[i] == Critical || disks[i] == Warning {
        ref.host := ref.host.(diskIssues := ref.host.diskIssues + 1, health := MaxHealth(ref.host.health, disks[i]));
      }
    }
    assert disks[..|disks|] == disks;
  }

  method ReadStatus(ref: HostRef, status: Option<NodeStatus>)
    modifies ref
    ensures ref.host == WithStatus(old(ref.host), status)
  {
    if status.Some? {
      var s := status.value;
      if s.memoryTotal > 0 {
        ref.host := ref.host.(memoryPct := Pct(s.memoryUsed, s.memoryTotal));
      }
      if s.rootTotal > 0 {
        ref.host := ref.host.(storagePct := Pct(s.rootUsed, s.rootTotal));
      }
    }
  }

  function ServicesAlert(host: string, failed: nat): seq<Alert> {
    if failed > 0 then [Alert(host + "/services-failed", host, Warning, Services)] else []
  }

  method ReadServices(ref: HostRef, failed: nat) returns (alerts: seq<Alert>)
    modifies ref
    ensures ref.host == if failed > 0 then old(ref.host).(health := MaxHealth(old(ref.host.health), Warning))
                        else old(ref.host)
    ensures alerts == ServicesAlert(old(ref.host.id), failed)
  {
    alerts := [];
    if failed > 0 {
      ref.host := ref.host.(health := MaxHealth(ref.host.health, Warning));
      alerts := [Alert(ref.host.id + "/services-failed", ref.host.id, Warning, Services)];
    }
  }

  /** The calls for one node, in the order in which they are made. */
  method ReadNode(ref: HostRef, a: NodeAnswer) returns (alerts: seq<Alert>)
    modifies ref
    ensures ref.host == NodeHost(old(ref.host), a)
    ensures alerts == NodeAlerts(old(ref.host.id), a)
  {
    hide PoolHealth, PoolAlert, CertificateAlert, ServicesAlert, Sum, Stream, MaxHealth, Raised;
    ReadStatus(ref, a.status);
    var certificateAlerts := CertificateLoop(ref, a.certificates);
    var serviceAlerts := ReadServices(ref, a.servicesFailed);
    var poolAlerts := PoolLoop(ref, a.pools);
    if a.subscription == Warning {
      ref.host := ref.host.(health := MaxHealth(ref.host.health, Warning));
    }
    DiskLoop(ref, a.disks);
    alerts := certificateAlerts + serviceAlerts + poolAlerts;
  }
}
