/** The storage and guest loops of one source: they append to the state's lists and update the
    hosts behind the host table. */
module Inventory {
  import opened Folds
  import opened Health
  import opened Source
  import opened Text

  // ---- Storages ----

  function TrimPrefix(s: string, prefix: string): string {
    if prefix <= s then s[|prefix|..] else s
  }

  /** The severity that a fill level calls for. */
  function Fullness(t: Thresholds, pct: int): Health {
    if pct >= t.storageCritical then Critical else if pct >= t.storageWarning then Warning else OK
  }

  predicate BadStatus(status: string) {
    status != "available" && status != "ok" && status != ""
  }

  function StorageOf(c: Client, r: Resource): Storage {
    var node := FirstNonEmpty(r.node, "pve");
    var name := FirstNonEmpty(r.storage, TrimPrefix(r.id, "storage/" + node + "/"));
    var status := FirstNonEmpty(r.status, "unknown");
    var pct := Pct(r.used, r.total);
    Storage(HostID(c, node) + "/" + name, node, name, status, pct,
            if Fullness(c.thresholds, pct) != OK then Fullness(c.thresholds, pct)
            else if BadStatus(status) then Warning else OK)
  }

  function StorageAlerts(c: Client, s: Storage): seq<Alert> {
    (if BadStatus(s.status) then [Alert(s.id + "/status", HostID(c, s.node), Warning, StorageStatus)] else [])
    + match Fullness(c.thresholds, s.pct)
      case Critical => [Alert(s.id + "/critical", HostID(c, s.node), Critical, StorageFull(s.name))]
      case Warning => [Alert(s.id + "/warning", HostID(c, s.node), Warning, StorageFull(s.name))]
      case _ => []
  }

  function StoragesIn(c: Client, r: Resource): seq<Storage> {
    if r.kind == "storage" then [StorageOf(c, r)] else []
  }

  function Storages(c: Client, resources: seq<Resource>): seq<Storage> {
    Stream(resources, r => StoragesIn(c, r), [])
  }

  function NoteStorage(h: Host, n: string, s: Storage): Host {
    if s.node == n && s.pct >= h.storageMaxPct then h.(storageMaxPct := s.pct, storageMaxName := s.name) else h
  }

  /** The host called n after all storages have gone by. */
  function StorageHost(h: Host, n: string, storages: seq<Storage>): Host {
    if storages == [] then h
    else NoteStorage(StorageHost(h, n, storages[..|storages| - 1]), n, storages[|storages| - 1])
  }

  lemma StorageHostSnoc(h: Host, n: string, storages: seq<Storage>, s: Storage)
    ensures StorageHost(h, n, storages + [s]) == NoteStorage(StorageHost(h, n, storages), n, s)
  {
  }

  /** Marks a storage and reports on it: the status first, then how full it is. */
  method ApplyStorageAlerts(c: Client, storage: Storage) returns (marked: Storage, alerts: seq<Alert>)
    requires storage.health == OK
    ensures var level := Fullness(c.thresholds, storage.pct);
            marked == storage.(health := if level != OK then level
                                         else if BadStatus(storage.status) then Warning else OK)
    ensures alerts == StorageAlerts(c, storage)
  {
    marked, alerts := storage, [];
    if storage.status != "available" && storage.status != "ok" && storage.status != "" {
      marked := marked.(health := Warning);
      alerts := alerts + [Alert(storage.id + "/status", HostID(c, storage.node), Warning, StorageStatus)];
    }
    if storage.pct >= c.thresholds.storageCritical {
      marked := marked.(health := Critical);
      alerts := alerts
                + [Alert(storage.id + "/critical", HostID(c, storage.node), Critical, StorageFull(storage.name))];
    } else if storage.pct >= c.thresholds.storageWarning && marked.health != Critical {
      marked := marked.(health := Warning);
      alerts := alerts + [Alert(storage.id + "/warning", HostID(c, storage.node), Warning, StorageFull(storage.name))];
    }
  }

  method ReadStorage(c: Client, r: Resource) returns (storage: Storage, alerts: seq<Alert>)
    requires r.kind == "storage"
    ensures StoragesIn(c, r) == [storage] && alerts == StorageAlerts(c, storage)
  {
    storage, alerts := ApplyStorageAlerts(c, StorageOf(c, r).(health := OK));
  }

  method NoteOnHost(hosts: map<string, HostRef>, storage: Storage)
    requires Distinct(hosts)
    modifies hosts.Values
    ensures forall n | n in hosts :: hosts[n].host == NoteStorage(old(hosts[n].host), n, storage)
  {
    if storage.node in hosts && storage.pct >= hosts[storage.node].host.storageMaxPct {
      var ref := hosts[storage.node];
      ref.host := ref.host.(storageMaxPct := storage.pct, storageMaxName := storage.name);
    }
  }

  method StorageLoop(c: Client, resources: seq<Resource>, hosts: map<string, HostRef>)
    returns (storages: seq<Storage>, alerts: seq<Alert>)
    requires Distinct(hosts)
    modifies hosts.Values
    ensures storages == Storages(c, resources)
    ensures alerts == Stream(storages, s => StorageAlerts(c, s), [])
    ensures forall n | n in hosts :: hosts[n].host == StorageHost(old(hosts[n].host), n, storages)
  {
    storages, alerts := [], [];
    for i := 0 to |resources|
      invariant storages == Storages(c, resources[..i])
      invariant alerts == Stream(storages, s => StorageAlerts(c, s), [])
      invariant forall n | n in hosts :: hosts[n].host == StorageHost(old(hosts[n].host), n, storages)
    {
      hide StorageAlerts, NoteStorage, StorageHost, StorageOf;
      var r := resources[i];
      StreamStep(resources, i, r => StoragesIn(c, r), []);
      if r.kind != "storage" {
        continue;
      }
      var storage, more := ReadStorage(c, r);
      NoteOnHost(hosts, storage);
      forall n | n in hosts ensures hosts[n].host == StorageHost(old(hosts[n].host), n, storages + [storage]) {
        StorageHostSnoc(old(hosts[n].host), n, storages, storage);
      }
      StreamSnoc(storages, storage, s => StorageAlerts(c, s));
      storages, alerts := storages + [storage], alerts + more;
    }
    assert resources[..|resources|] == resources;
  }

  /** The running maximum: at least the initial value and every storage of the node, one of them,
      and named after a storage of the node that has exactly that level. */
  lemma {:induction false} StorageMaximum(h: Host, n: string, storages: seq<Storage>)
    ensures var r := StorageHost(h, n, storages);
            && r == h.(storageMaxPct := r.storageMaxPct, storageMaxName := r.storageMaxName)
            && r.storageMaxPct >= h.storageMaxPct
            && (forall s | s in storages && s.node == n :: s.pct <= r.storageMaxPct)
            && ((r.storageMaxPct, r.storageMaxName) == (h.storageMaxPct, h.storageMaxName)
                || exists s | s in storages :: s.node == n && s.pct == r.storageMaxPct && s.name == r.storageMaxName)
  {
    if storages != [] {
      StorageMaximum(h, n, storages[..|storages| - 1]);
      var last := storages[|storages| - 1];
      assert forall s | s in storages :: s in storages[..|storages| - 1] || s == last;
      assert last in storages;
    }
  }

  // ---- Guests ----

  function VmidOf(r: Resource): string {
    if r.vmid == 0 && r.id != "" then TrimPrefix(r.id, r.kind + "/") else Itoa(r.vmid)
  }

  /** What a guest's status call asks for. */
  datatype GuestKey = GuestKey(node: string, kind: string, vmid: string)

  /** A guest with its final status: the one its status call reports (`current`), else the listed one. */
  function GuestOf(c: Client, current: map<GuestKey, string>, r: Resource): Guest {
    var vmid := VmidOf(r);
    var id := c.id + "/" + vmid;
    var listed := FirstNonEmpty(r.status, "unknown");
    var key := GuestKey(r.node, r.kind, vmid);
    var status := if key in current then FirstNonEmpty(current[key], listed) else listed;
    Guest(id, r.node, status, id in c.pins, if Unexpected(c, id, status) then Warning else OK)
  }

  predicate Unexpected(c: Client, id: string, status: string) {
    id in c.pins && c.pins[id] != "" && status != c.pins[id]
  }

  function GuestsIn(c: Client, current: map<GuestKey, string>, r: Resource): seq<Guest> {
    if r.kind == "qemu" || r.kind == "lxc" then [GuestOf(c, current, r)] else []
  }

  function Guests(c: Client, current: map<GuestKey, string>, resources: seq<Resource>): seq<Guest> {
    Stream(resources, r => GuestsIn(c, current, r), [])
  }

  function GuestAlerts(c: Client, g: Guest): seq<Alert> {
    if Unexpected(c, g.id, g.status)
    then [Alert(g.id + "/unexpected-status", HostID(c, g.node), Warning, GuestStatus)] else []
  }

  function RunsOn(n: string, g: Guest): nat { if g.node == n && g.status == "running" then 1 else 0 }

  function StoppedOn(n: string, g: Guest): nat { if g.node == n && g.status != "running" then 1 else 0 }

  /** The host called n once its guests have been counted. */
  function GuestHost(h: Host, n: string, guests: seq<Guest>): Host {
    h.(guestsRunning := h.guestsRunning + Sum(guests, g => RunsOn(n, g)),
       guestsStopped := h.guestsStopped + Sum(guests, g => StoppedOn(n, g)))
  }

  function Counted(h: Host, n: string, g: Guest): Host {
    h.(guestsRunning := h.guestsRunning + RunsOn(n, g), guestsStopped := h.guestsStopped + StoppedOn(n, g))
  }

  lemma GuestHostSnoc(h: Host, n: string, guests: seq<Guest>, g: Guest)
    ensures GuestHost(h, n, guests + [g]) == Counted(GuestHost(h, n, guests), n, g)
  {
    SumSnoc(guests, g, g => RunsOn(n, g));
    SumSnoc(guests, g, g => StoppedOn(n, g));
  }

  method CountOnHost(hosts: map<string, HostRef>, guest: Guest)
    requires Distinct(hosts)
    modifies hosts.Values
    ensures forall n | n in hosts :: hosts[n].host == Counted(old(hosts[n].host), n, guest)
  {
    if guest.node in hosts {
      var ref := hosts[guest.node];
      if guest.status == "running" {
        ref.host := ref.host.(guestsRunning := ref.host.guestsRunning + 1);
      } else {
        ref.host := ref.host.(guestsStopped := ref.host.guestsStopped + 1);
      }
    }
  }

  method ReadGuest(c: Client, current: map<GuestKey, string>, r: Resource) returns (guest: Guest, alerts: seq<Alert>)
    requires r.kind == "qemu" || r.kind == "lxc"
    ensures GuestsIn(c, current, r) == [guest] && alerts == GuestAlerts(c, guest)
  {
    guest, alerts := GuestOf(c, current, r), [];
    if guest.id in c.pins && c.pins[guest.id] != "" && guest.status != c.pins[guest.id] {
      alerts := [Alert(guest.id + "/unexpected-status", HostID(c, guest.node), Warning, GuestStatus)];
    }
  }

  method GuestLoop(c: Client, current: map<GuestKey, string>, resources: seq<Resource>, hosts: map<string, HostRef>)
    returns (guests: seq<Guest>, alerts: seq<Alert>)
    requires Distinct(hosts)
    modifies hosts.Values
    ensures guests == Guests(c, current, resources)
    ensures alerts == Stream(guests, g => GuestAlerts(c, g), [])
    ensures forall n | n in hosts :: hosts[n].host == GuestHost(old(hosts[n].host), n, guests)
  {
    guests, alerts := [], [];
    for i := 0 to |resources|
      invariant guests == Guests(c, current, resources[..i])
      invariant alerts == Stream(guests, g => GuestAlerts(c, g), [])
      invariant forall n | n in hosts :: hosts[n].host == GuestHost(old(hosts[n].host), n, guests)
    {
      hide GuestOf, GuestAlerts, GuestHost, Counted;
      var r := resources[i];
      StreamStep(resources, i, r => GuestsIn(c, current, r), []);
      if r.kind != "qemu" && r.kind != "lxc" {
        continue;
      }
      var guest, more := ReadGuest(c, current, r);
      CountOnHost(hosts, guest);
      forall n | n in hosts ensures hosts[n].host == GuestHost(old(hosts[n].host), n, guests + [guest]) {
        GuestHostSnoc(old(hosts[n].host), n, guests, guest);
      }
      StreamSnoc(guests, guest, g => GuestAlerts(c, g));
      guests, alerts := guests + [guest], alerts + more;
    }
    assert resources[..|resources|] == resources;
  }
}
