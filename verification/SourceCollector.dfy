/** One source from the first call to the last: all loops in a row over the same hosts. */
module SourceCollector {
  import opened Folds
  import opened Health
  import opened HostAlerts
  import opened Inventory
  import opened Ordering
  import opened Source
  import opened TaskHistory
  import opened Wrappers

  /** What the API answers. `cluster` and `replications` are the findings of the cluster-wide calls;
      `current` holds the guest statuses that the status calls report. */
  datatype Answers = Answers(resources: seq<Resource>, cluster: seq<Finding>, nodes: map<string, NodeAnswer>,
                             current: map<GuestKey, string>, replications: seq<Finding>)

  /** What the source contributes to the merge. */
  datatype Inventoried = Inventoried(hosts: seq<Host>, storages: seq<Storage>, guests: seq<Guest>, alerts: seq<Alert>)

  /** The orders in which the three loops over the host table visit its nodes. */
  datatype Orders = Orders(reading: seq<string>, tasks: seq<string>, alerts: seq<string>)

  /** A node of which every call failed. */
  const NO_ANSWER := NodeAnswer(None, [], 0, [], OK, [], None)

  function AnswerOf(a: Answers, n: string): NodeAnswer {
    if n in a.nodes then a.nodes[n] else NO_ANSWER
  }

  predicate Visits(order: seq<string>, nodes: set<string>) {
    && (forall n | n in order :: n in nodes)
    && (forall n | n in nodes :: n in order)
    && forall i, j | 0 <= i < j < |order| :: order[i] != order[j]
  }

  lemma {:induction false} VisitsIsSet(order: seq<string>, nodes: set<string>)
    requires Visits(order, nodes)
    ensures multiset(order) == multiset(nodes)
  {
    if order == [] {
      assert nodes == {};
    } else {
      var rest := order[1..];
      assert forall n :: n in order <==> n == order[0] || n in rest;
      assert order[0] !in rest;
      VisitsIsSet(rest, nodes - {order[0]});
      HeadMultiset(order);
    }
  }

  predicate VisitsAll(o: Orders, nodes: set<string>) {
    Visits(o.reading, nodes) && Visits(o.tasks, nodes) && Visits(o.alerts, nodes)
  }

  function Nodes(c: Client, a: Answers): set<string> {
    NewHosts(c, a.resources).Keys
  }

  // ---- A host after each stage ----

  function Unlisted(c: Client, n: string): Host {
    Host(HostID(c, n), n, false, 0, 0, 0, "", 0, 0, 0, 0, 0, "", 0, Critical)
  }

  function Listed(c: Client, a: Answers, n: string): Host {
    if n in NewHosts(c, a.resources) then NewHosts(c, a.resources)[n] else Unlisted(c, n)
  }

  function AfterCalls(c: Client, a: Answers, n: string): Host {
    NodeHost(Listed(c, a, n), AnswerOf(a, n))
  }

  function AfterStorages(c: Client, a: Answers, n: string): Host {
    StorageHost(AfterCalls(c, a, n), n, Storages(c, a.resources))
  }

  function AfterGuests(c: Client, a: Answers, n: string): Host {
    GuestHost(AfterStorages(c, a, n), n, Guests(c, a.current, a.resources))
  }

  function AfterTasks(c: Client, a: Answers, n: string): Host {
    TaskHost(AfterGuests(c, a, n), c.now, AnswerOf(a, n).tasks)
  }

  function FinalHost(c: Client, a: Answers, n: string): Host {
    Alerted(c.thresholds, AfterTasks(c, a, n))
  }

  function ClusterAlert(f: Finding): seq<Alert> {
    if NeedsAttention(f.health) then [Alert(f.id, "", f.health, Cluster)] else []
  }

  function CallAlerts(c: Client, a: Answers, n: string): seq<Alert> {
    NodeAlerts(HostID(c, n), AnswerOf(a, n))
  }

  function TaskAlertsOf(c: Client, a: Answers, n: string): seq<Alert> {
    TaskAlerts(AfterGuests(c, a, n), c.now, AnswerOf(a, n).tasks)
  }

  function HostAlertsOf(c: Client, a: Answers, n: string): seq<Alert> {
    AlertsOf(c.thresholds, AfterTasks(c, a, n))
  }

  function ClusterAlerts(findings: seq<Finding>): seq<Alert> {
    Stream(findings, ClusterAlert, [])
  }

  function CallLoopAlerts(c: Client, a: Answers, order: seq<string>): seq<Alert> {
    Stream(order, n => CallAlerts(c, a, n), [])
  }

  function StorageLoopAlerts(c: Client, a: Answers): seq<Alert> {
    Stream(Storages(c, a.resources), s => StorageAlerts(c, s), [])
  }

  function GuestLoopAlerts(c: Client, a: Answers): seq<Alert> {
    Stream(Guests(c, a.current, a.resources), g => GuestAlerts(c, g), [])
  }

  function TasksLoopAlerts(c: Client, a: Answers, order: seq<string>): seq<Alert> {
    Stream(order, n => TaskAlertsOf(c, a, n), [])
  }

  function AlertLoopAlerts(c: Client, a: Answers, order: seq<string>): seq<Alert> {
    Stream(order, n => HostAlertsOf(c, a, n), [])
  }

  function AllAlerts(c: Client, a: Answers, o: Orders): seq<Alert> {
    ClusterAlerts(a.cluster) + CallLoopAlerts(c, a, o.reading) + StorageLoopAlerts(c, a) + GuestLoopAlerts(c, a)
    + ClusterAlerts(a.replications) + TasksLoopAlerts(c, a, o.tasks) + AlertLoopAlerts(c, a, o.alerts)
  }

  function FinalHosts(c: Client, a: Answers, order: seq<string>): (hosts: seq<Host>)
    ensures |hosts| == |order| && forall i | 0 <= i < |order| :: hosts[i] == FinalHost(c, a, order[i])
  {
    seq(|order|, i requires 0 <= i < |order| => FinalHost(c, a, order[i]))
  }

  /** The single host and alert of a source that cannot be reached. */
  function Unreachable(c: Client): Inventoried {
    var h := Host(c.id + "/unreachable", c.name, false, 0, 0, 0, "", 0, 0, 0, 0, 0, "", 0, Critical);
    Inventoried([h], [], [], [Alert(c.id + "/source-offline", h.id, Critical, SourceOffline)])
  }

  // ---- The loops over the host table ----

  ghost function HostsNow(hosts: map<string, HostRef>): map<string, Host>
    reads hosts.Values
  {
    map n | n in hosts :: hosts[n].host
  }

  /** Hosts of the visited nodes are `after`, the others still `before`. */
  ghost predicate Midway(hosts: map<string, Host>, visited: seq<string>,
                         before: string -> Host, after: string -> Host)
  {
    forall n | n in hosts :: hosts[n] == if n in visited then after(n) else before(n)
  }

  /** Updating the host that the order visits next, and no other, moves the frontier. */
  lemma FrontierMoves(was: map<string, Host>, now: map<string, Host>, order: seq<string>, i: nat,
                      before: string -> Host, after: string -> Host)
    requires i < |order| && now.Keys == was.Keys
    requires Midway(was, order[..i], before, after)
    requires forall n | n in was && n != order[i] :: now[n] == was[n]
    requires order[i] in now && now[order[i]] == after(order[i])
    ensures Midway(now, order[..i + 1], before, after)
  {
  }

  lemma NextNotVisited(order: seq<string>, nodes: set<string>, i: nat)
    requires Visits(order, nodes) && i < |order|
    ensures order[i] in nodes && order[i] !in order[..i]
  {
  }

  lemma VisitsEvery(order: seq<string>, nodes: set<string>)
    requires Visits(order, nodes)
    ensures forall n | n in nodes :: n in order
  {
  }

  method CallsOn(c: Client, a: Answers, ref: HostRef, n: string) returns (alerts: seq<Alert>)
    requires ref.host == Listed(c, a, n)
    modifies ref
    ensures ref.host == AfterCalls(c, a, n) && alerts == CallAlerts(c, a, n)
  {
    hide NodeAlerts, NodeHost, AnswerOf;
    alerts := ReadNode(ref, AnswerOf(a, n));
  }

  /** The stages before the tasks leave a host's id alone. */
  lemma AfterGuestsID(c: Client, a: Answers, n: string)
    ensures AfterGuests(c, a, n).id == HostID(c, n)
  {
    StorageMaximum(AfterCalls(c, a, n), n, Storages(c, a.resources));
  }

  method TasksOn(c: Client, a: Answers, ref: HostRef, n: string, started: map<string, int>)
    returns (alerts: seq<Alert>, noted: map<string, int>)
    requires ref.host == AfterGuests(c, a, n) && HostID(c, n) !in started
    modifies ref
    ensures ref.host == AfterTasks(c, a, n) && alerts == TaskAlertsOf(c, a, n)
    ensures noted.Keys <= started.Keys + {HostID(c, n)}
  {
    AfterGuestsID(c, a, n);
    hide AfterGuests, TaskHost, TaskAlerts, AnswerOf, HostID;
    alerts, noted := TaskLoop(ref, c.now, AnswerOf(a, n).tasks, started);
  }

  /** Starts are noted for visited nodes only. */
  ghost predicate NotedVisited(c: Client, started: map<string, int>, visited: seq<string>) {
    forall id | id in started :: exists n :: n in visited && id == HostID(c, n)
  }

  lemma NothingNoted(c: Client, visited: seq<string>)
    ensures NotedVisited(c, map[], visited)
  {
  }

  lemma NotNotedYet(c: Client, started: map<string, int>, visited: seq<string>, n: string)
    requires NotedVisited(c, started, visited) && n !in visited
    ensures HostID(c, n) !in started
  {
    if HostID(c, n) in started {
      var m :| m in visited && HostID(c, n) == HostID(c, m);
      HostIDInjective(c, m, n);
    }
  }

  lemma NotedGrows(c: Client, started: map<string, int>, noted: map<string, int>, order: seq<string>, i: nat)
    requires i < |order| && NotedVisited(c, started, order[..i])
    requires noted.Keys <= started.Keys + {HostID(c, order[i])}
    ensures NotedVisited(c, noted, order[..i + 1])
  {
    assert order[..i + 1] == order[..i] + [order[i]];
    forall id | id in noted ensures exists n :: n in order[..i + 1] && id == HostID(c, n) {
      if id in started {
        var n :| n in order[..i] && id == HostID(c, n);
        assert n in order[..i + 1];
      } else {
        assert order[i] in order[..i + 1];
      }
    }
  }

  method AlertsOn(c: Client, a: Answers, ref: HostRef, n: string) returns (alerts: seq<Alert>)
    requires ref.host == AfterTasks(c, a, n)
    modifies ref
    ensures ref.host == FinalHost(c, a, n) && alerts == HostAlertsOf(c, a, n)
  {
    hide AfterTasks, Alerted, AlertsOf;
    alerts := ApplyHostAlerts(c.thresholds, ref);
  }

  method CallLoop(c: Client, a: Answers, hosts: map<string, HostRef>, order: seq<string>)
    returns (alerts: seq<Alert>)
    requires Distinct(hosts) && Visits(order, hosts.Keys)
    requires forall n | n in hosts :: hosts[n].host == Listed(c, a, n)
    modifies hosts.Values
    ensures forall n | n in hosts :: hosts[n].host == AfterCalls(c, a, n)
    ensures alerts == CallLoopAlerts(c, a, order)
  {
    hide Listed, AfterCalls, CallAlerts, Visits;
    alerts := [];
    ghost var before, after := n => Listed(c, a, n), n => AfterCalls(c, a, n);
    for i := 0 to |order|
      invariant Midway(HostsNow(hosts), order[..i], before, after)
      invariant alerts == CallLoopAlerts(c, a, order[..i])
    {
      NextNotVisited(order, hosts.Keys, i);
      StreamStep(order, i, n => CallAlerts(c, a, n), []);
      ghost var was := HostsNow(hosts);
      var more := CallsOn(c, a, hosts[order[i]], order[i]);
      FrontierMoves(was, HostsNow(hosts), order, i, before, after);
      alerts := alerts + more;
    }
    assert order[..|order|] == order;
    VisitsEvery(order, hosts.Keys);
  }

  method TasksLoop(c: Client, a: Answers, hosts: map<string, HostRef>, order: seq<string>)
    returns (alerts: seq<Alert>)
    requires Distinct(hosts) && Visits(order, hosts.Keys)
    requires forall n | n in hosts :: hosts[n].host == AfterGuests(c, a, n)
    modifies hosts.Values
    ensures forall n | n in hosts :: hosts[n].host == AfterTasks(c, a, n)
    ensures alerts == TasksLoopAlerts(c, a, order)
  {
    hide AfterGuests, AfterTasks, TaskAlertsOf, Visits, NotedVisited, HostID;
    alerts := [];
    var started: map<string, int> := map[];
    NothingNoted(c, order[..0]);
    ghost var before, after := n => AfterGuests(c, a, n), n => AfterTasks(c, a, n);
    for i := 0 to |order|
      invariant Midway(HostsNow(hosts), order[..i], before, after)
      invariant NotedVisited(c, started, order[..i])
      invariant alerts == TasksLoopAlerts(c, a, order[..i])
    {
      NextNotVisited(order, hosts.Keys, i);
      StreamStep(order, i, n => TaskAlertsOf(c, a, n), []);
      ghost var was := HostsNow(hosts);
      NotNotedYet(c, started, order[..i], order[i]);
      var more, noted := TasksOn(c, a, hosts[order[i]], order[i], started);
      NotedGrows(c, started, noted, order, i);
      FrontierMoves(was, HostsNow(hosts), order, i, before, after);
      alerts, started := alerts + more, noted;
    }
    assert order[..|order|] == order;
    VisitsEvery(order, hosts.Keys);
  }

  /** Alerts every host, and lists it as it then is. */
  method AlertLoop(c: Client, a: Answers, hosts: map<string, HostRef>, order: seq<string>)
    returns (listed: seq<Host>, alerts: seq<Alert>)
    requires Distinct(hosts) && Visits(order, hosts.Keys)
    requires forall n | n in hosts :: hosts[n].host == AfterTasks(c, a, n)
    modifies hosts.Values
    ensures forall n | n in hosts :: hosts[n].host == FinalHost(c, a, n)
    ensures listed == FinalHosts(c, a, order)
    ensures alerts == AlertLoopAlerts(c, a, order)
  {
    hide AfterTasks, FinalHost, HostAlertsOf, Visits;
    listed, alerts := [], [];
    ghost var before, after := n => AfterTasks(c, a, n), n => FinalHost(c, a, n);
    for i := 0 to |order|
      invariant Midway(HostsNow(hosts), order[..i], before, after)
      invariant listed == FinalHosts(c, a, order[..i])
      invariant alerts == AlertLoopAlerts(c, a, order[..i])
    {
      NextNotVisited(order, hosts.Keys, i);
      StreamStep(order, i, n => HostAlertsOf(c, a, n), []);
      ghost var was := HostsNow(hosts);
      var more := AlertsOn(c, a, hosts[order[i]], order[i]);
      FrontierMoves(was, HostsNow(hosts), order, i, before, after);
      alerts := alerts + more;
      listed := listed + [hosts[order[i]].host];
    }
    assert order[..|order|] == order;
    VisitsEvery(order, hosts.Keys);
  }

  method FindingLoop(findings: seq<Finding>) returns (alerts: seq<Alert>)
    ensures alerts == ClusterAlerts(findings)
  {
    alerts := [];
    for i := 0 to |findings|
      invariant alerts == ClusterAlerts(findings[..i])
    {
      var f := findings[i];
      StreamStep(findings, i, ClusterAlert, []);
      if f.health == Warning || f.health == Critical {
        alerts := alerts + [Alert(f.id, "", f.health, Cluster)];
      }
    }
    assert findings[..|findings|] == findings;
  }

  /** The storages: each host becomes what it is after them. */
  method StorageStage(c: Client, a: Answers, hosts: map<string, HostRef>)
    returns (storages: seq<Storage>, alerts: seq<Alert>)
    requires Distinct(hosts)
    requires forall n | n in hosts :: hosts[n].host == AfterCalls(c, a, n)
    modifies hosts.Values
    ensures storages == Storages(c, a.resources) && alerts == StorageLoopAlerts(c, a)
    ensures forall n | n in hosts :: hosts[n].host == AfterStorages(c, a, n)
  {
    hide AfterCalls, StorageHost, Storages;
    storages, alerts := StorageLoop(c, a.resources, hosts);
  }

  method GuestStage(c: Client, a: Answers, hosts: map<string, HostRef>) returns (guests: seq<Guest>, alerts: seq<Alert>)
    requires Distinct(hosts)
    requires forall n | n in hosts :: hosts[n].host == AfterStorages(c, a, n)
    modifies hosts.Values
    ensures guests == Guests(c, a.current, a.resources) && alerts == GuestLoopAlerts(c, a)
    ensures forall n | n in hosts :: hosts[n].host == AfterGuests(c, a, n)
  {
    hide AfterStorages, GuestHost, Guests;
    guests, alerts := GuestLoop(c, a.current, a.resources, hosts);
  }

  method CollectAnswers(c: Client, a: Answers, o: Orders) returns (r: Inventoried)
    requires VisitsAll(o, Nodes(c, a))
    ensures r == InventoriedBy(c, a, o)
  {
    hide AfterCalls, AfterStorages, AfterGuests, AfterTasks, FinalHosts, Visits, Distinct, Storages, Guests;
    hide ClusterAlerts, CallLoopAlerts, StorageLoopAlerts, GuestLoopAlerts, TasksLoopAlerts, AlertLoopAlerts;
    var alerts := FindingLoop(a.cluster);
    var hosts := BuildHosts(c, a.resources);
    var callAlerts := CallLoop(c, a, hosts, o.reading);
    var storages, storageAlerts := StorageStage(c, a, hosts);
    var guests, guestAlerts := GuestStage(c, a, hosts);
    var replicationAlerts := FindingLoop(a.replications);
    var taskAlerts := TasksLoop(c, a, hosts, o.tasks);
    var listed, hostAlerts := AlertLoop(c, a, hosts, o.alerts);
    r := Inventoried(listed, storages, guests,
                     alerts + callAlerts + storageAlerts + guestAlerts + replicationAlerts + taskAlerts + hostAlerts);
  }

  function InventoriedBy(c: Client, a: Answers, o: Orders): Inventoried {
    Inventoried(FinalHosts(c, a, o.alerts), Storages(c, a.resources), Guests(c, a.current, a.resources),
                AllAlerts(c, a, o))
  }

  /** What one source contributes, whether or not its first call succeeds. */
  function Collected(c: Client, answers: Option<Answers>, o: Orders): Inventoried {
    match answers
    case None => Unreachable(c)
    case Some(a) => InventoriedBy(c, a, o)
  }

  method CollectSource(c: Client, answers: Option<Answers>, o: Orders) returns (r: Inventoried)
    requires answers.Some? ==> VisitsAll(o, Nodes(c, answers.value))
    ensures r == Collected(c, answers, o)
  {
    if answers.None? {
      r := Unreachable(c);
    } else {
      hide InventoriedBy, VisitsAll, Nodes;
      r := CollectAnswers(c, answers.value, o);
    }
  }
}
