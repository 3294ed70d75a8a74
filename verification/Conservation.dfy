/** Guests are conserved by the loops of one source. */
module Conservation {
  import opened Folds
  import opened Inventory
  import opened Source
  import opened SourceCollector
  import SourceTheorems

  function Running(g: Guest): nat { if g.status == "running" then 1 else 0 }

  function Stopped(g: Guest): nat { if g.status == "running" then 0 else 1 }

  function Only(b: bool, n: nat): nat { if b then n else 0 }

  /** Guests of a kind, on one node and on any of several nodes. */
  function OnNode(n: string, kind: Guest -> nat): Guest -> nat {
    (g: Guest) => Only(g.node == n, kind(g))
  }

  function OnNodes(nodes: seq<string>, kind: Guest -> nat): Guest -> nat {
    (g: Guest) => Only(g.node in nodes, kind(g))
  }

  /** A node that is visited, is visited once. */
  lemma {:induction false} VisitedOnce(order: seq<string>, node: string, count: nat)
    requires forall i, j | 0 <= i < j < |order| :: order[i] != order[j]
    ensures Sum(order, n => Only(node == n, count)) == Only(node in order, count)
  {
    if order != [] {
      VisitedOnce(order[1..], node, count);
    }
  }

  /** Exchanging the sums: counting node by node is counting the guests of visited nodes. `kind` counts
      a guest as 1 or as 0. */
  lemma {:induction false} NodeByNode(order: seq<string>, guests: seq<Guest>, kind: Guest -> nat)
    requires forall i, j | 0 <= i < j < |order| :: order[i] != order[j]
    ensures Sum(order, n => Sum(guests, OnNode(n, kind)))
         == Sum(guests, OnNodes(order, kind))
  {
    var whole := n => Sum(guests, OnNode(n, kind));
    if guests == [] {
      SumSame(order, whole, n => 0);
      SumZero(order);
    } else {
      var first, rest := guests[0], guests[1..];
      NodeByNode(order, rest, kind);
      SumSplit(order, whole, n => Only(first.node == n, kind(first)),
               n => Sum(rest, OnNode(n, kind)));
      VisitedOnce(order, first.node, kind(first));
    }
  }

  lemma {:induction false} SumZero(order: seq<string>)
    ensures Sum(order, n => 0) == 0
  {
    if order != [] { SumZero(order[1..]); }
  }

  lemma GuestCounters(c: Client, a: Answers, n: string)
    ensures FinalHost(c, a, n).guestsRunning == Sum(Guests(c, a.current, a.resources), g => RunsOn(n, g))
    ensures FinalHost(c, a, n).guestsStopped == Sum(Guests(c, a.current, a.resources), g => StoppedOn(n, g))
  {
    hide Guests, Storages, StorageHost, Sum;
    SourceTheorems.ListedIsNew(c, a, n);
    StorageMaximum(AfterCalls(c, a, n), n, Storages(c, a.resources));
  }

  lemma {:induction false} HostsSum(c: Client, a: Answers, order: seq<string>, counter: Host -> nat)
    ensures Sum(FinalHosts(c, a, order), counter) == Sum(order, n => counter(FinalHost(c, a, n)))
  {
    hide FinalHost;
    if order != [] {
      HostsSum(c, a, order[1..], counter);
      assert FinalHosts(c, a, order) == [FinalHost(c, a, order[0])] + FinalHosts(c, a, order[1..]);
    }
  }

  /** A counter that counts a kind of guest on every host adds up to those guests on listed nodes. */
  lemma HostTotal(c: Client, a: Answers, order: seq<string>, guests: seq<Guest>,
                  counter: Host -> nat, kind: Guest -> nat)
    requires Visits(order, Nodes(c, a))
    requires forall n :: counter(FinalHost(c, a, n)) == Sum(guests, OnNode(n, kind))
    ensures Sum(FinalHosts(c, a, order), counter) == Sum(guests, OnNodes(order, kind))
  {
    hide FinalHost, FinalHosts;
    HostsSum(c, a, order, counter);
    SumSame(order, n => counter(FinalHost(c, a, n)), n => Sum(guests, OnNode(n, kind)));
    NodeByNode(order, guests, kind);
  }

  lemma HostTotals(c: Client, a: Answers, order: seq<string>)
    requires Visits(order, Nodes(c, a))
    ensures var guests := Guests(c, a.current, a.resources);
            var hosts := FinalHosts(c, a, order);
            && Sum(hosts, (h: Host) => h.guestsRunning) == Sum(guests, OnNodes(order, Running))
            && Sum(hosts, (h: Host) => h.guestsStopped) == Sum(guests, OnNodes(order, Stopped))
  {
    hide FinalHost, Guests, FinalHosts, Visits, Sum;
    var guests := Guests(c, a.current, a.resources);
    forall n
      ensures FinalHost(c, a, n).guestsRunning == Sum(guests, OnNode(n, Running))
      ensures FinalHost(c, a, n).guestsStopped == Sum(guests, OnNode(n, Stopped))
    {
      GuestCounters(c, a, n);
      SumSame(guests, g => RunsOn(n, g), OnNode(n, Running));
      SumSame(guests, g => StoppedOn(n, g), OnNode(n, Stopped));
    }
    HostTotal(c, a, order, guests, (h: Host) => h.guestsRunning, Running);
    HostTotal(c, a, order, guests, (h: Host) => h.guestsStopped, Stopped);
  }

  /** Every guest's node is a listed node. */
  predicate AllHoused(c: Client, a: Answers) {
    forall g | g in Guests(c, a.current, a.resources) :: g.node in Nodes(c, a)
  }

  /** The hosts of a source count no guest that the source does not have, and all of them exactly when
      every guest's node is listed. */
  lemma GuestsConserved(c: Client, a: Answers, order: seq<string>)
    requires Visits(order, Nodes(c, a))
    ensures var guests := Guests(c, a.current, a.resources);
            var hosts := FinalHosts(c, a, order);
            var running, stopped := Sum(hosts, (h: Host) => h.guestsRunning), Sum(hosts, (h: Host) => h.guestsStopped);
            && running <= Sum(guests, Running) && stopped <= Sum(guests, Stopped)
            && (running == Sum(guests, Running) && stopped == Sum(guests, Stopped) <==> AllHoused(c, a))
  {
    hide Guests, FinalHosts, Nodes;
    var guests := Guests(c, a.current, a.resources);
    HostTotals(c, a, order);
    SumBelow(guests, OnNodes(order, Running), Running);
    SumBelow(guests, OnNodes(order, Stopped), Stopped);
    assert AllHoused(c, a) <==> forall g | g in guests :: g.node in order;
    assert forall g: Guest :: Running(g) + Stopped(g) == 1;
  }

  // ---- The order in which the host table is visited ----

  lemma {:induction false} HostsAreStream(c: Client, a: Answers, order: seq<string>)
    ensures FinalHosts(c, a, order) == Stream(order, n => [FinalHost(c, a, n)], [])
  {
    hide FinalHost;
    if order != [] {
      HostsAreStream(c, a, order[..|order| - 1]);
      assert FinalHosts(c, a, order) == FinalHosts(c, a, order[..|order| - 1]) + [FinalHost(c, a, order[|order| - 1])];
    }
  }

  /** Whatever order the three loops visit the host table in, a source contributes the same hosts and
      the same alerts. */
  lemma VisitOrderIrrelevant(c: Client, a: Answers, o: Orders, p: Orders)
    requires VisitsAll(o, Nodes(c, a)) && VisitsAll(p, Nodes(c, a))
    ensures multiset(InventoriedBy(c, a, o).hosts) == multiset(InventoriedBy(c, a, p).hosts)
    ensures multiset(InventoriedBy(c, a, o).alerts) == multiset(InventoriedBy(c, a, p).alerts)
  {
    hide FinalHost, CallAlerts, TaskAlertsOf, HostAlertsOf, StorageLoopAlerts, GuestLoopAlerts, ClusterAlerts;
    hide Nodes, Visits;
    var nodes := Nodes(c, a);
    VisitsIsSet(o.reading, nodes);
    VisitsIsSet(p.reading, nodes);
    VisitsIsSet(o.tasks, nodes);
    VisitsIsSet(p.tasks, nodes);
    VisitsIsSet(o.alerts, nodes);
    VisitsIsSet(p.alerts, nodes);
    StreamPermuted(o.reading, p.reading, n => CallAlerts(c, a, n));
    StreamPermuted(o.tasks, p.tasks, n => TaskAlertsOf(c, a, n));
    StreamPermuted(o.alerts, p.alerts, n => HostAlertsOf(c, a, n));
    StreamPermuted(o.alerts, p.alerts, n => [FinalHost(c, a, n)]);
    HostsAreStream(c, a, o.alerts);
    HostsAreStream(c, a, p.alerts);
  }
}
