/** The display state: its lists, its summary, and the two bounded views of it. */
module Display {
  import opened Folds
  import opened Health
  import opened Ordering
  import opened Text

  datatype Kind =
    | Clusters | Hosts | Guests | Storages | Disks | Networks | Services | ZFSPools | Snapshots | Tasks
    | BackupJobs | Replications | HAResources | Certificates | StorageItems | MetricTrends
    | ClusterOptions | CephClusters | Capabilities | Updates | Repositories | Subscriptions | Alerts

  /** A list element, as far as merging, summaries and views look at it. `stamp` is its snapshot,
      start or creation time; `running` and `stopped` are a host's guest counters. */
  datatype Item = Item(id: string, source: string, host: string, name: string, endpoint: string, status: string,
                       stamp: int, pinned: bool, online: bool, severity: Health, running: nat, stopped: nat)

  datatype Summary = Summary(health: Health, hostsOnline: nat, hostsTotal: nat,
                             guestsRunning: nat, guestsStopped: nat, alerts: nat, updates: nat)

  /** A list that is absent from the map is nil. */
  datatype State = State(lists: map<Kind, seq<Item>>, summary: Summary, stale: bool)

  predicate IsList(k: Kind) {
    true
  }

  function List(s: State, k: Kind): seq<Item> {
    if k in s.lists then s.lists[k] else []
  }

  function OnlineHost(i: Item): nat { if i.online then 1 else 0 }

  function RunningGuest(i: Item): nat { if i.status == "running" then 1 else 0 }

  function StoppedGuest(i: Item): nat { if i.status == "running" then 0 else 1 }

  predicate HasSeverity(alerts: seq<Item>, h: Health) {
    exists i | 0 <= i < |alerts| :: alerts[i].severity == h
  }

  /** Critical with a critical alert or a host that is not online, warning with a warning alert. */
  function OverallHealth(alerts: seq<Item>, hosts: seq<Item>): Health {
    if HasSeverity(alerts, Critical) || exists i | 0 <= i < |hosts| :: !hosts[i].online then Critical
    else if HasSeverity(alerts, Warning) then Warning
    else OK
  }

  function SummaryOf(s: State): Summary {
    Summary(OverallHealth(List(s, Alerts), List(s, Hosts)),
            Sum(List(s, Hosts), OnlineHost), |List(s, Hosts)|,
            Sum(List(s, Guests), RunningGuest), Sum(List(s, Guests), StoppedGuest),
            |List(s, Alerts)|, |List(s, Updates)|)
  }

  /** Every list present, and the summary recomputed from the lists. */
  function Finalized(s: State): (r: State)
    ensures forall k: Kind :: List(r, k) == List(s, k)
  {
    s.(lists := map k: Kind | IsList(k) :: List(s, k), summary := SummaryOf(s))
  }

  lemma {:induction false} OnlineCount(hosts: seq<Item>)
    ensures Sum(hosts, OnlineHost) <= |hosts|
    ensures Sum(hosts, OnlineHost) < |hosts| <==> exists i | 0 <= i < |hosts| :: !hosts[i].online
  {
    if hosts != [] {
      OnlineCount(hosts[1..]);
      if i :| 0 <= i < |hosts| && !hosts[i].online {
        assert i > 0 ==> !hosts[1..][i - 1].online;
      }
    }
  }

  method Finalize(s: State) returns (r: State)
    ensures r == Finalized(s)
  {
    var hosts, guests, alerts := List(s, Hosts), List(s, Guests), List(s, Alerts);
    var sum := Summary(OK, 0, |hosts|, 0, 0, |alerts|, |List(s, Updates)|);
    for i := 0 to |hosts|
      invariant sum == Summary(OK, Sum(hosts[..i], OnlineHost), |hosts|, 0, 0, |alerts|, |List(s, Updates)|)
    {
      if hosts[i].online {
        sum := sum.(hostsOnline := sum.hostsOnline + 1);
      }
      SumSnoc(hosts[..i], hosts[i], OnlineHost);
      assert hosts[..i + 1] == hosts[..i] + [hosts[i]];
    }
    assert hosts[..|hosts|] == hosts;
    ghost var online := sum.hostsOnline;
    for i := 0 to |guests|
      invariant sum == Summary(OK, online, |hosts|, Sum(guests[..i], RunningGuest), Sum(guests[..i], StoppedGuest),
                               |alerts|, |List(s, Updates)|)
    {
      if guests[i].status == "running" {
        sum := sum.(guestsRunning := sum.guestsRunning + 1);
      } else {
        sum := sum.(guestsStopped := sum.guestsStopped + 1);
      }
      SumSnoc(guests[..i], guests[i], RunningGuest);
      SumSnoc(guests[..i], guests[i], StoppedGuest);
      assert guests[..i + 1] == guests[..i] + [guests[i]];
    }
    assert guests[..|guests|] == guests;
    r := s.(lists := map k: Kind | IsList(k) :: List(s, k), summary := sum);
    for i := 0 to |alerts|
      invariant r.lists == Finalized(s).lists && r.stale == s.stale
      invariant r.summary == sum.(health := if HasSeverity(alerts[..i], Warning) then Warning else OK)
      invariant !HasSeverity(alerts[..i], Critical)
    {
      HasSeveritySnoc(alerts, i, Critical);
      HasSeveritySnoc(alerts, i, Warning);
      if alerts[i].severity == Critical {
        r := r.(summary := r.summary.(health := Critical));
        return;
      }
      if alerts[i].severity == Warning {
        r := r.(summary := r.summary.(health := Warning));
      }
    }
    assert alerts[..|alerts|] == alerts;
    OnlineCount(hosts);
    if r.summary.hostsTotal > 0 && r.summary.hostsOnline < r.summary.hostsTotal {
      r := r.(summary := r.summary.(health := Critical));
    }
  }

  lemma HasSeveritySnoc(alerts: seq<Item>, i: nat, h: Health)
    requires i < |alerts|
    ensures HasSeverity(alerts[..i + 1], h) <==> HasSeverity(alerts[..i], h) || alerts[i].severity == h
    ensures alerts[i].severity == h ==> HasSeverity(alerts, h)
  {
  }

  lemma FinalizeIdempotent(s: State)
    ensures Finalized(Finalized(s)) == Finalized(s)
  {
  }

  lemma SameSeverities(a: seq<Item>, b: seq<Item>, h: Health)
    requires multiset(a) == multiset(b)
    ensures HasSeverity(a, h) ==> HasSeverity(b, h)
  {
    if i :| 0 <= i < |a| && a[i].severity == h {
      assert a[i] in multiset(b);
    }
  }

  lemma SameOffline(a: seq<Item>, b: seq<Item>)
    requires multiset(a) == multiset(b)
    ensures (exists i | 0 <= i < |a| :: !a[i].online) ==> exists i | 0 <= i < |b| :: !b[i].online
  {
    if i :| 0 <= i < |a| && !a[i].online {
      assert a[i] in multiset(b);
    }
  }

  /** The summary depends on which items the lists hold, not on their order. */
  lemma SummaryIgnoresOrder(s: State, t: State)
    requires multiset(List(s, Hosts)) == multiset(List(t, Hosts))
    requires multiset(List(s, Guests)) == multiset(List(t, Guests))
    requires multiset(List(s, Alerts)) == multiset(List(t, Alerts))
    requires |List(s, Updates)| == |List(t, Updates)|
    ensures SummaryOf(s) == SummaryOf(t)
  {
    SumPermuted(List(s, Hosts), List(t, Hosts), OnlineHost);
    SumPermuted(List(s, Guests), List(t, Guests), RunningGuest);
    SumPermuted(List(s, Guests), List(t, Guests), StoppedGuest);
    SameSeverities(List(s, Alerts), List(t, Alerts), Critical);
    SameSeverities(List(t, Alerts), List(s, Alerts), Critical);
    SameSeverities(List(s, Alerts), List(t, Alerts), Warning);
    SameSeverities(List(t, Alerts), List(s, Alerts), Warning);
    SameOffline(List(s, Hosts), List(t, Hosts));
    SameOffline(List(t, Hosts), List(s, Hosts));
    assert |multiset(List(s, Hosts))| == |List(s, Hosts)| && |multiset(List(t, Hosts))| == |List(t, Hosts)|;
    assert |multiset(List(s, Alerts))| == |List(s, Alerts)| && |multiset(List(t, Alerts))| == |List(t, Alerts)|;
  }

  lemma {:induction false} GuestsAllCounted(guests: seq<Item>)
    ensures Sum(guests, RunningGuest) + Sum(guests, StoppedGuest) == |guests|
  {
    if guests != [] { GuestsAllCounted(guests[1..]); }
  }

  predicate Heavy(k: Kind) {
    k in {Certificates, StorageItems, MetricTrends, ClusterOptions, CephClusters, Capabilities}
  }

  /** The compact payload: the heavy lists emptied. */
  function Compacted(s: State): State {
    Finalized(s.(lists := map k: Kind | IsList(k) :: if Heavy(k) then [] else List(s, k)))
  }

  lemma SummaryOfFour(s: State, t: State)
    requires List(s, Hosts) == List(t, Hosts) && List(s, Guests) == List(t, Guests)
    requires List(s, Alerts) == List(t, Alerts) && List(s, Updates) == List(t, Updates)
    ensures SummaryOf(s) == SummaryOf(t)
  {
  }

  lemma CompactLists(s: State, k: Kind)
    ensures List(Compacted(s), k) ==
            if k in {Certificates, StorageItems, MetricTrends, ClusterOptions, CephClusters, Capabilities} then []
            else List(s, k)
  {
  }

  /** The positions of the items that are counted. */
  function Positions(s: seq<Item>, counts: Item -> bool): set<nat> {
    set i | 0 <= i < |s| && counts(s[i])
  }

  lemma {:induction false} SumIsSize(s: seq<Item>, measure: Item -> nat, counts: Item -> bool)
    requires forall i | i in s :: measure(i) == if counts(i) then 1 else 0
    ensures Sum(s, measure) == |Positions(s, counts)|
  {
    if s != [] {
      var front, last := s[..|s| - 1], s[|s| - 1];
      assert s == front + [last];
      SumSnoc(front, last, measure);
      SumIsSize(front, measure, counts);
      var more: set<nat> := if counts(last) then {|front|} else {};
      assert Positions(s, counts) == Positions(front, counts) + more;
    }
  }

  /** The summary of a state counts its hosts, the online ones among them, its running and other guests, its
      alerts and its updates; and it is critical, else a warning, else fine. */
  lemma SummaryCounts(s: State)
    ensures var sum := SummaryOf(s);
            && sum.hostsTotal == |List(s, Hosts)|
            && sum.hostsOnline == |Positions(List(s, Hosts), (i: Item) => i.online)|
            && sum.guestsRunning == |Positions(List(s, Guests), (i: Item) => i.status == "running")|
            && sum.guestsStopped == |Positions(List(s, Guests), (i: Item) => i.status != "running")|
            && sum.alerts == |List(s, Alerts)| && sum.updates == |List(s, Updates)|
            && (sum.health == Critical <==>
                  || (exists i :: i in List(s, Alerts) && i.severity == Critical)
                  || exists i :: i in List(s, Hosts) && !i.online)
            && (sum.health == Warning <==>
                  && sum.health != Critical && exists i :: i in List(s, Alerts) && i.severity == Warning)
            && sum.health != Unknown
  {
    hide List;
    var hosts, guests, alerts := List(s, Hosts), List(s, Guests), List(s, Alerts);
    SumIsSize(hosts, OnlineHost, (i: Item) => i.online);
    SumIsSize(guests, RunningGuest, (i: Item) => i.status == "running");
    SumIsSize(guests, StoppedGuest, (i: Item) => i.status != "running");
    forall h ensures HasSeverity(alerts, h) <==> exists i :: i in alerts && i.severity == h {
      if i :| i in alerts && i.severity == h {
        var k :| 0 <= k < |alerts| && alerts[k] == i;
      }
    }
    if i :| i in hosts && !i.online {
      var k :| 0 <= k < |hosts| && hosts[k] == i;
    }
  }

  /** Compaction drops lists, but nothing that the summary counts. */
  lemma CompactKeepsSummary(s: State)
    ensures Compacted(Finalized(s)).summary == Finalized(s).summary
  {
    var t := Finalized(s);
    var u := t.(lists := map k: Kind | IsList(k) :: if Heavy(k) then [] else List(t, k));
    SummaryOfFour(u, s);
  }

  function CapabilityRank(status: string): int {
    if status == "error" then 5
    else if status == "forbidden" || status == "unauthorized" then 4
    else if status == "not_available" || status == "not_found" then 3
    else if status == "ok" then 1
    else 2
  }

  /** The one status is at least as bad as the other: errors are worst, then refusals, then what is not
      there, then any other status but "ok". */
  predicate AsBad(status: string, other: string) {
    && (other == "error" ==> status == "error")
    && (other in {"forbidden", "unauthorized"} ==> status in {"error", "forbidden", "unauthorized"})
    && (other in {"not_available", "not_found"} ==>
          status in {"error", "forbidden", "unauthorized", "not_available", "not_found"})
    && (status == "ok" ==> other == "ok")
  }

  lemma RankMeaning(status: string, other: string)
    ensures CapabilityRank(status) >= CapabilityRank(other) <==> AsBad(status, other)
  {
  }

  /** Worst status first, then source, name and endpoint. */
  function CapabilityKey(c: Item): Key {
    Key(-CapabilityRank(c.status), [c.source, c.name, c.endpoint])
  }

  const MAX_DETAIL_CAPABILITIES := 64

  function Prioritized(caps: seq<Item>, max: nat): seq<Item> {
    Take(StableSort(caps, CapabilityKey), max)
  }

  /** How many items of each heavy list the detail payload carries. */
  function DetailLimit(k: Kind): nat {
    match k
    case ZFSPools => 24
    case Certificates => 24
    case StorageItems => 48
    case MetricTrends => 64
    case ClusterOptions => 32
    case CephClusters => 8
    case Capabilities => MAX_DETAIL_CAPABILITIES
    case _ => 0
  }

  function DetailList(s: State, k: Kind): seq<Item> {
    if k == Capabilities then Prioritized(List(s, k), DetailLimit(k)) else Take(List(s, k), DetailLimit(k))
  }

  /** The full sort of capabilities is a stable, sorted rearrangement; no prefix of it, cut once or
      twice, drops a capability that ranks above one it keeps. */
  lemma PrioritizedKeepsWorst(caps: seq<Item>, max: nat, shown: nat, kept: Item, dropped: Item)
    requires kept in Take(Prioritized(caps, max), shown)
    requires dropped in multiset(caps) - multiset(Take(Prioritized(caps, max), shown))
    ensures AsBad(kept.status, dropped.status)
    ensures !KeyBelow(CapabilityKey(dropped), CapabilityKey(kept))
  {
    RankMeaning(kept.status, dropped.status);
    hide AsBad, CapabilityRank;
    StableSortSorted(caps, CapabilityKey);
    StableSortPermutes(caps, CapabilityKey);
    TakeTwice(StableSort(caps, CapabilityKey), max, shown);
    TakeIsTop(StableSort(caps, CapabilityKey), if max < shown then max else shown, CapabilityKey);
  }

  /** Sources in order, then names, then endpoints. */
  predicate InOrder(a: Item, b: Item) {
    if a.source != b.source then Below(a.source, b.source)
    else if a.name != b.name then Below(a.name, b.name)
    else !Below(b.endpoint, a.endpoint)
  }

  lemma ThreeIDs(a: Item, b: Item)
    requires !IdsBelow([b.source, b.name, b.endpoint], [a.source, a.name, a.endpoint])
    ensures InOrder(a, b)
  {
    hide Below;
    BelowTrichotomy(a.source, b.source);
    BelowTrichotomy(a.name, b.name);
    var p, q := [b.source, b.name, b.endpoint], [a.source, a.name, a.endpoint];
    assert p[1..] == [b.name, b.endpoint] && q[1..] == [a.name, a.endpoint];
    assert p[1..][1..] == [b.endpoint] && q[1..][1..] == [a.endpoint];
    assert [b.endpoint][1..] == [];
    assert IdsBelow(p, q) <==> Below(b.source, a.source) || (b.source == a.source && IdsBelow(p[1..], q[1..]));
    assert IdsBelow(p[1..], q[1..]) <==>
             Below(b.name, a.name) || (b.name == a.name && IdsBelow([b.endpoint], [a.endpoint]));
    assert Below(b.endpoint, a.endpoint) ==> IdsBelow([b.endpoint], [a.endpoint]);
  }

  /** The order in which capabilities are served: the worst first, and equally bad ones by source, name and
      endpoint. */
  lemma PrioritizedInOrder(caps: seq<Item>, max: nat, i: nat, j: nat)
    requires i < j < |Prioritized(caps, max)|
    ensures var r := Prioritized(caps, max);
            AsBad(r[i].status, r[j].status) && (AsBad(r[j].status, r[i].status) ==> InOrder(r[i], r[j]))
  {
    hide AsBad, InOrder, IdsBelow, CapabilityRank;
    StableSortSorted(caps, CapabilityKey);
    var r := Prioritized(caps, max);
    assert !KeyBelow(CapabilityKey(r[j]), CapabilityKey(r[i]));
    RankMeaning(r[i].status, r[j].status);
    RankMeaning(r[j].status, r[i].status);
    if AsBad(r[j].status, r[i].status) { ThreeIDs(r[i], r[j]); }
  }
}
