/** From what the sources answer to the summary and to the rows on the device. */
module EndToEnd {
  import opened Collection
  import opened Display
  import opened Folds
  import opened Health
  import opened Ordering
  import opened Wrappers
  import CallRecord
  import Calls = Capabilities
  import Conservation
  import Source
  import SourceCollector
  import SourceTheorems
  import Zfs

  /** What this model takes as given of a source that can be reached: of every other list, the items
      listed before its host table is visited, those of each node, and those listed after; and how its
      calls end. */
  datatype Given = Given(before: map<Kind, seq<Item>>, nodes: map<string, map<Kind, seq<Item>>>,
                         after: map<Kind, seq<Item>>, calls: CallRecord.Outcomes)

  /** One worker of a collection: its client, what the API answers it, and the orders in which it happens
      to visit its host table. */
  datatype Worker = Worker(client: Source.Client, answers: Option<SourceCollector.Answers>, given: Given,
                           orders: SourceCollector.Orders)

  ghost predicate Runs(w: Worker) {
    w.answers.Some? ==> SourceCollector.VisitsAll(w.orders, SourceCollector.Nodes(w.client, w.answers.value))
  }

  function Contribution(w: Worker): SourceCollector.Inventoried {
    SourceCollector.Collected(w.client, w.answers, w.orders)
  }

  function HostItem(source: string): Source.Host -> Item {
    (h: Source.Host) =>
      Item(h.id, source, h.id, h.node, "", "", 0, false, h.online, h.health, h.guestsRunning, h.guestsStopped)
  }

  function GuestItem(source: string): Source.Guest -> Item {
    (g: Source.Guest) => Item(g.id, source, source + "/" + g.node, "", "", g.status, 0, g.pinned, false, g.health, 0, 0)
  }

  function StorageItem(source: string): Source.Storage -> Item {
    (s: Source.Storage) =>
      Item(s.id, source, source + "/" + s.node, s.name, "", s.status, 0, false, false, s.health, 0, 0)
  }

  function AlertItem(source: string): Source.Alert -> Item {
    (a: Source.Alert) => Item(a.id, source, a.host, "", "", "", 0, false, false, a.severity, 0, 0)
  }

  function HostList(w: Worker): seq<Item> {
    Map(Contribution(w).hosts, HostItem(w.client.id))
  }

  function GuestList(w: Worker): seq<Item> {
    Map(Contribution(w).guests, GuestItem(w.client.id))
  }

  function StorageList(w: Worker): seq<Item> {
    Map(Contribution(w).storages, StorageItem(w.client.id))
  }

  function AlertList(w: Worker): seq<Item> {
    Map(Contribution(w).alerts, AlertItem(w.client.id))
  }

  function GivenItems(lists: map<Kind, seq<Item>>, k: Kind): seq<Item> {
    if k in lists then lists[k] else []
  }

  function NodeItems(g: Given, k: Kind): string -> seq<Item> {
    n => if n in g.nodes then GivenItems(g.nodes[n], k) else []
  }

  /** Tasks are listed by the second loop over the host table, all other lists of a node by the first. */
  function OrderOf(w: Worker, k: Kind): seq<string> {
    if k == Tasks then w.orders.tasks else w.orders.reading
  }

  /** A list that the loops fill node by node, in the order in which they visit the nodes. */
  function NodeByNode(w: Worker, k: Kind): seq<Item> {
    GivenItems(w.given.before, k) + Stream(OrderOf(w, k), NodeItems(w.given, k), []) + GivenItems(w.given.after, k)
  }

  /** The calls that the worker makes, as capabilities, recorded or not. */
  function CallItems(w: Worker): seq<Item> {
    if w.answers.None? then [] else Calls.Items(CallRecord.Made(w.client, w.given.calls, w.orders.reading))
  }

  function ResultList(w: Worker, k: Kind): seq<Item> {
    match k
    case Hosts => HostList(w)
    case Guests => GuestList(w)
    case Storages => StorageList(w)
    case Alerts => AlertList(w)
    case Capabilities => Take(CallItems(w), Calls.MAX_CAPABILITIES)
    case _ => if w.answers.None? then [] else NodeByNode(w, k)
  }

  function Result(w: Worker): State {
    State(map k: Kind | IsList(k) :: ResultList(w, k), Summary(OK, 0, 0, 0, 0, 0, 0), false)
  }

  function Results(ws: seq<Worker>): (rs: seq<State>)
    ensures |rs| == |ws| && forall i | 0 <= i < |ws| :: rs[i] == Result(ws[i])
  {
    seq(|ws|, i requires 0 <= i < |ws| => Result(ws[i]))
  }

  predicate IsResult(w: Worker, s: State) {
    s == Result(w)
  }

  /** Each worker delivers its own result. */
  ghost predicate Deliver(ws: seq<Worker>, results: seq<State>) {
    && |results| == |ws|
    && forall i {:trigger IsResult(ws[i], results[i])} | 0 <= i < |ws| :: Runs(ws[i]) && IsResult(ws[i], results[i])
  }

  /** A finished collection: the results arrive in some order and are merged. */
  ghost predicate Finished(ws: seq<Worker>, results: seq<State>, arrived: seq<State>, out: State) {
    Deliver(ws, results) && Arrives(arrived, results) && Collects(arrived, out)
  }

  lemma FinishedResults(ws: seq<Worker>, results: seq<State>, arrived: seq<State>, out: State)
    requires Finished(ws, results, arrived, out)
    ensures results == Results(ws) && forall w | w in ws :: Runs(w)
  {
    hide Result, Runs, Arrives, Collects;
    forall i | 0 <= i < |ws| ensures results[i] == Results(ws)[i] && Runs(ws[i]) {
      assert IsResult(ws[i], results[i]);
    }
    assert results == Results(ws);
  }

  /** Every item of a kind, worker by worker. */
  function AllItems(ws: seq<Worker>, k: Kind): seq<Item> {
    Stream(ws, w => ResultList(w, k), [])
  }

  lemma {:induction false} MergedResults(ws: seq<Worker>, k: Kind)
    ensures Merged(Results(ws), k) == AllItems(ws, k)
  {
    hide ResultList;
    if ws != [] {
      var front, last := ws[..|ws| - 1], ws[|ws| - 1];
      MergedResults(front, k);
      assert Results(ws)[..|ws| - 1] == Results(front);
      assert List(Result(last), k) == ResultList(last, k);
    }
  }

  /** What arrives is what the workers send, list by list. */
  lemma ArrivedItems(ws: seq<Worker>, results: seq<State>, arrived: seq<State>, out: State, k: Kind)
    requires Finished(ws, results, arrived, out)
    ensures multiset(Merged(arrived, k)) == multiset(AllItems(ws, k))
  {
    FinishedResults(ws, results, arrived, out);
    hide ResultList;
    ArrivalKeepsItems(results, arrived, k);
    MergedResults(ws, k);
  }

  /** A list that is not cut holds every item of every worker. */
  lemma NothingLost(ws: seq<Worker>, results: seq<State>, arrived: seq<State>, out: State, k: Kind)
    requires Finished(ws, results, arrived, out) && MergeLimit(k).Unlimited?
    ensures multiset(List(out, k)) == multiset(AllItems(ws, k))
  {
    ArrivedItems(ws, results, arrived, out, k);
    CollectsKept(arrived, out, k);
    hide Finished, ResultList, Merged;
    var sorted :| IsSortOf(k, sorted, Merged(arrived, k)) && List(out, k) == Cut(k, sorted);
  }

  // ---- Guests ----

  function HostRunning(i: Item): nat { i.running }

  function HostStopped(i: Item): nat { i.stopped }

  lemma {:induction false} SumItems<T>(s: seq<T>, item: T -> Item, measure: Item -> nat, count: T -> nat)
    requires forall x | x in s :: measure(item(x)) == count(x)
    ensures Sum(Map(s, item), measure) == Sum(s, count)
  {
    if s != [] {
      SumItems(s[1..], item, measure, count);
      assert Map(s, item) == [item(s[0])] + Map(s[1..], item);
    }
  }

  /** Every guest of the source runs on a node that the source lists. */
  predicate Housed(w: Worker) {
    w.answers.Some? ==> Conservation.AllHoused(w.client, w.answers.value)
  }

  function Total(w: Worker, k: Kind, measure: Item -> nat): nat {
    Sum(ResultList(w, k), measure)
  }

  function TotalOf(k: Kind, measure: Item -> nat): Worker -> nat {
    w => Total(w, k, measure)
  }

  /** The host and guest lists of one result agree. */
  predicate Balanced(w: Worker) {
    && Total(w, Hosts, HostRunning) == Total(w, Guests, RunningGuest)
    && Total(w, Hosts, HostStopped) == Total(w, Guests, StoppedGuest)
  }

  lemma ResultTotals(w: Worker)
    ensures Total(w, Hosts, HostRunning) == Sum(Contribution(w).hosts, (h: Source.Host) => h.guestsRunning)
    ensures Total(w, Hosts, HostStopped) == Sum(Contribution(w).hosts, (h: Source.Host) => h.guestsStopped)
    ensures Total(w, Guests, RunningGuest) == Sum(Contribution(w).guests, Conservation.Running)
    ensures Total(w, Guests, StoppedGuest) == Sum(Contribution(w).guests, Conservation.Stopped)
  {
    hide Contribution;
    var r := Contribution(w);
    SumItems(r.hosts, HostItem(w.client.id), HostRunning, (h: Source.Host) => h.guestsRunning);
    SumItems(r.hosts, HostItem(w.client.id), HostStopped, (h: Source.Host) => h.guestsStopped);
    SumItems(r.guests, GuestItem(w.client.id), RunningGuest, Conservation.Running);
    SumItems(r.guests, GuestItem(w.client.id), StoppedGuest, Conservation.Stopped);
  }

  lemma UnreachableBalanced(w: Worker)
    requires w.answers.None?
    ensures Balanced(w)
  {
    ResultTotals(w);
    var hosts := Contribution(w).hosts;
    assert hosts[1..] == [];
  }

  /** One worker's result, list against list. */
  lemma WorkerConserves(w: Worker)
    requires Runs(w)
    ensures Total(w, Hosts, HostRunning) <= Total(w, Guests, RunningGuest)
    ensures Total(w, Hosts, HostStopped) <= Total(w, Guests, StoppedGuest)
    ensures Housed(w) <==> Balanced(w)
  {
    if w.answers.None? {
      UnreachableBalanced(w);
    } else {
      hide Total, Conservation.AllHoused, Sum;
      ResultTotals(w);
      Conservation.GuestsConserved(w.client, w.answers.value, w.orders.alerts);
    }
  }

  lemma OutTotal(ws: seq<Worker>, results: seq<State>, arrived: seq<State>, out: State, k: Kind, measure: Item -> nat)
    requires Finished(ws, results, arrived, out) && MergeLimit(k).Unlimited?
    ensures Sum(List(out, k), measure) == Sum(ws, TotalOf(k, measure))
  {
    hide ResultList, Finished;
    NothingLost(ws, results, arrived, out, k);
    SumPermuted(List(out, k), AllItems(ws, k), measure);
    SumStreamAs(ws, w => ResultList(w, k), measure, TotalOf(k, measure));
  }

  lemma OutSummary(ws: seq<Worker>, results: seq<State>, arrived: seq<State>, out: State)
    requires Finished(ws, results, arrived, out)
    ensures out.summary == SummaryOf(out)
  {
    CollectsSummary(arrived, out);
  }

  /** Guests are conserved from the per-source loops to the summary: running and stopped ones are all
      guests; the hosts' counters add up to no more than the summary's, and to exactly those when and
      only when every guest's node is listed by its source. */
  lemma GuestsConservedOverall(ws: seq<Worker>, results: seq<State>, arrived: seq<State>, out: State)
    requires Finished(ws, results, arrived, out)
    ensures out.summary.guestsRunning + out.summary.guestsStopped == |List(out, Guests)|
    ensures Sum(List(out, Hosts), HostRunning) <= out.summary.guestsRunning
    ensures Sum(List(out, Hosts), HostStopped) <= out.summary.guestsStopped
    ensures (forall w | w in ws :: Housed(w)) <==>
            (Sum(List(out, Hosts), HostRunning) == out.summary.guestsRunning
             && Sum(List(out, Hosts), HostStopped) == out.summary.guestsStopped)
  {
    FinishedResults(ws, results, arrived, out);
    hide Total, Housed, Sum, Finished;
    OutSummary(ws, results, arrived, out);
    GuestsAllCounted(List(out, Guests));
    OutTotal(ws, results, arrived, out, Hosts, HostRunning);
    OutTotal(ws, results, arrived, out, Hosts, HostStopped);
    OutTotal(ws, results, arrived, out, Guests, RunningGuest);
    OutTotal(ws, results, arrived, out, Guests, StoppedGuest);
    forall w | w in ws
      ensures Total(w, Hosts, HostRunning) <= Total(w, Guests, RunningGuest)
      ensures Total(w, Hosts, HostStopped) <= Total(w, Guests, StoppedGuest)
      ensures Housed(w) <==> Balanced(w)
    {
      WorkerConserves(w);
    }
    SumBelow(ws, TotalOf(Hosts, HostRunning), TotalOf(Guests, RunningGuest));
    SumBelow(ws, TotalOf(Hosts, HostStopped), TotalOf(Guests, StoppedGuest));
  }

  /** And so they are in the compact view that the device fetches. */
  lemma CompactConservesGuests(ws: seq<Worker>, results: seq<State>, arrived: seq<State>, out: State)
    requires Finished(ws, results, arrived, out)
    ensures var view := Compacted(out);
            && view.summary == out.summary
            && view.summary.guestsRunning + view.summary.guestsStopped == |List(view, Guests)|
            && Sum(List(view, Hosts), HostRunning) <= view.summary.guestsRunning
            && Sum(List(view, Hosts), HostStopped) <= view.summary.guestsStopped
            && ((forall w | w in ws :: Housed(w)) <==>
                (Sum(List(view, Hosts), HostRunning) == view.summary.guestsRunning
                 && Sum(List(view, Hosts), HostStopped) == view.summary.guestsStopped))
  {
    GuestsConservedOverall(ws, results, arrived, out);
    CollectsFinalized(arrived, out);
    CompactKeepsSummary(out);
    CompactLists(out, Hosts);
    CompactLists(out, Guests);
    hide Finished, Housed, Compacted, Sum, HostRunning, HostStopped;
  }

  lemma CollectsFinalized(arrived: seq<State>, out: State)
    requires Collects(arrived, out)
    ensures out == Finalized(out)
  {
  }

  // ---- Alerts and the summary ----

  lemma ItemsHave<T>(s: seq<T>, item: T -> Item, x: T)
    requires x in s
    ensures item(x) in Map(s, item)
  {
  }

  /** An alert in a finished state is covered by the summary. */
  lemma SummaryCovers(out: State, item: Item)
    requires out.summary == SummaryOf(out) && item in List(out, Alerts)
    requires Source.NeedsAttention(item.severity)
    ensures SourceTheorems.AtLeast(out.summary.health, item.severity)
  {
  }

  /** An alert of any source is in the merged list. */
  lemma AlertListed(ws: seq<Worker>, results: seq<State>, arrived: seq<State>, out: State, w: Worker, al: Source.Alert)
    requires Finished(ws, results, arrived, out) && w in ws && al in Contribution(w).alerts
    ensures AlertItem(w.client.id)(al) in List(out, Alerts)
    ensures exists i :: i in List(out, Alerts) && i.id == al.id && i.source == w.client.id
                        && i.host == al.host && i.severity == al.severity
  {
    hide Contribution, Finished;
    var item := AlertItem(w.client.id)(al);
    ItemsHave(Contribution(w).alerts, AlertItem(w.client.id), al);
    StreamHas(ws, w => ResultList(w, Alerts), w, item);
    NothingLost(ws, results, arrived, out, Alerts);
    assert item in multiset(List(out, Alerts));
  }

  /** And the summary is at least as severe. */
  lemma AlertReachesSummary(ws: seq<Worker>, results: seq<State>, arrived: seq<State>, out: State,
                            w: Worker, al: Source.Alert)
    requires Finished(ws, results, arrived, out)
    requires w in ws && al in Contribution(w).alerts && Source.NeedsAttention(al.severity)
    ensures AlertItem(w.client.id)(al) in List(out, Alerts)
    ensures SourceTheorems.AtLeast(out.summary.health, al.severity)
  {
    hide Contribution, Finished, SummaryOf;
    AlertListed(ws, results, arrived, out, w, al);
    OutSummary(ws, results, arrived, out);
    SummaryCovers(out, AlertItem(w.client.id)(al));
  }

  /** A source that cannot be reached makes the summary critical. */
  lemma UnreachableReachesSummary(ws: seq<Worker>, results: seq<State>, arrived: seq<State>, out: State, w: Worker)
    requires Finished(ws, results, arrived, out) && w in ws && w.answers.None?
    ensures out.summary.health == Critical
    ensures exists i :: i in List(out, Hosts) && i.id == w.client.id + "/unreachable" && i.source == w.client.id
                        && !i.online && i.severity == Critical
    ensures exists i :: i in List(out, Alerts) && i.id == w.client.id + "/source-offline"
                        && i.host == w.client.id + "/unreachable" && i.severity == Critical
  {
    hide List, Finished;
    var al, h := Contribution(w).alerts[0], Contribution(w).hosts[0];
    AlertReachesSummary(ws, results, arrived, out, w, al);
    AlertListed(ws, results, arrived, out, w, al);
    HostListed(ws, results, arrived, out, w, h);
  }

  /** A host of any source is in the merged list. */
  lemma HostListed(ws: seq<Worker>, results: seq<State>, arrived: seq<State>, out: State, w: Worker, h: Source.Host)
    requires Finished(ws, results, arrived, out) && w in ws && h in Contribution(w).hosts
    ensures HostItem(w.client.id)(h) in List(out, Hosts)
    ensures exists i :: i in List(out, Hosts) && i.id == h.id && i.source == w.client.id && i.online == h.online
                        && i.severity == h.health && i.running == h.guestsRunning && i.stopped == h.guestsStopped
  {
    hide Contribution, Finished;
    var item := HostItem(w.client.id)(h);
    ItemsHave(Contribution(w).hosts, HostItem(w.client.id), h);
    StreamHas(ws, w => ResultList(w, Hosts), w, item);
    NothingLost(ws, results, arrived, out, Hosts);
    assert item in multiset(List(out, Hosts));
  }

  /** So are its guests and its storages. */
  lemma GuestListed(ws: seq<Worker>, results: seq<State>, arrived: seq<State>, out: State, w: Worker, g: Source.Guest)
    requires Finished(ws, results, arrived, out) && w in ws && g in Contribution(w).guests
    ensures exists i :: i in List(out, Guests) && i.id == g.id && i.source == w.client.id
                        && i.host == Source.HostID(w.client, g.node)
                        && i.status == g.status && i.pinned == g.pinned && i.severity == g.health
  {
    hide Contribution, Finished;
    var item := GuestItem(w.client.id)(g);
    ItemsHave(Contribution(w).guests, GuestItem(w.client.id), g);
    StreamHas(ws, w => ResultList(w, Guests), w, item);
    NothingLost(ws, results, arrived, out, Guests);
    assert item in multiset(List(out, Guests));
  }

  lemma StorageListed(ws: seq<Worker>, results: seq<State>, arrived: seq<State>, out: State,
                      w: Worker, s: Source.Storage)
    requires Finished(ws, results, arrived, out) && w in ws && s in Contribution(w).storages
    ensures exists i :: i in List(out, Storages) && i.id == s.id && i.source == w.client.id
                        && i.host == Source.HostID(w.client, s.node)
                        && i.name == s.name && i.status == s.status && i.severity == s.health
  {
    hide Contribution, Finished;
    var item := StorageItem(w.client.id)(s);
    ItemsHave(Contribution(w).storages, StorageItem(w.client.id), s);
    StreamHas(ws, w => ResultList(w, Storages), w, item);
    NothingLost(ws, results, arrived, out, Storages);
    assert item in multiset(List(out, Storages));
  }

  /** Some source emits an alert of at least the level. */
  ghost predicate SomeAlert(ws: seq<Worker>, level: Health) {
    exists w, al :: w in ws && al in Contribution(w).alerts && SourceTheorems.AtLeast(al.severity, level)
  }

  ghost predicate SomeOffline(ws: seq<Worker>) {
    exists w, h :: w in ws && h in Contribution(w).hosts && !h.online
  }

  lemma ItemMember<T>(s: seq<T>, item: T -> Item, i: Item) returns (x: T)
    requires i in Map(s, item)
    ensures x in s && item(x) == i
  {
    var k :| 0 <= k < |s| && Map(s, item)[k] == i;
    x := s[k];
  }

  /** Each alert of a finished state is one of a source. */
  lemma AlertOf(ws: seq<Worker>, results: seq<State>, arrived: seq<State>, out: State, i: Item)
    returns (w: Worker, al: Source.Alert)
    requires Finished(ws, results, arrived, out) && i in List(out, Alerts)
    ensures w in ws && al in Contribution(w).alerts && al.severity == i.severity
  {
    hide Finished, Contribution, List, NodeByNode, CallItems;
    NothingLost(ws, results, arrived, out, Alerts);
    assert i in multiset(List(out, Alerts));
    w := WorkerOf(ws, Alerts, i);
    hide ResultList;
    al := AlertOfItem(w, i);
  }

  lemma WorkerOf(ws: seq<Worker>, k: Kind, i: Item) returns (w: Worker)
    requires i in AllItems(ws, k)
    ensures w in ws && i in ResultList(w, k)
  {
    hide ResultList;
    w := StreamMember(ws, w => ResultList(w, k), i);
  }

  lemma AlertOfItem(w: Worker, i: Item) returns (al: Source.Alert)
    requires i in ResultList(w, Alerts)
    ensures al in Contribution(w).alerts && al.severity == i.severity
  {
    hide Contribution;
    al := ItemMember(Contribution(w).alerts, AlertItem(w.client.id), i);
  }

  lemma OutAlerts(ws: seq<Worker>, results: seq<State>, arrived: seq<State>, out: State, level: Health)
    requires Finished(ws, results, arrived, out)
    ensures SomeAlert(ws, level) <==> exists i :: i in List(out, Alerts) && SourceTheorems.AtLeast(i.severity, level)
  {
    hide Finished, Contribution, List;
    if w, al :| w in ws && al in Contribution(w).alerts && SourceTheorems.AtLeast(al.severity, level) {
      AlertListed(ws, results, arrived, out, w, al);
    }
    if i :| i in List(out, Alerts) && SourceTheorems.AtLeast(i.severity, level) {
      var w, al := AlertOf(ws, results, arrived, out, i);
    }
  }

  lemma OutHosts(ws: seq<Worker>, results: seq<State>, arrived: seq<State>, out: State)
    requires Finished(ws, results, arrived, out)
    ensures SomeOffline(ws) <==> exists i :: i in List(out, Hosts) && !i.online
  {
    hide Finished, Contribution, List;
    if w, h :| w in ws && h in Contribution(w).hosts && !h.online {
      HostListed(ws, results, arrived, out, w, h);
    }
    if i :| i in List(out, Hosts) && !i.online {
      NothingLost(ws, results, arrived, out, Hosts);
      assert i in multiset(List(out, Hosts));
      var w := WorkerOf(ws, Hosts, i);
      var h := ItemMember(Contribution(w).hosts, HostItem(w.client.id), i);
    }
  }

  lemma OverallMeaning(alerts: seq<Item>, hosts: seq<Item>, level: Health)
    requires Source.NeedsAttention(level)
    ensures SourceTheorems.AtLeast(OverallHealth(alerts, hosts), level) <==>
              || (exists i :: i in alerts && SourceTheorems.AtLeast(i.severity, level))
              || exists i :: i in hosts && !i.online
  {
    if i :| i in alerts && SourceTheorems.AtLeast(i.severity, level) {
      var k :| 0 <= k < |alerts| && alerts[k] == i;
      assert HasSeverity(alerts, i.severity);
    }
    if i :| i in hosts && !i.online {
      var k :| 0 <= k < |hosts| && hosts[k] == i;
    }
  }

  /** The summary is at a level exactly when some source emits an alert of that level, or some host is
      not online: the health of an online host does not reach it by itself. */
  lemma SummaryExplained(ws: seq<Worker>, results: seq<State>, arrived: seq<State>, out: State, level: Health)
    requires Finished(ws, results, arrived, out) && Source.NeedsAttention(level)
    ensures SourceTheorems.AtLeast(out.summary.health, level) <==> SomeAlert(ws, level) || SomeOffline(ws)
  {
    hide Finished, SomeAlert, SomeOffline, List, OverallHealth;
    OutSummary(ws, results, arrived, out);
    OutAlerts(ws, results, arrived, out, level);
    OutHosts(ws, results, arrived, out);
    OverallMeaning(List(out, Alerts), List(out, Hosts), level);
  }

  /** A suspect device at any depth of any pool of any listed node makes the pool, the host and the
      summary at least a warning, whatever order the workers finish in. */
  lemma SuspectDeviceReachesSummary(ws: seq<Worker>, results: seq<State>, arrived: seq<State>, out: State,
                                    w: Worker, n: string, p: Source.PoolAnswer, l: Zfs.Label)
    requires Finished(ws, results, arrived, out) && w in ws && w.answers.Some?
    requires n in SourceCollector.Nodes(w.client, w.answers.value)
    requires p in SourceCollector.AnswerOf(w.answers.value, n).pools && p.detail.Some?
    requires l in Zfs.Flatten(p.detail.value.children) && Zfs.Suspect(l)
    ensures Source.NeedsAttention(Source.PoolHealth(p))
    ensures SourceTheorems.AtLeast(SourceCollector.FinalHost(w.client, w.answers.value, n).health, Warning)
    ensures SourceTheorems.AtLeast(out.summary.health, Warning)
  {
    var c, a, o := w.client, w.answers.value, w.orders;
    FinishedResults(ws, results, arrived, out);
    hide Finished;
    SourceTheorems.SuspectDeviceReported(c, a, o, n, p, l);
    hide Source.PoolHealth, SourceCollector.AllAlerts, SourceCollector.FinalHost;
    var host := Source.HostID(c, n);
    var al := Source.Alert(host + "/" + p.name + "/zfs", host, Source.PoolHealth(p), Source.ZfsPool);
    AlertReachesSummary(ws, results, arrived, out, w, al);
  }
}
