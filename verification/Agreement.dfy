/** What two collections of the same answers have in common, whatever is left to chance in either. */
module Agreement {
  import opened Collection
  import opened Display
  import opened EndToEnd
  import opened Folds
  import opened Ordering
  import opened Text
  import opened Wrappers
  import CallRecord
  import Calls = Capabilities
  import Conservation
  import Source
  import SourceCollector

  /** The same clients get the same answers; each may visit its host table in other orders. */
  predicate SameAnswers(ws: seq<Worker>, vs: seq<Worker>) {
    && |ws| == |vs|
    && forall i | 0 <= i < |ws| :: vs[i] == ws[i].(orders := vs[i].orders)
  }

  lemma {:induction false} MapPermuted<T>(a: seq<T>, b: seq<T>, item: T -> Item)
    requires multiset(a) == multiset(b)
    ensures multiset(Map(a, item)) == multiset(Map(b, item))
  {
    MapIsStream(a, item);
    MapIsStream(b, item);
    StreamPermuted(a, b, x => [item(x)]);
  }

  lemma {:induction false} MapIsStream<T>(s: seq<T>, item: T -> Item)
    ensures Map(s, item) == Stream(s, x => [item(x)], [])
  {
    if s != [] {
      MapIsStream(s[..|s| - 1], item);
      assert Map(s, item) == Map(s[..|s| - 1], item) + [item(s[|s| - 1])];
    }
  }

  /** Where a worker's record of calls does not depend on its order. */
  predicate Settled(w: Worker) {
    w.answers.Some? ==> CallRecord.Settled(w.client, w.given.calls, w.orders.reading)
  }

  ghost predicate AllSettled(ws: seq<Worker>) {
    forall i {:trigger Settled(ws[i])} | 0 <= i < |ws| :: Settled(ws[i])
  }

  lemma NodeByNodeAgree(w: Worker, v: Worker, k: Kind)
    requires Runs(w) && Runs(v) && v == w.(orders := v.orders) && w.answers.Some?
    ensures multiset(NodeByNode(w, k)) == multiset(NodeByNode(v, k))
  {
    var nodes := SourceCollector.Nodes(w.client, w.answers.value);
    SourceCollector.VisitsIsSet(OrderOf(w, k), nodes);
    SourceCollector.VisitsIsSet(OrderOf(v, k), nodes);
    hide SourceCollector.Nodes;
    StreamPermuted(OrderOf(w, k), OrderOf(v, k), NodeItems(w.given, k));
  }

  lemma RecordsAgree(w: Worker, v: Worker)
    requires Runs(w) && Runs(v) && v == w.(orders := v.orders) && Settled(w)
    ensures multiset(ResultList(w, Capabilities)) == multiset(ResultList(v, Capabilities))
  {
    if w.answers.Some? {
      var nodes := SourceCollector.Nodes(w.client, w.answers.value);
      CallRecord.RecordsAgree(w.client, w.given.calls, nodes, w.orders.reading, v.orders.reading);
    }
  }

  lemma ContributedListsAgree(w: Worker, v: Worker)
    requires Runs(w) && Runs(v) && v == w.(orders := v.orders)
    ensures multiset(HostList(w)) == multiset(HostList(v)) && multiset(AlertList(w)) == multiset(AlertList(v))
    ensures StorageList(w) == StorageList(v) && GuestList(w) == GuestList(v)
  {
    hide Contribution, Runs, HostItem, GuestItem, StorageItem, AlertItem;
    ContributionsAgree(w, v);
    MapPermuted(Contribution(w).hosts, Contribution(v).hosts, HostItem(w.client.id));
    MapPermuted(Contribution(w).alerts, Contribution(v).alerts, AlertItem(w.client.id));
  }

  predicate IsContributed(k: Kind) {
    k in {Hosts, Guests, Storages, Alerts}
  }

  lemma ContributedAgree(w: Worker, v: Worker, k: Kind)
    requires Runs(w) && Runs(v) && v == w.(orders := v.orders) && IsContributed(k)
    ensures multiset(ResultList(w, k)) == multiset(ResultList(v, k))
  {
    hide Runs, HostList, GuestList, StorageList, AlertList, NodeByNode, CallItems;
    ContributedListsAgree(w, v);
  }

  lemma GivenAgree(w: Worker, v: Worker, k: Kind)
    requires Runs(w) && Runs(v) && v == w.(orders := v.orders) && !IsContributed(k) && k != Capabilities
    ensures multiset(ResultList(w, k)) == multiset(ResultList(v, k))
  {
    hide HostList, GuestList, StorageList, AlertList, NodeByNode, CallItems, Runs;
    if w.answers.Some? { NodeByNodeAgree(w, v, k); }
  }

  /** One worker's lists hold the same items whatever orders it visits its hosts in, its record of calls
      only where the bound does not bite between the nodes. */
  lemma WorkerListsAgree(w: Worker, v: Worker, k: Kind)
    requires Runs(w) && Runs(v) && v == w.(orders := v.orders)
    requires k == Capabilities ==> Settled(w)
    ensures multiset(ResultList(w, k)) == multiset(ResultList(v, k))
  {
    hide ResultList, Runs, Settled;
    if k == Capabilities {
      RecordsAgree(w, v);
    } else if IsContributed(k) {
      ContributedAgree(w, v, k);
    } else {
      GivenAgree(w, v, k);
    }
  }

  lemma ContributionsAgree(w: Worker, v: Worker)
    requires Runs(w) && Runs(v) && v == w.(orders := v.orders)
    ensures multiset(Contribution(w).hosts) == multiset(Contribution(v).hosts)
    ensures multiset(Contribution(w).alerts) == multiset(Contribution(v).alerts)
    ensures Contribution(w).storages == Contribution(v).storages && Contribution(w).guests == Contribution(v).guests
  {
    if w.answers.Some? {
      Conservation.VisitOrderIrrelevant(w.client, w.answers.value, w.orders, v.orders);
    }
  }

  lemma {:induction false} StreamsAgree(ws: seq<Worker>, vs: seq<Worker>, k: Kind)
    requires SameAnswers(ws, vs) && forall i | 0 <= i < |ws| :: Runs(ws[i]) && Runs(vs[i])
    requires k == Capabilities ==> AllSettled(ws)
    ensures multiset(AllItems(ws, k)) == multiset(AllItems(vs, k))
  {
    hide ResultList, Runs, Settled;
    if ws != [] {
      var n := |ws| - 1;
      assert forall i | 0 <= i < n :: ws[..n][i] == ws[i] && vs[..n][i] == vs[i];
      StreamsAgree(ws[..n], vs[..n], k);
      WorkerListsAgree(ws[n], vs[n], k);
    }
  }

  lemma AllRun(ws: seq<Worker>, results: seq<State>, arrived: seq<State>, out: State)
    requires Finished(ws, results, arrived, out)
    ensures forall i | 0 <= i < |ws| :: Runs(ws[i])
  {
    FinishedResults(ws, results, arrived, out);
  }

  /** What arrives in one collection and in another of the same answers is the same, list by list. */
  lemma ArrivalsAgree(ws: seq<Worker>, results: seq<State>, arrived: seq<State>, out: State,
                      vs: seq<Worker>, results': seq<State>, arrived': seq<State>, out': State, k: Kind)
    requires Finished(ws, results, arrived, out) && Finished(vs, results', arrived', out') && SameAnswers(ws, vs)
    requires k == Capabilities ==> AllSettled(ws)
    ensures multiset(Merged(arrived, k)) == multiset(Merged(arrived', k))
  {
    AllRun(ws, results, arrived, out);
    AllRun(vs, results', arrived', out');
    hide Finished, AllItems, Merged, Runs;
    ArrivedItems(ws, results, arrived, out, k);
    ArrivedItems(vs, results', arrived', out', k);
    StreamsAgree(ws, vs, k);
  }

  /** Two finished collections of the same answers agree on the key at every position of every list, for
      any orders in which the workers finish and in which each visits its hosts; on the whole list when
      its keys are distinct; and on the items of lists that are never cut. Of the capabilities this is so
      where the bound of every worker's record bites in none of its host tables. */
  lemma CollectionsAgree(ws: seq<Worker>, results: seq<State>, arrived: seq<State>, out: State,
                         vs: seq<Worker>, results': seq<State>, arrived': seq<State>, out': State, k: Kind)
    requires Finished(ws, results, arrived, out) && Finished(vs, results', arrived', out') && SameAnswers(ws, vs)
    requires k == Capabilities ==> AllSettled(ws)
    ensures Keys(List(out, k), KeyOf(k)) == Keys(List(out', k), KeyOf(k))
    ensures DistinctKeys(Merged(arrived, k), KeyOf(k)) ==> List(out, k) == List(out', k)
    ensures MergeLimit(k).Unlimited? ==> multiset(List(out, k)) == multiset(List(out', k))
    ensures |List(out, k)| == |List(out', k)|
  {
    ArrivalsAgree(ws, results, arrived, out, vs, results', arrived', out', k);
    CollectsKept(arrived, out, k);
    CollectsKept(arrived', out', k);
    hide Finished, SameAnswers, Merged, IsKept, KeyOf, List, MergeLimit;
    KeptAgree(k, Merged(arrived, k), Merged(arrived', k), List(out, k), List(out', k));
    assert |Keys(List(out, k), KeyOf(k))| == |List(out, k)| && |Keys(List(out', k), KeyOf(k))| == |List(out', k)|;
  }

  lemma UncutListsAgree(ws: seq<Worker>, results: seq<State>, arrived: seq<State>, out: State,
                        vs: seq<Worker>, results': seq<State>, arrived': seq<State>, out': State, k: Kind)
    requires Finished(ws, results, arrived, out) && Finished(vs, results', arrived', out') && SameAnswers(ws, vs)
    requires k in {Hosts, Guests, Alerts}
    ensures multiset(List(out, k)) == multiset(List(out', k))
  {
    NeverCut(k);
    hide Finished, SameAnswers, KeyOf, List;
    CollectionsAgree(ws, results, arrived, out, vs, results', arrived', out', k);
  }

  /** So their summaries are the same, whatever is left to chance in either. */
  lemma SummariesAgree(ws: seq<Worker>, results: seq<State>, arrived: seq<State>, out: State,
                       vs: seq<Worker>, results': seq<State>, arrived': seq<State>, out': State)
    requires Finished(ws, results, arrived, out) && Finished(vs, results', arrived', out') && SameAnswers(ws, vs)
    ensures out.summary == out'.summary
  {
    hide Finished, SameAnswers, KeyOf, SummaryOf, List, Merged, MergeLimit;
    OutSummary(ws, results, arrived, out);
    OutSummary(vs, results', arrived', out');
    UncutListsAgree(ws, results, arrived, out, vs, results', arrived', out', Hosts);
    UncutListsAgree(ws, results, arrived, out, vs, results', arrived', out', Guests);
    UncutListsAgree(ws, results, arrived, out, vs, results', arrived', out', Alerts);
    CollectionsAgree(ws, results, arrived, out, vs, results', arrived', out', Updates);
    SummaryIgnoresOrder(out, out');
  }

  // ---- The capabilities of one source ----

  /** Any workers can finish a collection. */
  lemma SomeFinished(ws: seq<Worker>) returns (results: seq<State>, out: State)
    requires forall i | 0 <= i < |ws| :: Runs(ws[i])
    ensures Finished(ws, results, results, out)
  {
    hide Runs, Result;
    results := Results(ws);
    InOrderArrives(results);
    out := SomeCollection(results);
    hide Arrives, Collects;
    forall i | 0 <= i < |ws| ensures IsResult(ws[i], results[i]) {
    }
  }

  lemma RecordedList(w: Worker)
    ensures |ResultList(w, Capabilities)| <= 512
    ensures w.answers.Some? ==>
              ResultList(w, Capabilities) == CallRecord.Recorded(w.client, w.given.calls, w.orders.reading)
  {
  }

  lemma OneWorkersItems(w: Worker, k: Kind)
    ensures AllItems([w], k) == ResultList(w, k)
  {
    hide ResultList;
    var none: seq<Worker> := [];
    StreamSnoc(none, w, w => ResultList(w, k));
    assert none + [w] == [w];
  }

  /** A collection from one source holds exactly the calls that its worker recorded. */
  lemma OneSourceCapabilities(w: Worker, results: seq<State>, arrived: seq<State>, out: State)
    requires Finished([w], results, arrived, out)
    ensures multiset(List(out, Capabilities)) == multiset(ResultList(w, Capabilities))
  {
    ArrivedItems([w], results, arrived, out, Capabilities);
    CollectsKept(arrived, out, Capabilities);
    RecordedList(w);
    hide Finished, Merged, ResultList, AllItems, IsKept, List, Deliver, Collects, Arrives;
    OneWorkersItems(w, Capabilities);
    assert |multiset(Merged(arrived, Capabilities))| == |Merged(arrived, Capabilities)|;
    assert |multiset(ResultList(w, Capabilities))| == |ResultList(w, Capabilities)|;
    KeptWhole(Capabilities, Merged(arrived, Capabilities), List(out, Capabilities));
  }

  /** Where the bound does bite in the host table of a single source, two collections of the same answers
      hold different capabilities: one that visits the nodes as this worker does, and one that visits
      its first node last. */
  lemma CapabilitiesMayDiffer(w: Worker)
    returns (v: Worker, results: seq<State>, out: State, results': seq<State>, out': State)
    requires Runs(w) && !Settled(w)
    ensures SameAnswers([w], [v])
    ensures Finished([w], results, results, out) && Finished([v], results', results', out')
    ensures multiset(List(out, Capabilities)) != multiset(List(out', Capabilities))
  {
    v := RotatedWorker(w);
    assert SameAnswers([w], [v]);
    hide ResultList, Runs, Settled, Finished, List, SameAnswers;
    results, out := SomeFinished([w]);
    results', out' := SomeFinished([v]);
    OneSourceCapabilities(w, results, results, out);
    OneSourceCapabilities(v, results', results', out');
  }

  lemma RotatedWorker(w: Worker) returns (v: Worker)
    requires Runs(w) && !Settled(w)
    ensures Runs(v) && v == w.(orders := v.orders)
    ensures multiset(ResultList(w, Capabilities)) != multiset(ResultList(v, Capabilities))
  {
    var nodes := SourceCollector.Nodes(w.client, w.answers.value);
    hide SourceCollector.Nodes, SourceCollector.Visits, CallRecord.Recorded, ResultList;
    CallRecord.RecordsDiffer(w.client, w.given.calls, nodes, w.orders.reading);
    v := w.(orders := w.orders.(reading := CallRecord.Rotated(w.orders.reading)));
    RecordedList(w);
    RecordedList(v);
  }

  // ---- A source for which it does ----

  function NodeOf(name: string): Source.Resource {
    Source.Resource("node", "node/" + name, name, name, "", "online", 0, 20, 100, 10, 100)
  }

  function ManyNodes(names: seq<string>): SourceCollector.Answers {
    SourceCollector.Answers(Map(names, NodeOf), [], map[], map[], [])
  }

  predicate Proper(names: seq<string>) {
    && (forall n | n in names :: n != "" && Trimmed(n))
    && forall i, j | 0 <= i < j < |names| :: names[i] != names[j]
  }

  lemma NodeNamed(c: Source.Client, name: string)
    requires name != "" && Trimmed(name)
    ensures Source.NodeName(c, NodeOf(name)) == name
  {
  }

  lemma NodesSnoc(c: Source.Client, front: seq<Source.Resource>, r: Source.Resource)
    requires r.kind == "node"
    ensures Source.NewHosts(c, front + [r]).Keys == Source.NewHosts(c, front).Keys + {Source.NodeName(c, r)}
  {
    hide Source.NodeName, Source.NewHost;
    assert (front + [r])[..|front|] == front;
  }

  lemma {:induction false} ManyNodesListed(c: Source.Client, names: seq<string>)
    requires forall n | n in names :: n != "" && Trimmed(n)
    ensures forall n :: n in SourceCollector.Nodes(c, ManyNodes(names)) <==> n in names
  {
    if names != [] {
      hide Source.NewHosts, Source.NodeName, Trimmed;
      var front, last := names[..|names| - 1], names[|names| - 1];
      assert forall n | n in front :: n in names;
      ManyNodesListed(c, front);
      assert Map(names, NodeOf) == Map(front, NodeOf) + [NodeOf(last)];
      NodesSnoc(c, Map(front, NodeOf), NodeOf(last));
      NodeNamed(c, last);
      assert forall n :: n in names <==> n in front || n == last;
    }
  }

  /** The first calls of every source, all answered. */
  const CLUSTER_CALLS: seq<CallRecord.ClusterCall> := [
    CallRecord.ClusterCall("cluster_status", "/api2/json/cluster/status", Calls.Answered),
    CallRecord.ClusterCall("cluster_options", "/api2/json/cluster/options", Calls.Answered),
    CallRecord.ClusterCall("backup_jobs", "/api2/json/cluster/backup", Calls.Answered),
    CallRecord.ClusterCall("ha_resources", "/api2/json/cluster/ha/resources", Calls.Answered),
    CallRecord.ClusterCall("ceph", "/api2/json/cluster/ceph/status", Calls.Answered),
    CallRecord.ClusterCall("storage_config", "/api2/json/storage", Calls.Answered)]

  function ManyNodesWorker(c: Source.Client, names: seq<string>): Worker {
    Worker(c, Some(ManyNodes(names)), Given(map[], map[], map[], CallRecord.Outcomes(CLUSTER_CALLS, map[], [])),
           SourceCollector.Orders(names, names, names))
  }

  /** Every source with 86 properly named nodes or more is one. */
  lemma ManyNodesDiffer(c: Source.Client, names: seq<string>)
    requires Proper(names) && |names| >= 86
    ensures Runs(ManyNodesWorker(c, names)) && !Settled(ManyNodesWorker(c, names))
  {
    ManyNodesListed(c, names);
    var w := ManyNodesWorker(c, names);
    hide SourceCollector.Nodes, ManyNodes;
    CallRecord.ManyNodesUnsettled(c, w.given.calls, names);
  }

  /** A hundred names: n, nn, nnn and so on. */
  function Names(count: nat): (names: seq<string>)
    ensures |names| == count
  {
    seq(count, i requires 0 <= i < count => seq(i + 1, _ => 'n'))
  }

  /** One source with a hundred nodes: the capabilities that a collection holds depend on the order in
      which the host table happens to be visited. */
  lemma HundredNodesDiffer(c: Source.Client)
    returns (w: Worker, v: Worker, results: seq<State>, out: State, results': seq<State>, out': State)
    ensures w == ManyNodesWorker(c, Names(100)) && SameAnswers([w], [v])
    ensures Finished([w], results, results, out) && Finished([v], results', results', out')
    ensures multiset(List(out, Capabilities)) != multiset(List(out', Capabilities))
  {
    var names := Names(100);
    assert Proper(names) by {
      assert forall i, j | 0 <= i < j < 100 :: |names[i]| != |names[j]|;
    }
    ManyNodesDiffer(c, names);
    w := ManyNodesWorker(c, names);
    hide ManyNodesWorker, Runs, Settled, Finished;
    v, results, out, results', out' := CapabilitiesMayDiffer(w);
  }
}
