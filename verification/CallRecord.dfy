/** The calls of one source, in the order in which it happens to make them, and what of them is recorded. */
module CallRecord {
  import opened Capabilities
  import opened Folds
  import opened Ordering
  import Display
  import Source
  import SourceCollector

  datatype ClusterCall = ClusterCall(name: string, endpoint: string, outcome: Outcome)

  datatype PoolDetail = PoolDetail(pool: string, outcome: Outcome)

  /** How the recorded calls on one node end. */
  datatype NodeOutcomes = NodeOutcomes(certificates: Outcome, rrd: Outcome, pools: Outcome, details: seq<PoolDetail>,
                                       updates: Outcome, repositories: Outcome, subscription: Outcome)

  const ALL_BROKEN := NodeOutcomes(Broken, Broken, Broken, [], Broken, Broken, Broken)

  /** How the calls of a source end: those before the host table, those on each node, and those after. */
  datatype Outcomes = Outcomes(cluster: seq<ClusterCall>, nodes: map<string, NodeOutcomes>, later: seq<Call>)

  function OutcomesOn(g: Outcomes, n: string): NodeOutcomes {
    if n in g.nodes then g.nodes[n] else ALL_BROKEN
  }

  function ClusterCalls(c: Source.Client, cluster: seq<ClusterCall>): (calls: seq<Call>)
    ensures |calls| == |cluster|
  {
    Map(cluster, (k: ClusterCall) => Call(c.id, "", k.name, k.endpoint, k.outcome))
  }

  function NodeCall(c: Source.Client, n: string, name: string, path: string, outcome: Outcome): Call {
    Call(c.id, Source.HostID(c, n), name, "/api2/json/nodes/" + n + path, outcome)
  }

  /** A pool's detail is recorded only when the call for it fails. */
  function DetailCalls(c: Source.Client, n: string, d: PoolDetail): seq<Call> {
    if d.outcome.Answered? then [] else [NodeCall(c, n, "zfs_pool_detail", "/disks/zfs/" + d.pool, d.outcome)]
  }

  function CallsOn(c: Source.Client, n: string, o: NodeOutcomes): (calls: seq<Call>)
    ensures |calls| >= 6
  {
    [NodeCall(c, n, "node_certificates", "/certificates/info", o.certificates),
     NodeCall(c, n, "node_rrd", "/rrddata", o.rrd),
     NodeCall(c, n, "zfs_pools", "/disks/zfs", o.pools)]
    + (if o.pools.Answered? then Stream(o.details, d => DetailCalls(c, n, d), []) else [])
    + [NodeCall(c, n, "apt_updates", "/apt/update", o.updates),
       NodeCall(c, n, "apt_repositories", "/apt/repositories", o.repositories),
       NodeCall(c, n, "subscription", "/subscription", o.subscription)]
  }

  function Unread(d: PoolDetail): nat { if d.outcome.Answered? then 0 else 1 }

  lemma {:induction false} DetailsCounted(c: Source.Client, n: string, details: seq<PoolDetail>)
    ensures |Stream(details, d => DetailCalls(c, n, d), [])| == Sum(details, Unread)
  {
    if details != [] {
      var front, last := details[..|details| - 1], details[|details| - 1];
      DetailsCounted(c, n, front);
      SumSnoc(front, last, Unread);
      assert details == front + [last];
    }
  }

  /** On a node, six calls are recorded, and one more for each listed pool whose detail could not be read. */
  lemma CallsCounted(c: Source.Client, n: string, o: NodeOutcomes)
    ensures |CallsOn(c, n, o)| == 6 + if o.pools.Answered? then Sum(o.details, Unread) else 0
    ensures forall x | x in CallsOn(c, n, o) :: "/api2/json/nodes/" + n + "/" <= x.endpoint
  {
    DetailsCounted(c, n, o.details);
    forall x | x in CallsOn(c, n, o) ensures "/api2/json/nodes/" + n + "/" <= x.endpoint {
      if o.pools.Answered? && x in Stream(o.details, d => DetailCalls(c, n, d), []) {
        var d := StreamMember(o.details, d => DetailCalls(c, n, d), x);
      }
    }
  }

  function NodeCalls(c: Source.Client, g: Outcomes): string -> seq<Call> {
    n => CallsOn(c, n, OutcomesOn(g, n))
  }

  function CallsOnNodes(c: Source.Client, g: Outcomes, order: seq<string>): seq<Call> {
    Stream(order, NodeCalls(c, g), [])
  }

  /** All calls of a source that visits its host table in this order. */
  function Made(c: Source.Client, g: Outcomes, order: seq<string>): seq<Call> {
    ClusterCalls(c, g.cluster) + CallsOnNodes(c, g, order) + g.later
  }

  /** What is recorded of them. */
  function Recorded(c: Source.Client, g: Outcomes, order: seq<string>): seq<Display.Item> {
    Take(Items(Made(c, g, order)), MAX_CAPABILITIES)
  }

  /** The recording loop, from the cluster's calls over the nodes' to the rest. */
  method RecordSource(c: Source.Client, g: Outcomes, order: seq<string>) returns (recorded: seq<Display.Item>)
    ensures recorded == Recorded(c, g, order)
  {
    hide CallsOn, ClusterCalls, Items;
    var calls := ClusterCalls(c, g.cluster);
    for i := 0 to |order|
      invariant calls == ClusterCalls(c, g.cluster) + CallsOnNodes(c, g, order[..i])
    {
      StreamStep(order, i, NodeCalls(c, g), []);
      calls := calls + CallsOn(c, order[i], OutcomesOn(g, order[i]));
    }
    assert order[..|order|] == order;
    recorded := Record(calls + g.later);
  }

  /** The bound does not bite between the nodes: all of their calls fit, or none does, or there is only
      one node to visit. */
  predicate Settled(c: Source.Client, g: Outcomes, order: seq<string>) {
    || |g.cluster| + |CallsOnNodes(c, g, order)| <= MAX_CAPABILITIES
    || |g.cluster| >= MAX_CAPABILITIES
    || |order| <= 1
  }

  lemma {:induction false} ItemsConcat(a: seq<Call>, b: seq<Call>)
    ensures Items(a + b) == Items(a) + Items(b)
  {
  }

  /** The calls on the nodes are the same in any order. */
  lemma NodeCallsAgree(c: Source.Client, g: Outcomes, nodes: set<string>, o: seq<string>, p: seq<string>)
    requires SourceCollector.Visits(o, nodes) && SourceCollector.Visits(p, nodes)
    ensures multiset(CallsOnNodes(c, g, o)) == multiset(CallsOnNodes(c, g, p))
    ensures |CallsOnNodes(c, g, o)| == |CallsOnNodes(c, g, p)|
    ensures |o| == |p|
  {
    SourceCollector.VisitsIsSet(o, nodes);
    SourceCollector.VisitsIsSet(p, nodes);
    StreamPermuted(o, p, NodeCalls(c, g));
    assert |multiset(CallsOnNodes(c, g, o))| == |CallsOnNodes(c, g, o)|;
    assert |multiset(CallsOnNodes(c, g, p))| == |CallsOnNodes(c, g, p)|;
    assert |multiset(o)| == |o| && |multiset(p)| == |p|;
  }

  lemma {:induction false} ItemsPermuted(a: seq<Call>, b: seq<Call>)
    requires multiset(a) == multiset(b)
    ensures multiset(Items(a)) == multiset(Items(b))
    decreases |a|
  {
    ItemsAreStream(a);
    ItemsAreStream(b);
    StreamPermuted(a, b, x => [ItemOf(x)]);
  }

  lemma {:induction false} ItemsAreStream(calls: seq<Call>)
    ensures Items(calls) == Stream(calls, x => [ItemOf(x)], [])
  {
    if calls != [] {
      ItemsAreStream(calls[..|calls| - 1]);
      assert Items(calls) == Items(calls[..|calls| - 1]) + [ItemOf(calls[|calls| - 1])];
    }
  }

  /** A prefix that reaches past both middles cuts equally much of what follows. */
  lemma TakeAcross<T>(a: seq<T>, b: seq<T>, c: seq<T>, d: seq<T>, n: nat)
    requires multiset(b) == multiset(c) && |b| == |c| && (|a| + |b| <= n || n <= |a|)
    ensures multiset(Take(a + b + d, n)) == multiset(Take(a + c + d, n))
  {
    if n <= |a| {
      assert Take(a + b + d, n) == a[..n] == Take(a + c + d, n);
    } else {
      var rest := Take(d, n - |a| - |b|);
      assert Take(a + b + d, n) == a + b + rest && Take(a + c + d, n) == a + c + rest;
    }
  }

  lemma SameOrder(nodes: set<string>, o: seq<string>, p: seq<string>)
    requires SourceCollector.Visits(o, nodes) && SourceCollector.Visits(p, nodes) && |o| == |p| <= 1
    ensures o == p
  {
    if o != [] { assert o[0] in p; }
  }

  /** Where the bound does not bite between the nodes, every order of visiting records the same calls. */
  lemma RecordsAgree(c: Source.Client, g: Outcomes, nodes: set<string>, o: seq<string>, p: seq<string>)
    requires SourceCollector.Visits(o, nodes) && SourceCollector.Visits(p, nodes) && Settled(c, g, o)
    ensures multiset(Recorded(c, g, o)) == multiset(Recorded(c, g, p))
  {
    hide CallsOnNodes, SourceCollector.Visits, ClusterCalls, Items, Made;
    NodeCallsAgree(c, g, nodes, o, p);
    if |o| <= 1 {
      SameOrder(nodes, o, p);
    } else {
      var first, b, b' := ClusterCalls(c, g.cluster), CallsOnNodes(c, g, o), CallsOnNodes(c, g, p);
      ItemsPermuted(b, b');
      MadeItems(c, g, o);
      MadeItems(c, g, p);
      TakeAcross(Items(first), Items(b), Items(b'), Items(g.later), MAX_CAPABILITIES);
    }
  }

  lemma MadeItems(c: Source.Client, g: Outcomes, o: seq<string>)
    ensures Items(Made(c, g, o)) == Items(ClusterCalls(c, g.cluster)) + Items(CallsOnNodes(c, g, o)) + Items(g.later)
  {
  }

  // ---- Where it does bite ----

  lemma {:induction false} MarkAll<T>(s: seq<T>, mark: T -> nat, value: nat)
    requires forall x | x in s :: mark(x) == value
    requires value <= 1
    ensures Sum(s, mark) == if value == 1 then |s| else 0
  {
    if s != [] {
      assert forall x | x in s[1..] :: x in s;
      MarkAll(s[1..], mark, value);
    }
  }

  /** How many marked items a prefix holds, when they come right after unmarked ones. */
  lemma MarkedPrefix<T>(p: seq<T>, a: seq<T>, rest: seq<T>, n: nat, mark: T -> nat)
    requires forall x | x in a :: mark(x) == 1
    requires forall x | x in p :: mark(x) == 0
    requires |p| <= n <= |p| + |a|
    ensures Sum(Take(p + a + rest, n), mark) == n - |p|
  {
    var part := a[..n - |p|];
    assert Take(p + a + rest, n) == p + part;
    MarkAll(p, mark, 0);
    MarkAll(part, mark, 1);
    SumConcat(p, part, mark);
  }

  /** And when the prefix goes on into further unmarked ones, or stops before the marked ones. */
  lemma MarkedWithin<T>(p: seq<T>, a: seq<T>, b: seq<T>, rest: seq<T>, n: nat, mark: T -> nat)
    requires forall x | x in a :: mark(x) == 1
    requires forall x | x in p :: mark(x) == 0
    requires forall x | x in b :: mark(x) == 0
    requires |p| + |a| <= n <= |p| + |a| + |b|
    ensures Sum(Take(p + a + b + rest, n), mark) == |a|
  {
    var part := b[..n - |p| - |a|];
    assert Take(p + a + b + rest, n) == p + a + part;
    MarkAll(p, mark, 0);
    MarkAll(a, mark, 1);
    MarkAll(part, mark, 0);
    SumConcat(p + a, part, mark);
    SumConcat(p, a, mark);
  }

  lemma Unmarked<T>(p: seq<T>, rest: seq<T>, n: nat, mark: T -> nat)
    requires forall x | x in p :: mark(x) == 0
    requires n <= |p|
    ensures Sum(Take(p + rest, n), mark) == 0
  {
    assert Take(p + rest, n) == p[..n];
    MarkAll(p[..n], mark, 0);
  }

  lemma MarkedFirst<T>(p: seq<T>, a: seq<T>, b: seq<T>, d: seq<T>, n: nat, mark: T -> nat)
    requires forall x | x in a :: mark(x) == 1
    requires forall x | x in p :: mark(x) == 0
    requires forall x | x in b :: mark(x) == 0
    requires |p| <= n <= |p| + |a| + |b|
    ensures Sum(Take(p + a + b + d, n), mark) == if n - |p| <= |a| then n - |p| else |a|
  {
    if n <= |p| + |a| {
      assert p + a + b + d == p + a + (b + d);
      MarkedPrefix(p, a, b + d, n, mark);
    } else {
      MarkedWithin(p, a, b, d, n, mark);
    }
  }

  lemma MarkedLast<T>(p: seq<T>, a: seq<T>, b: seq<T>, d: seq<T>, n: nat, mark: T -> nat)
    requires forall x | x in a :: mark(x) == 1
    requires forall x | x in p :: mark(x) == 0
    requires forall x | x in b :: mark(x) == 0
    requires |p| <= n <= |p| + |a| + |b|
    ensures Sum(Take(p + b + a + d, n), mark) == if n - |p| <= |b| then 0 else n - |p| - |b|
  {
    assert forall x | x in p + b :: x in p || x in b;
    if n <= |p| + |b| {
      assert p + b + a + d == (p + b) + (a + d);
      Unmarked(p + b, a + d, n, mark);
    } else {
      MarkedPrefix(p + b, a, d, n, mark);
    }
  }

  /** A bound between two blocks that can be told apart keeps other items when the blocks change places. */
  lemma BoundBites<T>(p: seq<T>, a: seq<T>, b: seq<T>, d: seq<T>, n: nat, mark: T -> nat)
    requires forall x | x in a :: mark(x) == 1
    requires forall x | x in p :: mark(x) == 0
    requires forall x | x in b :: mark(x) == 0
    requires a != [] && b != [] && |p| < n < |p| + |a| + |b|
    ensures multiset(Take(p + a + b + d, n)) != multiset(Take(p + b + a + d, n))
  {
    MarkedFirst(p, a, b, d, n, mark);
    MarkedLast(p, a, b, d, n, mark);
    if multiset(Take(p + a + b + d, n)) == multiset(Take(p + b + a + d, n)) {
      SumPermuted(Take(p + a + b + d, n), Take(p + b + a + d, n), mark);
    }
  }

  /** The same nodes, the first one visited last. */
  function Rotated(order: seq<string>): (r: seq<string>)
    requires order != []
    ensures |r| == |order|
  {
    order[1..] + [order[0]]
  }

  lemma RotatedVisits(order: seq<string>, nodes: set<string>)
    requires order != [] && SourceCollector.Visits(order, nodes)
    ensures SourceCollector.Visits(Rotated(order), nodes)
  {
    var r := Rotated(order);
    assert forall i | 0 <= i < |order| - 1 :: r[i] == order[i + 1];
    assert r[|order| - 1] == order[0];
    forall n | n in nodes ensures n in r {
      var i :| 0 <= i < |order| && order[i] == n;
      assert r[if i == 0 then |order| - 1 else i - 1] == n;
    }
  }

  function OfHost(host: string): Display.Item -> nat {
    (i: Display.Item) => if i.host == host then 1 else 0
  }

  lemma {:induction false} HostsOfNode(c: Source.Client, n: string, o: NodeOutcomes, x: Call)
    requires x in CallsOn(c, n, o)
    ensures x.host == Source.HostID(c, n) && x.source == c.id
  {
    if o.pools.Answered? && x in Stream(o.details, d => DetailCalls(c, n, d), []) {
      var d := StreamMember(o.details, d => DetailCalls(c, n, d), x);
    }
  }

  /** The items of one node's calls belong to its host. */
  lemma MarksOfNode(c: Source.Client, g: Outcomes, n: string)
    ensures forall i | i in Items(CallsOn(c, n, OutcomesOn(g, n))) :: OfHost(Source.HostID(c, n))(i) == 1
  {
    var calls := CallsOn(c, n, OutcomesOn(g, n));
    hide CallsOn;
    forall i | i in Items(calls) ensures i.host == Source.HostID(c, n) {
      var k :| 0 <= k < |calls| && Items(calls)[k] == i;
      HostsOfNode(c, n, OutcomesOn(g, n), calls[k]);
    }
  }

  /** None of the items of other nodes' calls, and none of the cluster's, does. */
  lemma MarksOfOthers(c: Source.Client, g: Outcomes, others: seq<string>, n: string)
    requires n !in others
    ensures forall i | i in Items(CallsOnNodes(c, g, others)) :: OfHost(Source.HostID(c, n))(i) == 0
  {
    var calls := CallsOnNodes(c, g, others);
    hide CallsOn;
    forall i | i in Items(calls) ensures i.host != Source.HostID(c, n) {
      var k :| 0 <= k < |calls| && Items(calls)[k] == i;
      var m := StreamMember(others, NodeCalls(c, g), calls[k]);
      HostsOfNode(c, m, OutcomesOn(g, m), calls[k]);
      if Source.HostID(c, m) == Source.HostID(c, n) { Source.HostIDInjective(c, m, n); }
    }
  }

  lemma MarksOfCluster(c: Source.Client, g: Outcomes, n: string)
    ensures forall i | i in Items(ClusterCalls(c, g.cluster)) :: OfHost(Source.HostID(c, n))(i) == 0
  {
    assert |Source.HostID(c, n)| > 0;
  }

  lemma {:induction false} CallsOnFirst(c: Source.Client, g: Outcomes, n: string, rest: seq<string>)
    ensures CallsOnNodes(c, g, [n] + rest) == CallsOn(c, n, OutcomesOn(g, n)) + CallsOnNodes(c, g, rest)
    ensures CallsOnNodes(c, g, rest + [n]) == CallsOnNodes(c, g, rest) + CallsOn(c, n, OutcomesOn(g, n))
  {
    hide CallsOn;
    StreamSnoc(rest, n, NodeCalls(c, g));
    StreamConcat([n], rest, NodeCalls(c, g), []);
    assert [n][..0] == [];
    assert Stream([n], NodeCalls(c, g), []) == CallsOn(c, n, OutcomesOn(g, n));
    StreamFrom(rest, NodeCalls(c, g), CallsOn(c, n, OutcomesOn(g, n)));
  }

  lemma {:induction false} SomeCall(c: Source.Client, g: Outcomes, order: seq<string>)
    ensures |CallsOnNodes(c, g, order)| >= 6 * |order|
  {
    hide CallsOn;
    if order != [] {
      SomeCall(c, g, order[..|order| - 1]);
    }
  }

  /** Where it does, visiting the first node last records other calls. */
  lemma RecordsDiffer(c: Source.Client, g: Outcomes, nodes: set<string>, order: seq<string>)
    requires SourceCollector.Visits(order, nodes) && !Settled(c, g, order)
    ensures SourceCollector.Visits(Rotated(order), nodes)
    ensures multiset(Recorded(c, g, order)) != multiset(Recorded(c, g, Rotated(order)))
  {
    RotatedVisits(order, nodes);
    var n, rest := order[0], order[1..];
    assert order == [n] + rest && n !in rest;
    CallsOnFirst(c, g, n, rest);
    SomeCall(c, g, rest);
    MarksOfNode(c, g, n);
    MarksOfOthers(c, g, rest, n);
    MarksOfCluster(c, g, n);
    DifferAt(c, g, n, rest);
  }

  lemma DifferAt(c: Source.Client, g: Outcomes, n: string, rest: seq<string>)
    requires |g.cluster| < MAX_CAPABILITIES < |g.cluster| + |CallsOnNodes(c, g, [n] + rest)|
    requires CallsOnNodes(c, g, [n] + rest) == CallsOn(c, n, OutcomesOn(g, n)) + CallsOnNodes(c, g, rest)
    requires CallsOnNodes(c, g, rest + [n]) == CallsOnNodes(c, g, rest) + CallsOn(c, n, OutcomesOn(g, n))
    requires |CallsOnNodes(c, g, rest)| > 0
    requires forall i | i in Items(CallsOn(c, n, OutcomesOn(g, n))) :: OfHost(Source.HostID(c, n))(i) == 1
    requires forall i | i in Items(CallsOnNodes(c, g, rest)) :: OfHost(Source.HostID(c, n))(i) == 0
    requires forall i | i in Items(ClusterCalls(c, g.cluster)) :: OfHost(Source.HostID(c, n))(i) == 0
    ensures multiset(Recorded(c, g, [n] + rest)) != multiset(Recorded(c, g, rest + [n]))
  {
    hide CallsOn, CallsOnNodes, ClusterCalls, OfHost;
    var p, a, b, d := Items(ClusterCalls(c, g.cluster)), Items(CallsOn(c, n, OutcomesOn(g, n))),
                      Items(CallsOnNodes(c, g, rest)), Items(g.later);
    MadeItems(c, g, [n] + rest);
    MadeItems(c, g, rest + [n]);
    ItemsConcat(CallsOn(c, n, OutcomesOn(g, n)), CallsOnNodes(c, g, rest));
    ItemsConcat(CallsOnNodes(c, g, rest), CallsOn(c, n, OutcomesOn(g, n)));
    assert p + (a + b) + d == p + a + b + d && p + (b + a) + d == p + b + a + d;
    BoundBites(p, a, b, d, MAX_CAPABILITIES, OfHost(Source.HostID(c, n)));
  }

  /** All orders of visiting the nodes record the same calls. */
  ghost predicate OrderFree(c: Source.Client, g: Outcomes, nodes: set<string>) {
    forall o, p | SourceCollector.Visits(o, nodes) && SourceCollector.Visits(p, nodes) ::
      multiset(Recorded(c, g, o)) == multiset(Recorded(c, g, p))
  }

  /** Exactly when the order of visiting matters: not when the calls of the cluster and of all nodes fit
      the bound together, nor when those of the cluster fill it alone, nor with a single node. */
  lemma OrderFreeExactly(c: Source.Client, g: Outcomes, nodes: set<string>, order: seq<string>)
    requires SourceCollector.Visits(order, nodes)
    ensures OrderFree(c, g, nodes) <==> Settled(c, g, order)
  {
    hide Recorded;
    if Settled(c, g, order) {
      forall o, p | SourceCollector.Visits(o, nodes) && SourceCollector.Visits(p, nodes)
        ensures multiset(Recorded(c, g, o)) == multiset(Recorded(c, g, p))
      {
        RecordsAgree(c, g, nodes, order, o);
        RecordsAgree(c, g, nodes, order, p);
      }
    } else {
      RecordsDiffer(c, g, nodes, order);
    }
  }

  /** With 86 nodes or more, the order always matters, unless the cluster's own calls fill the record. */
  lemma ManyNodesUnsettled(c: Source.Client, g: Outcomes, order: seq<string>)
    requires |order| >= 86 && |g.cluster| < MAX_CAPABILITIES
    ensures !Settled(c, g, order)
  {
    SomeCall(c, g, order);
  }
}
