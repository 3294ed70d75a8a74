/** Merging what the per-source workers deliver: the channel, the merge, the sorts and the cuts. */
module Collection {
  import opened Ordering
  import opened Folds
  import opened Health
  import opened Display

  /** The buffered result channel, one slot per client, and the results that running workers
      have still to send. */
  datatype Channel<R> = Channel(capacity: nat, buffer: seq<R>, pending: multiset<R>)

  function Opened<R(==)>(results: seq<R>): Channel<R> {
    Channel(|results|, [], multiset(results))
  }

  predicate CanSend<R>(c: Channel<R>) {
    |c.buffer| < c.capacity
  }

  /** Some worker sends its one result and ends. */
  ghost predicate Sends<R(!new)>(c: Channel<R>, d: Channel<R>) {
    exists r | r in c.pending :: CanSend(c) && d == Channel(c.capacity, c.buffer + [r], c.pending - multiset{r})
  }

  /** A schedule of the workers. */
  ghost predicate IsSchedule<R(!new)>(results: seq<R>, run: seq<Channel<R>>) {
    run != [] && run[0] == Opened(results) && forall i | 0 < i < |run| :: Sends(run[i - 1], run[i])
  }

  lemma {:induction false} ScheduleInvariant<R(!new)>(results: seq<R>, run: seq<Channel<R>>, i: nat)
    requires IsSchedule(results, run) && i < |run|
    ensures run[i].capacity == |results|
    ensures multiset(run[i].buffer) + run[i].pending == multiset(results)
    ensures |run[i].buffer| + |run[i].pending| == |results|
  {
    if i > 0 {
      ScheduleInvariant(results, run, i - 1);
      assert Sends(run[i - 1], run[i]);
    }
  }

  /** No send ever blocks, and once the last worker is done the channel holds exactly one result
      per client. */
  lemma ChannelNeverBlocks<R(!new)>(results: seq<R>, run: seq<Channel<R>>, i: nat)
    requires IsSchedule(results, run) && i < |run|
    ensures run[i].pending != multiset{} ==> CanSend(run[i])
    ensures run[i].pending == multiset{} ==>
              |run[i].buffer| == |results| && multiset(run[i].buffer) == multiset(results)
  {
    ScheduleInvariant(results, run, i);
  }

  /** The results in an order in which some finished schedule delivers them. */
  ghost predicate Arrives(arrived: seq<State>, results: seq<State>) {
    exists run: seq<Channel<State>> ::
      IsSchedule(results, run) && run[|run| - 1] == Channel(|results|, arrived, multiset{})
  }

  /** One list of all results, appended in arrival order. */
  function Merged(results: seq<State>, k: Kind): seq<Item> {
    Stream(results, (s: State) => List(s, k), [])
  }

  function KeyFor(k: Kind, i: Item): Key {
    match k
    case Guests => Key(if i.pinned then 0 else 1, [i.id])
    case Snapshots => Key(-i.stamp, [i.id])
    case Tasks => Key(-i.stamp, [i.id])
    case StorageItems => Key(-i.stamp, [i.id])
    case Alerts => Key(-(SeverityRank(i.severity) as int), [])
    case _ => Key(0, [i.id])
  }

  function KeyOf(k: Kind): Item -> Key {
    i => KeyFor(k, i)
  }

  datatype Limit = Unlimited | AtMost(n: nat)

  function MergeLimit(k: Kind): Limit {
    match k
    case Networks => AtMost(64)
    case Services => AtMost(96)
    case Snapshots => AtMost(96)
    case Tasks => AtMost(48)
    case StorageItems => AtMost(256)
    case MetricTrends => AtMost(384)
    case ClusterOptions => AtMost(64)
    case Capabilities => AtMost(512)
    case Updates => AtMost(64)
    case Repositories => AtMost(48)
    case _ => Unlimited
  }

  function Cut(k: Kind, s: seq<Item>): seq<Item> {
    match MergeLimit(k)
    case Unlimited => s
    case AtMost(n) => Take(s, n)
  }

  ghost predicate IsSortOf(k: Kind, sorted: seq<Item>, items: seq<Item>) {
    multiset(sorted) == multiset(items) && Sorted(sorted, KeyOf(k))
  }

  /** A list as it leaves the collector: some sort of the merge, cut to its limit. */
  ghost predicate IsKept(k: Kind, items: seq<Item>, kept: seq<Item>) {
    exists sorted :: IsSortOf(k, sorted, items) && kept == Cut(k, sorted)
  }

  /** What Collect may return for results that arrived in this order. */
  ghost predicate Collects(arrived: seq<State>, out: State) {
    && (forall k: Kind {:trigger IsKept(k, Merged(arrived, k), List(out, k))} ::
          IsKept(k, Merged(arrived, k), List(out, k)))
    && out == Finalized(out)
    && !out.stale
  }

  method SortAndCut(k: Kind, items: seq<Item>) returns (kept: seq<Item>)
    ensures IsKept(k, items, kept)
  {
    var a := new Item[|items|](i requires 0 <= i < |items| => items[i]);
    assert a[..] == items;
    SortSlice(a, KeyOf(k));
    assert IsSortOf(k, a[..], items);
    kept := Cut(k, a[..]);
  }

  method MergeResults(results: seq<State>) returns (lists: map<Kind, seq<Item>>)
    ensures forall k: Kind :: k in lists && lists[k] == Merged(results, k)
  {
    lists := map k: Kind | IsList(k) :: [];
    for i := 0 to |results|
      invariant forall k: Kind :: k in lists && lists[k] == Merged(results[..i], k)
    {
      forall k: Kind ensures Merged(results[..i + 1], k) == Merged(results[..i], k) + List(results[i], k) {
        StreamStep(results, i, (s: State) => List(s, k), []);
      }
      lists := map k: Kind | IsList(k) :: lists[k] + List(results[i], k);
    }
    assert results[..|results|] == results;
  }

  /** Sorts and cuts list after list; the lists do not affect each other, so their order is open. */
  method SortLists(merged: map<Kind, seq<Item>>) returns (lists: map<Kind, seq<Item>>)
    requires forall k: Kind :: k in merged
    ensures forall k: Kind :: k in lists && IsKept(k, merged[k], lists[k])
  {
    lists := merged;
    var todo := set k: Kind | IsList(k);
    while todo != {}
      invariant forall k: Kind ::
                  k in lists && if k in todo then lists[k] == merged[k] else IsKept(k, merged[k], lists[k])
    {
      var k :| k in todo;
      var kept := SortAndCut(k, lists[k]);
      lists := lists[k := kept];
      todo := todo - {k};
    }
  }

  method Collect(results: seq<State>) returns (out: State)
    ensures Collects(results, out)
  {
    var merged := MergeResults(results);
    var lists := SortLists(merged);
    var state := State(lists, Summary(OK, 0, 0, 0, 0, 0, 0), false);
    out := Finalize(state);
    FinalizeIdempotent(state);
    forall k: Kind ensures IsKept(k, Merged(results, k), List(out, k)) {
      assert List(out, k) == List(state, k) == lists[k];
    }
  }

  /** Whatever the arrival order, the same items are merged. */
  lemma ArrivalKeepsItems(results: seq<State>, arrived: seq<State>, k: Kind)
    requires Arrives(arrived, results)
    ensures multiset(Merged(arrived, k)) == multiset(Merged(results, k))
  {
    var run: seq<Channel<State>> :|
      IsSchedule(results, run) && run[|run| - 1] == Channel(|results|, arrived, multiset{});
    ChannelNeverBlocks(results, run, |run| - 1);
    StreamPermuted(arrived, results, (s: State) => List(s, k));
  }

  lemma CutKeys(k: Kind, a: seq<Item>, b: seq<Item>)
    requires Keys(a, KeyOf(k)) == Keys(b, KeyOf(k))
    ensures Keys(Cut(k, a), KeyOf(k)) == Keys(Cut(k, b), KeyOf(k))
  {
    if MergeLimit(k).AtMost? {
      TakeKeys(a, MergeLimit(k).n, KeyOf(k));
      TakeKeys(b, MergeLimit(k).n, KeyOf(k));
    }
  }

  lemma CollectsKept(arrived: seq<State>, out: State, k: Kind)
    requires Collects(arrived, out)
    ensures IsKept(k, Merged(arrived, k), List(out, k))
  {
    assert IsKept(k, Merged(arrived, k), List(out, k));
  }

  /** What two sorts and cuts of the same items have in common. */
  lemma KeptAgree(k: Kind, p: seq<Item>, q: seq<Item>, kept: seq<Item>, other: seq<Item>)
    requires multiset(p) == multiset(q) && IsKept(k, p, kept) && IsKept(k, q, other)
    ensures Keys(kept, KeyOf(k)) == Keys(other, KeyOf(k))
    ensures DistinctKeys(p, KeyOf(k)) ==> kept == other
    ensures MergeLimit(k).Unlimited? ==> multiset(kept) == multiset(other) == multiset(p)
  {
    hide MergeLimit;
    var a :| IsSortOf(k, a, p) && kept == Cut(k, a);
    var b :| IsSortOf(k, b, q) && other == Cut(k, b);
    SortsAgree(a, b, KeyOf(k));
    CutKeys(k, a, b);
    if DistinctKeys(p, KeyOf(k)) {
      DistinctPermuted(p, a, KeyOf(k));
    }
  }

  /** A list within its limit is kept whole. */
  lemma KeptWhole(k: Kind, items: seq<Item>, kept: seq<Item>)
    requires IsKept(k, items, kept)
    requires MergeLimit(k).AtMost? ==> |items| <= MergeLimit(k).n
    ensures multiset(kept) == multiset(items)
  {
    var sorted :| IsSortOf(k, sorted, items) && kept == Cut(k, sorted);
    assert |multiset(sorted)| == |sorted| && |multiset(items)| == |items|;
  }

  /** Confluence of one list: whatever order the workers finish in and however ties are sorted, two
      collections of the same results have the same keys at every position, and the same items when
      the keys are distinct. */
  lemma CollectConfluent(results: seq<State>, p: seq<State>, q: seq<State>, out: State, other: State, k: Kind)
    requires Arrives(p, results) && Arrives(q, results)
    requires Collects(p, out) && Collects(q, other)
    ensures Keys(List(out, k), KeyOf(k)) == Keys(List(other, k), KeyOf(k))
    ensures DistinctKeys(Merged(results, k), KeyOf(k)) ==> List(out, k) == List(other, k)
    ensures MergeLimit(k).Unlimited? ==> multiset(List(out, k)) == multiset(List(other, k))
  {
    hide MergeLimit, Arrives, Collects, IsKept, KeyOf, List;
    ArrivalKeepsItems(results, p, k);
    ArrivalKeepsItems(results, q, k);
    CollectsKept(p, out, k);
    CollectsKept(q, other, k);
    KeptAgree(k, Merged(p, k), Merged(q, k), List(out, k), List(other, k));
    if DistinctKeys(Merged(results, k), KeyOf(k)) {
      DistinctPermuted(Merged(results, k), Merged(p, k), KeyOf(k));
    }
  }

  lemma NeverCut(k: Kind)
    requires k in {Hosts, Guests, Alerts}
    ensures MergeLimit(k).Unlimited?
  {
  }

  lemma SameItems(results: seq<State>, p: seq<State>, q: seq<State>, out: State, other: State, k: Kind)
    requires Arrives(p, results) && Arrives(q, results)
    requires Collects(p, out) && Collects(q, other)
    requires k in {Hosts, Guests, Alerts}
    ensures multiset(List(out, k)) == multiset(List(other, k))
  {
    NeverCut(k);
    CollectConfluent(results, p, q, out, other, k);
  }

  lemma SameLength(results: seq<State>, p: seq<State>, q: seq<State>, out: State, other: State, k: Kind)
    requires Arrives(p, results) && Arrives(q, results)
    requires Collects(p, out) && Collects(q, other)
    ensures |List(out, k)| == |List(other, k)|
  {
    CollectConfluent(results, p, q, out, other, k);
    assert |Keys(List(out, k), KeyOf(k))| == |List(out, k)|;
  }

  lemma CollectsSummary(arrived: seq<State>, out: State)
    requires Collects(arrived, out)
    ensures out.summary == SummaryOf(out)
  {
    assert Finalized(out).summary == SummaryOf(out);
  }

  /** The summary is the same for every arrival order, although alerts are sorted by severity only. */
  lemma SummaryConfluent(results: seq<State>, p: seq<State>, q: seq<State>, out: State, other: State)
    requires Arrives(p, results) && Arrives(q, results)
    requires Collects(p, out) && Collects(q, other)
    ensures out.summary == other.summary
  {
    CollectsSummary(p, out);
    CollectsSummary(q, other);
    SameItems(results, p, q, out, other, Hosts);
    SameItems(results, p, q, out, other, Guests);
    SameItems(results, p, q, out, other, Alerts);
    SameLength(results, p, q, out, other, Updates);
    SummaryIgnoresOrder(out, other);
  }

  /** What a collection keeps of a list is a top selection: nothing that was cut sorts before
      anything that was kept. */
  lemma CollectKeepsTop(results: seq<State>, out: State, k: Kind, kept: Item, cut: Item)
    requires Collects(results, out)
    requires kept in List(out, k) && cut in multiset(Merged(results, k)) - multiset(List(out, k))
    ensures MergeLimit(k).AtMost? && |List(out, k)| == MergeLimit(k).n
    ensures !KeyBelow(KeyFor(k, cut), KeyFor(k, kept))
  {
    CollectsKept(results, out, k);
    hide Collects;
    var sorted :| IsSortOf(k, sorted, Merged(results, k)) && List(out, k) == Cut(k, sorted);
    if MergeLimit(k).AtMost? { TakeIsTop(sorted, MergeLimit(k).n, KeyOf(k)); }
  }

  /** The channel after the first i results have been sent in order. */
  function SentInOrder<R(==)>(results: seq<R>, i: nat): Channel<R>
    requires i <= |results|
  {
    Channel(|results|, results[..i], multiset(results[i..]))
  }

  lemma OneMoreSent<R(!new)>(results: seq<R>, i: nat)
    requires i < |results|
    ensures Sends(SentInOrder(results, i), SentInOrder(results, i + 1))
  {
    var r := results[i];
    assert results[..i + 1] == results[..i] + [r];
    assert results[i..] == [r] + results[i + 1..];
    assert r in SentInOrder(results, i).pending;
  }

  /** The workers can finish in the order of their clients. */
  lemma InOrderArrives(results: seq<State>)
    ensures Arrives(results, results)
  {
    var run := seq(|results| + 1, i requires 0 <= i <= |results| => SentInOrder(results, i));
    assert results[..0] == [] && results[0..] == results;
    assert results[..|results|] == results && results[|results|..] == [];
    forall i | 0 < i < |run| ensures Sends(run[i - 1], run[i]) {
      OneMoreSent(results, i - 1);
    }
    assert IsSchedule(results, run);
  }

  /** Every merge can be collected. */
  lemma SomeCollection(arrived: seq<State>) returns (out: State)
    ensures Collects(arrived, out)
  {
    var lists := map k: Kind | IsList(k) :: Cut(k, StableSort(Merged(arrived, k), KeyOf(k)));
    var raw := State(lists, Summary(OK, 0, 0, 0, 0, 0, 0), false);
    out := Finalized(raw);
    FinalizeIdempotent(raw);
    forall k: Kind ensures IsKept(k, Merged(arrived, k), List(out, k)) {
      StableSortSorted(Merged(arrived, k), KeyOf(k));
      StableSortPermutes(Merged(arrived, k), KeyOf(k));
      assert IsSortOf(k, StableSort(Merged(arrived, k), KeyOf(k)), Merged(arrived, k));
      assert List(out, k) == List(raw, k) == lists[k];
    }
  }
}
