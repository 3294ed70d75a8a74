/** The lists that leave the collector, told from the fields of their items: their order, their lengths,
    and what a cut list has lost. */
module ListOrders {
  import opened Collection
  import opened Display
  import opened Health
  import opened Ordering
  import opened Text

  /** Newest first; of equally old items the smaller id first. */
  predicate NewestFirst(s: seq<Item>) {
    forall i, j | 0 <= i < j < |s| ::
      s[i].stamp > s[j].stamp || (s[i].stamp == s[j].stamp && !Below(s[j].id, s[i].id))
  }

  /** Pinned items first; among equally pinned ones the smaller id first. */
  predicate PinnedFirst(s: seq<Item>) {
    forall i, j | 0 <= i < j < |s| ::
      (s[i].pinned && !s[j].pinned) || (s[i].pinned == s[j].pinned && !Below(s[j].id, s[i].id))
  }

  /** Critical items before warnings, warnings before all others, and unknown ones last. */
  predicate WorstFirst(s: seq<Item>) {
    forall i, j | 0 <= i < j < |s| ::
      && (s[j].severity == Critical ==> s[i].severity == Critical)
      && (s[j].severity == Warning ==> s[i].severity in {Critical, Warning})
      && (s[i].severity == Unknown ==> s[j].severity == Unknown)
  }

  predicate SmallestFirst(s: seq<Item>) {
    forall i, j | 0 <= i < j < |s| :: !Below(s[j].id, s[i].id)
  }

  lemma CutIsPrefix(k: Kind, sorted: seq<Item>)
    ensures |Cut(k, sorted)| <= |sorted| && Cut(k, sorted) == sorted[..|Cut(k, sorted)|]
  {
  }

  lemma KeptSorted(k: Kind, items: seq<Item>, kept: seq<Item>)
    requires IsKept(k, items, kept)
    ensures Sorted(kept, KeyOf(k))
  {
    var sorted :| IsSortOf(k, sorted, items) && kept == Cut(k, sorted);
    CutIsPrefix(k, sorted);
  }

  lemma OneID(x: string, y: string, rank: int, rank': int)
    ensures KeyBelow(Key(rank, [x]), Key(rank', [y])) <==> rank < rank' || (rank == rank' && Below(x, y))
  {
    hide Below;
    assert !IdsBelow([x][1..], [y][1..]);
  }

  lemma NewestInOrder(k: Kind, s: seq<Item>)
    requires Sorted(s, KeyOf(k)) && k in {Snapshots, Tasks, StorageItems}
    ensures NewestFirst(s)
  {
    hide Below, KeyBelow;
    forall i, j | 0 <= i < j < |s|
      ensures s[i].stamp > s[j].stamp || (s[i].stamp == s[j].stamp && !Below(s[j].id, s[i].id))
    {
      assert !KeyBelow(KeyOf(k)(s[j]), KeyOf(k)(s[i]));
      OneID(s[j].id, s[i].id, -s[j].stamp, -s[i].stamp);
    }
  }

  lemma GuestsInOrder(s: seq<Item>)
    requires Sorted(s, KeyOf(Guests))
    ensures PinnedFirst(s)
  {
    hide Below, KeyBelow;
    forall i, j | 0 <= i < j < |s|
      ensures (s[i].pinned && !s[j].pinned) || (s[i].pinned == s[j].pinned && !Below(s[j].id, s[i].id))
    {
      assert !KeyBelow(KeyOf(Guests)(s[j]), KeyOf(Guests)(s[i]));
      OneID(s[j].id, s[i].id, if s[j].pinned then 0 else 1, if s[i].pinned then 0 else 1);
    }
  }

  lemma IDsInOrder(k: Kind, s: seq<Item>)
    requires Sorted(s, KeyOf(k)) && k !in {Snapshots, Tasks, StorageItems, Guests, Alerts}
    ensures SmallestFirst(s)
  {
    hide Below, KeyBelow;
    forall i, j | 0 <= i < j < |s| ensures !Below(s[j].id, s[i].id) {
      assert !KeyBelow(KeyOf(k)(s[j]), KeyOf(k)(s[i]));
      OneID(s[j].id, s[i].id, 0, 0);
    }
  }

  lemma AlertsInOrder(s: seq<Item>)
    requires Sorted(s, KeyOf(Alerts))
    ensures WorstFirst(s)
  {
    forall i, j | 0 <= i < j < |s| ensures SeverityRank(s[i].severity) >= SeverityRank(s[j].severity) {
      assert !KeyBelow(KeyOf(Alerts)(s[j]), KeyOf(Alerts)(s[i]));
    }
  }

  /** The order of every list in a collected state. */
  lemma ListsInOrder(arrived: seq<State>, out: State, k: Kind)
    requires Collects(arrived, out)
    ensures k in {Snapshots, Tasks, StorageItems} ==> NewestFirst(List(out, k))
    ensures k == Guests ==> PinnedFirst(List(out, k))
    ensures k == Alerts ==> WorstFirst(List(out, k))
    ensures k !in {Snapshots, Tasks, StorageItems, Guests, Alerts} ==> SmallestFirst(List(out, k))
  {
    CollectsKept(arrived, out, k);
    hide Collects, IsKept, Sorted, KeyOf, List, Merged, NewestFirst, PinnedFirst, WorstFirst, SmallestFirst;
    var s := List(out, k);
    KeptSorted(k, Merged(arrived, k), s);
    if k in {Snapshots, Tasks, StorageItems} {
      NewestInOrder(k, s);
    } else if k == Guests {
      GuestsInOrder(s);
    } else if k == Alerts {
      AlertsInOrder(s);
    } else {
      IDsInOrder(k, s);
    }
  }

  /** What a cut list has lost is no newer than anything it holds, and it is as long as it may be. */
  lemma NewestKept(arrived: seq<State>, out: State, k: Kind, kept: Item, cut: Item)
    requires Collects(arrived, out) && k in {Snapshots, Tasks, StorageItems}
    requires kept in List(out, k) && cut in multiset(Merged(arrived, k)) - multiset(List(out, k))
    ensures cut.stamp < kept.stamp || (cut.stamp == kept.stamp && !Below(cut.id, kept.id))
    ensures |List(out, k)| == if k == StorageItems then 256 else if k == Snapshots then 96 else 48
  {
    CollectKeepsTop(arrived, out, k, kept, cut);
    hide Collects, List, Merged;
    OneID(cut.id, kept.id, -cut.stamp, -kept.stamp);
  }

  function Least(m: nat, n: nat): nat { if m < n then m else n }

  lemma KeptLength(k: Kind, items: seq<Item>, kept: seq<Item>)
    requires IsKept(k, items, kept)
    ensures multiset(kept) <= multiset(items)
    ensures MergeLimit(k).Unlimited? ==> multiset(kept) == multiset(items)
    ensures MergeLimit(k).AtMost? ==> |kept| == Least(|items|, MergeLimit(k).n)
  {
    var sorted :| IsSortOf(k, sorted, items) && kept == Cut(k, sorted);
    assert |multiset(sorted)| == |sorted| && |multiset(items)| == |items|;
    CutIsPrefix(k, sorted);
    assert sorted == kept + sorted[|kept|..];
  }

  /** The length to which each list is cut, and the lists that are never cut. */
  lemma ListLengths(arrived: seq<State>, out: State, k: Kind)
    requires Collects(arrived, out)
    ensures var merged, kept := |Merged(arrived, k)|, |List(out, k)|;
            match k
            case Tasks | Repositories => kept == Least(merged, 48)
            case Networks | ClusterOptions | Updates => kept == Least(merged, 64)
            case Services | Snapshots => kept == Least(merged, 96)
            case StorageItems => kept == Least(merged, 256)
            case MetricTrends => kept == Least(merged, 384)
            case Capabilities => kept == Least(merged, 512)
            case _ => multiset(List(out, k)) == multiset(Merged(arrived, k))
  {
    CollectsKept(arrived, out, k);
    hide Collects, IsKept, List, Merged, Least;
    KeptLength(k, Merged(arrived, k), List(out, k));
  }
}
