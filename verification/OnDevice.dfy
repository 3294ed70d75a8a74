/** The rows on the device, from what the sources answer. */
module OnDevice {
  import opened Collection
  import opened Display
  import opened EndToEnd
  import opened Folds
  import opened Ordering
  import Calls = Capabilities
  import Selection

  /** The list of the detail payload, and the bridge's list it is taken from. */
  function KindOn(l: Selection.List): Kind {
    match l
    case ZFSPools => Display.ZFSPools
    case StorageItems => Display.StorageItems
    case Trends => Display.MetricTrends
    case Certificates => Display.Certificates
    case Capabilities => Display.Capabilities
    case CephClusters => Display.CephClusters
    case Hosts => Display.Hosts
    case Storages => Display.Storages
    case Disks => Display.Disks
    case Guests => Display.Guests
    case Tasks => Display.Tasks
    case Alerts => Display.Alerts
  }

  predicate IsDetail(l: Selection.List) {
    l in {Selection.ZFSPools, Selection.StorageItems, Selection.Trends, Selection.Certificates,
          Selection.Capabilities, Selection.CephClusters}
  }

  /** The details the bridge sends. */
  function DetailPayload(out: State): Selection.Payload<Item> {
    Selection.Parsed(map l: Selection.List | Selection.Capacity(l) > 0 && IsDetail(l) :: DetailList(out, KindOn(l)))
  }

  lemma DetailRows(out: State, v: Selection.View<Item>, state: Selection.Payload<Item>, l: Selection.List)
    requires Selection.Safe(v) && state.Parsed? && IsDetail(l)
    ensures Selection.Handled(v, Selection.Refresh(state, DetailPayload(out))).slots[l].rows
         == Take(DetailList(out, KindOn(l)), Selection.Capacity(l))
  {
    hide DetailList;
    var loaded := Selection.Loaded(v.slots, state, Selection.STATE_LISTS);
    Selection.LoadedSlot(loaded, DetailPayload(out), Selection.DETAIL_LISTS, l);
    assert l in Selection.DETAIL_LISTS;
  }

  function Least(m: nat, n: nat): nat { if m < n then m else n }

  /** How many rows of a list can get through the collector's, the payload's and the device's limits. */
  function ThroughLimits(l: Selection.List): nat {
    var n := Least(DetailLimit(KindOn(l)), Selection.Capacity(l));
    match MergeLimit(KindOn(l))
    case Unlimited => n
    case AtMost(m) => Least(m, n)
  }

  /** The rows of a list once the device has fetched the bridge's details. */
  function Shown(out: State, v: Selection.View<Item>, state: Selection.Payload<Item>, l: Selection.List): seq<Item>
    requires Selection.Safe(v) && state.Parsed?
  {
    Selection.Handled(v, Selection.Refresh(state, DetailPayload(out))).slots[l].rows
  }

  lemma ShownRows(out: State, v: Selection.View<Item>, state: Selection.Payload<Item>, l: Selection.List)
    requires Selection.Safe(v) && state.Parsed? && IsDetail(l)
    ensures Shown(out, v, state, l) == Take(DetailList(out, KindOn(l)), Selection.Capacity(l))
  {
    hide DetailList;
    DetailRows(out, v, state, l);
  }

  /** How many items of each list the bridge serves as details: the first ones of all lists but the
      capabilities, which are sorted first. */
  lemma DetailLengths(out: State, k: Kind)
    requires k in {ZFSPools, Certificates, StorageItems, MetricTrends, ClusterOptions, CephClusters, Capabilities}
    ensures |DetailList(out, k)| <= |List(out, k)|
    ensures k != Capabilities ==> DetailList(out, k) <= List(out, k)
    ensures var n := match k
                     case CephClusters => 8
                     case ZFSPools | Certificates => 24
                     case ClusterOptions => 32
                     case StorageItems => 48
                     case _ => 64;
            |DetailList(out, k)| == if |List(out, k)| < n then |List(out, k)| else n
  {
    hide List;
    var s := List(out, k);
    StableSortPermutes(s, CapabilityKey);
    assert |multiset(s)| == |s| && |multiset(StableSort(s, CapabilityKey))| == |StableSort(s, CapabilityKey)|;
  }

  /** Three truncations are the tightest one. */
  lemma CutThrough(sorted: seq<Item>, l: Selection.List)
    requires IsDetail(l)
    ensures Take(Take(Cut(KindOn(l), sorted), DetailLimit(KindOn(l))), Selection.Capacity(l))
         == Take(sorted, ThroughLimits(l))
  {
    hide KindOn, DetailLimit, Selection.Capacity, IsDetail;
    var k := KindOn(l);
    TakeTwice(Cut(k, sorted), DetailLimit(k), Selection.Capacity(l));
    if MergeLimit(k).AtMost? {
      TakeTwice(sorted, MergeLimit(k).n, Least(DetailLimit(k), Selection.Capacity(l)));
    }
  }

  /** After a refresh the rows of a detail list, capabilities apart, are exactly the first of the full
      sorted merge, as many as the tightest of the three limits lets through. */
  lemma DeviceShowsFirst(ws: seq<Worker>, results: seq<State>, arrived: seq<State>, out: State,
                         v: Selection.View<Item>, state: Selection.Payload<Item>, l: Selection.List)
    returns (sorted: seq<Item>)
    requires Finished(ws, results, arrived, out)
    requires Selection.Safe(v) && state.Parsed? && IsDetail(l) && l != Selection.Capabilities
    ensures IsSortOf(KindOn(l), sorted, Merged(arrived, KindOn(l)))
    ensures Shown(out, v, state, l) == Take(sorted, ThroughLimits(l))
  {
    ShownRows(out, v, state, l);
    hide Shown, IsSortOf, Cut, Selection.Safe, Selection.Capacity;
    var k := KindOn(l);
    assert k != Capabilities;
    CollectsKept(arrived, out, k);
    sorted :| IsSortOf(k, sorted, Merged(arrived, k)) && List(out, k) == Cut(k, sorted);
    CutThrough(sorted, l);
  }

  /** For storage items: the 48 newest, despite limits of 256, 48 and 48 on the way. */
  lemma DeviceShowsNewest(ws: seq<Worker>, results: seq<State>, arrived: seq<State>, out: State,
                          v: Selection.View<Item>, state: Selection.Payload<Item>, shown: Item, missing: Item)
    requires Finished(ws, results, arrived, out) && Selection.Safe(v) && state.Parsed?
    requires shown in Shown(out, v, state, Selection.StorageItems)
    requires missing in multiset(Merged(arrived, StorageItems)) - multiset(Shown(out, v, state, Selection.StorageItems))
    ensures missing.stamp <= shown.stamp
    ensures |Shown(out, v, state, Selection.StorageItems)| == 48
  {
    hide Shown, Finished;
    var l := Selection.StorageItems;
    var sorted := DeviceShowsFirst(ws, results, arrived, out, v, state, l);
    assert ThroughLimits(l) == 48;
    TakeIsTop(sorted, 48, KeyOf(StorageItems));
  }

  // ---- Capabilities ----

  /** All calls that the workers make, as capabilities. */
  function AllCalls(ws: seq<Worker>): seq<Item> {
    Stream(ws, w => CallItems(w), [])
  }

  /** When the calls fit the bound, every worker's record is complete. */
  lemma RecordsComplete(ws: seq<Worker>)
    requires |AllCalls(ws)| <= Calls.MAX_CAPABILITIES
    ensures AllItems(ws, Capabilities) == AllCalls(ws)
  {
    hide CallItems;
    forall w | w in ws ensures ResultList(w, Capabilities) == CallItems(w) {
      StreamPart(ws, w => CallItems(w), w);
    }
    StreamSame(ws, w => ResultList(w, Capabilities), w => CallItems(w));
  }

  lemma CapabilitiesBounded(arrived: seq<State>, out: State)
    requires Collects(arrived, out)
    ensures |List(out, Capabilities)| <= Calls.MAX_CAPABILITIES
  {
    CollectsKept(arrived, out, Capabilities);
    hide Collects;
    var sorted :| && IsSortOf(Capabilities, sorted, Merged(arrived, Capabilities))
                  && List(out, Capabilities) == Cut(Capabilities, sorted);
  }

  /** The bridge holds every call that was made exactly when no more than 512 were made in all. */
  lemma CallsHeldExactly(ws: seq<Worker>, results: seq<State>, arrived: seq<State>, out: State)
    requires Finished(ws, results, arrived, out)
    ensures multiset(List(out, Capabilities)) == multiset(AllCalls(ws)) <==> |AllCalls(ws)| <= Calls.MAX_CAPABILITIES
  {
    hide AllCalls, AllItems, Deliver, Arrives, List, Merged;
    CapabilitiesBounded(arrived, out);
    assert |multiset(AllCalls(ws))| == |AllCalls(ws)|;
    assert |multiset(List(out, Capabilities))| == |List(out, Capabilities)|;
    if |AllCalls(ws)| <= Calls.MAX_CAPABILITIES {
      RecordsComplete(ws);
      ArrivedItems(ws, results, arrived, out, Capabilities);
      assert |multiset(Merged(arrived, Capabilities))| == |Merged(arrived, Capabilities)|;
      CollectsKept(arrived, out, Capabilities);
      hide Collects, IsKept;
      KeptWhole(Capabilities, Merged(arrived, Capabilities), List(out, Capabilities));
    }
  }

  /** What the merge loses beyond that is decided by ids and not by ranks: a lost capability, however bad,
      has no smaller id than any that is held. */
  lemma MergeLosesById(arrived: seq<State>, out: State, held: Item, lost: Item)
    requires Collects(arrived, out)
    requires held in List(out, Capabilities)
    requires lost in multiset(Merged(arrived, Capabilities)) - multiset(List(out, Capabilities))
    ensures |List(out, Capabilities)| == Calls.MAX_CAPABILITIES
    ensures !KeyBelow(Key(0, [lost.id]), Key(0, [held.id]))
  {
    CollectKeepsTop(arrived, out, Capabilities, held, lost);
  }

  /** For capabilities: none that the bridge holds and the device does not show ranks above one that it
      shows. */
  lemma DeviceShowsWorstCapabilities(out: State, v: Selection.View<Item>, state: Selection.Payload<Item>,
                                     shown: Item, missing: Item)
    requires Selection.Safe(v) && state.Parsed?
    requires shown in Shown(out, v, state, Selection.Capabilities)
    requires missing in multiset(List(out, Capabilities)) - multiset(Shown(out, v, state, Selection.Capabilities))
    ensures AsBad(shown.status, missing.status)
  {
    hide Shown, Selection.Safe, AsBad;
    ShownRows(out, v, state, Selection.Capabilities);
    PrioritizedKeepsWorst(List(out, Capabilities), 64, 48, shown, missing);
  }

  /** The device shows a call that was answered only when it shows every failed call that the bridge
      holds. */
  lemma DeviceShowsFailuresFirst(out: State, v: Selection.View<Item>, state: Selection.Payload<Item>,
                                 answered: Calls.Call, failed: Calls.Call)
    requires Selection.Safe(v) && state.Parsed?
    requires answered.outcome.Answered? && !failed.outcome.Answered?
    requires Calls.ItemOf(answered) in Shown(out, v, state, Selection.Capabilities)
    ensures multiset(Shown(out, v, state, Selection.Capabilities))[Calls.ItemOf(failed)]
         >= multiset(List(out, Capabilities))[Calls.ItemOf(failed)]
  {
    hide Shown, Selection.Safe, List;
    Calls.FailuresOutrankAnswers(failed, answered);
    var shown := Shown(out, v, state, Selection.Capabilities);
    if Calls.ItemOf(failed) in multiset(List(out, Capabilities)) - multiset(shown) {
      DeviceShowsWorstCapabilities(out, v, state, Calls.ItemOf(answered), Calls.ItemOf(failed));
    }
  }

  /** While no more than 512 calls are made in all, that is so of all calls that were made. */
  lemma DeviceShowsWorstCalls(ws: seq<Worker>, results: seq<State>, arrived: seq<State>, out: State,
                              v: Selection.View<Item>, state: Selection.Payload<Item>, shown: Item, missing: Item)
    requires Finished(ws, results, arrived, out) && |AllCalls(ws)| <= Calls.MAX_CAPABILITIES
    requires Selection.Safe(v) && state.Parsed?
    requires shown in Shown(out, v, state, Selection.Capabilities)
    requires missing in multiset(AllCalls(ws)) - multiset(Shown(out, v, state, Selection.Capabilities))
    ensures AsBad(shown.status, missing.status)
  {
    hide Finished, AllCalls, Shown, Selection.Safe, AsBad, List;
    CallsHeldExactly(ws, results, arrived, out);
    DeviceShowsWorstCapabilities(out, v, state, shown, missing);
  }
}
