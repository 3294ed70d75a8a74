/** The cache on the heap: its lists are slices of arrays that every snapshot shares. */
module SharedCache {
  import opened CacheProtocol
  import opened Display
  import opened Health
  import opened Ordering
  import opened Wrappers

  /** A slice: the first `len` elements of an array it does not own. */
  datatype Slice = Slice(data: array<Item>, len: nat)

  predicate Bounded(s: Slice) {
    s.len <= s.data.Length
  }

  /** A state as Go holds it; a list that is absent from the map is nil. */
  datatype Shared = Shared(lists: map<Kind, Slice>, summary: Summary, stale: bool)

  predicate Sound(s: Shared) {
    forall k | k in s.lists :: Bounded(s.lists[k])
  }

  function Arrays(s: Shared): (arrays: set<object>) {
    set k | k in s.lists :: s.lists[k].data
  }

  /** The value of a shared state. */
  function Value(s: Shared): State
    requires Sound(s)
    reads Arrays(s)
  {
    State(map k | k in s.lists :: s.lists[k].data[..s.lists[k].len], s.summary, s.stale)
  }

  function SharedList(s: Shared, k: Kind): seq<Item>
    requires Sound(s)
    reads Arrays(s)
  {
    if k in s.lists then s.lists[k].data[..s.lists[k].len] else []
  }

  lemma SharedLists(s: Shared, k: Kind)
    requires Sound(s)
    ensures List(Value(s), k) == SharedList(s, k)
  {
  }

  /** Makes some lists empty, giving each a fresh array, and leaves the arrays of the others alone. */
  method Emptied(s: Shared, kinds: set<Kind>) returns (r: Shared)
    requires Sound(s)
    ensures Sound(r) && r.summary == s.summary && r.stale == s.stale
    ensures r.lists.Keys == s.lists.Keys + kinds
    ensures forall k | k in kinds :: r.lists[k].len == 0 && fresh(r.lists[k].data)
    ensures forall k | k in s.lists && k !in kinds :: r.lists[k] == s.lists[k]
  {
    r := s;
    var todo := kinds;
    while todo != {}
      invariant todo <= kinds && Sound(r) && r.summary == s.summary && r.stale == s.stale
      invariant r.lists.Keys == s.lists.Keys + (kinds - todo)
      invariant forall k | k in kinds - todo :: r.lists[k].len == 0 && fresh(r.lists[k].data)
      invariant forall k | k in s.lists && k !in kinds - todo :: r.lists[k] == s.lists[k]
    {
      var k :| k in todo;
      var none := new Item[0];
      r := r.(lists := r.lists[k := Slice(none, 0)]);
      todo := todo - {k};
    }
  }

  /** A state with all lists present and the recomputed summary is the finalized one. */
  lemma FinalizedParts(s: State, t: State)
    requires forall k: Kind :: k in t.lists && t.lists[k] == List(s, k)
    requires t.summary == SummaryOf(s) && t.stale == s.stale
    ensures t == Finalized(s)
  {
    assert t.lists == Finalized(s).lists;
  }

  /** Finalize: nil lists become empty ones, the summary is recomputed, all other arrays are shared. */
  method FinalizeShared(s: Shared) returns (r: Shared)
    requires Sound(s)
    ensures Sound(r) && Value(r) == Finalized(Value(s))
    ensures forall k: Kind :: k in r.lists
    ensures forall k | k in s.lists :: r.lists[k] == s.lists[k]
    ensures forall k | k in r.lists && k !in s.lists :: fresh(r.lists[k].data)
  {
    var missing := set k: Kind | IsList(k) && k !in s.lists;
    var full := Emptied(s, missing);
    var value := Finalize(Value(s));
    hide SummaryOf;
    r := full.(summary := value.summary);
    FinalizedParts(Value(s), Value(r));
  }

  /** Emptying the heavy lists and finalizing is the compact state. */
  lemma CompactedLight(s: Shared, light: Shared)
    requires Sound(s) && Sound(light) && light.stale == s.stale
    requires forall k: Kind :: SharedList(light, k) == if Heavy(k) then [] else SharedList(s, k)
    ensures Finalized(Value(light)) == Compacted(Value(s))
  {
    hide SummaryOf, Heavy;
    var value := Value(s).(lists := map k: Kind | IsList(k) :: if Heavy(k) then [] else List(Value(s), k));
    forall k: Kind ensures List(Value(light), k) == List(value, k) {
      SharedLists(light, k);
      SharedLists(s, k);
    }
    SameLists(Value(light), value);
  }

  method CompactForDisplay(s: Shared) returns (r: Shared)
    requires Sound(s)
    ensures Sound(r) && Value(r) == Compacted(Value(s))
    ensures forall k: Kind :: k in r.lists
    ensures forall k | k in s.lists && !Heavy(k) :: r.lists[k] == s.lists[k]
  {
    hide Finalized, Compacted, Heavy, SummaryOf;
    var heavy := set k: Kind | IsList(k) && Heavy(k);
    var light := Emptied(s, heavy);
    forall k: Kind ensures SharedList(light, k) == if Heavy(k) then [] else SharedList(s, k) {
      assert k in heavy <==> Heavy(k);
    }
    r := FinalizeShared(light);
    CompactedLight(s, light);
  }

  /** Nil and empty lists are finalized alike. */
  lemma SameLists(s: State, t: State)
    requires forall k: Kind :: List(s, k) == List(t, k)
    requires s.stale == t.stale
    ensures Finalized(s) == Finalized(t)
  {
  }

  /** firstN: a shorter slice of the same array. */
  method FirstN(s: Shared, k: Kind, max: nat) returns (r: Slice)
    requires Sound(s)
    ensures Bounded(r) && r.data[..r.len] == Take(SharedList(s, k), max)
    ensures if k in s.lists then r.data == s.lists[k].data else fresh(r.data)
  {
    if k !in s.lists {
      var none := new Item[0];
      return Slice(none, 0);
    }
    r := s.lists[k];
    if r.len > max {
      r := r.(len := max);
    }
  }

  /** Sorts a copy and cuts it; the array of the state is only read. */
  method PrioritizedCapabilities(s: Shared, max: nat) returns (r: Slice)
    requires Sound(s)
    ensures Bounded(r) && fresh(r.data)
    ensures r.data[..r.len] == Prioritized(SharedList(s, Capabilities), max)
  {
    var values := SharedList(s, Capabilities);
    var caps := new Item[|values|](i requires 0 <= i < |values| => values[i]);
    assert caps[..] == values;
    SortSliceStable(caps, CapabilityKey);
    assert caps[..caps.Length] == caps[..];
    r := Slice(caps, if caps.Length <= max then caps.Length else max);
  }

  const DETAIL_KINDS := {ZFSPools, Certificates, StorageItems, MetricTrends, ClusterOptions, CephClusters, Capabilities}

  /** A slice with the contents that the detail payload gives a list. */
  predicate Shows(slice: Slice, state: State, k: Kind)
    reads slice.data
  {
    Bounded(slice) && slice.data[..slice.len] == DetailList(state, k)
  }

  method DetailSlice(s: Shared, k: Kind) returns (r: Slice)
    requires Sound(s)
    ensures Shows(r, Value(s), k)
  {
    hide Take, Prioritized, DetailLimit;
    SharedLists(s, k);
    if k == Capabilities {
      r := PrioritizedCapabilities(s, DetailLimit(k));
    } else {
      r := FirstN(s, k, DetailLimit(k));
    }
  }

  method DetailForDisplay(s: Shared) returns (lists: map<Kind, Slice>)
    requires Sound(s)
    ensures lists.Keys == DETAIL_KINDS
    ensures forall k | k in lists :: Shows(lists[k], Value(s), k)
  {
    ghost var state := Value(s);
    lists := map[];
    var todo := DETAIL_KINDS;
    while todo != {}
      invariant todo <= DETAIL_KINDS && lists.Keys == DETAIL_KINDS - todo
      invariant Value(s) == state
      invariant forall k | k in lists :: Shows(lists[k], state, k)
    {
      hide DetailList, Value;
      var k :| k in todo;
      var slice := DetailSlice(s, k);
      lists := lists[k := slice];
      todo := todo - {k};
    }
  }

  class Cache<C> {
    var collector: C
    var pollInterval: int
    var staleAfter: int
    var state: Shared
    var lastOK: int
    var lastErr: Option<string>
    var hasState: bool

    ghost predicate Valid()
      reads this
    {
      Sound(state)
    }

    /** The guarded fields as values. */
    ghost function Now(): Fields<C>
      requires Valid()
      reads this, Arrays(state)
    {
      Fields(collector, pollInterval, staleAfter, Value(state), lastOK, lastErr, hasState)
    }

    constructor (collector: C, pollInterval: int, staleAfter: int)
      ensures Valid() && Now() == NewFields(collector, pollInterval, staleAfter)
    {
      this.collector, this.pollInterval, this.staleAfter := collector, pollInterval, staleAfter;
      state := Shared(map[], Summary(OK, 0, 0, 0, 0, 0, 0), false);
      lastOK, lastErr, hasState := 0, None, false;
      new;
      assert Value(state) == NO_STATE;
    }

    /** The first critical section of Refresh. */
    method Capture() returns (captured: C)
      ensures captured == collector
    {
      captured := collector;
    }

    /** The second one, after a collection that gave `raw`. */
    method Commit(raw: Shared, now: int)
      requires Valid() && Sound(raw)
      modifies this
      ensures Valid() && Now() == Committed(old(Now()), old(Value(raw)), now)
      ensures forall k: Kind :: k in state.lists
      ensures forall k | k in raw.lists :: state.lists[k] == raw.lists[k]
    {
      hide Finalized, SummaryOf, List;
      ghost var value := Value(raw);
      var finalized := FinalizeShared(raw);
      assert Value(raw) == value;
      state := finalized;
      assert Value(state) == Finalized(value);
      lastOK, lastErr, hasState := now, None, true;
    }

    /** The second one, after a collection that failed. */
    method Fail(error: string)
      requires Valid()
      modifies this`lastErr
      ensures Valid() && Now() == old(Now()).(lastErr := Some(error))
    {
      lastErr := Some(error);
    }

    method Reconfigure(collector: C, pollInterval: int, staleAfter: int)
      requires Valid()
      modifies this`collector, this`pollInterval, this`staleAfter
      ensures Valid() && Now() == Reconfigured(old(Now()), collector, pollInterval, staleAfter)
    {
      this.collector, this.pollInterval, this.staleAfter := collector, pollInterval, staleAfter;
    }

    /** A snapshot holds the cache's own arrays, not copies of them. */
    method State(now: int) returns (snapshot: Shared, error: Option<string>)
      requires Valid()
      ensures Sound(snapshot)
      ensures Answered(Now(), now)
           == if error.Some? then Unavailable(error.value) else Available(Value(snapshot))
      ensures error.None? ==> snapshot.lists == state.lists
    {
      snapshot, error := Shared(map[], Summary(OK, 0, 0, 0, 0, 0, 0), false), None;
      if !hasState {
        error := if lastErr.Some? then lastErr else Some("no state collected yet");
        return;
      }
      snapshot := state;
      if now - lastOK > staleAfter {
        snapshot := snapshot.(stale := true);
      }
    }
  }

  /** Anything that can happen to a cache while a reader holds a snapshot. */
  datatype Op<C> =
    | Commits(raw: Shared, now: int)
    | Fails(error: string)
    | Reconfigures(collector: C, pollInterval: int, staleAfter: int)
    | Reads(now: int)
    | CompactReads(now: int)
    | DetailReads(now: int)

  method Perform<C>(cache: Cache<C>, op: Op<C>)
    requires cache.Valid() && (op.Commits? ==> Sound(op.raw))
    modifies cache
    ensures cache.Valid()
  {
    match op
    case Commits(raw, now) => cache.Commit(raw, now);
    case Fails(error) => cache.Fail(error);
    case Reconfigures(c, p, s) => cache.Reconfigure(c, p, s);
    case Reads(now) =>
      var snapshot, error := cache.State(now);
    case CompactReads(now) =>
      var snapshot, error := cache.State(now);
      var compact := CompactForDisplay(snapshot);
    case DetailReads(now) =>
      var snapshot, error := cache.State(now);
      var details := DetailForDisplay(snapshot);
  }

  /** A snapshot keeps its contents through any sequence of later operations, although its arrays are
      the cache's and every reader sorts and cuts what it gets. */
  method SnapshotIsStable<C>(cache: Cache<C>, now: int, ops: seq<Op<C>>)
    returns (snapshot: Shared, error: Option<string>)
    requires cache.Valid() && forall i | 0 <= i < |ops| && ops[i].Commits? :: Sound(ops[i].raw)
    modifies cache
    ensures Sound(snapshot)
    ensures old(Answered(cache.Now(), now))
         == if error.Some? then Unavailable(error.value) else Available(Value(snapshot))
  {
    snapshot, error := cache.State(now);
    ghost var taken := Value(snapshot);
    for i := 0 to |ops|
      invariant cache.Valid() && Value(snapshot) == taken
    {
      Perform(cache, ops[i]);
    }
  }
}
