/** The firmware's lists, selections and screens over every run of parses and button presses. */
module Selection {
  import opened Ordering

  datatype List =
    | Hosts | Storages | Disks | Guests | Tasks | Alerts
    | ZFSPools | StorageItems | Trends | Certificates | Capabilities | CephClusters

  /** The lists of /display-state, and those of /detail-state. */
  const STATE_LISTS: seq<List> := [Hosts, Storages, Disks, Guests, Tasks, Alerts]
  const DETAIL_LISTS: seq<List> := [ZFSPools, StorageItems, Trends, Certificates, Capabilities, CephClusters]

  const SCREEN_COUNT := 19

  function Capacity(l: List): nat {
    match l
    case Hosts => 12
    case Storages => 24
    case Disks => 24
    case Guests => 24
    case Tasks => 24
    case Alerts => 12
    case ZFSPools => 16
    case StorageItems => 48
    case Trends => 64
    case Certificates => 24
    case Capabilities => 48
    case CephClusters => 8
  }

  /** A payload after JSON parsing: it fails, or yields a list (possibly absent) per name. */
  datatype Payload<T> = Failed | Parsed(lists: map<List, seq<T>>)

  function ListIn<T>(p: Payload<T>, l: List): seq<T> {
    if p.Parsed? && l in p.lists then p.lists[l] else []
  }

  /** One list on the device: its array's filled part and its selected index. */
  datatype Slot<T> = Slot(rows: seq<T>, selected: nat)

  datatype View<T> = View(slots: map<List, Slot<T>>, screen: nat)

  predicate Total<T>(slots: map<List, Slot<T>>) {
    forall l: List :: l in slots
  }

  /** The selection is a valid index, or 0 in an empty list. */
  predicate InRange<T>(s: Slot<T>) {
    s.selected < |s.rows| || (s.selected == 0 && s.rows == [])
  }

  /** Counts fit the arrays, selections and the screen index are in range. */
  predicate Safe<T>(v: View<T>) {
    && v.screen < SCREEN_COUNT
    && Total(v.slots)
    && forall l: List :: |v.slots[l].rows| <= Capacity(l) && InRange(v.slots[l])
  }

  /** The first rows of the payload replace the list; a selection past the end moves to the last row. */
  function Refilled<T>(s: Slot<T>, items: seq<T>, capacity: nat): Slot<T> {
    var rows := Take(items, capacity);
    Slot(rows, if rows == [] then 0 else if s.selected >= |rows| then |rows| - 1 else s.selected)
  }

  function Loaded<T>(slots: map<List, Slot<T>>, p: Payload<T>, lists: seq<List>): (r: map<List, Slot<T>>)
    requires Total(slots)
    ensures Total(r)
  {
    if lists == [] then slots
    else
      var before := Loaded(slots, p, lists[..|lists| - 1]);
      var l := lists[|lists| - 1];
      before[l := Refilled(before[l], ListIn(p, l), Capacity(l))]
  }

  function Advanced<T>(s: Slot<T>): Slot<T> {
    if s.rows == [] then s else s.(selected := (s.selected + 1) % |s.rows|)
  }

  /** The list that button B walks on a screen; the other screens refresh instead. */
  function ListOnScreen(screen: nat): (l: seq<List>)
    ensures |l| <= 1
  {
    if screen <= 4 then [Hosts]
    else if screen == 5 then [Disks]
    else if screen == 6 then [Storages]
    else if screen == 7 then [StorageItems]
    else if screen == 8 then [ZFSPools]
    else if screen == 9 then [CephClusters]
    else if screen <= 12 then [Guests]
    else if screen == 13 then [Trends]
    else if screen == 14 then [Tasks]
    else if screen == 15 then [Certificates]
    else if screen == 16 then [Capabilities]
    else if screen == 17 then [Alerts]
    else []
  }

  /** Fetching both payloads: a failed parse changes nothing, and the detail payload is only
      asked for when the first one parses. */
  function Fetched<T>(slots: map<List, Slot<T>>, state: Payload<T>, details: Payload<T>): (r: map<List, Slot<T>>)
    requires Total(slots)
    ensures Total(r)
  {
    if state.Failed? then slots
    else if details.Failed? then Loaded(slots, state, STATE_LISTS)
    else Loaded(Loaded(slots, state, STATE_LISTS), details, DETAIL_LISTS)
  }

  datatype Event<T> =
    | Refresh(state: Payload<T>, details: Payload<T>)
    | NextScreen
    | PrevScreen
    | ButtonB(state: Payload<T>, details: Payload<T>)

  function Handled<T>(v: View<T>, e: Event<T>): View<T>
    requires Total(v.slots)
  {
    match e
    case Refresh(state, details) => v.(slots := Fetched(v.slots, state, details))
    case NextScreen => v.(screen := (v.screen + 1) % SCREEN_COUNT)
    case PrevScreen => v.(screen := if v.screen == 0 then SCREEN_COUNT - 1 else v.screen - 1)
    case ButtonB(state, details) =>
      var l := ListOnScreen(v.screen);
      if l != [] then v.(slots := v.slots[l[0] := Advanced(v.slots[l[0]])])
      else v.(slots := Fetched(v.slots, state, details))
  }

  function Empty<T>(): (slots: map<List, Slot<T>>)
    ensures Total(slots)
    ensures forall l: List :: slots[l] == Slot([], 0)
  {
    map l: List | Capacity(l) > 0 :: Slot([], 0)
  }

  /** The device after any events since boot. */
  function Run<T>(events: seq<Event<T>>): (v: View<T>)
    ensures Safe(v)
  {
    if events == [] then View(Empty(), 0)
    else
      var before := Run(events[..|events| - 1]);
      HandledSafe(before, events[|events| - 1]);
      Handled(before, events[|events| - 1])
  }

  predicate SafeSlots<T>(slots: map<List, Slot<T>>) {
    Total(slots) && forall l: List :: |slots[l].rows| <= Capacity(l) && InRange(slots[l])
  }

  lemma {:induction false} LoadedSafe<T>(slots: map<List, Slot<T>>, p: Payload<T>, lists: seq<List>)
    requires SafeSlots(slots)
    ensures SafeSlots(Loaded(slots, p, lists))
  {
    if lists != [] { LoadedSafe(slots, p, lists[..|lists| - 1]); }
  }

  lemma FetchedSafe<T>(slots: map<List, Slot<T>>, state: Payload<T>, details: Payload<T>)
    requires SafeSlots(slots)
    ensures SafeSlots(Fetched(slots, state, details))
  {
    LoadedSafe(slots, state, STATE_LISTS);
    LoadedSafe(Loaded(slots, state, STATE_LISTS), details, DETAIL_LISTS);
  }

  /** Every event, a failed or a successful parse among them, keeps every index in range. */
  lemma HandledSafe<T>(v: View<T>, e: Event<T>)
    requires Safe(v)
    ensures Safe(Handled(v, e))
  {
    assert SafeSlots(v.slots);
    if e.Refresh? || e.ButtonB? { FetchedSafe(v.slots, e.state, e.details); }
  }

  lemma {:induction false} LoadedBy<T>(slots: map<List, Slot<T>>, p: Payload<T>, lists: seq<List>, l: List)
    requires Total(slots)
    requires forall i, j | 0 <= i < j < |lists| :: lists[i] != lists[j]
    ensures Loaded(slots, p, lists)[l] ==
            if l in lists then Refilled(slots[l], ListIn(p, l), Capacity(l)) else slots[l]
  {
    if lists != [] {
      var front, last := lists[..|lists| - 1], lists[|lists| - 1];
      LoadedBy(slots, p, front, l);
      assert l in lists <==> l in front || l == last;
      assert l == last ==> l !in front;
    }
  }

  /** The list holds the first of the items, no more than the limit. The selection stays where it is while
      that row exists, and otherwise moves to the last row, or to 0 when there is none. */
  predicate TakesRows<T(==)>(was: Slot<T>, now: Slot<T>, items: seq<T>, limit: nat) {
    && now.rows <= items && |now.rows| == (if |items| < limit then |items| else limit)
    && (was.selected < |now.rows| ==> now.selected == was.selected)
    && (|now.rows| <= was.selected ==> now.selected == if |now.rows| > 0 then |now.rows| - 1 else 0)
  }

  /** A parse refills exactly the lists it covers, and a list that the payload does not have is empty. */
  lemma LoadedSlot<T>(slots: map<List, Slot<T>>, p: Payload<T>, lists: seq<List>, l: List)
    requires Total(slots) && p.Parsed?
    requires forall i, j | 0 <= i < j < |lists| :: lists[i] != lists[j]
    ensures l !in lists ==> Loaded(slots, p, lists)[l] == slots[l]
    ensures l in lists ==>
              TakesRows(slots[l], Loaded(slots, p, lists)[l], if l in p.lists then p.lists[l] else [], Capacity(l))
  {
    LoadedBy(slots, p, lists, l);
    hide Loaded, Capacity;
  }

  predicate OfState(l: List) {
    l in {Hosts, Storages, Disks, Guests, Tasks, Alerts}
  }

  /** Each list is in exactly one of the two payloads. */
  lemma ListTables(l: List)
    ensures (l in STATE_LISTS <==> OfState(l)) && (l in DETAIL_LISTS <==> !OfState(l))
    ensures forall i, j | 0 <= i < j < 6 :: STATE_LISTS[i] != STATE_LISTS[j] && DETAIL_LISTS[i] != DETAIL_LISTS[j]
  {
  }

  lemma FetchedList<T>(slots: map<List, Slot<T>>, state: Payload<T>, details: Payload<T>, l: List)
    requires Total(slots)
    ensures var now, payload := Fetched(slots, state, details), if OfState(l) then state else details;
            if state.Failed? || payload.Failed? then now[l] == slots[l]
            else TakesRows(slots[l], now[l], if l in payload.lists then payload.lists[l] else [], Capacity(l))
  {
    hide Loaded, TakesRows, Capacity, OfState;
    ListTables(l);
    if state.Parsed? {
      LoadedSlot(slots, state, STATE_LISTS, l);
      if details.Parsed? {
        LoadedSlot(Loaded(slots, state, STATE_LISTS), details, DETAIL_LISTS, l);
      }
    }
  }

  /** What a refresh makes of each list: nothing when the first payload does not parse; otherwise the lists
      of that payload are refilled, and those of the second one when that parses too. */
  lemma RefreshMeaning<T>(v: View<T>, state: Payload<T>, details: Payload<T>, l: List)
    requires Total(v.slots)
    ensures var now := Handled(v, Refresh(state, details));
            var payload := if l in {Hosts, Storages, Disks, Guests, Tasks, Alerts} then state else details;
            && now.screen == v.screen
            && if state.Failed? || payload.Failed? then now.slots[l] == v.slots[l]
               else
                 var items := if l in payload.lists then payload.lists[l] else [];
                 match l
                 case CephClusters => TakesRows(v.slots[l], now.slots[l], items, 8)
                 case Hosts | Alerts => TakesRows(v.slots[l], now.slots[l], items, 12)
                 case ZFSPools => TakesRows(v.slots[l], now.slots[l], items, 16)
                 case StorageItems | Capabilities => TakesRows(v.slots[l], now.slots[l], items, 48)
                 case Trends => TakesRows(v.slots[l], now.slots[l], items, 64)
                 case _ => TakesRows(v.slots[l], now.slots[l], items, 24)
  {
    hide TakesRows, Fetched;
    FetchedList(v.slots, state, details, l);
  }

  // ---- Screens and button B ----

  /** Going forward and going back undo each other. */
  lemma ScreensTurnBack<T>(v: View<T>)
    requires Safe(v)
    ensures Handled(Handled(v, NextScreen), PrevScreen) == v
    ensures Handled(Handled(v, PrevScreen), NextScreen) == v
  {
  }

  function Forward<T>(v: View<T>, k: nat): (r: View<T>)
    requires Total(v.slots)
    ensures Total(r.slots)
  {
    if k == 0 then v else Handled(Forward(v, k - 1), NextScreen)
  }

  /** Going forward shows the screens in turn, and all 19 lead back to the first. */
  lemma {:induction false} ScreensInTurn<T>(v: View<T>, k: nat)
    requires Total(v.slots) && v.screen < 19 && k <= 19
    ensures Forward(v, k) == v.(screen := if v.screen + k < 19 then v.screen + k else v.screen + k - 19)
  {
    if k > 0 {
      ScreensInTurn(v, k - 1);
      assert Forward(v, k - 1).screen < 19;
    }
  }

  /** The selection of one list has moved to the next row, from the last one to the first. */
  predicate Moved<T(==)>(was: View<T>, now: View<T>, l: List)
    requires Total(was.slots) && Total(now.slots)
  {
    && now.screen == was.screen && (forall k: List | k != l :: now.slots[k] == was.slots[k])
    && now.slots[l].rows == was.slots[l].rows
    && (was.slots[l].selected + 1 < |was.slots[l].rows| ==> now.slots[l].selected == was.slots[l].selected + 1)
    && (was.slots[l].selected + 1 == |was.slots[l].rows| ==> now.slots[l].selected == 0)
    && (was.slots[l].rows == [] ==> now.slots[l] == was.slots[l])
  }

  /** Which list button B walks on each screen; on the last one it refreshes. */
  lemma ButtonBMeaning<T>(v: View<T>, state: Payload<T>, details: Payload<T>)
    requires Safe(v)
    ensures var now := Handled(v, ButtonB(state, details));
            && Total(now.slots)
            && (v.screen in {0, 1, 2, 3, 4} ==> Moved(v, now, Hosts))
            && (v.screen == 5 ==> Moved(v, now, Disks))
            && (v.screen == 6 ==> Moved(v, now, Storages))
            && (v.screen == 7 ==> Moved(v, now, StorageItems))
            && (v.screen == 8 ==> Moved(v, now, ZFSPools))
            && (v.screen == 9 ==> Moved(v, now, CephClusters))
            && (v.screen in {10, 11, 12} ==> Moved(v, now, Guests))
            && (v.screen == 13 ==> Moved(v, now, Trends))
            && (v.screen == 14 ==> Moved(v, now, Tasks))
            && (v.screen == 15 ==> Moved(v, now, Certificates))
            && (v.screen == 16 ==> Moved(v, now, Capabilities))
            && (v.screen == 17 ==> Moved(v, now, Alerts))
            && (v.screen == 18 ==> now == Handled(v, Refresh(state, details)))
  {
    hide Fetched, Moved, Advanced;
    forall l: List ensures Moved(v, v.(slots := v.slots[l := Advanced(v.slots[l])]), l) {
      OneMoved(v, l);
    }
  }

  lemma OneMoved<T>(v: View<T>, l: List)
    requires Safe(v)
    ensures Moved(v, v.(slots := v.slots[l := Advanced(v.slots[l])]), l)
  {
    if v.slots[l].rows != [] { AdvancedAt(v.slots[l]); }
  }

  /** The firmware's global variables. */
  class Device<T> {
    var slots: map<List, Slot<T>>
    var screen: nat

    function Value(): View<T>
      reads this
    {
      View(slots, screen)
    }

    constructor ()
      ensures Value() == View(Empty(), 0)
    {
      slots, screen := Empty(), 0;
    }

    /** Copies items until the array is full. */
    static method Fill(items: seq<T>, capacity: nat) returns (filled: seq<T>)
      ensures filled == Take(items, capacity)
    {
      filled := [];
      for i := 0 to |items|
        invariant filled == items[..i] && i <= capacity
      {
        if |filled| >= capacity {
          break;
        }
        filled := filled + [items[i]];
      }
    }

    /** Fills one array and clamps its selection. */
    method Load(items: seq<T>, l: List)
      requires Total(slots)
      modifies this`slots
      ensures slots == old(slots)[l := Refilled(old(slots)[l], items, Capacity(l))]
    {
      var filled := Fill(items, Capacity(l));
      var selected := slots[l].selected;
      if |filled| == 0 {
        selected := 0;
      } else if selected >= |filled| {
        selected := |filled| - 1;
      }
      slots := slots[l := Slot(filled, selected)];
    }

    method Parse(p: Payload<T>, lists: seq<List>) returns (ok: bool)
      requires Total(slots)
      modifies this`slots
      ensures ok == p.Parsed? && slots == if ok then Loaded(old(slots), p, lists) else old(slots)
    {
      if p.Failed? {
        return false;
      }
      for i := 0 to |lists|
        invariant slots == Loaded(old(slots), p, lists[..i])
      {
        Load(ListIn(p, lists[i]), lists[i]);
        assert lists[..i + 1][..i] == lists[..i];
      }
      assert lists[..|lists|] == lists;
      return true;
    }

    method FetchState(state: Payload<T>, details: Payload<T>)
      requires Total(slots)
      modifies this`slots
      ensures slots == Fetched(old(slots), state, details)
    {
      var ok := Parse(state, STATE_LISTS);
      if !ok {
        return;
      }
      ok := Parse(details, DETAIL_LISTS);
    }

    method Next(l: List)
      requires Total(slots)
      modifies this`slots
      ensures slots == old(slots)[l := Advanced(old(slots)[l])]
    {
      if |slots[l].rows| == 0 {
        return;
      }
      slots := slots[l := slots[l].(selected := (slots[l].selected + 1) % |slots[l].rows|)];
    }

    method Handle(e: Event<T>)
      requires Safe(Value())
      modifies this
      ensures Value() == Handled(old(Value()), e)
      ensures Safe(Value())
    {
      HandledSafe(Value(), e);
      match e
      case Refresh(state, details) =>
        FetchState(state, details);
      case NextScreen =>
        screen := (screen + 1) % SCREEN_COUNT;
      case PrevScreen =>
        screen := if screen == 0 then SCREEN_COUNT - 1 else screen - 1;
      case ButtonB(state, details) =>
        var l := ListOnScreen(screen);
        if l != [] {
          Next(l[0]);
        } else {
          FetchState(state, details);
        }
    }
  }

  /** A list after k presses of "next". */
  function Presses<T>(s: Slot<T>, k: nat): Slot<T> {
    if k == 0 then s else Advanced(Presses(s, k - 1))
  }

  lemma AdvancedAt<T>(s: Slot<T>)
    requires s.selected < |s.rows|
    ensures Advanced(s) == s.(selected := if s.selected + 1 == |s.rows| then 0 else s.selected + 1)
  {
  }

  lemma {:induction false} PressesAt<T>(s: Slot<T>, k: nat)
    requires s.selected < |s.rows| && k <= |s.rows|
    ensures Presses(s, k) ==
            s.(selected := if s.selected + k < |s.rows| then s.selected + k else s.selected + k - |s.rows|)
  {
    if k > 0 {
      PressesAt(s, k - 1);
      AdvancedAt(Presses(s, k - 1));
    }
  }

  /** As many presses as there are rows visit every row exactly once. */
  lemma PressesVisitAll<T>(s: Slot<T>, row: nat)
    requires s.selected < |s.rows| && row < |s.rows|
    ensures exists k | 0 <= k < |s.rows| :: Presses(s, k).selected == row
              && forall m | 0 <= m < |s.rows| && Presses(s, m).selected == row :: m == k
  {
    var k := if row >= s.selected then row - s.selected else row - s.selected + |s.rows|;
    PressesAt(s, k);
    forall m | 0 <= m < |s.rows| && Presses(s, m).selected == row ensures m == k {
      PressesAt(s, m);
    }
  }

  /** The first row a list screen draws. */
  function VisibleWindowStart(selected: nat, count: nat, visibleRows: nat): nat {
    if count <= visibleRows || visibleRows == 0 then 0
    else
      var half := visibleRows / 2;
      if selected <= half then 0
      else if selected + (visibleRows - half) >= count then count - visibleRows
      else selected - half
  }

  /** The window is full and in bounds, shows the selected row, and moves by at most one row when
      the selection does. */
  lemma WindowShowsSelection(selected: nat, count: nat, visibleRows: nat)
    requires selected < count && visibleRows > 0
    ensures var start := VisibleWindowStart(selected, count, visibleRows);
            && start <= selected < start + visibleRows
            && (if count <= visibleRows then start == 0 else start + visibleRows <= count)
            && (start == 0 || start + visibleRows == count || selected - start == visibleRows / 2)
            && (start == 0 && count > visibleRows ==> selected <= visibleRows / 2)
            && (selected + 1 < count ==>
                  0 <= VisibleWindowStart(selected + 1, count, visibleRows) - start <= 1)
  {
  }
}
