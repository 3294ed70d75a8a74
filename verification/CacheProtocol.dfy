/** The cache as interleaved critical sections: a Refresh captures the collector in one, collects
    with no lock held, and reports in another; a Reconfigure may come in between. */
module CacheProtocol {
  import opened Display
  import opened Health
  import opened Wrappers

  /** The guarded fields. `C` stands for collectors; times are in one common unit. */
  datatype Fields<C> = Fields(collector: C, pollInterval: int, staleAfter: int,
                              state: State, lastOK: int, lastErr: Option<string>, hasState: bool)

  const NO_STATE := State(map[], Summary(OK, 0, 0, 0, 0, 0, 0), false)

  function NewFields<C>(collector: C, pollInterval: int, staleAfter: int): Fields<C> {
    Fields(collector, pollInterval, staleAfter, NO_STATE, 0, None, false)
  }

  function Committed<C>(f: Fields<C>, raw: State, now: int): Fields<C> {
    f.(state := Finalized(raw), lastOK := now, lastErr := None, hasState := true)
  }

  function Reconfigured<C>(f: Fields<C>, collector: C, pollInterval: int, staleAfter: int): Fields<C> {
    f.(collector := collector, pollInterval := pollInterval, staleAfter := staleAfter)
  }

  datatype Answer = Unavailable(error: string) | Available(state: State)

  /** What a reader gets at a point in time. */
  function Answered<C>(f: Fields<C>, now: int): Answer {
    if !f.hasState then Unavailable(if f.lastErr.Some? then f.lastErr.value else "no state collected yet")
    else Available(if now - f.lastOK > f.staleAfter then f.state.(stale := true) else f.state)
  }

  /** One critical section. A ticket names one Refresh; `author` is the collector that did its work. */
  datatype Event<C> =
    | Begin(ticket: nat)
    | Succeed(ticket: nat, author: C, raw: State, now: int)
    | Fail(ticket: nat, author: C, error: string)
    | Reconfigure(collector: C, pollInterval: int, staleAfter: int)

  /** The fields, and the collector that each unfinished Refresh has captured. */
  datatype Machine<C> = Machine(fields: Fields<C>, flights: map<nat, C>)

  /** A ticket is used once, and a Refresh reports what its captured collector gave. */
  predicate Enabled<C(==)>(m: Machine<C>, used: set<nat>, e: Event<C>) {
    match e
    case Begin(t) => t !in used
    case Succeed(t, author, _, _) => t in m.flights && m.flights[t] == author
    case Fail(t, author, _) => t in m.flights && m.flights[t] == author
    case Reconfigure(_, _, _) => true
  }

  function Stepped<C>(m: Machine<C>, e: Event<C>): Machine<C> {
    match e
    case Begin(t) => m.(flights := m.flights[t := m.fields.collector])
    case Succeed(t, _, raw, now) => Machine(Committed(m.fields, raw, now), m.flights - {t})
    case Fail(t, _, error) => Machine(m.fields.(lastErr := Some(error)), m.flights - {t})
    case Reconfigure(c, p, s) => m.(fields := Reconfigured(m.fields, c, p, s))
  }

  function Run<C>(start: Fields<C>, events: seq<Event<C>>): Machine<C> {
    if events == [] then Machine(start, map[])
    else Stepped(Run(start, events[..|events| - 1]), events[|events| - 1])
  }

  function Tickets<C>(events: seq<Event<C>>): set<nat> {
    set i | 0 <= i < |events| && events[i].Begin? :: events[i].ticket
  }

  /** The runs: every interleaving of any number of Refreshes and Reconfigures. */
  predicate IsRun<C(==)>(start: Fields<C>, events: seq<Event<C>>) {
    events == [] ||
    (var before := events[..|events| - 1];
     IsRun(start, before) && Enabled(Run(start, before), Tickets(before), events[|events| - 1]))
  }

  /** The collector that the last Reconfigure installed, or the first one. */
  function Installed<C>(start: Fields<C>, events: seq<Event<C>>): C {
    if events == [] then start.collector
    else if events[|events| - 1].Reconfigure? then events[|events| - 1].collector
    else Installed(start, events[..|events| - 1])
  }

  lemma {:induction false} InstalledIsCurrent<C>(start: Fields<C>, events: seq<Event<C>>)
    ensures Run(start, events).fields.collector == Installed(start, events)
  {
    if events != [] { InstalledIsCurrent(start, events[..|events| - 1]); }
  }

  /** Refresh t began at position i. */
  predicate BeganAt<C>(events: seq<Event<C>>, t: nat, i: nat) {
    i < |events| && events[i] == Begin(t)
  }

  lemma PrefixBegan<C>(events: seq<Event<C>>, t: nat, i: nat)
    requires events != [] && BeganAt(events[..|events| - 1], t, i)
    ensures BeganAt(events, t, i) && events[..i] == events[..|events| - 1][..i]
  {
  }

  /** An unfinished Refresh holds the collector that was installed when it began. */
  lemma {:induction false} FlightsHoldInstalled<C>(start: Fields<C>, events: seq<Event<C>>, t: nat) returns (i: nat)
    requires IsRun(start, events) && t in Run(start, events).flights
    ensures BeganAt(events, t, i) && Run(start, events).flights[t] == Installed(start, events[..i])
  {
    var before, e := events[..|events| - 1], events[|events| - 1];
    if e == Begin(t) {
      InstalledIsCurrent(start, before);
      i := |events| - 1;
    } else {
      i := FlightsHoldInstalled(start, before, t);
      PrefixBegan(events, t, i);
    }
  }

  /** Position i is the last successful Refresh. */
  predicate LastSuccess<C>(events: seq<Event<C>>, i: nat) {
    i < |events| && events[i].Succeed? && forall j | i < j < |events| :: !events[j].Succeed?
  }

  lemma LastSuccessExtends<C>(events: seq<Event<C>>, i: nat)
    requires events != [] && !events[|events| - 1].Succeed? && LastSuccess(events[..|events| - 1], i)
    ensures LastSuccess(events, i) && events[..i] == events[..|events| - 1][..i]
  {
  }

  /** Whatever the interleaving, the cached state is the finalized result of the last successful
      Refresh, collected by the collector that was installed when that Refresh began. */
  lemma {:induction false} Provenance<C>(start: Fields<C>, events: seq<Event<C>>) returns (i: nat, began: nat)
    requires IsRun(start, events) && !start.hasState && Run(start, events).fields.hasState
    ensures LastSuccess(events, i)
    ensures Run(start, events).fields.state == Finalized(events[i].raw)
    ensures Run(start, events).fields.lastOK == events[i].now
    ensures began < i && BeganAt(events, events[i].ticket, began)
    ensures events[i].author == Installed(start, events[..began])
  {
    var before, e := events[..|events| - 1], events[|events| - 1];
    if e.Succeed? {
      i := |events| - 1;
      began := FlightsHoldInstalled(start, before, e.ticket);
      PrefixBegan(events, e.ticket, began);
    } else {
      i, began := Provenance(start, before);
      LastSuccessExtends(events, i);
      assert events[..began] == before[..began];
    }
  }

  predicate Succeeded<C>(events: seq<Event<C>>) {
    exists i | 0 <= i < |events| :: events[i].Succeed?
  }

  /** There is a state exactly once some Refresh has succeeded, so it never goes away again. */
  lemma {:induction false} HasStateMeaning<C>(start: Fields<C>, events: seq<Event<C>>)
    requires !start.hasState
    ensures Run(start, events).fields.hasState <==> Succeeded(events)
  {
    if events != [] {
      var before := events[..|events| - 1];
      HasStateMeaning(start, before);
      assert forall i | 0 <= i < |before| :: before[i] == events[i];
      if events[|events| - 1].Succeed? {
        assert Succeeded(events);
      } else if Succeeded(before) {
        var i :| 0 <= i < |before| && before[i].Succeed?;
        assert events[i].Succeed?;
      }
    }
  }

  /** What readers are served from changes with successful Refreshes only: over any stretch of a run
      without one, failures, reconfigurations and beginnings leave state, time stamp and presence alone;
      and without a reconfiguration either, a reader who was given a state before is given the same. */
  lemma {:induction false} OnlySuccessChangesState<C>(start: Fields<C>, events: seq<Event<C>>, i: nat)
    requires i <= |events| && forall j | i <= j < |events| :: !events[j].Succeed?
    ensures var was, now := Run(start, events[..i]).fields, Run(start, events).fields;
            && now.state == was.state && now.lastOK == was.lastOK && now.hasState == was.hasState
            && ((forall j | i <= j < |events| :: !events[j].Reconfigure?) && was.hasState ==>
                  forall time :: Answered(now, time) == Answered(was, time))
  {
    if i == |events| {
      assert events[..i] == events;
    } else {
      var before := events[..|events| - 1];
      OnlySuccessChangesState(start, before, i);
      assert before[..i] == events[..i];
    }
  }

  /** Position i is the last Reconfigure. */
  predicate LastReconfigure<C>(events: seq<Event<C>>, i: int) {
    0 <= i < |events| && events[i].Reconfigure? && forall j | i < j < |events| :: !events[j].Reconfigure?
  }

  /** The intervals in force are those of the last Reconfigure, or the first ones. */
  lemma {:induction false} IntervalsMeaning<C>(start: Fields<C>, events: seq<Event<C>>)
    ensures (forall i | 0 <= i < |events| :: !events[i].Reconfigure?) ==>
              var f := Run(start, events).fields;
              f.pollInterval == start.pollInterval && f.staleAfter == start.staleAfter
    ensures forall i | LastReconfigure(events, i) ::
              var f := Run(start, events).fields;
              f.pollInterval == events[i].pollInterval && f.staleAfter == events[i].staleAfter
  {
    if events != [] {
      var before := events[..|events| - 1];
      assert forall i | 0 <= i < |before| :: before[i] == events[i];
      IntervalsMeaning(start, before);
      if !events[|events| - 1].Reconfigure? {
        forall i | LastReconfigure(events, i) ensures LastReconfigure(before, i) {
        }
      }
    }
  }

  /** Position i is the last failed Refresh. */
  predicate LastFailure<C>(events: seq<Event<C>>, i: int) {
    0 <= i < |events| && events[i].Fail? && forall j | i < j < |events| :: !events[j].Fail?
  }

  lemma {:induction false} NoSuccessYet<C>(start: Fields<C>, events: seq<Event<C>>)
    requires !start.hasState && !Succeeded(events)
    ensures !Run(start, events).fields.hasState
    ensures (forall i | 0 <= i < |events| :: !events[i].Fail?) ==> Run(start, events).fields.lastErr == start.lastErr
    ensures forall i | LastFailure(events, i) :: Run(start, events).fields.lastErr == Some(events[i].error)
  {
    if events != [] {
      var before, e := events[..|events| - 1], events[|events| - 1];
      assert forall i | 0 <= i < |before| :: before[i] == events[i];
      assert !e.Succeed?;
      NoSuccessYet(start, before);
      forall i | LastFailure(events, i) ensures Run(start, events).fields.lastErr == Some(events[i].error) {
        if e.Fail? {
          assert i == |events| - 1;
        } else {
          assert LastFailure(before, i);
        }
      }
    }
  }

  /** The error remembered is that of the last Refresh to report, and none when that one succeeded. */
  lemma {:induction false} ErrorIsLast<C>(start: Fields<C>, events: seq<Event<C>>, i: nat)
    requires i < |events| && (events[i].Succeed? || events[i].Fail?)
    requires forall j | i < j < |events| :: !events[j].Succeed? && !events[j].Fail?
    ensures Run(start, events).fields.lastErr == if events[i].Fail? then Some(events[i].error) else None
  {
    if i < |events| - 1 {
      var before := events[..|events| - 1];
      assert forall j | 0 <= j < |before| :: before[j] == events[j];
      ErrorIsLast(start, before, i);
    }
  }

  /** Until some Refresh has succeeded, a reader is told the error of the last one that failed, or that
      nothing has been collected yet; from then on never again. */
  lemma ErrorMeaning<C>(start: Fields<C>, events: seq<Event<C>>, now: int)
    requires !start.hasState && start.lastErr.None?
    ensures var answer := Answered(Run(start, events).fields, now);
            && (Succeeded(events) <==> answer.Available?)
            && (!Succeeded(events) && (forall i | 0 <= i < |events| :: !events[i].Fail?) ==>
                  answer == Unavailable("no state collected yet"))
            && forall i | !Succeeded(events) && LastFailure(events, i) :: answer == Unavailable(events[i].error)
  {
    HasStateMeaning(start, events);
    if !Succeeded(events) { NoSuccessYet(start, events); }
  }

  /** A new cache has nothing to serve until its first success, and then always has. */
  lemma NewCacheIsEmpty<C>(collector: C, pollInterval: int, staleAfter: int, events: seq<Event<C>>, now: int)
    ensures var start := NewFields(collector, pollInterval, staleAfter);
            && (Answered(Run(start, events).fields, now).Available? <==> Succeeded(events))
            && Answered(start, now) == Unavailable("no state collected yet")
            && start.collector == collector && start.pollInterval == pollInterval && start.staleAfter == staleAfter
  {
    ErrorMeaning(NewFields(collector, pollInterval, staleAfter), events, now);
  }

  // ---- Superseded Refreshes ----

  /** Refreshes that began before position r and report at or after it, up to the end of `events`. */
  function LateReports<C>(events: seq<Event<C>>, r: nat, early: set<nat>): nat {
    if |events| <= r then 0
    else
      var e := events[|events| - 1];
      LateReports(events[..|events| - 1], r, early) + if (e.Succeed? || e.Fail?) && e.ticket in early then 1 else 0
  }

  function LateCommits<C>(events: seq<Event<C>>, r: nat, early: set<nat>): nat {
    if |events| <= r then 0
    else
      var e := events[|events| - 1];
      LateCommits(events[..|events| - 1], r, early) + if e.Succeed? && e.ticket in early then 1 else 0
  }

  lemma {:induction false} CommitsAmongReports<C>(events: seq<Event<C>>, r: nat, early: set<nat>)
    ensures LateCommits(events, r, early) <= LateReports(events, r, early)
  {
    if |events| > r { CommitsAmongReports(events[..|events| - 1], r, early); }
  }

  lemma {:induction false} FlightsBegan<C>(start: Fields<C>, events: seq<Event<C>>)
    requires IsRun(start, events)
    ensures Run(start, events).flights.Keys <= Tickets(events)
  {
    if events != [] {
      var before, e := events[..|events| - 1], events[|events| - 1];
      FlightsBegan(start, before);
      forall t | t in Run(start, events).flights ensures t in Tickets(events) {
        if e == Begin(t) {
          assert events[|events| - 1].Begin?;
        } else {
          var i :| 0 <= i < |before| && before[i].Begin? && before[i].ticket == t;
          assert events[i].Begin?;
        }
      }
    }
  }

  lemma TicketsGrow<C>(events: seq<Event<C>>, r: nat)
    requires r <= |events|
    ensures Tickets(events[..r]) <= Tickets(events)
  {
  }

  /** The Refreshes that are in flight at position r are conserved: from then on each of them has
      reported or is still in flight, and no ticket of theirs is given out again. */
  lemma {:induction false} EarlyFlights<C>(start: Fields<C>, events: seq<Event<C>>, r: nat)
    requires IsRun(start, events) && r <= |events|
    ensures var early := Run(start, events[..r]).flights.Keys;
            LateReports(events, r, early) + |Run(start, events).flights.Keys * early| == |early|
  {
    var early := Run(start, events[..r]).flights.Keys;
    if r == |events| {
      assert events[..r] == events;
      assert early * early == early;
    } else {
      var before, e := events[..|events| - 1], events[|events| - 1];
      assert before[..r] == events[..r];
      EarlyFlights(start, before, r);
      var was, now := Run(start, before).flights.Keys, Run(start, events).flights.Keys;
      if e.Begin? {
        RunPrefix(start, before, r);
        FlightsBegan(start, before[..r]);
        TicketsGrow(before, r);
        assert now * early == was * early;
      } else if e.Reconfigure? {
        assert now == was;
      } else {
        assert now * early == was * early - {e.ticket};
      }
    }
  }

  lemma {:induction false} RunPrefix<C>(start: Fields<C>, events: seq<Event<C>>, r: nat)
    requires IsRun(start, events) && r <= |events|
    ensures IsRun(start, events[..r])
  {
    if r < |events| {
      RunPrefix(start, events[..|events| - 1], r);
      assert events[..|events| - 1][..r] == events[..r];
    } else {
      assert events[..r] == events;
    }
  }

  /** After a Reconfigure, superseded Refreshes commit at most as often as there were Refreshes in
      flight at that moment; once all of those have reported, none will. */
  lemma SupersededCommitsBounded<C>(start: Fields<C>, events: seq<Event<C>>, r: nat)
    requires IsRun(start, events) && r < |events| && events[r].Reconfigure?
    ensures var early := Run(start, events[..r]).flights.Keys;
            && LateCommits(events, r, early) <= |early|
            && LateReports(events, r, early) + |Run(start, events).flights.Keys * early| == |early|
  {
    EarlyFlights(start, events, r);
    CommitsAmongReports(events, r, Run(start, events[..r]).flights.Keys);
  }

  /** A commit after a Reconfigure is superseded, or its Refresh began later and so used the collector
      of that Reconfigure or of a newer one. */
  lemma CommitAfterReconfigure<C>(start: Fields<C>, events: seq<Event<C>>, r: nat, i: nat) returns (began: nat)
    requires IsRun(start, events) && r < i < |events|
    requires events[r].Reconfigure? && events[i].Succeed?
    ensures began < i && BeganAt(events, events[i].ticket, began)
    ensures events[i].author == Installed(start, events[..began])
    ensures events[i].ticket !in Run(start, events[..r]).flights ==> began > r
  {
    RunPrefix(start, events, i + 1);
    assert events[..i + 1][..i] == events[..i];
    began := FlightsHoldInstalled(start, events[..i], events[i].ticket);
    assert events[..i][..began] == events[..began];
    if began < r {
      StaysInFlight(start, events, events[i].ticket, began, r, i);
    }
  }

  /** A Refresh that reports at i is in flight at every position between its beginning and i. */
  lemma {:induction false} StaysInFlight<C>(start: Fields<C>, events: seq<Event<C>>, t: nat, began: nat, r: nat, i: nat)
    requires IsRun(start, events) && began < r <= i <= |events|
    requires BeganAt(events, t, began) && t in Run(start, events[..i]).flights
    ensures t in Run(start, events[..r]).flights
    decreases i - r
  {
    if r < i {
      assert events[..i][..i - 1] == events[..i - 1];
      RunPrefix(start, events, i);
      assert events[..i - 1][began].Begin?;
      assert t in Tickets(events[..i - 1]);
      StaysInFlight(start, events, t, began, r, i - 1);
    }
  }

  // ---- Staleness ----

  /** Commits are stamped by a clock that never goes back, and `now` is not before any of them. */
  predicate ClockOK<C>(events: seq<Event<C>>, now: int) {
    && (forall i, j | 0 <= i < j < |events| && events[i].Succeed? && events[j].Succeed? ::
          events[i].now <= events[j].now)
    && forall i | 0 <= i < |events| && events[i].Succeed? :: events[i].now <= now
  }

  /** Some Refresh succeeded no longer than `window` ago. */
  predicate FreshWithin<C>(events: seq<Event<C>>, now: int, window: int) {
    exists i | 0 <= i < |events| && events[i].Succeed? :: now - events[i].now <= window
  }

  /** With a clock that never goes back, the state a reader gets is unmarked exactly when a Refresh has
      succeeded within the current staleness window. (Collectors never mark states themselves.) */
  lemma StaleMeaning<C>(start: Fields<C>, events: seq<Event<C>>, now: int)
    requires IsRun(start, events) && !start.hasState && ClockOK(events, now)
    requires forall i | 0 <= i < |events| && events[i].Succeed? :: !events[i].raw.stale
    ensures var f := Run(start, events).fields;
            Answered(f, now).Available? ==> (!Answered(f, now).state.stale <==> FreshWithin(events, now, f.staleAfter))
  {
    var f := Run(start, events).fields;
    if f.hasState {
      var i, began := Provenance(start, events);
      if j :| 0 <= j < |events| && events[j].Succeed? && now - events[j].now <= f.staleAfter {
        assert j <= i;
      }
    }
  }
}
