/** The firmware's button polling over whole sample traces, with a 32-bit millisecond clock. */
module Buttons {
  const BUTTON_LONG_MS := 1200
  const CLOCK_WRAP := 0x1_0000_0000

  datatype Callback = ShortPress | LongPress

  datatype Button = Button(previous: bool, pressedAt: nat, longHandled: bool)

  const RELEASED := Button(false, 0, false)

  /** One poll of the pin, taken at true time `at`. */
  datatype Sample = Sample(pressed: bool, at: nat)

  function Millis(at: nat): nat {
    at % CLOCK_WRAP
  }

  /** Unsigned 32-bit subtraction. */
  function Elapsed(now: nat, since: nat): nat {
    (now - since) % CLOCK_WRAP
  }

  class ButtonState {
    var previous: bool
    var pressedAt: nat
    var longHandled: bool

    constructor ()
      ensures Value() == RELEASED
    {
      previous, pressedAt, longHandled := false, 0, false;
    }

    function Value(): Button
      reads this
    {
      Button(previous, pressedAt, longHandled)
    }

    /** Returns the callbacks that this poll runs. */
    method PollButton(pressed: bool, now: nat) returns (fired: seq<Callback>)
      modifies this
      ensures Value() == Poll(old(Value()), pressed, now).0
      ensures fired == Poll(old(Value()), pressed, now).1
    {
      fired := [];
      if pressed && !previous {
        pressedAt := now;
        longHandled := false;
      }
      if pressed && !longHandled && Elapsed(now, pressedAt) > BUTTON_LONG_MS {
        longHandled := true;
        fired := fired + [LongPress];
      }
      if !pressed && previous && !longHandled {
        fired := fired + [ShortPress];
      }
      previous := pressed;
    }
  }

  /** The button after a poll, and what the poll runs: while held, the long callback once its
      time is over; on release, the short one if the long one has not run. */
  function Poll(b: Button, pressed: bool, now: nat): (Button, seq<Callback>) {
    if pressed then
      var held := if b.previous then b else Button(true, now, false);
      var long := !held.longHandled && Elapsed(now, held.pressedAt) > BUTTON_LONG_MS;
      (Button(true, held.pressedAt, held.longHandled || long), if long then [LongPress] else [])
    else
      (b.(previous := false), if b.previous && !b.longHandled then [ShortPress] else [])
  }

  /** The button after a trace. */
  function After(trace: seq<Sample>): Button {
    if trace == [] then RELEASED
    else
      var last := trace[|trace| - 1];
      Poll(After(trace[..|trace| - 1]), last.pressed, Millis(last.at)).0
  }

  /** What the poll at position k runs. */
  function Fired(trace: seq<Sample>, k: nat): seq<Callback>
    requires k < |trace|
  {
    Poll(After(trace[..k]), trace[k].pressed, Millis(trace[k].at)).1
  }

  /** All callbacks of a trace. */
  function Log(trace: seq<Sample>): seq<Callback> {
    if trace == [] then []
    else Log(trace[..|trace| - 1]) + Fired(trace, |trace| - 1)
  }

  predicate IsEdge(trace: seq<Sample>, k: nat)
    requires k < |trace|
  {
    trace[k].pressed && (k == 0 || !trace[k - 1].pressed)
  }

  function Edges(trace: seq<Sample>): nat {
    if trace == [] then 0
    else Edges(trace[..|trace| - 1]) + (if IsEdge(trace, |trace| - 1) then 1 else 0)
  }

  lemma {:induction false} PreviousIsLast(trace: seq<Sample>)
    ensures After(trace).previous <==> trace != [] && trace[|trace| - 1].pressed
  {
  }

  /** Conservation: every press edge is accounted for by one callback, except a press still held
      whose long callback has not run. */
  lemma {:induction false} EveryEdgeAnswered(trace: seq<Sample>)
    ensures Edges(trace) == |Log(trace)| + (if After(trace).previous && !After(trace).longHandled then 1 else 0)
  {
    if trace != [] {
      var before := trace[..|trace| - 1];
      EveryEdgeAnswered(before);
      PreviousIsLast(before);
    }
  }

  /** Samples i to j - 1 form one press: an edge at i, held since, released at j. */
  predicate IsPress(trace: seq<Sample>, i: nat, j: nat) {
    && i < j < |trace|
    && (i == 0 || !trace[i - 1].pressed)
    && (forall k | i <= k < j :: trace[k].pressed)
    && !trace[j].pressed
  }

  /** The clock shows more than the long-press time at sample k of a press that began at i. */
  predicate Late(trace: seq<Sample>, i: nat, k: nat)
    requires i < |trace| && k < |trace|
  {
    Elapsed(Millis(trace[k].at), Millis(trace[i].at)) > 1200
  }

  /** Some sample of the press up to position k is late. */
  predicate LateBy(trace: seq<Sample>, i: nat, k: nat)
    requires i <= k < |trace|
  {
    exists m | i <= m <= k :: Late(trace, i, m)
  }

  lemma LateByStep(trace: seq<Sample>, i: nat, k: nat)
    requires i <= k < |trace|
    ensures LateBy(trace, i, k) <==> Late(trace, i, k) || (k > i && LateBy(trace, i, k - 1))
    ensures !Late(trace, i, i)
  {
  }

  lemma AfterStep(trace: seq<Sample>, k: nat)
    requires k < |trace|
    ensures After(trace[..k + 1]) == Poll(After(trace[..k]), trace[k].pressed, Millis(trace[k].at)).0
  {
    assert trace[..k + 1][..k] == trace[..k];
  }

  lemma {:induction false} DuringPress(trace: seq<Sample>, i: nat, j: nat, k: nat)
    requires IsPress(trace, i, j) && i <= k < j
    ensures After(trace[..k + 1]) == Button(true, Millis(trace[i].at), LateBy(trace, i, k))
    decreases k
  {
    AfterStep(trace, k);
    LateByStep(trace, i, k);
    if k == i {
      PreviousIsLast(trace[..k]);
    } else {
      DuringPress(trace, i, j, k - 1);
    }
  }

  /** A completed press runs exactly one callback: the long one at its first late sample if it has
      one, else the short one on release. */
  lemma PressAnsweredOnce(trace: seq<Sample>, i: nat, j: nat, k: nat)
    requires IsPress(trace, i, j) && i <= k <= j
    ensures k == i ==> Fired(trace, k) == []
    ensures i < k < j ==> Fired(trace, k) == (if Late(trace, i, k) && !LateBy(trace, i, k - 1) then [LongPress] else [])
    ensures k == j ==> Fired(trace, k) == (if LateBy(trace, i, j - 1) then [] else [ShortPress])
  {
    if k == i {
      PreviousIsLast(trace[..k]);
      LateByStep(trace, i, i);
    } else {
      DuringPress(trace, i, j, k - 1);
    }
  }

  /** Clock wrap does no harm while the true elapsed time fits the clock. */
  lemma ElapsedIsTrue(since: nat, now: nat)
    requires since <= now < since + CLOCK_WRAP
    ensures Elapsed(Millis(now), Millis(since)) == now - since
  {
  }

  predicate Monotone(trace: seq<Sample>) {
    forall a, b | 0 <= a < b < |trace| :: trace[a].at <= trace[b].at
  }

  /** All callbacks of samples i to j. */
  function FiredBetween(trace: seq<Sample>, i: nat, j: nat): seq<Callback>
    requires i <= j < |trace|
    decreases j
  {
    (if i == j then [] else FiredBetween(trace, i, j - 1)) + Fired(trace, j)
  }

  lemma {:induction false} FiredWhileHeld(trace: seq<Sample>, i: nat, j: nat, k: nat)
    requires IsPress(trace, i, j) && i <= k < j
    ensures FiredBetween(trace, i, k) == if LateBy(trace, i, k) then [LongPress] else []
    decreases k
  {
    if k > i { FiredWhileHeld(trace, i, j, k - 1); }
    FiredOneMore(trace, i, j, k);
  }

  lemma FiredOneMore(trace: seq<Sample>, i: nat, j: nat, k: nat)
    requires IsPress(trace, i, j) && i <= k < j
    requires k > i ==> FiredBetween(trace, i, k - 1) == if LateBy(trace, i, k - 1) then [LongPress] else []
    ensures FiredBetween(trace, i, k) == if LateBy(trace, i, k) then [LongPress] else []
  {
    PressAnsweredOnce(trace, i, j, k);
    LateByStep(trace, i, k);
    var held := if k == i then [] else FiredBetween(trace, i, k - 1);
    assert FiredBetween(trace, i, k) == held + Fired(trace, k);
    assert held + [] == held && [] + Fired(trace, k) == Fired(trace, k);
  }

  /** A completed press runs exactly one callback in all; which one depends on the 32-bit clock. */
  lemma PressRunsOne(trace: seq<Sample>, i: nat, j: nat)
    requires IsPress(trace, i, j)
    ensures FiredBetween(trace, i, j) == if LateBy(trace, i, j - 1) then [LongPress] else [ShortPress]
  {
    FiredWhileHeld(trace, i, j, j - 1);
    PressAnsweredOnce(trace, i, j, j);
  }

  /** Some sample of the press is more than 1200 ms of true time after its edge. */
  predicate HeldLong(trace: seq<Sample>, i: nat, j: nat)
    requires i < j <= |trace|
  {
    exists k | i <= k < j :: trace[k].at - trace[i].at > 1200
  }

  /** A press shorter than the clock's period runs the long callback exactly when it was held long. */
  lemma LongExactlyWhenHeldLong(trace: seq<Sample>, i: nat, j: nat)
    requires IsPress(trace, i, j) && Monotone(trace)
    requires trace[j - 1].at < trace[i].at + 4294967296
    ensures FiredBetween(trace, i, j) == if HeldLong(trace, i, j) then [LongPress] else [ShortPress]
  {
    PressRunsOne(trace, i, j);
    forall k | i <= k < j ensures Late(trace, i, k) <==> trace[k].at - trace[i].at > 1200 {
      assert trace[i].at <= trace[k].at <= trace[j - 1].at;
      ElapsedIsTrue(trace[i].at, trace[k].at);
    }
  }
}
