/** The key-repeat dispatcher: turns key-down/key-up edges into a stream of repeated key
    events whose rate climbs from 1 to 4 per second while the key is held.

    The host clock enters as `now` (milliseconds) on every call; the timer that
    kind.Spotlight.Dispatcher.js arms with setTimeout becomes the delay each step
    reports, after which the host calls the timer step again. */
module KeyRepeat {
  import opened Options
  import opened Input

  /** The dispatcher's fields: the held key event, the repeat rate in Hz, whether
      repeating is on, and when the held key went down. */
  datatype Repeat = Repeat(held: Option<RawEvent>, hz: int, repeating: bool, timeStart: int)

  /** The state after stop() (and before any key). */
  const Idle := Repeat(None, 1, false, 0)

  /** What one step hands on: the key event re-dispatched to the engine's onKeyEvent, and
      the delay (ms) of the timer step it schedules. */
  datatype Fire = Fire(fired: Option<RawEvent>, delay: Option<real>)

  const Quiet := Fire(None, None)

  ghost predicate Consistent(r: Repeat) {
    && 1 <= r.hz <= 4
    && (r.repeating <==> r.held.Some?)
    && (!r.repeating ==> r.hz == 1 && r.timeStart == 0)
  }

  function Max(a: int, b: int): int { if a < b then b else a }

  /** The rate called for once `elapsed` ms have passed since the key went down. */
  function RateFor(elapsed: int): (hz: int)
    ensures 1 <= hz <= 4
  {
    if elapsed >= 9000 then 4 else if elapsed >= 6000 then 3 else if elapsed >= 3000 then 2 else 1
  }

  /** The three sequential escalation checks of _continue. Because they run in sequence
      one call may climb several steps, so from any rate in 1..4 they reach the larger of
      the current rate and the one the elapsed time calls for. */
  function Escalate(hz: int, elapsed: int): (r: int)
    ensures 1 <= hz <= 4 ==> r == Max(hz, RateFor(elapsed))
  {
    var h1 := if elapsed >= 3000 && hz == 1 then 2 else hz;
    var h2 := if elapsed >= 6000 && h1 == 2 then 3 else h1;
    if elapsed >= 9000 && h2 == 3 then 4 else h2
  }

  /** _continue at time `now`: nothing while not repeating; otherwise schedule the next
      step after 1000/hz ms (the rate before escalating), escalate, and re-dispatch the
      held event. */
  function ContinueStep(r: Repeat, now: int): (res: (Repeat, Fire))
    ensures Consistent(r) ==> Consistent(res.0)
    ensures !r.repeating ==> res == (r, Quiet)
    ensures r.repeating && 1 <= r.hz ==> res.1 == Fire(r.held, Some(1000.0 / r.hz as real))
    ensures Consistent(r) ==> r.hz <= res.0.hz
    ensures Consistent(r) && r.repeating ==> res.0.hz >= RateFor(now - r.timeStart)
    ensures res.0.held == r.held && res.0.repeating == r.repeating && res.0.timeStart == r.timeStart
  {
    if !r.repeating then (r, Quiet)
    else
      var delay := if r.hz == 0 then 0.0 else 1000.0 / r.hz as real;
      (r.(hz := Escalate(r.hz, now - r.timeStart)), Fire(r.held, Some(delay)))
  }

  /** start(): note the time, switch repeating on and run the first step at once. */
  function StartStep(r: Repeat, now: int): (res: (Repeat, Fire))
    ensures 1 <= r.hz <= 4 ==>
      && res.0 == Repeat(r.held, r.hz, true, now)
      && res.1 == Fire(r.held, Some(1000.0 / r.hz as real))
  {
    ContinueStep(r.(timeStart := now, repeating := true), now)
  }

  /** processKey: a key-down latches the event and starts repeating unless the same key
      code is already held; a key-up stops (and resets) everything; any other event type
      is ignored. */
  function KeyStep(r: Repeat, ev: RawEvent, now: int): (res: (Repeat, Fire))
    ensures Consistent(r) ==> Consistent(res.0)
    ensures ev.name == KEYDOWN && r.held.Some? && ev.keyCode == r.held.value.keyCode ==> res == (r, Quiet)
    ensures ev.name == KEYDOWN && (r.held.None? || ev.keyCode != r.held.value.keyCode) && 1 <= r.hz <= 4 ==>
      && res.0 == Repeat(Some(ev), r.hz, true, now)
      && res.1 == Fire(Some(ev), Some(1000.0 / r.hz as real))
    ensures ev.name == KEYUP ==> res == (Idle, Quiet)
    ensures ev.name != KEYDOWN && ev.name != KEYUP ==> res == (r, Quiet)
  {
    if ev.name == KEYDOWN then
      if r.held.None? || ev.keyCode != r.held.value.keyCode then StartStep(r.(held := Some(ev)), now)
      else (r, Quiet)
    else if ev.name == KEYUP then (Idle, Quiet)
    else (r, Quiet)
  }

  /** A run of timer steps at the given times. */
  function Ticks(r: Repeat, nows: seq<int>): Repeat
    decreases |nows|
  {
    if nows == [] then r else Ticks(ContinueStep(r, nows[0]).0, nows[1..])
  }

  /** The rate never drops while repeating, stays within 1..4, and any run of steps that
      ends 9 s or more after the key went down ends at 4 Hz. */
  lemma {:induction false} TicksNeverSlowDown(r: Repeat, nows: seq<int>)
    requires Consistent(r)
    ensures Consistent(Ticks(r, nows)) && r.hz <= Ticks(r, nows).hz
    ensures Ticks(r, nows).repeating == r.repeating && Ticks(r, nows).timeStart == r.timeStart
    ensures r.repeating && nows != [] && nows[|nows| - 1] - r.timeStart >= 9000 ==> Ticks(r, nows).hz == 4
    decreases |nows|
  {
    if nows != [] {
      var r1 := ContinueStep(r, nows[0]).0;
      TicksNeverSlowDown(r1, nows[1..]);
      if |nows| > 1 {
        assert nows[1..][|nows[1..]| - 1] == nows[|nows| - 1];
      }
    }
  }

  /** A key-up, or a second one, leaves the same state: stopping is idempotent. */
  lemma StopIsIdempotent(r: Repeat, up: RawEvent, now1: int, now2: int)
    requires up.name == KEYUP
    ensures KeyStep(KeyStep(r, up, now1).0, up, now2) == KeyStep(r, up, now1)
  {
  }

  /** Right arrow (39) down at t = 0, held: the first dispatch happens at once and the
      next step is due after 1000 ms; at 1000 and 2000 ms the rate stays 1 Hz; the step at
      3000 ms still waits 1000 ms for the next one but raises the rate to 2 Hz, so the
      step after it waits 500 ms; a key-up then stops everything. */
  lemma RightArrowScenario(down: RawEvent, up: RawEvent)
    requires down == RawEvent(KEYDOWN, 39, None) && up == RawEvent(KEYUP, 39, None)
    ensures var (r0, f0) := KeyStep(Idle, down, 0);
      && f0 == Fire(Some(down), Some(1000.0)) && r0.hz == 1
      && var (r1, f1) := ContinueStep(r0, 1000);
      && f1 == Fire(Some(down), Some(1000.0)) && r1.hz == 1
      && var (r2, f2) := ContinueStep(r1, 2000);
      && r2.hz == 1
      && var (r3, f3) := ContinueStep(r2, 3000);
      && f3 == Fire(Some(down), Some(1000.0)) && r3.hz == 2
      && var (r4, f4) := ContinueStep(r3, 4000);
      && f4 == Fire(Some(down), Some(500.0))
      && KeyStep(r4, up, 4200) == (Idle, Quiet)
      && ContinueStep(Idle, 4500) == (Idle, Quiet)
  {
  }

  /** The dispatcher's state, held in fields the steps update in place. */
  class Dispatcher {
    var event: Option<RawEvent>
    var hz: int
    var repeating: bool
    var timeStart: int

    function State(): Repeat
      reads this
    {
      Repeat(event, hz, repeating, timeStart)
    }

    ghost predicate Valid()
      reads this
    {
      Consistent(State())
    }

    constructor ()
      ensures Valid() && State() == Idle
    {
      event, hz, repeating, timeStart := None, 1, false, 0;
    }

    /** _continue. */
    method Continue(now: int) returns (fire: Fire)
      requires Valid()
      modifies this
      ensures Valid() && (State(), fire) == ContinueStep(old(State()), now)
    {
      fire := Quiet;
      if repeating {
        var delay := 1000.0 / hz as real;
        var elapsed := now - timeStart;
        if elapsed >= 3000 && hz == 1 { hz := 2; }
        if elapsed >= 6000 && hz == 2 { hz := 3; }
        if elapsed >= 9000 && hz == 3 { hz := 4; }
        fire := Fire(event, Some(delay));
      }
    }

    /** processKey. */
    method ProcessKey(ev: RawEvent, now: int) returns (fire: Fire)
      requires Valid()
      modifies this
      ensures Valid() && (State(), fire) == KeyStep(old(State()), ev, now)
    {
      fire := Quiet;
      if ev.name == KEYDOWN {
        if event.None? || ev.keyCode != event.value.keyCode {
          event := Some(ev);
          fire := Start(now);
        }
      } else if ev.name == KEYUP {
        Stop();
      }
    }

    /** start. */
    method Start(now: int) returns (fire: Fire)
      requires 1 <= hz <= 4 && event.Some?
      modifies this
      ensures Valid() && (State(), fire) == StartStep(old(State()), now)
    {
      timeStart := now;
      repeating := true;
      fire := Continue(now);
    }

    /** stop. */
    method Stop()
      modifies this
      ensures Valid() && State() == Idle
    {
      repeating := false;
      timeStart := 0;
      event := None;
      hz := 1;
    }
  }
}
