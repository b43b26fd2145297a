/**
 * The drift-compensating tick scheduler of main.js: `scheduleNext`,
 * `startTick` and `stopTick` over the module variables `tickTimer`,
 * `tickRunning`, `tickBase` and `tickIndex`.
 *
 * The clock (`Date.now()`) is an input to every step, and readings never go
 * backwards. The event loop is not modelled: a timer firing is the explicit
 * step `Ticker.Fire`. The tick interval (`TICK_INTERVAL_MS`, from a
 * configuration module) is a parameter that must be positive.
 *
 * The pure functions `Scheduled`, `Started`, `Stopped` and `Fired` give the
 * state after each step; the class `Ticker` performs the steps in place and
 * is proved against them; the lemmas state what the steps promise.
 */
module TickScheduler {
  import opened Wrappers

  /** Which of the two callbacks of `scheduleNext` a timer runs. */
  datatype Path =
    | OnTime   // armed for the positive delay up to the next nominal boundary
    | Overrun  // armed with delay 0 because that boundary has already passed

  /** A pending one-shot timer: the clock when it was armed, its delay, its callback. */
  datatype Timer = Timer(armedAt: int, delay: int, path: Path)
  {
    /** The earliest instant at which the event loop runs the callback. */
    function Due(): int { armedAt + delay }
  }

  /** What the tick callback `onTick` did while it ran. */
  datatype TickOutcome =
    | Returned
    | Threw          // caught and logged; the loop carries on as if it had returned
    | StoppedTicker  // called `stopTick` from inside the callback

  /**
   * The scheduler's variables (`tickRunning`, `tickBase`, `tickIndex`,
   * `tickTimer`) and the number of `onTick` invocations so far.
   */
  datatype TickState = TickState(running: bool, base: int, index: int, timer: Option<Timer>, ticks: nat)

  /** The values main.js gives the variables when it is loaded. */
  const INITIAL := TickState(false, 0, 0, None, 0)

  function Max(a: int, b: int): int { if a < b then b else a }

  /** The nominal instant of the next tick: `tickBase + tickIndex * TICK_INTERVAL_MS`. */
  function Boundary(s: TickState, interval: int): int { s.base + s.index * interval }

  /**
   * The state after `scheduleNext` reads the clock as `now`: when running, a
   * single timer due at the nominal boundary, or at once if that has passed.
   */
  function Scheduled(s: TickState, interval: int, now: int): (r: TickState)
    ensures !s.running ==> r == s
    ensures s.running ==> r.timer.Some? && r == s.(timer := r.timer)
    ensures s.running ==> r.timer.value.armedAt == now && r.timer.value.Due() == Max(Boundary(s, interval), now)
    ensures s.running ==> (r.timer.value.path == OnTime <==> Boundary(s, interval) > now)
  {
    if !s.running then s
    else
      var delay := Boundary(s, interval) - now;
      if delay <= 0 then s.(timer := Some(Timer(now, 0, Overrun)))
      else s.(timer := Some(Timer(now, delay, OnTime)))
  }

  /**
   * The state after `startTick`, with `now` the clock it anchors the ticks to
   * and `resched` the clock `scheduleNext` reads right after.
   */
  function Started(s: TickState, interval: int, now: int, resched: int): (r: TickState)
    ensures s.running ==> r == s
    ensures !s.running ==> r.running && r.base == now && r.index == 1 && r.ticks == s.ticks
    ensures !s.running ==> r.timer.Some? && r.timer.value.armedAt == resched
    ensures !s.running ==> r.timer.value.Due() == Max(now + interval, resched)
  {
    if s.running then s
    else Scheduled(s.(running := true, base := now, index := 1), interval, resched)
  }

  /** The state after `stopTick`: not running, no timer; base, index and count kept. */
  function Stopped(s: TickState): (r: TickState)
    ensures !r.running && r.timer == None
    ensures r.base == s.base && r.index == s.index && r.ticks == s.ticks
  {
    s.(running := false, timer := None)
  }

  /**
   * The state inside a running callback of `cb` once `onTick` has returned
   * (or thrown, or stopped the scheduler) and the index has moved, just
   * before `scheduleNext` re-arms.
   */
  function Advanced(s: TickState, interval: int, cb: Timer, after: int, outcome: TickOutcome): TickState
    requires interval > 0
  {
    var ticked := s.(ticks := s.ticks + 1);
    var back := if outcome == StoppedTicker then Stopped(ticked) else ticked;
    if cb.path == Overrun then back.(index := (after - back.base) / interval + 1)
    else back.(index := back.index + 1)
  }

  /**
   * The state after the event loop runs the callback of timer `cb`: `after`
   * is the clock when `onTick` has returned (the code reads it on the overrun
   * path only) and `now` the clock `scheduleNext` reads next.
   */
  function Fired(s: TickState, interval: int, cb: Timer, after: int, now: int, outcome: TickOutcome): (r: TickState)
    requires interval > 0
    ensures !s.running ==> r == s
    ensures s.running ==> r.ticks == s.ticks + 1 && r.base == s.base
    ensures s.running ==> (r.running <==> outcome != StoppedTicker)
    ensures s.running && cb.path == OnTime ==> r.index == s.index + 1
  {
    if !s.running then s
    else Scheduled(Advanced(s, interval, cb, after, outcome), interval, now)
  }

  /**
   * What holds of the scheduler between steps, `clock` being the latest
   * clock reading: a timer is pending exactly while running; the boundaries
   * before the next one have been reached; an on-time timer is due exactly
   * at the next nominal boundary, and an overrun timer was armed once that
   * boundary had passed.
   */
  ghost predicate Inv(s: TickState, interval: int, clock: int)
  {
    && (s.running <==> s.timer.Some?)
    && (s.running ==>
          && s.index >= 1
          && s.base + (s.index - 1) * interval <= clock
          && s.timer.value.armedAt <= clock
          && (s.timer.value.path == OnTime ==>
                s.timer.value.delay > 0 && s.timer.value.Due() == Boundary(s, interval))
          && (s.timer.value.path == Overrun ==>
                s.timer.value.delay == 0 && Boundary(s, interval) <= s.timer.value.armedAt))
  }

  /** Floor division by a positive interval brackets its dividend. */
  lemma FloorBrackets(x: int, interval: int)
    requires interval > 0
    ensures (x / interval) * interval <= x < (x / interval + 1) * interval
  {
    var q, r := x / interval, x % interval;
    assert x == q * interval + r;
    assert (q + 1) * interval == q * interval + interval;
  }

  /** A multiple of the interval not above `x` has a factor not above `x / interval`. */
  lemma FloorIsGreatest(k: int, x: int, interval: int)
    requires interval > 0 && k * interval <= x
    ensures k <= x / interval
  {
    FloorBrackets(x, interval);
    var d := x / interval + 1 - k;
    assert d * interval == (x / interval + 1) * interval - k * interval;
    assert d * interval > 0;
  }

  /**
   * The overrun path skips every missed boundary and replays none: the new
   * next boundary is strictly after `after` and no later than one interval
   * past it, and every boundary before it is at or before `after`.
   */
  lemma OverrunSkipsMissedBoundaries(s: TickState, interval: int, cb: Timer, after: int, now: int, outcome: TickOutcome)
    requires interval > 0 && s.running && cb.path == Overrun
    ensures var r := Fired(s, interval, cb, after, now, outcome);
      && r.index == (after - s.base) / interval + 1
      && after < Boundary(r, interval) <= after + interval
      && Boundary(r, interval) - interval <= after
  {
    var r := Fired(s, interval, cb, after, now, outcome);
    var q := (after - s.base) / interval;
    FloorBrackets(after - s.base, interval);
    assert r.index == q + 1;
    assert Boundary(r, interval) == s.base + q * interval + interval;
  }

  /**
   * With a clock that never goes backwards, every firing while running moves
   * the tick index strictly forward, on either path.
   */
  lemma FiredAdvancesIndex(s: TickState, interval: int, clock: int, cb: Timer, after: int, now: int, outcome: TickOutcome)
    requires interval > 0 && Inv(s, interval, clock) && clock <= after
    requires s.running && s.timer == Some(cb)
    ensures Fired(s, interval, cb, after, now, outcome).index > s.index
  {
    if cb.path == Overrun {
      assert s.index * interval <= after - s.base;
      FloorIsGreatest(s.index, after - s.base, interval);
    }
  }

  /** `scheduleNext` establishes the invariant once the boundaries before the next one are reached. */
  lemma ScheduledKeepsInv(s: TickState, interval: int, now: int)
    requires interval > 0
    requires s.running ==> s.index >= 1 && s.base + (s.index - 1) * interval <= now
    requires !s.running ==> s.timer == None
    ensures Inv(Scheduled(s, interval, now), interval, now)
  {
  }

  /** `startTick` keeps the invariant. */
  lemma StartedKeepsInv(s: TickState, interval: int, clock: int, now: int, resched: int)
    requires interval > 0 && Inv(s, interval, clock) && clock <= now <= resched
    ensures Inv(Started(s, interval, now, resched), interval, resched)
  {
    if !s.running {
      ScheduledKeepsInv(s.(running := true, base := now, index := 1), interval, resched);
    }
  }

  /**
   * A firing keeps the invariant, provided the event loop runs only the
   * pending timer while running and never runs an on-time timer early.
   */
  lemma FiredKeepsInv(s: TickState, interval: int, clock: int, cb: Timer, after: int, now: int, outcome: TickOutcome)
    requires interval > 0 && Inv(s, interval, clock) && clock <= after <= now
    requires s.running ==> s.timer == Some(cb)
    requires s.running && cb.path == OnTime ==> cb.Due() <= after
    ensures Inv(Fired(s, interval, cb, after, now, outcome), interval, now)
  {
    if s.running {
      var advanced := Advanced(s, interval, cb, after, outcome);
      if cb.path == Overrun {
        assert s.index * interval <= after - s.base;
        FloorIsGreatest(s.index, after - s.base, interval);
        FloorBrackets(after - s.base, interval);
        assert advanced.base + (advanced.index - 1) * interval <= after;
      } else {
        assert advanced.base + (advanced.index - 1) * interval == cb.Due();
      }
      ScheduledKeepsInv(advanced, interval, now);
    }
  }

  /**
   * A catch-up firing is followed by no second one unless `scheduleNext`
   * reads a clock at or past the new nominal boundary: the timer it arms is
   * on time, due at that boundary, exactly when the reading is before it.
   * The new boundary is after `after`, so a reading equal to `after` always
   * arms an on-time timer.
   */
  lemma CatchUpFiresOnce(s: TickState, interval: int, cb: Timer, after: int, now: int, outcome: TickOutcome)
    requires interval > 0 && s.running && cb.path == Overrun && outcome != StoppedTicker
    requires after <= now
    ensures var r := Fired(s, interval, cb, after, now, outcome);
      && after < Boundary(r, interval)
      && r.timer.Some?
      && (r.timer.value.path == OnTime <==> now < Boundary(r, interval))
      && (now < Boundary(r, interval) ==> r.timer.value.Due() == Boundary(r, interval))
  {
    OverrunSkipsMissedBoundaries(s, interval, cb, after, now, outcome);
  }

  /**
   * A throwing `onTick` is caught: the state after the callback is the same
   * as if it had returned, so the index still moves and the timer is re-armed.
   */
  lemma ThrowIsLikeReturn(s: TickState, interval: int, cb: Timer, after: int, now: int)
    requires interval > 0
    ensures Fired(s, interval, cb, after, now, Threw) == Fired(s, interval, cb, after, now, Returned)
    ensures s.running ==> Fired(s, interval, cb, after, now, Threw).running
  {
  }

  /** One run of a timer callback by the event loop, with its clock readings. */
  datatype Firing = Firing(cb: Timer, after: int, now: int, outcome: TickOutcome)

  /**
   * The state after the event loop runs the callbacks of `firings` in order;
   * each invokes `onTick` at most once.
   */
  function FiredAll(s: TickState, interval: int, firings: seq<Firing>): (r: TickState)
    requires interval > 0
    ensures s.ticks <= r.ticks <= s.ticks + |firings|
    decreases |firings|
  {
    if firings == [] then s
    else
      var f := firings[0];
      FiredAll(Fired(s, interval, f.cb, f.after, f.now, f.outcome), interval, firings[1..])
  }

  /**
   * After `stopTick`, any number of stale callbacks invoke `onTick` zero
   * times and leave every variable alone.
   */
  lemma {:induction false} StaleFiringsAreInert(s: TickState, interval: int, firings: seq<Firing>)
    requires interval > 0
    ensures FiredAll(Stopped(s), interval, firings) == Stopped(s)
  {
    if firings != [] {
      StaleFiringsAreInert(s, interval, firings[1..]);
    }
  }

  /** `stopTick` twice leaves the same state as once. */
  lemma StoppedIdempotent(s: TickState)
    ensures Stopped(Stopped(s)) == Stopped(s)
  {
  }

  /** `startTick` twice in a row leaves the same state as once. */
  lemma StartedIdempotent(s: TickState, interval: int, now: int, resched: int, now2: int, resched2: int)
    ensures Started(Started(s, interval, now, resched), interval, now2, resched2) == Started(s, interval, now, resched)
  {
  }

  /**
   * The scheduler in place: the four module variables of main.js, the
   * number of `onTick` invocations, and the latest clock reading.
   */
  class Ticker {
    const interval: int
    var running: bool
    var base: int
    var index: int
    var timer: Option<Timer>
    var ticks: nat
    ghost var clock: int

    function State(): TickState
      reads this
    {
      TickState(running, base, index, timer, ticks)
    }

    ghost predicate Valid()
      reads this
    {
      interval > 0 && Inv(State(), interval, clock)
    }

    constructor (interval: int, now: int)
      requires interval > 0
      ensures Valid() && this.interval == interval && clock == now
      ensures State() == INITIAL
    {
      this.interval := interval;
      running, base, index, timer, ticks := false, 0, 0, None, 0;
      clock := now;
    }

    /** `scheduleNext`: when running, arm one timer for the next nominal boundary. */
    method ScheduleNext(now: int)
      requires interval > 0
      modifies this
      ensures State() == Scheduled(old(State()), interval, now)
      ensures clock == old(clock)
    {
      if !running {
        return;
      }
      var nextAt := base + index * interval;
      var delay := nextAt - now;
      if delay <= 0 {
        timer := Some(Timer(now, 0, Overrun));
        return;
      }
      timer := Some(Timer(now, delay, OnTime));
    }

    /** `startTick`: a no-op when running; otherwise anchor index 1 at `now` and arm. */
    method StartTick(now: int, resched: int)
      requires Valid() && clock <= now <= resched
      modifies this
      ensures Valid() && clock == resched
      ensures State() == Started(old(State()), interval, now, resched)
    {
      StartedKeepsInv(State(), interval, clock, now, resched);
      if running {
        clock := resched;
        return;
      }
      running := true;
      base := now;
      index := 1;
      ScheduleNext(resched);
      clock := resched;
    }

    /** `stopTick`: clear the running flag and cancel the pending timer, if any. */
    method StopTick()
      requires Valid()
      modifies this
      ensures Valid() && clock == old(clock)
      ensures State() == Stopped(old(State()))
    {
      running := false;
      if timer.Some? {
        timer := None;
      }
    }

    /**
     * The event loop runs the callback of timer `cb`. While running, that is
     * the pending timer, and an on-time timer does not run before it is due.
     * The callback does nothing once stopped; otherwise it invokes `onTick`
     * (whose failure is caught), moves the index and re-arms.
     */
    method Fire(cb: Timer, after: int, now: int, outcome: TickOutcome)
      requires Valid() && clock <= after <= now
      requires running ==> timer == Some(cb)
      requires running && cb.path == OnTime ==> cb.Due() <= after
      modifies this
      ensures Valid() && clock == now
      ensures State() == Fired(old(State()), interval, cb, after, now, outcome)
    {
      if !running {
        clock := now;
        return;
      }
      ghost var s := State();
      ticks := ticks + 1;
      if outcome == StoppedTicker {
        StopTick();
      }
      if cb.path == Overrun {
        index := (after - base) / interval + 1;
      } else {
        index := index + 1;
      }
      assert State() == Advanced(s, interval, cb, after, outcome);
      ScheduleNext(now);
      FiredKeepsInv(s, interval, old(clock), cb, after, now, outcome);
      clock := now;
    }
  }
}
