# Iris-Graal lifecycle core in Dafny

This project models the two pieces of logic in `main.js` of Iris-Graal, a
chat-bot service for the MessengerBot host:

- **The drift-compensating tick scheduler** (`scheduleNext`, `startTick`,
  `stopTick` and their variables `tickTimer`, `tickRunning`, `tickBase`,
  `tickIndex`), in `scheduler.dfy`, module `TickScheduler`. The class
  `Ticker` holds those four variables and a count of `onTick` invocations.
  Its methods change them in place. Each method is proved to leave the state
  that a pure function of the old state gives (`Scheduled`, `Started`,
  `Stopped`, `Fired`). `StartTick`, `StopTick` and `Fire` also keep the
  invariant `Inv`: a timer is pending exactly while running, an on-time
  timer is due exactly at the nominal boundary
  `tickBase + tickIndex * TICK_INTERVAL_MS`, and an overrun timer is armed
  only once that boundary has passed. `ScheduleNext` is the step those
  methods share. It runs where `Inv` may not yet hold, after the index has
  moved, so its own contract gives only its new state. The lemma
  `ScheduledKeepsInv` shows that its result satisfies `Inv` once the
  boundaries before the next one are reached. The lemmas state what the
  source promises about these functions.
- **The ingress parser and handler table** that `wireIngress` injects, in
  `ingress.dfy`, module `Ingress`. These are pure functions over a raw
  envelope datatype. `Parse` is the parser lambda. `Forward` is the handler
  table: it gives the router call each handler makes. `FirstTruthy` is an
  independent reference for the parser's probing order.

`wrappers.dfy` holds the `Option` datatype. It stands for JavaScript's
`null`/`undefined`.

Modelling choices:

- **The clock.** `Date.now()` becomes parameters of each step, and the
  readings must never decrease. `startTick` reads the clock twice: once for
  `tickBase` and once inside `scheduleNext`. The overrun callback also reads
  it twice: once for `after` and once inside `scheduleNext`. Each reading is
  a separate parameter. The ghost field `Ticker.clock` holds the latest
  reading.
- **Timers.** The event loop is a step, `Ticker.Fire`, which runs the
  callback of a given timer. A timer is the record `(armedAt, delay, path)`.
  `path` tells which of `scheduleNext`'s two callbacks it runs. While the
  scheduler is running, the host runs only the pending timer, and it never
  runs an on-time timer before it is due. Once the scheduler is stopped, any
  stale callback may be run. The `tickRunning` guard makes such a run do
  nothing.
- **`onTick`.** Its behaviour is a parameter: it returns, it throws, or it
  calls `stopTick`. A throw is caught and logged, and the state afterwards
  is the same as if it had returned (lemma `ThrowIsLikeReturn`). If
  `onTick` calls `stopTick`, the callback still updates `tickIndex`, as the
  source does. After that, `scheduleNext` arms nothing.
- **`Math.floor`.** `Math.floor((after - tickBase) / TICK_INTERVAL_MS)` is
  Dafny's `/`. The interval is positive, and Euclidean division by a
  positive number rounds down, as `Math.floor` does.
- **Truthiness.** A feed type code is an integer. It is truthy when it is
  present and not 0.

## Model

| member | source | states |
|---|---|---|
| TickScheduler.Scheduled | main.js:38-66 | When stopped, nothing is armed. When running, exactly one timer is armed at the reading `now`. It is due at the nominal boundary `base + index * interval`, or at once if that boundary is not after `now`. It takes the on-time path exactly when the boundary is after `now`. Nothing else changes. |
| TickScheduler.Started | main.js:68-74 | When already running, nothing changes. Otherwise the scheduler runs with base `now` and index 1, the tick count is kept, and one timer is armed. That timer is due at `max(now + interval, resched)`. |
| TickScheduler.Stopped | main.js:76-82 | The scheduler is not running and no timer is pending. Base, index and tick count are kept. |
| TickScheduler.Fired | main.js:46-65 | A callback run while stopped changes nothing. While running, `onTick` runs once, and the scheduler keeps running unless `onTick` stopped it. The on-time path adds exactly 1 to the index. |
| TickScheduler.OverrunSkipsMissedBoundaries | main.js:45-55 | On the overrun path the index becomes `floor((after - base) / interval) + 1`. The new boundary is strictly after `after` and at most one interval past it. Every earlier boundary is at or before `after`, so missed boundaries are skipped and none is replayed. |
| TickScheduler.FiredAdvancesIndex | main.js:45-65 | While running, with a clock that never goes backwards, every firing moves the index strictly forward on both paths. |
| TickScheduler.CatchUpFiresOnce | main.js:45-65 | After a catch-up firing, the new boundary is after `after`. The next timer is on time, due at that boundary, exactly when `scheduleNext` reads a clock before it. A reading equal to `after` always qualifies, so a stall costs one catch-up firing. |
| TickScheduler.ThrowIsLikeReturn | main.js:46-65 | A throwing `onTick` leaves the same state as one that returns. While running, the scheduler keeps running, the index moves and a timer is re-armed. |
| TickScheduler.ScheduledKeepsInv | main.js:38-66 | `scheduleNext` establishes the invariant: at most one pending timer, present exactly while running, and due at the nominal boundary when on time. |
| TickScheduler.StartedKeepsInv | main.js:68-74 | `startTick` keeps the invariant. |
| TickScheduler.FiredKeepsInv | main.js:46-65 | Every firing keeps the invariant, on both paths and for every `onTick` outcome. |
| TickScheduler.FiredAll | main.js:46-65 | A run of firings invokes `onTick` at most once per firing, and the count never decreases. |
| TickScheduler.StaleFiringsAreInert | main.js:39-59 | After `stopTick`, any number of stale callbacks invoke `onTick` zero times and change no variable. |
| TickScheduler.StoppedIdempotent | main.js:76-82 | `stopTick` twice leaves the same state as once. |
| TickScheduler.StartedIdempotent | main.js:68-74 | `startTick` twice in a row leaves the same state as once. |
| TickScheduler.Ticker.constructor | main.js:26-29 | The variables start at their load-time values: not running, base 0, index 0, no timer, no ticks. |
| TickScheduler.Ticker.ScheduleNext | main.js:38-66 | The in-place `scheduleNext` leaves exactly the state `Scheduled` gives. |
| TickScheduler.Ticker.StartTick | main.js:68-74 | The in-place `startTick` leaves the state `Started` gives and keeps the invariant. |
| TickScheduler.Ticker.StopTick | main.js:76-82 | The in-place `stopTick` leaves the state `Stopped` gives and keeps the invariant. |
| TickScheduler.Ticker.Fire | main.js:46-65 | The in-place timer callback leaves the state `Fired` gives and keeps the invariant. |
| Ingress.FirstTruthy | main.js:88-92 | Reference for the probing order. The result is present exactly when some code is truthy. When present, it is truthy and equals the code at a place before which no code is truthy. |
| Ingress.Parse | main.js:87-98 | The kind is feed exactly when `msg.feedType` or `json.message.feedType` is truthy. A truthy `msg.feedType` wins; otherwise `json.message.feedType` is used. A feed's data is `raw` with only the top-level `feedType` replaced by that code. A message's data is `raw` unchanged. |
| Ingress.ParseIsFirstTruthy | main.js:88-97 | The parser equals the reference: feed with the first truthy code among its two places, in order, else message. |
| Ingress.ParseStable | main.js:87-98 | Parsing a parsed payload's data again gives the same result. |
| Ingress.Forward | main.js:100-106 | `onMessage` alone calls `routeMessage`. Every handler changes at most the top-level `feedType`. `onNewMember`, `onLeaveMember` and `onKickMember` set it to 4, 2 and 6. `onFeed` and `onMessage` forward their argument unchanged. |
| Ingress.MemberOverrideIgnoresIncoming | main.js:102-104 | The membership override is unconditional. Arguments that differ only in `feedType` are forwarded alike. |
| Ingress.MemberOverridesClassifier | main.js:87-104 | A membership handler's fixed code wins over any feed type the parser attached. |
| Ingress.ForwardIdempotent | main.js:100-106 | Passing a handler's output back to the same handler changes nothing. |

## Left out

- `bootstrap` and `shutdown` (main.js:113-139) are left out. They only call the host: directories, wake locks, the HTTP server, the queue, the schedule registry and the router's `init`.
- The `setTimeout`/`clearTimeout` event loop and its asynchrony are left out. A timer firing is the explicit step `Ticker.Fire`, and the model has no concurrency.
- `Logger.e` and the `try`/`catch` around `onTick` are not modelled. A throwing `onTick` is modelled only by its effect: the index update and the re-arm still happen.
- `onTick` is modelled only by its outcome. It cannot restart the scheduler from inside the callback; the outcomes are return, throw, and `stopTick`.
- The bodies of `schedule.tick`, `router.routeMessage`, `router.routeFeed`, `ingress.handle`, `ingress.setParser` and `ingress.setHandlers` are not part of this model. So the model does not say how `handle` chooses between `onFeed` and the membership handlers, or what happens before the parser and handlers are configured.
- The empty host callbacks `onMessage`, `onNewMember`, `onLeaveMember` and `onKickMember` (main.js:147-157) are left out, and so is the `bot.addListener` registration.
- JavaScript numbers are doubles, but the model uses unbounded integers. Clock readings and the interval are taken to be integral milliseconds small enough that double arithmetic is exact.
- Payload shapes beyond the two probe places are not modelled. A `raw` that is `null`, a non-object at `msg` or `json`, and a feed type that is not a number are all left out. A non-object at `msg` or `json` counts as absent.
- The value of `TICK_INTERVAL_MS` comes from a configuration module that is not part of this model. The model takes the interval as a parameter that must be positive.
