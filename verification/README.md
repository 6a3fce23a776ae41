# Rate-limited priority dispatch queue and client identity, in Dafny

This project models two pieces of pure logic in the minomuncher-server gateway.

- **`RateLimitedPromiseQueue`** (`src/promiseQueue.ts`) is the single queue that every call to the upstream API goes through. Submissions are kept in a sequence sorted by priority, highest first. Equal priorities stay in arrival order. At most one task runs at a time, and each start is at least `rateLimitMs` after the previous one.
- **`getClientIp`** (`src/index.ts`) derives the caller identity that the admission limiter keys on. It uses the first entry of `x-forwarded-for`, then the connection's peer address, then a random placeholder.

## Layout

- `wrappers.dfy` (module `Wrappers`): `Option`, used for JavaScript's `null`/`undefined` and for "no task in flight".
- `priority_queue.dfy` (module `PriorityQueue`): the queue entry, `findIndex` plus `push`/`splice` insertion, and the ordering lemmas about insertion.
- `promise_queue.dfy` (module `PromiseQueue`): the class as a state machine. `State` holds `rateLimitMs`, `queue`, `running` and `lastRunTime`. It also holds `active`, the entry that the running `runNext` call has shifted off. The steps are `RunNext`, `Enqueue` (insert, then `runNext`) and `Complete` (the `finally` block). `Step` and `Run` fold a sequence of inputs, and each step reports `Started`/`Settled` events.
- `queue_properties.dfy` (module `QueueProperties`): per-step and whole-run properties. These are the invariant, single flight, minimum spacing, failure isolation and dispatch order.
- `scenarios.dfy` (module `Scenarios`): concrete runs with submissions of priority 1, 5, 1.
- `client_ip.dfy` (module `ClientIp`): `split(",")[0]`, ECMAScript `trim`, and `getClientIp` with its edge cases.

## How the model treats time, outcomes and identity

- **Time.** Each step that may call `runNext` receives a `Clock(now, late)`. `now` is the `Date.now()` reading before the wait (`src/promiseQueue.ts:42`). The reading after the wait (`:48`) is `now + waitTime + late`, with `late` a `nat`. That type is the model's one assumption about time: the clock does not go backwards and the timer does not fire early. The spacing results rest on it.
- **Task outcome.** The outcome is an input (`Fulfilled`/`Rejected`). A task is opaque; `Entry.id` stands for the closure and its resolve/reject pair. `id` is the arrival number, used only to state first-in-first-out order among equal priorities.
- **Atomic dispatch.** `runNext` happens in one step: shift the head, compute the wait, stamp `lastRunTime`. In the source, submissions can arrive during the wait. They only insert into the queue, because `runNext` returns at once while `running` is set, and nothing reads `lastRunTime` until the next dispatch. So folding the wait into the step changes nothing observable.
- **Completion.** Only the task in flight can finish. `Complete` requires one, and `Step` ignores a `Finish` input when nothing is in flight.

## Dispatch order and the first dispatch

- **Dispatch order of `[1, 5, 1]`.** When priorities 1, 5, 1 are submitted to an idle queue, a plain priority queue would start the priority-5 task first. This one starts the first priority-1 task, because `enqueue` calls `runNext` synchronously (`src/promiseQueue.ts:29`): the first submission is shifted off and started before the second is inserted. The dispatch order is 1, 5, 1, which `Scenarios.EagerDispatchScenario` proves. The order 5, 1, 1 appears only when the queue is already busy (`Scenarios.BusyQueueScenario`). Priority need not be non-increasing across consecutive dispatches. What holds is that each dispatched entry comes before every entry still waiting (`QueueProperties.DispatchTakesFront` for one `runNext`, `QueueProperties.StepStartsFront` for every submission or completion). It follows that entries of equal priority start in arrival order over any run (`QueueProperties.RunStartsFifo`).
- **The first dispatch.** The first start is measured from the initial `lastRunTime` of 0 (`src/promiseQueue.ts:13`), like every later one from the start before it. `QueueProperties.RunIsSpaced` states the rule for every start, the first measured from the initial `lastRunTime`.

## Model

| member | source | states |
|---|---|---|
| PriorityQueue.FindIndexLower | src/promiseQueue.ts:22 | returns -1 exactly when no entry has a strictly lower priority; otherwise the index of the first such entry, with every entry before it at least as high |
| PriorityQueue.Insert | src/promiseQueue.ts:21-27 | the result is the old queue with the new entry placed at an insertion point: in front of the first strictly lower priority, or at the end if there is none; entries in front are unchanged and the rest shift back by one |
| PriorityQueue.InsertAt | src/promiseQueue.ts:22-27 | for any index characterised as the insertion point, insertion is the splice at exactly that index (the insertion point is unique) |
| PriorityQueue.InsertOnlyAddsEntry | src/promiseQueue.ts:24-26 | insertion adds exactly the new entry (multiset grows by it); removing it gives back the old queue in its old order |
| PriorityQueue.InsertKeepsNonIncreasing | src/promiseQueue.ts:21-27 | a queue sorted by non-increasing priority is still sorted after insertion |
| PriorityQueue.InsertIsStable | src/promiseQueue.ts:22-27 | in a sorted queue, an old entry stays in front of the new one if and only if its priority is at least the new priority; so equal priorities keep arrival order |
| PriorityQueue.InsertKeepsArrivalOrder | src/promiseQueue.ts:21-27 | a queue ordered by (priority descending, arrival ascending) stays so ordered when a later arrival is inserted |
| PriorityQueue.HeadComesFirst | src/promiseQueue.ts:39 | the head that `shift` removes from an ordered queue precedes every other entry, and the rest is still ordered |
| PromiseQueue.Init | src/promiseQueue.ts:11-15 | a new queue is empty, idle, has `lastRunTime` 0 and satisfies the queue invariant |
| PromiseQueue.WaitTime | src/promiseQueue.ts:43 | the wait is never negative and is the least non-negative wait that ends at least `rateLimitMs` after the last start |
| PromiseQueue.RunNext | src/promiseQueue.ts:33-48 | no-op when a task is running or the queue is empty; otherwise sets `running`, removes exactly the head, makes it the task in flight and stamps `lastRunTime` with the post-wait clock |
| PromiseQueue.Enqueue | src/promiseQueue.ts:17-31 | while a task runs, the entry is only inserted; on an idle empty queue it is started at once, before any later submission, with `lastRunTime` stamped at the post-wait clock and `rateLimitMs` kept |
| PromiseQueue.Complete | src/promiseQueue.ts:49-56 | the task in flight is settled with its outcome; whatever the outcome, `running` is cleared; the head, if any, is then started and logged, with `lastRunTime` stamped at the post-wait clock and `rateLimitMs` kept; with nothing waiting, nothing else changes |
| QueueProperties.DispatchSpacing | src/promiseQueue.ts:42-48 | the wait is no longer than needed: with a timer that fires on time, a dispatch starts at the later of the current clock and `rateLimitMs` after the previous start |
| QueueProperties.DispatchTakesFront | src/promiseQueue.ts:34-39 | the entry dispatched from an ordered queue precedes every entry left waiting |
| QueueProperties.StepStartsFront | src/promiseQueue.ts:17-56 | from any reachable state, every entry a submission or a completion starts precedes, by (priority, arrival), every entry it leaves waiting |
| QueueProperties.OutcomeOnlyReachesCaller | src/promiseQueue.ts:49-56 | a rejected task leaves the queue state and later events exactly as a fulfilled one would |
| QueueProperties.StepKeepsValid | src/promiseQueue.ts:17-56 | each submission or completion keeps the invariant: `running` iff a task is in flight, never idle with entries waiting, queue ordered by priority then arrival |
| QueueProperties.RunKeepsValid | src/promiseQueue.ts:11-56 | every state reachable by submissions with increasing arrival numbers and any outcomes satisfies the invariant, so a failing task never leaves the queue stuck |
| QueueProperties.RunStartsFifo | src/promiseQueue.ts:17-56 | over any run of a fresh queue with increasing arrival numbers, of two started entries of equal priority the one started first arrived first |
| QueueProperties.StepIsSerial | src/promiseQueue.ts:34-38 | a step starts a task only when none is in flight and settles only the task in flight |
| QueueProperties.RunIsSerial | src/promiseQueue.ts:34-56 | over any run, starts and settlements alternate and each settlement is of the task most recently started (single flight) |
| QueueProperties.StepIsSpaced | src/promiseQueue.ts:42-48 | a step's starts respect the interval, and `lastRunTime` afterwards is the time of its last start |
| QueueProperties.RunIsSpaced | src/promiseQueue.ts:13-48 | over any run, each start is at least `rateLimitMs` after the previous one; `lastRunTime` is always the latest start and is unchanged by a run that starts nothing |
| Scenarios.EagerDispatchScenario | src/promiseQueue.ts:29-39 | submitting priorities 1, 5, 1 to an idle queue starts the first priority-1 task at once and queues 5 ahead of the second 1 |
| Scenarios.DrainAfterFailureScenario | src/promiseQueue.ts:49-56 | draining that queue with the middle task failing still starts and settles the last task |
| Scenarios.InsertScenario | src/promiseQueue.ts:22-27 | inserting priorities 1, 5, 1 one after another yields 5, 1, 1 with the 1s in arrival order |
| Scenarios.BusyQueueScenario | src/promiseQueue.ts:21-35 | the same submissions while a task is in flight only queue up, as 5, 1, 1 |
| ClientIp.FirstSegment | src/index.ts:27 | the result is a prefix of the header with no comma, and ends where the header ends or at its first comma |
| ClientIp.FirstSegmentAt | src/index.ts:27 | the first segment is exactly the text before the first comma |
| ClientIp.Trim | src/index.ts:28 | the result is a slice of the input with only ECMAScript whitespace outside it and none at its ends |
| ClientIp.TrimIsUnique | src/index.ts:28 | that characterisation determines the trimmed string uniquely |
| ClientIp.TrimOfBlankIsEmpty | src/index.ts:28 | a string trims to the empty string exactly when all its characters are whitespace |
| ClientIp.GetClientIp | src/index.ts:23-37 | if the header's first segment is non-empty, the result is that segment trimmed and contains no comma; else a truthy peer address; else the placeholder |
| ClientIp.HeaderYieldsIff | src/index.ts:25-28 | the source's two truthiness tests on the header pass exactly when the header is present and does not start with a comma |
| ClientIp.HeaderTakesPrecedence | src/index.ts:25-28 | when the header yields a segment, the connection and the placeholder do not affect the result |
| ClientIp.BlankSegmentGivesEmpty | src/index.ts:25-28 | a first segment of only whitespace yields the empty string, with no fallback to the peer address |
| ClientIp.PlaceholderOnlyAsLastResort | src/index.ts:31-36 | the result is the placeholder, for every placeholder, exactly when neither the header nor the connection yields an identity |
| ClientIp.ExampleTrim | src/index.ts:28 | " 1.2.3.4 " trims to "1.2.3.4" |
| ClientIp.ExampleFirstOfChain | src/index.ts:24-28 | the header " 1.2.3.4 ,5.6.7.8" gives "1.2.3.4" |
| ClientIp.ExampleLeadingComma | src/index.ts:25-34 | the header ",1.2.3.4" falls through to the peer address |
| ClientIp.ExampleBlankSegment | src/index.ts:25-28 | the header "  ,1.2.3.4" gives the empty string, not the peer address |
| ClientIp.ExampleEmptySources | src/index.ts:24-36 | an empty header counts as absent; an empty peer address also falls through to the placeholder |

## Left out

- src/io.ts as a whole (`ioAuth`, `downloadReplay`, `getUserId`): HTTP clients over `fetch` whose checks depend on untyped JSON. This is network plumbing.
- The admission limiter (`RateLimiterMemory` from `rate-limiter-flexible`, src/index.ts:18-21, 45): its code is not part of this model, so its fixed-window behaviour cannot be stated against source.
- Routing with `Bun.serve`, `Response`/JSON construction, `parseReplay` (from `minomuncher-core`), environment variables and start-up authentication (src/index.ts:1-16, 39-136): these are I/O and calls into code that is not part of this model.
- Real asynchrony: promises, `setTimeout`, and the `resolve`/`reject` callbacks. Time is an integer clock argument, the task outcome is an input, and the value or error carried by a settlement is not modelled. Concurrency beyond the single-threaded interleaving of steps is not modelled either.
- The default argument `priority = 0` of `enqueue` (src/promiseQueue.ts:17): `Enqueue` always takes an explicit priority. Every caller in src/index.ts passes none, so all real entries have priority 0.
- JavaScript numbers: priorities, `rateLimitMs` and timestamps are unbounded integers. Fractional values, `NaN` and floating-point rounding are not modelled.
- `Math.random()` in the fallback identity (src/index.ts:36) is the opaque `placeholder` argument.
- The `Headers` object: the header is one optional string. How `Headers.get` joins repeated headers and strips their outer whitespace is not modelled.
- The starvation of low-priority entries under a continuous stream of higher-priority submissions is not mitigated by the source. The model does not state a liveness property.
- QueueProperties.DispatchSpacing: the start time is pinned only when `Clock.late` is 0. A late timer delays the start by `late`, which the model allows but does not bound.
- QueueProperties.StepIsSpaced, QueueProperties.RunIsSpaced: the spacing is proved for a clock whose post-wait reading is never before `now + waitTime`, as the `nat` field `Clock.late` encodes. A wall clock that moves backwards, or a timer that fires early, can break it in the running program.
