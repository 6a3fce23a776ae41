/**
  `RateLimitedPromiseQueue` (src/promiseQueue.ts) as a state machine.

  The class's fields become the record `State`; the constructor argument
  `rateLimitMs` is kept in it.  The three things that can happen to the
  queue are steps: a submission (`enqueue`, which calls `runNext` at once),
  and the settling of the task in flight (the `finally` of `runNext`, which
  clears `running` and calls `runNext` again).  Time is not real: each step
  is given the two `Date.now()` readings of the `runNext` call it makes, and
  the task's outcome is an input.  Each step reports what it did as events,
  so that properties of whole runs can be stated over the event log.
 */
module PromiseQueue {
  import opened Wrappers
  import opened PriorityQueue

  /** How a task's promise settled: `resolve(result)` or `reject(err)`. */
  datatype Outcome = Fulfilled | Rejected

  /** The clock as one `runNext` call sees it: `now` is the reading before
      the wait, and the reading after the wait, when `lastRunTime` is
      stamped, is `late` past the end of the computed wait.  A `nat` here is
      the assumption that the clock does not go backwards and the timer
      does not fire early. */
  datatype Clock = Clock(now: int, late: nat)

  /** What the outside world sees: a task invoked at time `at` after a
      computed wait of `wait`, or a task's promise settled. */
  datatype Event =
    | Started(entry: Entry, wait: int, at: int)
    | Settled(entry: Entry, outcome: Outcome)

  /** The fields of `RateLimitedPromiseQueue`.  `active` is the entry the
      running `runNext` call has shifted off and is executing. */
  datatype State = State(
    rateLimitMs: int,
    queue: seq<Entry>,
    running: bool,
    lastRunTime: int,
    active: Option<Entry>)

  /** The state after a step and the events it produced. */
  datatype Out = Out(state: State, events: seq<Event>)

  /** The queue only ever sees these inputs. */
  datatype Input =
    | Submit(entry: Entry, clock: Clock)
    | Finish(outcome: Outcome, clock: Clock)

  /** `running` is exactly "a task is in flight". */
  ghost predicate Coherent(s: State)
  {
    s.running <==> s.active.Some?
  }

  /** The invariant of every reachable state: coherent, never idle while
      work is waiting, and ordered by (priority, arrival). */
  ghost predicate Valid(s: State)
  {
    && Coherent(s)
    && (!s.running ==> s.queue == [])
    && Ordered(s.queue)
  }

  /** A fresh queue (lines 11-15). */
  function Init(rateLimitMs: int): (s: State)
    ensures Valid(s)
    ensures s.rateLimitMs == rateLimitMs && s.lastRunTime == 0 && |s.queue| == 0
    ensures !s.running && s.active == None
  {
    State(rateLimitMs, [], false, 0, None)
  }

  /** `Math.max(0, rateLimitMs - (now - lastRunTime))`: the least
      non-negative wait that puts `rateLimitMs` between the last start and
      the end of the wait. */
  function WaitTime(rateLimitMs: int, now: int, lastRunTime: int): (w: int)
    ensures w >= 0
    ensures now + w >= lastRunTime + rateLimitMs
    ensures w == 0 || now + w == lastRunTime + rateLimitMs
  {
    var gap := rateLimitMs - (now - lastRunTime);
    if gap > 0 then gap else 0
  }

  /** The second clock reading of a `runNext` call that computed `wait`. */
  function AfterWait(c: Clock, wait: int): int
  {
    c.now + wait + c.late
  }

  /** `runNext`: nothing when a task is in flight or the queue is empty;
      otherwise shift the head off, wait, stamp `lastRunTime` and start it. */
  function RunNext(s: State, c: Clock): (o: Out)
    ensures s.running || |s.queue| == 0 ==> o == Out(s, [])
    ensures !s.running && |s.queue| > 0 ==>
              && o.state.running && o.state.active == Some(s.queue[0])
              && s.queue == [s.queue[0]] + o.state.queue
              && o.state.lastRunTime == AfterWait(c, WaitTime(s.rateLimitMs, c.now, s.lastRunTime))
              && o.state.lastRunTime >= s.lastRunTime + s.rateLimitMs
              && o.state.lastRunTime >= c.now
              && o.state.rateLimitMs == s.rateLimitMs
              && o.events == [Started(s.queue[0], WaitTime(s.rateLimitMs, c.now, s.lastRunTime), o.state.lastRunTime)]
  {
    if s.running || |s.queue| == 0 then Out(s, [])
    else
      var e := s.queue[0];
      var wait := WaitTime(s.rateLimitMs, c.now, s.lastRunTime);
      var start := AfterWait(c, wait);
      Out(s.(queue := s.queue[1..], running := true, lastRunTime := start, active := Some(e)),
          [Started(e, wait, start)])
  }

  /** `enqueue`: sorted insertion, then `runNext` at once.  While a task is
      in flight the entry just waits in the queue; on an idle, empty queue
      it is started before any later submission can overtake it. */
  function Enqueue(s: State, e: Entry, c: Clock): (o: Out)
    ensures s.running ==> o.events == [] && o.state == s.(queue := Insert(s.queue, e))
    ensures !s.running && |s.queue| == 0 ==>
              var w := WaitTime(s.rateLimitMs, c.now, s.lastRunTime);
              && o.events == [Started(e, w, o.state.lastRunTime)]
              && o.state.active == Some(e) && o.state.running && |o.state.queue| == 0
              && o.state.lastRunTime == AfterWait(c, w)
              && o.state.rateLimitMs == s.rateLimitMs
  {
    RunNext(s.(queue := Insert(s.queue, e)), c)
  }

  /** The task in flight settles: its promise is resolved or rejected,
      `running` is cleared whatever the outcome (the `finally` block), and
      the next entry is dispatched. */
  function Complete(s: State, outcome: Outcome, c: Clock): (o: Out)
    requires s.active.Some?
    ensures |o.events| >= 1 && o.events[0] == Settled(s.active.value, outcome)
    ensures |s.queue| > 0 ==>
              var w := WaitTime(s.rateLimitMs, c.now, s.lastRunTime);
              && o.state.running && o.state.active == Some(s.queue[0])
              && o.state.queue == s.queue[1..]
              && o.events == [Settled(s.active.value, outcome), Started(s.queue[0], w, o.state.lastRunTime)]
              && o.state.lastRunTime == AfterWait(c, w)
              && o.state.rateLimitMs == s.rateLimitMs
    ensures |s.queue| == 0 ==>
              && o.state == s.(running := false, active := None)
              && o.events == [Settled(s.active.value, outcome)]
  {
    var next := RunNext(s.(running := false, active := None), c);
    Out(next.state, [Settled(s.active.value, outcome)] + next.events)
  }

  /** One input.  Only the task in flight can finish, so a `Finish` with
      nothing in flight changes nothing. */
  function Step(s: State, i: Input): Out
  {
    match i
    case Submit(e, c) => Enqueue(s, e, c)
    case Finish(outcome, c) => if s.active.Some? then Complete(s, outcome, c) else Out(s, [])
  }

  /** A run of inputs, with the events of every step in order. */
  function Run(s: State, inputs: seq<Input>): Out
    decreases |inputs|
  {
    if |inputs| == 0 then Out(s, [])
    else
      var first := Step(s, inputs[0]);
      var rest := Run(first.state, inputs[1..]);
      Out(rest.state, first.events + rest.events)
  }

  // ---------------------------------------------------------------------
  // Event-log properties

  /** Single flight: a task starts only when none is in flight, and only
      the task in flight settles. */
  predicate Serial(events: seq<Event>, inFlight: Option<Entry>)
  {
    if |events| == 0 then true
    else match events[0]
      case Started(e, _, _) => inFlight == None && Serial(events[1..], Some(e))
      case Settled(e, _) => inFlight == Some(e) && Serial(events[1..], None)
  }

  /** The task in flight after the events. */
  function InFlightAfter(events: seq<Event>, inFlight: Option<Entry>): Option<Entry>
  {
    if |events| == 0 then inFlight
    else match events[0]
      case Started(e, _, _) => InFlightAfter(events[1..], Some(e))
      case Settled(_, _) => InFlightAfter(events[1..], None)
  }

  /** Every start is at least `rateLimitMs` after the previous one (or after
      `last` for the first). */
  predicate Spaced(events: seq<Event>, last: int, rateLimitMs: int)
  {
    if |events| == 0 then true
    else match events[0]
      case Started(_, _, t) => t >= last + rateLimitMs && Spaced(events[1..], t, rateLimitMs)
      case Settled(_, _) => Spaced(events[1..], last, rateLimitMs)
  }

  /** The time of the last start among the events, or `last` if none. */
  function LastStart(events: seq<Event>, last: int): int
  {
    if |events| == 0 then last
    else match events[0]
      case Started(_, _, t) => LastStart(events[1..], t)
      case Settled(_, _) => LastStart(events[1..], last)
  }

  /** The entries started, in order. */
  function StartedEntries(events: seq<Event>): seq<Entry>
  {
    if |events| == 0 then []
    else match events[0]
      case Started(e, _, _) => [e] + StartedEntries(events[1..])
      case Settled(_, _) => StartedEntries(events[1..])
  }

  /** Every submission carries a fresh arrival number, larger than all
      before it and at least `n`. */
  ghost predicate ArrivalsFrom(inputs: seq<Input>, n: nat)
    decreases |inputs|
  {
    if |inputs| == 0 then true
    else match inputs[0]
      case Submit(e, _) => e.id >= n && ArrivalsFrom(inputs[1..], e.id + 1)
      case Finish(_, _) => ArrivalsFrom(inputs[1..], n)
  }

}
