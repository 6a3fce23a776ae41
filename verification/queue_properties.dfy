/**
  Properties of the dispatch queue: what one step guarantees, and what
  therefore holds of every run.
 */
module QueueProperties {
  import opened Wrappers
  import opened PriorityQueue
  import opened PromiseQueue

  /** The wait is no longer than the interval needs: with a timer that
      fires on time, a dispatch starts at the later of the current clock and
      `rateLimitMs` after the previous start, never at any other time. */
  lemma DispatchSpacing(s: State, c: Clock)
    requires !s.running && |s.queue| > 0
    ensures var o := RunNext(s, c);
            c.late == 0 ==>
              o.state.lastRunTime == if c.now >= s.lastRunTime + s.rateLimitMs then c.now
                                     else s.lastRunTime + s.rateLimitMs
  {
  }

  /** The entry dispatched from an ordered queue is served before every
      entry left behind, and what is left behind is still ordered. */
  lemma DispatchTakesFront(s: State, c: Clock)
    requires Ordered(s.queue)
    requires !s.running && |s.queue| > 0
    ensures var o := RunNext(s, c);
            && Ordered(o.state.queue)
            && forall j :: 0 <= j < |o.state.queue| ==> Before(s.queue[0], o.state.queue[j])
  {
    HeadComesFirst(s.queue);
  }

  /** In every step from a reachable state, the entry a step starts is
      served before every entry the step leaves waiting. */
  lemma StepStartsFront(s: State, i: Input)
    requires Valid(s)
    ensures var o := Step(s, i);
            forall k, j :: 0 <= k < |o.events| && o.events[k].Started? && 0 <= j < |o.state.queue|
                           ==> Before(o.events[k].entry, o.state.queue[j])
  {
    if i.Finish? && s.active.Some? && |s.queue| > 0 {
      HeadComesFirst(s.queue);
    }
  }

  /** A rejected task leaves the queue exactly as a fulfilled one would:
      only the settlement reported to its caller differs. */
  lemma OutcomeOnlyReachesCaller(s: State, c: Clock)
    requires s.active.Some?
    ensures Complete(s, Fulfilled, c).state == Complete(s, Rejected, c).state
    ensures Complete(s, Fulfilled, c).events[1..] == Complete(s, Rejected, c).events[1..]
  {
  }

  /** One step keeps the invariant, given that a submitted entry arrived
      after everything queued. */
  lemma StepKeepsValid(s: State, i: Input, n: nat)
    requires Valid(s) && IdsBelow(s.queue, n)
    requires i.Submit? ==> i.entry.id >= n
    ensures Valid(Step(s, i).state)
    ensures IdsBelow(Step(s, i).state.queue, if i.Submit? then i.entry.id + 1 else n)
  {
    match i
    case Submit(e, c) =>
      var q := Insert(s.queue, e);
      InsertKeepsArrivalOrder(s.queue, e);
      var k := InsertShape(s.queue, e);
      assert IdsBelow(q, e.id + 1) by {
        forall j | 0 <= j < |q| ensures q[j].id < e.id + 1 {
          if j < k { assert q[j] == s.queue[j]; }
          else if j > k { assert q[j] == s.queue[j - 1]; }
        }
      }
      if !s.running {
        HeadComesFirst(q);
      }
    case Finish(_, _) =>
  }

  /** Every reachable state satisfies the invariant: the queue stays
      ordered by (priority, arrival), and it is never idle while work waits,
      whichever tasks fail. */
  lemma {:induction false} RunKeepsValid(s: State, inputs: seq<Input>, n: nat)
    requires Valid(s) && IdsBelow(s.queue, n)
    requires ArrivalsFrom(inputs, n)
    ensures Valid(Run(s, inputs).state)
    decreases |inputs|
  {
    if |inputs| > 0 {
      var i := inputs[0];
      var n' := if i.Submit? then i.entry.id + 1 else n;
      StepKeepsValid(s, i, n);
      RunKeepsValid(Step(s, i).state, inputs[1..], n');
    }
  }

  /** One step is single-flight and keeps `running` in step with the task
      in flight. */
  lemma StepIsSerial(s: State, i: Input)
    requires Coherent(s)
    ensures var o := Step(s, i);
            && Serial(o.events, s.active)
            && InFlightAfter(o.events, s.active) == o.state.active
            && Coherent(o.state)
  {
    var o := Step(s, i);
    if i.Finish? && s.active.Some? {
      var rest := RunNext(s.(running := false, active := None), i.clock);
      assert o.events == [Settled(s.active.value, i.outcome)] + rest.events;
      assert o.events[1..] == rest.events;
      if |rest.events| > 0 {
        assert rest.events[1..] == [];
        assert InFlightAfter(rest.events, None) == InFlightAfter([], rest.state.active);
      }
    }
  }

  lemma {:induction false} SerialAppend(a: seq<Event>, b: seq<Event>, f: Option<Entry>)
    ensures Serial(a + b, f) <==> Serial(a, f) && Serial(b, InFlightAfter(a, f))
    ensures InFlightAfter(a + b, f) == InFlightAfter(b, InFlightAfter(a, f))
    decreases |a|
  {
    if |a| > 0 {
      assert (a + b)[1..] == a[1..] + b;
      match a[0]
      case Started(e, _, _) => SerialAppend(a[1..], b, Some(e));
      case Settled(_, _) => SerialAppend(a[1..], b, None);
    } else {
      assert a + b == b;
    }
  }

  /** Single flight over a whole run: starts and settlements alternate, and
      each settlement is of the task most recently started. */
  lemma {:induction false} RunIsSerial(s: State, inputs: seq<Input>)
    requires Coherent(s)
    ensures var o := Run(s, inputs);
            && Serial(o.events, s.active)
            && InFlightAfter(o.events, s.active) == o.state.active
    decreases |inputs|
  {
    if |inputs| > 0 {
      var first := Step(s, inputs[0]);
      StepIsSerial(s, inputs[0]);
      RunIsSerial(first.state, inputs[1..]);
      SerialAppend(first.events, Run(first.state, inputs[1..]).events, s.active);
    }
  }

  /** One step respects the interval and stamps `lastRunTime` with its
      start, if it started anything. */
  lemma StepIsSpaced(s: State, i: Input)
    ensures var o := Step(s, i);
            && Spaced(o.events, s.lastRunTime, s.rateLimitMs)
            && LastStart(o.events, s.lastRunTime) == o.state.lastRunTime
            && o.state.rateLimitMs == s.rateLimitMs
  {
    var o := Step(s, i);
    if i.Finish? && s.active.Some? {
      var rest := RunNext(s.(running := false, active := None), i.clock);
      assert o.events == [Settled(s.active.value, i.outcome)] + rest.events;
      assert o.events[1..] == rest.events;
      if |rest.events| > 0 {
        assert rest.events[1..] == [];
        assert LastStart(rest.events, s.lastRunTime) == LastStart([], rest.state.lastRunTime);
      }
    }
  }

  lemma {:induction false} SpacedAppend(a: seq<Event>, b: seq<Event>, last: int, rateLimitMs: int)
    ensures Spaced(a + b, last, rateLimitMs) <==>
              Spaced(a, last, rateLimitMs) && Spaced(b, LastStart(a, last), rateLimitMs)
    ensures LastStart(a + b, last) == LastStart(b, LastStart(a, last))
    decreases |a|
  {
    if |a| > 0 {
      assert (a + b)[1..] == a[1..] + b;
      match a[0]
      case Started(_, _, t) => SpacedAppend(a[1..], b, t, rateLimitMs);
      case Settled(_, _) => SpacedAppend(a[1..], b, last, rateLimitMs);
    } else {
      assert a + b == b;
    }
  }

  lemma {:induction false} NoStartKeepsLast(events: seq<Event>, last: int)
    requires StartedEntries(events) == []
    ensures LastStart(events, last) == last
    decreases |events|
  {
    if |events| > 0 {
      NoStartKeepsLast(events[1..], last);
    }
  }

  /** The minimum interval over a whole run: every start is at least
      `rateLimitMs` after the one before (the first after the initial
      `lastRunTime`), and `lastRunTime` always holds the latest start, so it
      changes only when a task is dispatched. */
  lemma {:induction false} RunIsSpaced(s: State, inputs: seq<Input>)
    ensures var o := Run(s, inputs);
            && Spaced(o.events, s.lastRunTime, s.rateLimitMs)
            && o.state.lastRunTime == LastStart(o.events, s.lastRunTime)
            && (StartedEntries(o.events) == [] ==> o.state.lastRunTime == s.lastRunTime)
            && o.state.rateLimitMs == s.rateLimitMs
    decreases |inputs|
  {
    var o := Run(s, inputs);
    if |inputs| > 0 {
      var first := Step(s, inputs[0]);
      StepIsSpaced(s, inputs[0]);
      RunIsSpaced(first.state, inputs[1..]);
      SpacedAppend(first.events, Run(first.state, inputs[1..]).events, s.lastRunTime, s.rateLimitMs);
    }
    if StartedEntries(o.events) == [] {
      NoStartKeepsLast(o.events, s.lastRunTime);
    }
  }

  // ---------------------------------------------------------------------
  // First-in-first-out dispatch among equal priorities

  /** Among entries of equal priority, those earlier in `xs` arrived earlier. */
  ghost predicate FifoAmongEqual(xs: seq<Entry>)
  {
    forall i, j :: 0 <= i < j < |xs| && xs[i].priority == xs[j].priority ==> xs[i].id < xs[j].id
  }

  /** Every entry of `started` arrived before every waiting entry of the same priority. */
  ghost predicate StartedBeforeQueued(started: seq<Entry>, q: seq<Entry>)
  {
    forall i, j :: 0 <= i < |started| && 0 <= j < |q| && started[i].priority == q[j].priority
                   ==> started[i].id < q[j].id
  }

  lemma {:induction false} StartedEntriesAppend(a: seq<Event>, b: seq<Event>)
    ensures StartedEntries(a + b) == StartedEntries(a) + StartedEntries(b)
    decreases |a|
  {
    if |a| == 0 {
      assert a + b == b;
    } else {
      assert (a + b)[0] == a[0] && (a + b)[1..] == a[1..] + b;
      StartedEntriesAppend(a[1..], b);
    }
  }

  /** One step keeps the history of starts first-in-first-out among equal
      priorities, and ahead of every waiting entry of the same priority. */
  lemma StepStartsFifo(s: State, i: Input, n: nat, h: seq<Entry>)
    requires Valid(s) && IdsBelow(s.queue, n)
    requires IdsBelow(h, n) && FifoAmongEqual(h) && StartedBeforeQueued(h, s.queue)
    requires i.Submit? ==> i.entry.id >= n
    ensures var o := Step(s, i);
            var h' := h + StartedEntries(o.events);
            && IdsBelow(h', if i.Submit? then i.entry.id + 1 else n)
            && FifoAmongEqual(h')
            && StartedBeforeQueued(h', o.state.queue)
  {
    var o := Step(s, i);
    match i
    case Submit(e, c) =>
      if s.running {
        assert StartedEntries(o.events) == [];
        var k := InsertShape(s.queue, e);
        var q := o.state.queue;
        forall a, j | 0 <= a < |h| && 0 <= j < |q| && h[a].priority == q[j].priority
          ensures h[a].id < q[j].id
        {
          if j < k { assert q[j] == s.queue[j]; }
          else if j > k { assert q[j] == s.queue[j - 1]; }
        }
      } else {
        assert StartedEntries(o.events) == [e];
      }
    case Finish(outcome, c) =>
      if s.active.Some? && |s.queue| > 0 {
        HeadComesFirst(s.queue);
        var tail := o.events[1..];
        assert o.events[0].Settled? && tail[0].Started? && tail[0].entry == s.queue[0] && |tail| == 1;
        assert StartedEntries(tail) == [s.queue[0]] + StartedEntries(tail[1..]);
        assert StartedEntries(o.events) == [s.queue[0]];
        assert o.state.queue == s.queue[1..];
      } else {
        assert StartedEntries(o.events) == [];
      }
  }

  lemma {:induction false} RunStartsFifoFrom(s: State, inputs: seq<Input>, n: nat, h: seq<Entry>)
    requires Valid(s) && IdsBelow(s.queue, n)
    requires IdsBelow(h, n) && FifoAmongEqual(h) && StartedBeforeQueued(h, s.queue)
    requires ArrivalsFrom(inputs, n)
    ensures FifoAmongEqual(h + StartedEntries(Run(s, inputs).events))
    decreases |inputs|
  {
    if |inputs| == 0 {
      assert h + StartedEntries(Run(s, inputs).events) == h;
    } else {
      var i := inputs[0];
      var first := Step(s, i);
      var rest := Run(first.state, inputs[1..]);
      var n' := if i.Submit? then i.entry.id + 1 else n;
      StepKeepsValid(s, i, n);
      StepStartsFifo(s, i, n, h);
      var h' := h + StartedEntries(first.events);
      RunStartsFifoFrom(first.state, inputs[1..], n', h');
      StartedEntriesAppend(first.events, rest.events);
      assert h + StartedEntries(Run(s, inputs).events) == h' + StartedEntries(rest.events);
    }
  }

  /** Equal priorities are started in arrival order, over any run of a
      fresh queue: an entry waiting when its equal starts sits behind it,
      and an entry submitted later carries a larger arrival number. */
  lemma RunStartsFifo(rateLimitMs: int, inputs: seq<Input>)
    requires ArrivalsFrom(inputs, 0)
    ensures var xs := StartedEntries(Run(Init(rateLimitMs), inputs).events);
            forall i, j :: 0 <= i < j < |xs| && xs[i].priority == xs[j].priority ==> xs[i].id < xs[j].id
  {
    RunStartsFifoFrom(Init(rateLimitMs), inputs, 0, []);
    assert [] + StartedEntries(Run(Init(rateLimitMs), inputs).events)
        == StartedEntries(Run(Init(rateLimitMs), inputs).events);
  }
}
