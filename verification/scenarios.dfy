/**
  Concrete runs of the dispatch queue, with every clock reading 0 and a
  zero interval, so that only the order of events matters: submissions of
  priority 1, 5, 1, then three settlements, the middle one a failure.
 */
module Scenarios {
  import opened Wrappers
  import opened PriorityQueue
  import opened PromiseQueue

  /** A run is its first step followed by the rest. */
  lemma RunCons(s: State, i: Input, rest: seq<Input>, first: Out, tail: Out)
    requires Step(s, i) == first && Run(first.state, rest) == tail
    ensures Run(s, [i] + rest) == Out(tail.state, first.events + tail.events)
  {
    assert ([i] + rest)[1..] == rest;
  }

  /** `enqueue` dispatches at once on an idle queue, so the first
      priority-1 entry starts before the priority-5 entry is even submitted;
      the priority-5 entry then goes in front of the second priority-1 entry. */
  lemma EagerDispatchScenario()
    ensures var a, b, c, t := Entry(0, 1), Entry(1, 5), Entry(2, 1), Clock(0, 0);
            Run(Init(0), [Submit(a, t), Submit(b, t), Submit(c, t)])
            == Out(State(0, [b, c], true, 0, Some(a)), [Started(a, 0, 0)])
  {
    var a, b, c, t := Entry(0, 1), Entry(1, 5), Entry(2, 1), Clock(0, 0);
    assert Insert([b], c) == [b, c] by {
      InsertAt([b], c, 1);
    }
    var s1 := State(0, [], true, 0, Some(a));
    var s2 := State(0, [b], true, 0, Some(a));
    var s3 := State(0, [b, c], true, 0, Some(a));
    RunCons(s2, Submit(c, t), [], Out(s3, []), Out(s3, []));
    RunCons(s1, Submit(b, t), [Submit(c, t)], Out(s2, []), Out(s3, []));
    RunCons(Init(0), Submit(a, t), [Submit(b, t), Submit(c, t)], Out(s1, [Started(a, 0, 0)]), Out(s3, []));
  }

  /** Draining that queue: each settlement starts the next entry, and the
      failure of the priority-5 task does not stop the last one. */
  lemma DrainAfterFailureScenario()
    ensures var a, b, c, t := Entry(0, 1), Entry(1, 5), Entry(2, 1), Clock(0, 0);
            Run(State(0, [b, c], true, 0, Some(a)),
                [Finish(Fulfilled, t), Finish(Rejected, t), Finish(Fulfilled, t)])
            == Out(State(0, [], false, 0, None),
                   [Settled(a, Fulfilled), Started(b, 0, 0), Settled(b, Rejected),
                    Started(c, 0, 0), Settled(c, Fulfilled)])
  {
    var a, b, c, t := Entry(0, 1), Entry(1, 5), Entry(2, 1), Clock(0, 0);
    var s4 := State(0, [c], true, 0, Some(b));
    var s5 := State(0, [], true, 0, Some(c));
    var s6 := State(0, [], false, 0, None);
    var e5 := [Settled(c, Fulfilled)];
    var e4 := [Settled(b, Rejected), Started(c, 0, 0)] + e5;
    RunCons(s5, Finish(Fulfilled, t), [], Out(s6, e5), Out(s6, []));
    RunCons(s4, Finish(Rejected, t), [Finish(Fulfilled, t)],
            Out(s5, [Settled(b, Rejected), Started(c, 0, 0)]), Out(s6, e5));
    RunCons(State(0, [b, c], true, 0, Some(a)), Finish(Fulfilled, t), [Finish(Rejected, t), Finish(Fulfilled, t)],
            Out(s4, [Settled(a, Fulfilled), Started(b, 0, 0)]), Out(s6, e4));
  }

  /** Inserting priorities 1, 5, 1 one after another gives 5, 1, 1, with
      the two priority-1 entries in arrival order. */
  lemma InsertScenario(a: Entry, b: Entry, c: Entry)
    requires a.priority == 1 && b.priority == 5 && c.priority == 1
    ensures Insert([], a) == [a]
    ensures Insert([a], b) == [b, a]
    ensures Insert([b, a], c) == [b, a, c]
  {
    InsertAt([], a, 0);
    InsertAt([a], b, 0);
    InsertAt([b, a], c, 2);
  }

  /** The same submissions while another task is in flight: all three wait,
      and the queue holds them by priority, then arrival. */
  lemma BusyQueueScenario()
    ensures var x, a, b, c, t := Entry(0, 0), Entry(1, 1), Entry(2, 5), Entry(3, 1), Clock(0, 0);
            Run(State(0, [], true, 0, Some(x)), [Submit(a, t), Submit(b, t), Submit(c, t)])
            == Out(State(0, [b, a, c], true, 0, Some(x)), [])
  {
    var x, a, b, c, t := Entry(0, 0), Entry(1, 1), Entry(2, 5), Entry(3, 1), Clock(0, 0);
    InsertScenario(a, b, c);
    var s1 := State(0, [a], true, 0, Some(x));
    var s2 := State(0, [b, a], true, 0, Some(x));
    var s3 := State(0, [b, a, c], true, 0, Some(x));
    RunCons(s2, Submit(c, t), [], Out(s3, []), Out(s3, []));
    RunCons(s1, Submit(b, t), [Submit(c, t)], Out(s2, []), Out(s3, []));
    RunCons(State(0, [], true, 0, Some(x)), Submit(a, t), [Submit(b, t), Submit(c, t)], Out(s1, []), Out(s3, []));
  }
}
