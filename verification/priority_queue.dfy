/**
  The ordered sequence held by `RateLimitedPromiseQueue` (src/promiseQueue.ts)
  and the sorted insertion `enqueue` performs on it.  Higher priority values
  are served first; among equal priorities, arrival order is kept.
 */
module PriorityQueue {

  /** One queued task.  The task closure and its resolve/reject pair are
      opaque: `id` stands for them and is the entry's arrival number, used
      only to state first-in-first-out order among equal priorities. */
  datatype Entry = Entry(id: nat, priority: int)

  /** `q.findIndex(x => x.priority < p)`: the index of the first entry whose
      priority is strictly lower than `p`, or -1 when there is none. */
  function FindIndexLower(q: seq<Entry>, p: int): (r: int)
    ensures -1 <= r < |q|
    ensures r == -1 <==> forall j :: 0 <= j < |q| ==> q[j].priority >= p
    ensures r >= 0 ==> q[r].priority < p && forall j :: 0 <= j < r ==> q[j].priority >= p
  {
    if |q| == 0 then -1
    else if q[0].priority < p then 0
    else
      var k := FindIndexLower(q[1..], p);
      if k == -1 then -1 else k + 1
  }

  /** `k` is where an entry of priority `p` belongs in `q`: in front of the
      first strictly lower priority, or at the end when there is none. */
  ghost predicate IsInsertionPoint(q: seq<Entry>, p: int, k: int)
  {
    && 0 <= k <= |q|
    && (forall j :: 0 <= j < k ==> q[j].priority >= p)
    && (k < |q| ==> q[k].priority < p)
  }

  /** `r` is `q` with `e` placed at index `k`: the entries in front of `k`
      are unchanged, and those from `k` on move back by one place. */
  ghost predicate InsertedAt(q: seq<Entry>, e: Entry, r: seq<Entry>, k: int)
  {
    && 0 <= k <= |q| && |r| == |q| + 1 && r[k] == e
    && (forall j :: 0 <= j < k ==> r[j] == q[j])
    && (forall j :: k <= j < |q| ==> r[j + 1] == q[j])
  }

  /** The body of `enqueue`'s executor up to the `runNext` call: `push`
      when `findIndex` found nothing, otherwise `splice(index, 0, e)`. */
  function Insert(q: seq<Entry>, e: Entry): (r: seq<Entry>)
    ensures exists k :: IsInsertionPoint(q, e.priority, k) && InsertedAt(q, e, r, k)
  {
    var index := FindIndexLower(q, e.priority);
    if index == -1 then
      assert IsInsertionPoint(q, e.priority, |q|) && InsertedAt(q, e, q + [e], |q|);
      q + [e]
    else
      var r := q[..index] + [e] + q[index..];
      assert IsInsertionPoint(q, e.priority, index) && InsertedAt(q, e, r, index);
      r
  }

  /** `s` without its element at `k`. */
  function RemoveAt<T>(s: seq<T>, k: nat): seq<T>
    requires k < |s|
  {
    s[..k] + s[k + 1..]
  }

  /** Priorities never increase from head to tail. */
  ghost predicate NonIncreasing(q: seq<Entry>)
  {
    forall i, j :: 0 <= i < j < |q| ==> q[i].priority >= q[j].priority
  }

  /** `a` is served before `b`: higher priority, or equal priority and earlier arrival. */
  predicate Before(a: Entry, b: Entry)
  {
    a.priority > b.priority || (a.priority == b.priority && a.id < b.id)
  }

  /** The queue is ordered by (priority descending, arrival ascending). */
  ghost predicate Ordered(q: seq<Entry>)
  {
    forall i, j :: 0 <= i < j < |q| ==> Before(q[i], q[j])
  }

  /** Every entry in `q` arrived before arrival number `n`. */
  ghost predicate IdsBelow(q: seq<Entry>, n: nat)
  {
    forall j :: 0 <= j < |q| ==> q[j].id < n
  }

  /** There is only one place an entry of a given priority can go. */
  lemma InsertionPointUnique(q: seq<Entry>, p: int, k1: int, k2: int)
    requires IsInsertionPoint(q, p, k1) && IsInsertionPoint(q, p, k2)
    ensures k1 == k2
  {
  }

  /** The insertion point of `e`, with Insert's result described entry by entry. */
  lemma InsertShape(q: seq<Entry>, e: Entry) returns (k: nat)
    ensures IsInsertionPoint(q, e.priority, k)
    ensures InsertedAt(q, e, Insert(q, e), k)
  {
    var r := Insert(q, e);
    var i :| IsInsertionPoint(q, e.priority, i) && InsertedAt(q, e, r, i);
    k := i;
  }

  /** The insertion point of `e`, with Insert's result as a splice. */
  lemma InsertAsSplice(q: seq<Entry>, e: Entry) returns (k: nat)
    ensures IsInsertionPoint(q, e.priority, k)
    ensures Insert(q, e) == q[..k] + [e] + q[k..]
  {
    k := InsertShape(q, e);
    var r, spliced := Insert(q, e), q[..k] + [e] + q[k..];
    assert |spliced| == |r|;
    forall j | 0 <= j < |r| ensures r[j] == spliced[j] {
      if j < k { assert spliced[j] == q[j]; }
      else if j > k { assert spliced[j] == q[j - 1]; }
    }
  }

  /** Insert puts the new entry exactly at the insertion point. */
  lemma InsertAt(q: seq<Entry>, e: Entry, k: int)
    requires IsInsertionPoint(q, e.priority, k)
    ensures Insert(q, e) == q[..k] + [e] + q[k..]
  {
    var k' := InsertAsSplice(q, e);
    InsertionPointUnique(q, e.priority, k, k');
  }

  /** Nothing but the new entry is added: the old entries keep their
      relative order, and removing the new entry gives the old queue back. */
  lemma InsertOnlyAddsEntry(q: seq<Entry>, e: Entry)
    ensures multiset(Insert(q, e)) == multiset(q) + multiset{e}
    ensures exists k :: 0 <= k <= |q| && Insert(q, e)[k] == e && RemoveAt(Insert(q, e), k) == q
  {
    var k := InsertAsSplice(q, e);
    var r, front, back := Insert(q, e), q[..k], q[k..];
    assert q == front + back;
    assert r == front + [e] + back;
    assert r[..k] == front && r[k + 1..] == back;
    assert r[k] == e && RemoveAt(r, k) == q;
    assert multiset(r) == multiset(front) + multiset([e]) + multiset(back);
  }

  /** Sorted insertion keeps a non-increasing queue non-increasing. */
  lemma InsertKeepsNonIncreasing(q: seq<Entry>, e: Entry)
    requires NonIncreasing(q)
    ensures NonIncreasing(Insert(q, e))
  {
    var r := Insert(q, e);
    var k := InsertShape(q, e);
    forall i, j | 0 <= i < j < |r|
      ensures r[i].priority >= r[j].priority
    {
      if j < k {
        assert r[i] == q[i] && r[j] == q[j];
      } else if j == k {
        assert r[i] == q[i];
      } else if i < k {
        assert r[i] == q[i] && r[j] == q[j - 1];
      } else if i == k {
        assert r[j] == q[j - 1] && q[k].priority < e.priority;
        assert q[k].priority >= q[j - 1].priority;
      } else {
        assert r[i] == q[i - 1] && r[j] == q[j - 1];
      }
    }
  }

  /** Stability: in a non-increasing queue, the old entries that stay in
      front of the new one are exactly those whose priority is at least the
      new priority; the rest move back by one place, in the same order. */
  lemma InsertIsStable(q: seq<Entry>, e: Entry)
    requires NonIncreasing(q)
    ensures exists k :: InsertedAt(q, e, Insert(q, e), k)
              && forall j :: 0 <= j < |q| ==> (q[j].priority >= e.priority <==> j < k)
  {
    var k := InsertShape(q, e);
    forall j | k <= j < |q|
      ensures q[j].priority < e.priority
    {
      assert q[k].priority >= q[j].priority;
    }
  }

  /** First-in-first-out among equal priorities: if the queue is ordered by
      (priority, arrival) and the new entry arrived after every queued one,
      the queue is still so ordered after the insertion. */
  lemma InsertKeepsArrivalOrder(q: seq<Entry>, e: Entry)
    requires Ordered(q)
    requires IdsBelow(q, e.id)
    ensures Ordered(Insert(q, e))
  {
    var r := Insert(q, e);
    var k := InsertShape(q, e);
    forall i, j | 0 <= i < j < |r|
      ensures Before(r[i], r[j])
    {
      if j < k {
        assert r[i] == q[i] && r[j] == q[j];
      } else if j == k {
        assert r[i] == q[i] && q[i].priority >= e.priority && q[i].id < e.id;
      } else if i < k {
        assert r[i] == q[i] && r[j] == q[j - 1];
      } else if i == k {
        assert r[j] == q[j - 1] && q[k].priority < e.priority;
        assert j - 1 == k || Before(q[k], q[j - 1]);
      } else {
        assert r[i] == q[i - 1] && r[j] == q[j - 1];
      }
    }
  }

  /** The head of an ordered queue is served before every other queued entry. */
  lemma HeadComesFirst(q: seq<Entry>)
    requires Ordered(q) && |q| > 0
    ensures forall j :: 1 <= j < |q| ==> Before(q[0], q[j])
    ensures Ordered(q[1..])
  {
  }
}
