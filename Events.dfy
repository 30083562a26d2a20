/** events.py: the publish/subscribe bus that carries pipeline events to
    the web clients. Every subscription owns a FIFO queue; `emit` puts the
    event on every queue registered at that moment; a subscription hands
    out its queue's events in order until the first "done" event, and then
    (or when it is abandoned) removes its queue from the bus. Delivery is
    modelled sequentially: an `await` on an empty queue is the point where
    the subscriber would wait. */
module Events {
  import opened Text

  /** A JSON-like value, as the events' dictionaries hold. */
  datatype Value =
    | Str(s: string)
    | Int(i: int)
    | Bool(b: bool)
    | Null
    | Dict(entries: map<string, Value>)
    | List(items: seq<Value>)

  /** An event is a dictionary with (normally) a "type" and a "data" entry. */
  type Event = map<string, Value>

  /** `event.get("type") == "done"`. */
  predicate IsDone(e: Event) {
    "type" in e && e["type"] == Str("done")
  }

  /** The events a subscription hands out from a queue holding `events`:
      everything up to and including the first "done" event. */
  function UpToDone(events: seq<Event>): seq<Event> {
    if events == [] then []
    else if IsDone(events[0]) then [events[0]]
    else [events[0]] + UpToDone(events[1..])
  }

  /** What a subscription hands out is a prefix of its queue with no "done"
      before its last event. */
  lemma {:induction false} UpToDoneIsPrefix(events: seq<Event>)
    ensures var r := UpToDone(events);
            |r| <= |events| && r == events[..|r|]
    ensures var r := UpToDone(events);
            forall k :: 0 <= k < |r| - 1 ==> !IsDone(r[k])
  {
    if events != [] && !IsDone(events[0]) {
      var tail := events[1..];
      UpToDoneIsPrefix(tail);
      var r := UpToDone(events);
      assert r == [events[0]] + UpToDone(tail);
      assert r == events[..|r|];
    }
  }

  /** Events before the first "done" are all handed out. */
  lemma {:induction false} UpToDoneSkips(events: seq<Event>, n: nat)
    requires n <= |events|
    requires forall k :: 0 <= k < n ==> !IsDone(events[k])
    ensures UpToDone(events) == events[..n] + UpToDone(events[n..])
  {
    if n > 0 {
      var tail := events[1..];
      assert !IsDone(events[0]);
      assert UpToDone(events) == [events[0]] + UpToDone(tail);
      UpToDoneSkips(tail, n - 1);
      assert tail[n - 1..] == events[n..];
      assert events[..n] == [events[0]] + tail[..n - 1];
    }
  }

  predicate HasDone(events: seq<Event>) {
    exists k :: 0 <= k < |events| && IsDone(events[k])
  }

  /** The subscription ends on a "done" event exactly when one was queued,
      and it is the first one; without one it hands out everything. */
  lemma {:induction false} UpToDoneEndsAtFirstDone(events: seq<Event>)
    ensures HasDone(events) <==> UpToDone(events) != [] && IsDone(UpToDone(events)[|UpToDone(events)| - 1])
    ensures !HasDone(events) ==> UpToDone(events) == events
  {
    if events != [] {
      UpToDoneEndsAtFirstDone(events[1..]);
      if !IsDone(events[0]) {
        var r := UpToDone(events);
        assert r == [events[0]] + UpToDone(events[1..]);
        if HasDone(events) {
          var k :| 0 <= k < |events| && IsDone(events[k]);
          assert k > 0 && IsDone(events[1..][k - 1]);
        }
        if HasDone(events[1..]) {
          var k :| 0 <= k < |events[1..]| && IsDone(events[1..][k]);
          assert IsDone(events[k + 1]);
        }
      }
    }
  }

  /** `list.remove(x)`: the first occurrence of x taken out. */
  function RemoveFirst<T(==)>(xs: seq<T>, x: T): (r: seq<T>)
    ensures x in xs ==> |r| == |xs| - 1
    ensures x !in xs ==> r == xs
    ensures forall y :: y in r ==> y in xs
  {
    if xs == [] then []
    else if xs[0] == x then xs[1..]
    else [xs[0]] + RemoveFirst(xs[1..], x)
  }

  /** Removing a queue added after `before` gives back the queues in their
      order without it, whoever subscribed in between. */
  lemma {:induction false} RemoveFirstRestores<T>(before: seq<T>, x: T, after: seq<T>)
    requires x !in before
    ensures RemoveFirst(before + [x] + after, x) == before + after
  {
    if before != [] {
      assert (before + [x] + after)[1..] == before[1..] + [x] + after;
      RemoveFirstRestores(before[1..], x, after);
      assert before + after == [before[0]] + (before[1..] + after);
    }
  }

  lemma DistinctCons<T>(a: T, rest: seq<T>)
    requires Distinct(rest) && a !in rest
    ensures Distinct([a] + rest)
  {
    var xs := [a] + rest;
    forall i, j | 0 <= i < j < |xs|
      ensures xs[i] != xs[j]
    {
      assert xs[j] == rest[j - 1];
      if i > 0 {
        assert xs[i] == rest[i - 1];
      }
    }
  }

  lemma {:induction false} RemoveFirstKeepsDistinct<T>(xs: seq<T>, x: T)
    requires Distinct(xs)
    ensures Distinct(RemoveFirst(xs, x)) && x !in RemoveFirst(xs, x)
  {
    if xs != [] {
      var tail := xs[1..];
      assert Distinct(tail) by {
        forall i, j | 0 <= i < j < |tail|
          ensures tail[i] != tail[j]
        {
          assert tail[i] == xs[i + 1] && tail[j] == xs[j + 1];
        }
      }
      assert xs[0] !in tail by {
        forall k | 0 <= k < |tail|
          ensures tail[k] != xs[0]
        {
          assert tail[k] == xs[k + 1];
        }
      }
      if xs[0] != x {
        RemoveFirstKeepsDistinct(tail, x);
        DistinctCons(xs[0], RemoveFirst(tail, x));
      }
    }
  }

  /** `asyncio.Queue`: unbounded, first in, first out. */
  class Queue {
    var items: seq<Event>

    constructor ()
      ensures items == []
    {
      items := [];
    }

    /** `put`. */
    method Put(e: Event)
      modifies this
      ensures items == old(items) + [e]
    {
      items := items + [e];
    }

    /** The receiving loop of a subscription: take events until the first
        "done" one, or until the queue is empty. */
    method Drain() returns (received: seq<Event>, finished: bool)
      modifies this
      ensures received == UpToDone(old(items))
      ensures finished <==> HasDone(old(items))
      ensures old(items) == received + items
    {
      var n := 0;
      while n < |items| && !IsDone(items[n])
        invariant n <= |items|
        invariant forall k :: 0 <= k < n ==> !IsDone(items[k])
      {
        n := n + 1;
      }
      UpToDoneSkips(items, n);
      UpToDoneEndsAtFirstDone(items);
      finished := n < |items|;
      if finished {
        received := items[..n + 1];
        items := items[n + 1..];
      } else {
        received := items;
        items := [];
      }
    }
  }

  class EventBus {
    var subscribers: seq<Queue>

    constructor ()
      ensures subscribers == [] && Valid()
    {
      subscribers := [];
    }

    /** Every subscription registers its own queue once. */
    predicate Valid()
      reads this
    {
      Distinct(subscribers)
    }

    /** `emit`: the event goes to the end of every registered queue, and
        nothing else changes. With no subscribers nothing happens. */
    method Emit(e: Event)
      requires Valid()
      modifies set q | q in subscribers
      ensures forall q :: q in subscribers ==> q.items == old(q.items) + [e]
    {
      var i := 0;
      while i < |subscribers|
        invariant 0 <= i <= |subscribers|
        invariant forall j :: 0 <= j < i ==> subscribers[j].items == old(subscribers[j].items) + [e]
        invariant forall j :: i <= j < |subscribers| ==> subscribers[j].items == old(subscribers[j].items)
      {
        subscribers[i].Put(e);
        i := i + 1;
      }
    }

    /** The start of `subscribe`: a new, empty queue is registered last, so
        it sees only events emitted from now on. */
    method Subscribe() returns (q: Queue)
      requires Valid()
      modifies this
      ensures fresh(q) && q.items == [] && Valid()
      ensures subscribers == old(subscribers) + [q]
    {
      q := new Queue();
      subscribers := subscribers + [q];
    }

    /** The `finally` of `subscribe`: the queue leaves the bus. */
    method Unsubscribe(q: Queue)
      requires Valid() && q in subscribers
      modifies this
      ensures Valid() && q !in subscribers
      ensures subscribers == RemoveFirst(old(subscribers), q)
    {
      RemoveFirstKeepsDistinct(subscribers, q);
      subscribers := RemoveFirst(subscribers, q);
    }

    /** The body of `subscribe`: hand out queued events in order until the
        first "done" event, then leave the bus. When the queue runs dry
        first, the subscription is still waiting and stays registered. */
    method Listen(q: Queue) returns (received: seq<Event>, finished: bool)
      requires Valid() && q in subscribers
      modifies this, q
      ensures received == UpToDone(old(q.items))
      ensures finished <==> HasDone(old(q.items))
      ensures old(q.items) == received + q.items
      ensures Valid()
      ensures finished ==> subscribers == RemoveFirst(old(subscribers), q)
      ensures !finished ==> subscribers == old(subscribers)
    {
      received, finished := q.Drain();
      if finished {
        Unsubscribe(q);
      }
    }
  }
}
