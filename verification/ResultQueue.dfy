/**
 The queue between a background producer and one consumer, and the consumer's two phases.

 A read is known by its number; its promise is `results`. What the producer does while the consumer waits is
 arbitrary.
 */
module ResultQueue {
  datatype Option<T> = None | Some(value: T)

  type Item = nat

  datatype Read = Next(item: Item) | Done

  predicate Distinct(s: seq<nat>) { forall i, j | 0 <= i < j < |s| :: s[i] != s[j] }

  lemma WithoutOne(s: seq<nat>, k: nat)
    requires Distinct(s) && k < |s|
    ensures var rest := s[..k] + s[k + 1..]; Distinct(rest) && forall x :: x in rest <==> x in s && x != s[k]
  {
    var rest := s[..k] + s[k + 1..];
    assert forall i | 0 <= i < |rest| :: rest[i] == s[if i < k then i else i + 1];
    assert forall i | 0 <= i < |s| && i != k :: s[i] == rest[if i < k then i else i - 1];
  }

  lemma WithoutFirst(s: seq<nat>)
    requires Distinct(s) && s != []
    ensures Distinct(s[1..]) && forall x :: x in s[1..] <==> x in s && x != s[0]
  {
    WithoutOne(s, 0);
    assert s[..0] + s[1..] == s[1..];
  }

  lemma WithOne(s: seq<nat>, x: nat)
    requires Distinct(s) && x !in s
    ensures Distinct(s + [x]) && forall y :: y in s + [x] <==> y in s || y == x
  {}

  // The results once the waiting reads have ended with nothing.
  function Ended(results: map<nat, Read>, waiters: seq<nat>): map<nat, Read>
    decreases |waiters|
  {
    if waiters == [] then results else Ended(results[waiters[0] := Done], waiters[1..])
  }

  lemma {:induction false} EndedSettles(results: map<nat, Read>, waiters: seq<nat>)
    ensures Ended(results, waiters).Keys == results.Keys + set r | r in waiters
    ensures forall r | r in waiters :: Ended(results, waiters)[r] == Done
    ensures forall r | r in results && r !in waiters :: Ended(results, waiters)[r] == results[r]
    decreases |waiters|
  {
    if waiters != [] {
      EndedSettles(results[waiters[0] := Done], waiters[1..]);
      assert waiters == [waiters[0]] + waiters[1..];
    }
  }

  class AsyncQueue {
    var items: seq<Item>
    var waiters: seq<nat>
    var closed: bool
    var asked: nat                     // how many reads there have been
    var results: map<nat, Read>        // the settled reads
    ghost var pushed: seq<Item>        // every item accepted so far
    ghost var taken: seq<Item>         // every item handed to a read or drained, in that order

    ghost predicate Valid()
      reads this
    {
      && (items == [] || waiters == [])
      && pushed == taken + items
      && (closed ==> waiters == [])
      && (forall w | w in waiters :: w < asked && w !in results)
      && Distinct(waiters)
      && (forall r | r in results :: r < asked)
      && (forall r | 0 <= r < asked :: r in results || r in waiters)
    }

    constructor ()
      ensures Valid() && pushed == [] && taken == [] && items == [] && waiters == [] && !closed && asked == 0
    {
      items, waiters, closed, asked, results, pushed, taken := [], [], false, 0, map[], [], [];
    }

    // An item goes to the read that has waited longest, or else is kept.
    method Push(item: Item) returns (accepted: bool)
      requires Valid()
      modifies this`items, this`waiters, this`results, this`pushed, this`taken
      ensures Valid() && accepted == !closed
      ensures pushed == old(pushed) + if accepted then [item] else []
      ensures !accepted ==> unchanged(this)
      ensures accepted && old(waiters) == [] ==>
                items == old(items) + [item] && taken == old(taken) && results == old(results) && waiters == []
      ensures accepted && old(waiters) != [] ==>
                && items == [] && taken == old(taken) + [item] && waiters == old(waiters)[1..]
                && results == old(results)[old(waiters)[0] := Next(item)]
    {
      hide Distinct;
      if closed { return false; }
      pushed := pushed + [item];
      if waiters != [] {
        WithoutFirst(waiters);
        assert waiters[0] in waiters;
        results := results[waiters[0] := Next(item)];
        waiters := waiters[1..];
        taken := taken + [item];
      } else {
        assert (taken + items) + [item] == taken + (items + [item]);
        items := items + [item];
      }
      return true;
    }

    // Ends every read that waits.
    method Close()
      requires Valid()
      modifies this`waiters, this`closed, this`results
      ensures Valid() && closed && waiters == []
      ensures results == if old(closed) then old(results) else Ended(old(results), old(waiters))
    {
      if closed { return; }
      closed := true;
      EndedSettles(results, waiters);
      assert forall r | r in Ended(results, waiters) :: r < asked;
      assert forall r | 0 <= r < asked :: r in Ended(results, waiters);
      while waiters != []
        invariant closed && Ended(results, waiters) == Ended(old(results), old(waiters))
        decreases |waiters|
      {
        results := results[waiters[0] := Done];
        waiters := waiters[1..];
      }
    }

    // A read takes the first kept item, even when its signal has aborted; or it ends at once; or it waits.
    method StartRead(signalAborted: bool) returns (r: nat)
      requires Valid()
      modifies this`items, this`waiters, this`asked, this`results, this`taken
      ensures Valid() && r == old(asked) && asked == r + 1
      ensures old(items) != [] ==>
                && items == old(items)[1..] && taken == old(taken) + [old(items)[0]] && waiters == old(waiters)
                && results == old(results)[r := Next(old(items)[0])]
      ensures old(items) == [] ==> items == [] && taken == old(taken)
      ensures old(items) == [] && (closed || signalAborted) ==>
                results == old(results)[r := Done] && waiters == old(waiters)
      ensures old(items) == [] && !closed && !signalAborted ==>
                results == old(results) && waiters == old(waiters) + [r]
    {
      hide Distinct;
      r := asked;
      asked := asked + 1;
      if items != [] {
        results := results[r := Next(items[0])];
        taken := taken + [items[0]];
        items := items[1..];
      } else if closed || signalAborted {
        results := results[r := Done];
      } else {
        assert r !in waiters;
        WithOne(waiters, r);
        waiters := waiters + [r];
      }
    }

    // The signal of a read aborts: a read that still waits ends, and takes nothing.
    method Cancel(r: nat)
      requires Valid()
      modifies this`waiters, this`results
      ensures Valid()
      ensures r in old(waiters) ==> results == old(results)[r := Done] && r !in waiters
      ensures r !in old(waiters) ==> results == old(results) && waiters == old(waiters)
      ensures r in old(waiters) ==> |waiters| == |old(waiters)| - 1
    {
      hide Distinct;
      var k := 0;
      while k < |waiters| && waiters[k] != r
        invariant k <= |waiters| && forall i | 0 <= i < k :: waiters[i] != r
      {
        k := k + 1;
      }
      if k < |waiters| {
        WithoutOne(waiters, k);
        assert r == waiters[k] && r in waiters;
        results := results[r := Done];
        waiters := waiters[..k] + waiters[k + 1..];
      }
    }

    method TryShift() returns (item: Option<Item>)
      requires Valid()
      modifies this`items, this`taken
      ensures Valid()
      ensures old(items) == [] ==> item == None && unchanged(this)
      ensures old(items) != [] ==>
                item == Some(old(items)[0]) && items == old(items)[1..] && taken == old(taken) + [old(items)[0]]
    {
      if items == [] { return None; }
      item := Some(items[0]);
      taken := taken + [items[0]];
      items := items[1..];
    }
  }

  // What can happen while the consumer waits: the stream loop surfaces an outcome, the run is aborted, or the stream
  // loop settles, after which it surfaces nothing.
  datatype Event = Surface(item: Item) | Abort | Settle

  // The outcomes that the stream loop surfaces until it settles.
  function Surfaced(events: seq<Event>): seq<Item> {
    if events == [] then []
    else
      var before, ev := events[..|events| - 1], events[|events| - 1];
      Surfaced(before) + if ev.Surface? && Settle !in before then [ev.item] else []
  }

  lemma SurfacedNext(events: seq<Event>, e: nat)
    requires e < |events|
    ensures Surfaced(events[..e + 1])
         == Surfaced(events[..e]) + if events[e].Surface? && Settle !in events[..e] then [events[e].item] else []
    ensures forall ev :: ev in events[..e + 1] <==> ev in events[..e] || ev == events[e]
  {
    assert events[..e + 1][..e] == events[..e];
    assert events[..e + 1] == events[..e] + [events[e]];
  }

  lemma {:induction false} SurfacedBySettle(events: seq<Event>, e: nat)
    requires e <= |events| && Settle in events[..e]
    ensures Surfaced(events) == Surfaced(events[..e])
    decreases |events|
  {
    if e == |events| {
      assert events[..e] == events;
    } else {
      var n := |events| - 1;
      SurfacedBySettle(events[..n], e);
      assert events[..n][..e] == events[..e];
      var k :| 0 <= k < e && events[..e][k] == Settle;
      assert events[..n][k] == Settle;
    }
  }

  // Where an iteration begins: whether it is aborted, whether the stream loop has settled, and what it has surfaced.
  datatype Start = Start(aborted: bool, settled: bool, pushed: seq<Item>)

  class Iteration {
    const queue: AsyncQueue
    var aborted: bool
    var settled: bool

    ghost predicate Valid()
      reads this, queue
    {
      queue.Valid() && !queue.closed
    }

    constructor (queue: AsyncQueue)
      requires queue.Valid() && !queue.closed
      ensures Valid() && this.queue == queue && !aborted && !settled
    {
      this.queue := queue;
      aborted, settled := false, false;
    }

    // What the first `e` events have made of an iteration.
    ghost predicate Lived(events: seq<Event>, e: nat, start: Start)
      requires e <= |events|
      reads this`aborted, this`settled, queue`pushed
    {
      && aborted == (start.aborted || Abort in events[..e])
      && settled == (start.settled || Settle in events[..e])
      && queue.pushed == start.pushed + if start.settled then [] else Surfaced(events[..e])
    }

    // One event; an abort cancels the read that waits, if any.
    method Happen(event: Event, reading: Option<nat>)
      requires Valid()
      requires queue.waiters == if reading.Some? && reading.value !in queue.results then [reading.value] else []
      modifies this`aborted, this`settled, queue
      ensures Valid() && queue.asked == old(queue.asked)
      ensures aborted == (old(aborted) || event == Abort) && settled == (old(settled) || event == Settle)
      ensures queue.pushed == old(queue.pushed) + if event.Surface? && !old(settled) then [event.item] else []
      ensures event == Abort ==> queue.waiters == []
      ensures queue.waiters == if reading.Some? && reading.value !in queue.results then [reading.value] else []
      ensures reading.Some? && reading.value !in old(queue.results) && reading.value in queue.results ==>
                queue.results[reading.value].Next? || event == Abort
      ensures forall r | r in old(queue.results) :: r in queue.results && queue.results[r] == old(queue.results)[r]
      ensures if reading.Some? && reading.value !in old(queue.results) && reading.value in queue.results
                 && queue.results[reading.value].Next?
              then queue.taken == old(queue.taken) + [queue.results[reading.value].item]
              else queue.taken == old(queue.taken)
    {
      match event {
        case Surface(item) =>
          if !settled { var _ := queue.Push(item); }
        case Abort =>
          aborted := true;
          if reading.Some? { queue.Cancel(reading.value); }
        case Settle => settled := true;
      }
    }

    method NextEvent(events: seq<Event>, e: nat, reading: Option<nat>, ghost start: Start)
      requires e < |events| && Valid() && Lived(events, e, start)
      requires queue.waiters == if reading.Some? && reading.value !in queue.results then [reading.value] else []
      modifies this`aborted, this`settled, queue
      ensures Valid() && Lived(events, e + 1, start) && queue.asked == old(queue.asked)
      ensures (old(aborted) ==> aborted) && (aborted && !old(aborted) ==> queue.waiters == [])
      ensures queue.waiters == if reading.Some? && reading.value !in queue.results then [reading.value] else []
      ensures forall r | r in old(queue.results) :: r in queue.results && queue.results[r] == old(queue.results)[r]
      ensures if reading.Some? && reading.value !in old(queue.results) && reading.value in queue.results then
                if queue.results[reading.value].Next?
                then queue.taken == old(queue.taken) + [queue.results[reading.value].item]
                else queue.taken == old(queue.taken) && aborted
              else queue.taken == old(queue.taken)
    {
      hide Surfaced;
      SurfacedNext(events, e);
      assert queue.pushed + [] == queue.pushed;
      Happen(events[e], reading);
    }

    // Any number of events while no read waits.
    method Elapse(events: seq<Event>, from: nat, ghost start: Start) returns (e: nat)
      requires from <= |events| && Valid() && Lived(events, from, start) && queue.waiters == []
      modifies this`aborted, this`settled, queue
      ensures from <= e <= |events| && Valid() && Lived(events, e, start) && queue.waiters == []
      ensures queue.taken == old(queue.taken) && (e == from ==> queue.items == old(queue.items))
    {
      hide Lived;
      e := from;
      var busy: nat := *;
      while busy > 0 && e < |events|
        invariant from <= e <= |events| && Valid() && Lived(events, e, start) && queue.waiters == []
        invariant queue.taken == old(queue.taken) && (e == from ==> queue.items == old(queue.items))
        decreases busy
      {
        NextEvent(events, e, None, start);
        e, busy := e + 1, busy - 1;
      }
    }

    // A read, and the events while it waits; it waits for ever only when there is no abort.
    method ReadNext(events: seq<Event>, from: nat, ghost start: Start) returns (r: nat, e: nat)
      requires from <= |events| && Valid() && Lived(events, from, start) && queue.waiters == []
      modifies this`aborted, this`settled, queue
      ensures from <= e <= |events| && Valid() && Lived(events, e, start)
      ensures r !in queue.results ==> e == |events| && !aborted && queue.taken == old(queue.taken)
      ensures r in queue.results ==>
                && queue.waiters == [] && (queue.results[r].Done? ==> aborted)
                && queue.taken == old(queue.taken) + (if queue.results[r].Next? then [queue.results[r].item] else [])
                && (queue.results[r].Next? && e == from ==> |queue.items| < |old(queue.items)|)
    {
      hide Lived;
      r := queue.StartRead(aborted);
      e := from;
      while r !in queue.results && e < |events|
        invariant from <= e <= |events| && Valid() && Lived(events, e, start)
        invariant r < queue.asked && queue.waiters == if r !in queue.results then [r] else []
        invariant r !in queue.results ==> !aborted
        invariant r in queue.results && queue.results[r].Done? ==> aborted
        invariant r in queue.results && queue.results[r].Next? && e == from ==> |queue.items| < |old(queue.items)|
        invariant queue.taken == old(queue.taken)
                    + if r in queue.results && queue.results[r].Next? then [queue.results[r].item] else []
        decreases |events| - e
      {
        NextEvent(events, e, Some(r), start);
        e := e + 1;
      }
    }

    /**
     Yields every outcome in order, first as they arrive and then, once a read ends and the stream loop has settled,
     those that are left. Unless the consumer leaves early, the iteration finishes exactly when the run is aborted and
     the stream loop settles, and has then yielded every outcome surfaced, exactly once. `leaves` says at which yields
     the consumer would leave. Any number of events happen before the first read, while a read waits, and while the
     consumer holds an outcome.
     */
    method Iterate(events: seq<Event>, leaves: set<nat>) returns (yielded: seq<Item>, finished: bool, left: bool)
      requires Valid() && queue.taken == [] && queue.waiters == []
      modifies this, queue
      ensures queue.Valid() && yielded <= queue.pushed
      ensures finished && !left ==> yielded == queue.pushed && settled
      ensures finished && !left ==> yielded == old(queue.pushed) + if old(settled) then [] else Surfaced(events)
      ensures !left ==> (finished <==> (old(aborted) || Abort in events) && (old(settled) || Settle in events))
      ensures left ==> finished && |yielded| in leaves
    {
      hide Surfaced, Lived;
      ghost var start := Start(aborted, settled, queue.pushed);
      Born(events);
      yielded, finished, left := [], false, false;
      var e := Elapse(events, 0, start);
      while true
        invariant e <= |events| && Lived(events, e, start)
        invariant Valid() && queue.waiters == [] && yielded == queue.taken && !finished && !left
        decreases |events| - e, |queue.items|
      {
        var r;
        r, e := ReadNext(events, e, start);
        if r !in queue.results {
          LivedAll(events, start);
          return;
        }
        if queue.results[r].Done? { break; }
        yielded := yielded + [queue.results[r].item];
        if |yielded| in leaves { return yielded, true, true; }
        e := Elapse(events, e, start);
      }
      while !settled && e < |events|
        invariant e <= |events| && Lived(events, e, start) && aborted
        invariant Valid() && queue.waiters == [] && yielded == queue.taken && !finished && !left
        decreases |events| - e
      {
        NextEvent(events, e, None, start);
        e := e + 1;
      }
      if !settled {
        LivedAll(events, start);
        return;
      }
      LivedToSettle(events, e, start);
      yielded, left := Drain(yielded, leaves);
      finished := true;
    }

    lemma Born(events: seq<Event>)
      ensures Lived(events, 0, Start(aborted, settled, queue.pushed))
    {
      assert queue.pushed + [] == queue.pushed;
    }

    lemma LivedAll(events: seq<Event>, start: Start)
      requires Lived(events, |events|, start)
      ensures aborted == (start.aborted || Abort in events) && settled == (start.settled || Settle in events)
    {
      assert events[..|events|] == events;
    }

    lemma LivedToSettle(events: seq<Event>, e: nat, start: Start)
      requires e <= |events| && Lived(events, e, start) && aborted && settled
      ensures start.aborted || Abort in events
      ensures start.settled || Settle in events
      ensures queue.pushed == start.pushed + if start.settled then [] else Surfaced(events)
    {
      hide Surfaced;
      assert forall ev | ev in events[..e] :: ev in events;
      if !start.settled { SurfacedBySettle(events, e); }
    }

    // Yields what is left in the queue once the stream loop has settled.
    method Drain(before: seq<Item>, leaves: set<nat>) returns (yielded: seq<Item>, left: bool)
      requires Valid() && settled && queue.taken == before
      modifies queue
      ensures queue.Valid() && before <= yielded <= queue.pushed
      ensures queue.pushed == old(queue.pushed) && queue.taken == yielded
      ensures if left then |yielded| in leaves else queue.items == []
    {
      yielded, left := before, false;
      var item := queue.TryShift();
      while item.Some?
        invariant Valid() && queue.pushed == old(queue.pushed) && !left && before <= yielded
        invariant queue.taken == yielded + if item.Some? then [item.value] else []
        invariant item.None? ==> queue.items == []
        decreases |queue.items| + if item.Some? then 1 else 0
      {
        yielded := yielded + [item.value];
        if |yielded| in leaves { return yielded, true; }
        item := queue.TryShift();
      }
    }
  }
}
