/**
 How a tool runner's stream hands over each tool call: once the model has moved on from it, and every loop that reads
 the stream is done with the event that shows it.

 A loop asks for its next event only after the one before, as `for await` does. What the stream sends, when loops
 start, read on or leave, and when the stream fails are all arbitrary; the caller's listeners run between `Count` and
 `TrackEvent` of an event.
 */
module EagerHandover {
  datatype Option<T> = None | Some(value: T)

  // A call is known by the index of its block in the reply.
  type Call = nat

  datatype Event =
    | BlockStart(fallback: bool)
    | BlockStop(tool: Option<Call>)   // the call, when the block is a `tool_use`
    | MessageDelta(toolUse: bool)     // whether the reply stops with `tool_use`
    | Other

  // A call the model has moved on from, and the number of the event that showed it; events are numbered from 1.
  datatype Ready = Ready(call: Call, event: nat)

  // ----- what the events say -----

  datatype Track = Track(closed: Option<Call>, ready: seq<Ready>, fallback: bool)

  predicate MovesOn(ev: Event) { ev.BlockStart? || (ev.MessageDelta? && ev.toolUse) }

  function TrackNext(t: Track, ev: Event, number: nat): Track {
    if t.fallback then t
    else if ev.BlockStart? && ev.fallback then t.(fallback := true, closed := None)
    else if MovesOn(ev) && t.closed.Some? then t.(closed := None, ready := t.ready + [Ready(t.closed.value, number)])
    else if ev.BlockStop? && ev.tool.Some? then t.(closed := ev.tool)
    else t
  }

  function Tracked(events: seq<Event>): Track {
    if events == [] then Track(None, [], false)
    else TrackNext(Tracked(events[..|events| - 1]), events[|events| - 1], |events|)
  }

  lemma TrackedThrough(events: seq<Event>, n: nat)
    requires n < |events|
    ensures Tracked(events[..n + 1]) == TrackNext(Tracked(events[..n]), events[n], n + 1)
  {
    hide TrackNext;
    assert events[..n + 1][..n] == events[..n];
  }

  // The `tool_use` blocks that have finished streaming.
  function ToolCalls(events: seq<Event>): seq<Call> {
    if events == [] then []
    else
      var ev := events[|events| - 1];
      ToolCalls(events[..|events| - 1]) + if ev.BlockStop? && ev.tool.Some? then [ev.tool.value] else []
  }

  function CallsOf(ready: seq<Ready>): (r: seq<Call>)
    ensures |r| == |ready| && forall k | 0 <= k < |r| :: r[k] == ready[k].call
  {
    seq(|ready|, k requires 0 <= k < |ready| => ready[k].call)
  }

  predicate Subsequence(a: seq<Call>, b: seq<Call>) {
    a == [] ||
    (b != [] && (if a[|a| - 1] == b[|b| - 1] && Subsequence(a[..|a| - 1], b[..|b| - 1]) then true
                 else Subsequence(a, b[..|b| - 1])))
  }

  // The calls ready so far and the one that is still to become ready.
  function Coming(t: Track): seq<Call> { CallsOf(t.ready) + if t.closed.Some? then [t.closed.value] else [] }

  lemma SubsequenceGrows(a: seq<Call>, b: seq<Call>, c: Call)
    requires Subsequence(a, b)
    ensures Subsequence(a, b + [c]) && Subsequence(a + [c], b + [c])
  {
    assert (b + [c])[..|b|] == b && (a + [c])[..|a|] == a;
  }

  lemma {:induction false} SubsequenceShrinks(a: seq<Call>, b: seq<Call>)
    requires Subsequence(a, b) && a != []
    ensures Subsequence(a[..|a| - 1], b)
    decreases |b|
  {
    var m := |b| - 1;
    if a[|a| - 1] == b[m] && Subsequence(a[..|a| - 1], b[..m]) {
      SubsequenceGrows(a[..|a| - 1], b[..m], b[m]);
      assert b[..m] + [b[m]] == b;
    } else {
      SubsequenceShrinks(a, b[..m]);
      SubsequenceGrows(a[..|a| - 1], b[..m], b[m]);
      assert b[..m] + [b[m]] == b;
    }
  }

  lemma {:induction false} SubsequencePrefix(a: seq<Call>, b: seq<Call>, n: nat)
    requires Subsequence(a, b) && n <= |a|
    ensures Subsequence(a[..n], b)
    decreases |a|
  {
    if n == |a| {
      assert a[..n] == a;
    } else {
      SubsequenceShrinks(a, b);
      SubsequencePrefix(a[..|a| - 1], b, n);
      assert a[..|a| - 1][..n] == a[..n];
    }
  }

  lemma {:induction false} ToolCallsGrow(events: seq<Event>, n: nat, calls: seq<Call>)
    requires n <= |events|
    ensures ToolCalls(events[..n]) <= ToolCalls(events)
    ensures Subsequence(calls, ToolCalls(events[..n])) ==> Subsequence(calls, ToolCalls(events))
    decreases |events|
  {
    hide Subsequence;
    if n == |events| {
      assert events[..n] == events;
    } else {
      var m := |events| - 1;
      assert events[..m][..n] == events[..n];
      ToolCallsGrow(events[..m], n, calls);
      assert ToolCalls(events[..m]) + [] == ToolCalls(events[..m]);
      if Subsequence(calls, ToolCalls(events[..n])) && events[m].BlockStop? && events[m].tool.Some? {
        SubsequenceGrows(calls, ToolCalls(events[..m]), events[m].tool.value);
      }
    }
  }

  /** Calls become ready in the order in which their blocks close, each at most once for each time that it does. */
  lemma {:induction false} ReadyInOrder(events: seq<Event>)
    ensures Subsequence(CallsOf(Tracked(events).ready), ToolCalls(events))
    ensures Subsequence(Coming(Tracked(events)), ToolCalls(events))
    decreases |events|
  {
    if events != [] {
      var n := |events| - 1;
      var ev := events[n];
      var before, calls := Tracked(events[..n]), ToolCalls(events[..n]);
      ReadyInOrder(events[..n]);
      TrackCalls(before, ev, |events|);
      assert calls + [] == calls;
      if ev.BlockStop? && ev.tool.Some? {
        SubsequenceGrows(CallsOf(before.ready), calls, ev.tool.value);
        SubsequenceGrows(Coming(before), calls, ev.tool.value);
      }
    }
  }

  // What one event makes of the calls that are ready or coming.
  lemma TrackCalls(t: Track, ev: Event, number: nat)
    ensures var next := TrackNext(t, ev, number);
            && (CallsOf(next.ready) == CallsOf(t.ready) || CallsOf(next.ready) == Coming(t))
            && (Coming(next) == Coming(t) || Coming(next) == CallsOf(t.ready)
                || (ev.BlockStop? && ev.tool.Some? && Coming(next) == CallsOf(t.ready) + [ev.tool.value]))
  {
    var next := TrackNext(t, ev, number);
    assert CallsOf(t.ready) + [] == CallsOf(t.ready);
    if |next.ready| > |t.ready| { assert CallsOf(next.ready) == Coming(t); }
  }

  // Blocks stream one after another: each stops before the next starts.
  predicate OneBlockAtATime(events: seq<Event>) {
    events == [] ||
    (var n := |events| - 1;
     && OneBlockAtATime(events[..n])
     && (events[n].BlockStart? ==> !Open(events[..n]))
     && (events[n].BlockStop? ==> Open(events[..n])))
  }

  // The call that a block's stop closes is that of the block that started last.
  predicate LastBlockCloses(events: seq<Event>) {
    events == [] ||
    (var n := |events| - 1;
     && LastBlockCloses(events[..n])
     && (ClosesCall(events[n]) ==> events[n].tool.value + 1 == Blocks(events[..n])))
  }

  // How many blocks have started.
  function Blocks(events: seq<Event>): nat {
    if events == [] then 0
    else Blocks(events[..|events| - 1]) + if events[|events| - 1].BlockStart? then 1 else 0
  }

  predicate Open(events: seq<Event>) {
    events != [] &&
    var ev := events[|events| - 1];
    ev.BlockStart? || (!ev.BlockStop? && Open(events[..|events| - 1]))
  }

  lemma {:induction false} StreamsOneByOneBefore(events: seq<Event>, n: nat)
    requires OneBlockAtATime(events) && n <= |events|
    ensures OneBlockAtATime(events[..n])
    decreases |events|
  {
    if n == |events| {
      assert events[..n] == events;
    } else {
      StreamsOneByOneBefore(events[..|events| - 1], n);
      assert events[..|events| - 1][..n] == events[..n];
    }
  }

  predicate ClosesCall(ev: Event) { ev.BlockStop? && ev.tool.Some? }

  predicate MovedOnBetween(events: seq<Event>, i: nat, j: nat)
    requires i < j <= |events|
  {
    exists k :: i < k < j && (events[k].BlockStart? || events[k] == MessageDelta(true))
  }

  // Between any two calls that close, some event shows the model moving on.
  predicate Parted(events: seq<Event>) {
    forall i, j | 0 <= i < j < |events| && ClosesCall(events[i]) && ClosesCall(events[j]) ::
      MovedOnBetween(events, i, j)
  }

  /** When blocks stream one after another, the calls close in the order of the reply. */
  lemma {:induction false} CallsClimb(events: seq<Event>)
    requires OneBlockAtATime(events) && LastBlockCloses(events)
    ensures forall p, q | 0 <= p < q < |ToolCalls(events)| :: ToolCalls(events)[p] < ToolCalls(events)[q]
    ensures forall c | c in ToolCalls(events) :: c + (if Open(events) then 1 else 0) < Blocks(events)
    decreases |events|
  {
    if events != [] {
      var n := |events| - 1;
      var before := ToolCalls(events[..n]);
      CallsClimb(events[..n]);
      if ClosesCall(events[n]) {
        assert ToolCalls(events) == before + [events[n].tool.value];
        assert forall p | 0 <= p < |before| :: before[p] in before && before[p] < events[n].tool.value;
      } else {
        assert ToolCalls(events) == before;
      }
    }
  }

  // Whether a call has closed and no event since showed the model moving on.
  predicate Unfollowed(events: seq<Event>, i: nat) {
    i < |events| && ClosesCall(events[i]) && !MovedOnBetween(events, i, |events|)
  }

  // How often a call closed while the one before it was still to become ready, which is lost by that.
  function Displaced(events: seq<Event>): nat {
    if events == [] then 0
    else
      var n := |events| - 1;
      Displaced(events[..n]) + if ClosesCall(events[n]) && Tracked(events[..n]).closed.Some? then 1 else 0
  }

  lemma {:induction false} ClosedExactly(events: seq<Event>)
    requires !Tracked(events).fallback
    ensures Tracked(events).closed.Some? <==> exists i: nat :: Unfollowed(events, i)
    decreases |events|
  {
    hide Unfollowed;
    if events == [] {
      NothingUnfollowed(events);
    } else {
      var n := |events| - 1;
      ClosedExactly(events[..n]);
      forall i: nat ensures Unfollowed(events, i) <==>
          if i == n then ClosesCall(events[n]) else Unfollowed(events[..n], i) && !MovesOn(events[n])
        ensures Unfollowed(events[..n], i) ==> i < n
      {
        UnfollowedNext(events, i);
      }
      if i: nat :| Unfollowed(events[..n], i) { assert Unfollowed(events, i) <==> !MovesOn(events[n]); }
      assert Unfollowed(events, n) <==> ClosesCall(events[n]);
    }
  }

  lemma NothingUnfollowed(events: seq<Event>)
    requires events == []
    ensures forall i: nat :: !Unfollowed(events, i)
  {}

  lemma UnfollowedNext(events: seq<Event>, i: nat)
    requires events != []
    ensures var n := |events| - 1;
            Unfollowed(events, i) <==>
            if i == n then ClosesCall(events[n]) else Unfollowed(events[..n], i) && !MovesOn(events[n])
    ensures Unfollowed(events[..|events| - 1], i) ==> i < |events| - 1
  {
    var n := |events| - 1;
    if i < n {
      assert events[..n][i] == events[i];
      if k :| i < k < n && MovesOn(events[k]) { assert MovesOn(events[..n][k]); }
      if k :| i < k < n && MovesOn(events[..n][k]) { assert MovesOn(events[k]); }
      if MovesOn(events[n]) { assert MovedOnBetween(events, i, |events|); }
    }
  }

  // A stream stays parted when the call that closes next displaces none.
  lemma PartedNext(events: seq<Event>)
    requires events != []
    ensures var n := |events| - 1;
            Parted(events) <==>
            Parted(events[..n]) && (ClosesCall(events[n]) ==> forall i: nat :: !Unfollowed(events[..n], i))
  {
    hide MovesOn;
    var n := |events| - 1;
    var before := events[..n];
    forall i, j | 0 <= i < j <= n ensures MovedOnBetween(events, i, j) <==> MovedOnBetween(before, i, j) {
      if k :| i < k < j && MovesOn(events[k]) { assert MovesOn(before[k]); }
      if k :| i < k < j && MovesOn(before[k]) { assert MovesOn(events[k]); }
    }
    assert forall i | 0 <= i < n :: before[i] == events[i];
    if Parted(events) {
      forall i: nat | ClosesCall(events[n]) ensures !Unfollowed(before, i) {
        if i < n && ClosesCall(before[i]) { assert MovedOnBetween(events, i, n); }
      }
      forall i, j | 0 <= i < j < n && ClosesCall(before[i]) && ClosesCall(before[j])
        ensures MovedOnBetween(before, i, j)
      {
        assert MovedOnBetween(events, i, j);
      }
    }
    if Parted(before) && (ClosesCall(events[n]) ==> forall i: nat :: !Unfollowed(before, i)) {
      forall i, j | 0 <= i < j < |events| && ClosesCall(events[i]) && ClosesCall(events[j])
        ensures MovedOnBetween(events, i, j)
      {
        if j < n {
          assert MovedOnBetween(before, i, j);
        } else {
          assert !Unfollowed(before, i);
        }
      }
    }
  }

  lemma {:induction false} PartedDisplacesNone(events: seq<Event>)
    requires !Tracked(events).fallback
    ensures Parted(events) <==> Displaced(events) == 0
    decreases |events|
  {
    hide Parted, Unfollowed;
    if events == [] {
      assert Parted([]) by { NothingParted(); }
    } else {
      var n := |events| - 1;
      PartedDisplacesNone(events[..n]);
      ClosedExactly(events[..n]);
      PartedNext(events);
    }
  }

  lemma NothingParted()
    ensures Parted([])
  {}

  lemma {:induction false} DisplacedAreLost(events: seq<Event>)
    requires !Tracked(events).fallback
    ensures |Coming(Tracked(events))| + Displaced(events) == |ToolCalls(events)|
    ensures Displaced(events) == 0 ==> Coming(Tracked(events)) == ToolCalls(events)
    decreases |events|
  {
    if events != [] {
      var n := |events| - 1;
      var before, t := Tracked(events[..n]), Tracked(events);
      DisplacedAreLost(events[..n]);
      assert ToolCalls(events[..n]) + [] == ToolCalls(events[..n]);
      assert CallsOf(before.ready) + [] == CallsOf(before.ready) && CallsOf(t.ready) + [] == CallsOf(t.ready);
      if |t.ready| > |before.ready| {
        assert CallsOf(t.ready) == Coming(before);
      } else if ClosesCall(events[n]) {
        assert t == before.(closed := events[n].tool);
      } else {
        assert t == before;
      }
    }
  }

  /**
   Until a fallback starts, every call that closed is ready or still to become ready exactly when some event shows
   the model moving on between any two that closed. Otherwise the call that closed first is lost to eager handover.
   */
  lemma NoneSkippedExactly(events: seq<Event>)
    requires !Tracked(events).fallback
    ensures Coming(Tracked(events)) == ToolCalls(events) <==> Parted(events)
  {
    hide Tracked, Parted, ToolCalls, Displaced;
    PartedDisplacesNone(events);
    DisplacedAreLost(events);
  }

  // The events before the first fallback.
  function BeforeFallback(events: seq<Event>): (r: seq<Event>)
    ensures r <= events && !Tracked(r).fallback && Tracked(r).ready == Tracked(events).ready
  {
    if Tracked(events).fallback then BeforeFallback(events[..|events| - 1]) else events
  }

  lemma {:induction false} OpenSinceStop(events: seq<Event>, i: nat)
    requires Open(events) && i < |events| && events[i].BlockStop?
    ensures MovedOnBetween(events, i, |events|)
    decreases |events|
  {
    var n := |events| - 1;
    if events[n].BlockStart? {
      assert MovesOn(events[n]);
    } else {
      OpenSinceStop(events[..n], i);
      var k :| i < k < n && MovesOn(events[..n][k]);
      assert MovesOn(events[k]);
    }
  }

  lemma {:induction false} OneByOneIsParted(events: seq<Event>)
    requires OneBlockAtATime(events)
    ensures Parted(events)
    decreases |events|
  {
    hide Parted, MovesOn;
    if events == [] {
      NothingParted();
    } else {
      var n := |events| - 1;
      OneByOneIsParted(events[..n]);
      forall i: nat | ClosesCall(events[n]) ensures !Unfollowed(events[..n], i) {
        if i < n && events[..n][i].BlockStop? { OpenSinceStop(events[..n], i); }
      }
      PartedNext(events);
    }
  }

  /** When blocks stream one after another, no call is skipped: those ready are the first calls of the reply. */
  lemma NoneSkipped(events: seq<Event>)
    requires OneBlockAtATime(events)
    ensures CallsOf(Tracked(events).ready) <= ToolCalls(events)
    ensures !Tracked(events).fallback ==> Coming(Tracked(events)) == ToolCalls(events)
  {
    hide Tracked, ToolCalls, Parted, OneBlockAtATime;
    var before := BeforeFallback(events);
    assert before == events[..|before|];
    StreamsOneByOneBefore(events, |before|);
    OneByOneIsParted(before);
    NoneSkippedExactly(before);
    ToolCallsGrow(events, |before|, []);
    assert CallsOf(Tracked(before).ready) <= Coming(Tracked(before));
    if !Tracked(events).fallback {
      OneByOneIsParted(events);
      NoneSkippedExactly(events);
    }
  }

  lemma TrackedNext(events: seq<Event>, ev: Event)
    ensures Tracked(events + [ev]) == TrackNext(Tracked(events), ev, |events| + 1)
    ensures ToolCalls(events + [ev])
         == ToolCalls(events) + if ev.BlockStop? && ev.tool.Some? then [ev.tool.value] else []
  {
    hide TrackNext;
    assert (events + [ev])[..|events|] == events;
  }

  /** When two blocks overlap in the stream, the call that closes first is never handed over early. */
  lemma OverlapSkips(first: Call, second: Call)
    ensures var events := [BlockStart(false), BlockStart(false), BlockStop(Some(first)), BlockStop(Some(second)),
                           MessageDelta(true)];
            CallsOf(Tracked(events).ready) == [second] && ToolCalls(events) == [first, second]
  {
    hide Tracked, ToolCalls, OneBlockAtATime;
    var a, b := [BlockStart(false)], [BlockStart(false), BlockStart(false)];
    var c, d := b + [BlockStop(Some(first))], b + [BlockStop(Some(first)), BlockStop(Some(second))];
    NothingTracked();
    TrackedNext([], BlockStart(false));
    TrackedNext(a, BlockStart(false));
    TrackedNext(b, BlockStop(Some(first)));
    TrackedNext(c, BlockStop(Some(second)));
    TrackedNext(d, MessageDelta(true));
    assert [] + a == a && a + a == b && c + [BlockStop(Some(second))] == d;
    assert d + [MessageDelta(true)] == [BlockStart(false), BlockStart(false), BlockStop(Some(first)),
                                        BlockStop(Some(second)), MessageDelta(true)];
  }

  /** When two blocks overlap in the stream, the later call can be handed over first, though no call is skipped. */
  lemma OverlapReorders()
    ensures var events := [BlockStart(false), BlockStart(false), BlockStop(Some(1)), BlockStart(false),
                           BlockStop(Some(0)), BlockStop(None), MessageDelta(true)];
            CallsOf(Tracked(events).ready) == [1, 0] && ToolCalls(events) == [1, 0]
  {
    hide Tracked, ToolCalls, TrackNext;
    var a := [BlockStart(false), BlockStart(false)];
    var b := [BlockStop(Some(1)), BlockStart(false)];
    var c := [BlockStop(Some(0)), BlockStop(None), MessageDelta(true)];
    NothingTracked();
    Tracked2([], a[0], a[1]);
    assert [] + [a[0], a[1]] == a;
    FirstReady();
    Tracked2(a, b[0], b[1]);
    assert a + [b[0], b[1]] == a + b;
    SecondReady();
    Tracked2(a + b, c[0], c[1]);
    TrackedNext(a + b + [c[0], c[1]], c[2]);
    assert a + b + [c[0], c[1]] + [c[2]] == a + b + c;
    assert a + b + c == [a[0], a[1], b[0], b[1], c[0], c[1], c[2]];
    assert Tracked(a + b + c) == Track(None, [Ready(1, 4), Ready(0, 7)], false);
    assert ToolCalls(a + b + c) == [1, 0];
  }

  lemma FirstReady()
    ensures var start := BlockStart(false);
            TrackNext(TrackNext(Track(None, [], false), start, 1), start, 2) == Track(None, [], false)
    ensures TrackNext(TrackNext(Track(None, [], false), BlockStop(Some(1)), 3), BlockStart(false), 4)
         == Track(None, [Ready(1, 4)], false)
  {}

  lemma SecondReady()
    ensures var t := TrackNext(Track(None, [Ready(1, 4)], false), BlockStop(Some(0)), 5);
            TrackNext(TrackNext(t, BlockStop(None), 6), MessageDelta(true), 7)
            == Track(None, [Ready(1, 4), Ready(0, 7)], false)
  {}

  lemma Tracked2(events: seq<Event>, first: Event, second: Event)
    ensures Tracked(events + [first, second])
         == TrackNext(TrackNext(Tracked(events), first, |events| + 1), second, |events| + 2)
    ensures ToolCalls(events + [first, second])
         == ToolCalls(events) + (if ClosesCall(first) then [first.tool.value] else [])
            + if ClosesCall(second) then [second.tool.value] else []
  {
    hide Tracked, ToolCalls, TrackNext;
    TrackedNext(events, first);
    TrackedNext(events + [first], second);
    assert events + [first] + [second] == events + [first, second];
  }

  lemma NothingTracked()
    ensures Tracked([]) == Track(None, [], false) && ToolCalls([]) == []
  {}

  predicate FallsBackBy(events: seq<Event>, n: nat) {
    exists k :: 0 <= k < n && k < |events| && events[k].BlockStart? && events[k].fallback
  }

  // The call's block closes at `stop`, and the event numbered `shown` is the first to show that the model has moved on
  // from it: a block starts, or the reply stops for tool use. No other call closes in between, and no fallback has
  // started by then.
  predicate MovedOnFrom(events: seq<Event>, c: Call, stop: nat, shown: nat) {
    && stop + 1 < shown <= |events| && events[stop] == BlockStop(Some(c))
    && (events[shown - 1].BlockStart? || events[shown - 1] == MessageDelta(true))
    && (forall j | stop < j < shown - 1 ::
          !events[j].BlockStart? && events[j] != MessageDelta(true) && (events[j].BlockStop? ==> events[j].tool.None?))
    && forall j | 0 <= j < shown && events[j].BlockStart? :: !events[j].fallback
  }

  lemma MovedOnFromGrows(events: seq<Event>, n: nat, c: Call, stop: nat, shown: nat)
    requires shown <= n <= |events|
    ensures MovedOnFrom(events[..n], c, stop, shown) <==> MovedOnFrom(events, c, stop, shown)
  {
    assert forall j | 0 <= j < n :: events[..n][j] == events[j];
  }

  /** A call is ready only when an event has shown the model moving on from it. */
  lemma {:induction false} ReadyMeansMovedOn(events: seq<Event>, k: nat)
    requires k < |Tracked(events).ready|
    ensures var r := Tracked(events).ready[k];
            1 <= r.event <= |events| && exists stop :: MovedOnFrom(events, r.call, stop, r.event)
    decreases |events|
  {
    hide MovedOnFrom;
    var n := |events| - 1;
    var before := Tracked(events[..n]);
    if k < |before.ready| {
      var r := before.ready[k];
      ReadyMeansMovedOn(events[..n], k);
      var stop: nat :| MovedOnFrom(events[..n], r.call, stop, r.event);
      MovedOnFromGrows(events, n, r.call, stop, r.event);
    } else {
      FallbackTracked(events[..n]);
      var stop := ClosedBy(events[..n]);
      MovesOnFrom(events, before.closed.value, stop);
    }
  }

  lemma MovesOnFrom(events: seq<Event>, c: Call, stop: nat)
    requires events != [] && stop < |events| - 1 && events[stop] == BlockStop(Some(c))
    requires MovesOn(events[|events| - 1]) && !(events[|events| - 1].BlockStart? && events[|events| - 1].fallback)
    requires forall j | stop < j < |events| - 1 :: !MovesOn(events[j]) && !ClosesCall(events[j])
    requires !FallsBackBy(events, |events| - 1)
    ensures MovedOnFrom(events, c, stop, |events|)
  {
  }

  lemma {:induction false} StillClosed(events: seq<Event>, c: Call, stop: nat)
    requires stop < |events| && events[stop] == BlockStop(Some(c)) && !FallsBackBy(events, |events|)
    requires forall j | stop < j < |events| :: !MovesOn(events[j]) && !ClosesCall(events[j])
    ensures Tracked(events).closed == Some(c) && !Tracked(events).fallback
    decreases |events|
  {
    var n := |events| - 1;
    FallbackTracked(events);
    FallbackTracked(events[..n]);
    assert forall j | 0 <= j < n :: events[..n][j] == events[j];
    if stop < n { StillClosed(events[..n], c, stop); }
  }

  lemma {:induction false} ReadyGrows(events: seq<Event>, n: nat)
    requires n <= |events|
    ensures Tracked(events[..n]).ready <= Tracked(events).ready
    decreases |events|
  {
    if n == |events| {
      assert events[..n] == events;
    } else {
      ReadyGrows(events[..|events| - 1], n);
      assert events[..|events| - 1][..n] == events[..n];
    }
  }

  lemma {:induction false} ReadyAscends(events: seq<Event>)
    ensures forall i, j | 0 <= i < j < |Tracked(events).ready| ::
              Tracked(events).ready[i].event < Tracked(events).ready[j].event
    ensures forall i | 0 <= i < |Tracked(events).ready| :: Tracked(events).ready[i].event <= |events|
    decreases |events|
  {
    if events != [] { ReadyAscends(events[..|events| - 1]); }
  }

  lemma BecomesReady(events: seq<Event>, c: Call, stop: nat, shown: nat)
    requires MovedOnFrom(events, c, stop, shown)
    ensures Ready(c, shown) in Tracked(events).ready
  {
    var before := events[..shown - 1];
    assert forall j | 0 <= j < shown - 1 :: before[j] == events[j];
    StillClosed(before, c, stop);
    ReadyGrows(events, shown);
    assert events[..shown][..shown - 1] == before;
    var ready := Tracked(events[..shown]).ready;
    assert ready[|ready| - 1] == Ready(c, shown);
  }

  /**
   A call is ready exactly when its block has closed and an event has shown the model moving on from it. A reply that
   is cut off, as by `max_tokens`, closes its last block too, and does not show that.
   */
  lemma ReadyExactly(events: seq<Event>, c: Call, shown: nat)
    ensures Ready(c, shown) in Tracked(events).ready <==> exists stop :: MovedOnFrom(events, c, stop, shown)
  {
    hide Tracked, MovedOnFrom;
    if stop: nat :| MovedOnFrom(events, c, stop, shown) { BecomesReady(events, c, stop, shown); }
    if Ready(c, shown) in Tracked(events).ready {
      var k :| 0 <= k < |Tracked(events).ready| && Tracked(events).ready[k] == Ready(c, shown);
      ReadyMeansMovedOn(events, k);
    }
  }

  lemma MovedOnBefore(events: seq<Event>, n: nat, k: nat)
    requires n <= |events| && k < |Tracked(events[..n]).ready|
    ensures var r := Tracked(events[..n]).ready[k];
            1 <= r.event <= |events| && exists stop :: MovedOnFrom(events, r.call, stop, r.event)
  {
    hide Tracked, MovedOnFrom;
    var r := Tracked(events[..n]).ready[k];
    ReadyMeansMovedOn(events[..n], k);
    var stop: nat :| MovedOnFrom(events[..n], r.call, stop, r.event);
    MovedOnFromGrows(events, n, r.call, stop, r.event);
  }

  lemma {:induction false} FallbackTracked(events: seq<Event>)
    ensures Tracked(events).fallback <==> FallsBackBy(events, |events|)
    ensures Tracked(events).fallback ==> Tracked(events).closed.None?
    decreases |events|
  {
    if events != [] {
      var n := |events| - 1;
      FallbackTracked(events[..n]);
      assert forall k | 0 <= k < n :: events[..n][k] == events[k];
    }
  }

  lemma {:induction false} ClosedBy(events: seq<Event>) returns (stop: nat)
    requires Tracked(events).closed.Some?
    ensures stop < |events| && events[stop] == BlockStop(Tracked(events).closed)
    ensures forall j | stop < j < |events| :: !MovesOn(events[j]) && !ClosesCall(events[j])
    decreases |events|
  {
    var n := |events| - 1;
    FallbackTracked(events[..n]);
    if events[n].BlockStop? && events[n].tool.Some? {
      stop := n;
    } else {
      stop := ClosedBy(events[..n]);
    }
  }

  // ----- the stream -----

  // A loop over the stream: the events that wait for it, whether it waits for one, whether it holds one, and how
  // many events it is done with, counting the ones emitted before it started.
  datatype Reader = Reader(queue: seq<nat>, reading: bool, holds: bool, handled: nat)

  // The loop is done with every event but the one it holds and the ones that wait for it, which are the latest.
  ghost predicate UpToDate(r: Reader, emitted: nat) {
    && r.handled + (if r.holds then 1 else 0) + |r.queue| == emitted
    && (forall k | 0 <= k < |r.queue| :: r.queue[k] == emitted - |r.queue| + 1 + k)
    && (r.reading ==> r.queue == [] && !r.holds)
  }

  function Delivered(r: Reader, number: nat): Reader {
    if r.reading then r.(reading := false, holds := true) else r.(queue := r.queue + [number])
  }

  // The event is out, and every loop is done with it.
  ghost predicate AllDone(readers: map<nat, Reader>, emitted: nat, event: nat) {
    event <= emitted && forall r | r in readers :: event <= readers[r].handled
  }

  // It only matters which events the loops are done with.
  lemma SameDone(a: map<nat, Reader>, b: map<nat, Reader>, emitted: nat, later: nat)
    requires a.Keys == b.Keys && emitted <= later
    requires forall r | r in a :: a[r].handled == b[r].handled
    ensures forall event: nat :: AllDone(a, emitted, event) ==> AllDone(b, later, event)
    ensures forall event: nat | event <= emitted || emitted == later ::
              AllDone(b, later, event) ==> AllDone(a, emitted, event)
  {}

  // A loop that starts is done with every event so far.
  lemma StartDone(readers: map<nat, Reader>, r: nat, reader: Reader, emitted: nat)
    requires r !in readers && reader.handled == emitted
    ensures forall event: nat :: AllDone(readers, emitted, event) == AllDone(readers[r := reader], emitted, event)
  {
    forall event: nat ensures AllDone(readers, emitted, event) == AllDone(readers[r := reader], emitted, event) {
      assert forall q | q in readers :: readers[r := reader][q] == readers[q];
      if AllDone(readers[r := reader], emitted, event) {
        assert forall q | q in readers :: q in readers[r := reader];
      }
    }
  }

  // A loop that is done with one more event has caught up with all that it had before.
  lemma Counted(readers: map<nat, Reader>, r: nat, emitted: nat)
    requires r in readers && readers[r].holds && UpToDate(readers[r], emitted)
    ensures var next := readers[r].(holds := false, handled := readers[r].handled + 1);
            UpToDate(next, emitted)
            && forall event: nat | AllDone(readers, emitted, event) :: AllDone(readers[r := next], emitted, event)
  {}

  lemma DeliveredUpToDate(r: Reader, emitted: nat)
    requires UpToDate(r, emitted)
    ensures UpToDate(Delivered(r, emitted + 1), emitted + 1) && Delivered(r, emitted + 1).handled == r.handled
  {}

  class ToolRunnerStream {
    var emitted: nat
    var readers: map<nat, Reader>      // the loops that are still reading
    var toolCalls: seq<Call>
    var closed: Option<Call>
    var ready: seq<Ready>
    var fallback: bool
    var failed: bool                   // the stream has failed or been aborted
    var ended: bool
    var handed: seq<Call>              // the calls handed over
    ghost var events: seq<Event>
    ghost var tracked: nat             // the events that the calls have been tracked through
    ghost var handedOver: seq<Ready>

    // No call waits that could be handed over.
    ghost predicate Prompt()
      reads this
    {
      failed || ready == [] || !CaughtUp(ready[0].event)
    }

    ghost predicate Valid()
      reads this
    {
      Sound() && Prompt()
    }

    ghost predicate Sound()
      reads this
    {
      CallsTracked() && LoopsCounted()
    }

    // The calls are what the events tracked so far say.
    ghost predicate CallsTracked()
      reads this`events, this`tracked, this`toolCalls, this`handed, this`handedOver, this`closed, this`ready,
            this`fallback
    {
      && tracked <= |events| <= tracked + 1
      && toolCalls == ToolCalls(events) && handed == CallsOf(handedOver)
      && Tracked(events[..tracked]) == Track.Track(closed, handedOver + ready, fallback)
      && (forall k | 0 <= k < |ready| :: ready[k].event <= tracked)
    }

    // Every loop's count is right, and every loop has caught up with the calls handed over.
    ghost predicate LoopsCounted()
      reads this`emitted, this`events, this`readers, this`handedOver
    {
      && emitted == |events|
      && (forall r | r in readers :: UpToDate(readers[r], emitted))
      && (forall k | 0 <= k < |handedOver| :: CaughtUp(handedOver[k].event))
    }

    // The event is out, and every loop that is still reading is done with it.
    ghost predicate CaughtUp(event: nat)
      reads this`emitted, this`readers
    {
      AllDone(readers, emitted, event)
    }

    constructor ()
      ensures Valid() && handed == [] && events == [] && !failed && !ended
    {
      emitted, readers, toolCalls, closed, ready, fallback := 0, map[], [], None, [], false;
      failed, ended, handed, events, tracked, handedOver := false, false, [], [], 0, [];
    }

    method LeastHandled() returns (least: nat)
      ensures CaughtUp(least)
      ensures forall event: nat :: event > least ==> !CaughtUp(event)
    {
      least := emitted;
      var rest := readers.Keys;
      while rest != {}
        invariant rest <= readers.Keys && least <= emitted
        invariant forall r | r in readers && r !in rest :: least <= readers[r].handled
        invariant least == emitted || exists r :: r in readers && readers[r].handled == least
        decreases rest
      {
        var r :| r in rest;
        rest := rest - {r};
        least := if readers[r].handled < least then readers[r].handled else least;
      }
    }

    // Hands over the calls that every reader is done with; a failed stream hands over nothing.
    method Release()
      requires Sound()
      modifies this`ready, this`handed, this`handedOver
      ensures Valid() && old(handed) <= handed
      ensures failed ==> handed == old(handed)
    {
      hide Tracked, ToolCalls, UpToDate;
      if failed { return; }
      var least := LeastHandled();
      while ready != [] && ready[0].event <= least
        invariant Sound() && old(handed) <= handed
        decreases |ready|
      {
        assert CallsOf(handedOver + [ready[0]]) == CallsOf(handedOver) + [ready[0].call];
        assert handedOver + ready == (handedOver + [ready[0]]) + ready[1..];
        handed := handed + [ready[0].call];
        handedOver := handedOver + [ready[0]];
        ready := ready[1..];
      }
    }

    // The first half of emitting a stream event: it is counted and goes to every loop.
    method Count(ev: Event)
      requires Valid() && tracked == emitted && !ended
      modifies this`emitted, this`toolCalls, this`readers, this`events
      ensures Valid() && events == old(events) + [ev] && emitted == old(emitted) + 1
    {
      hide Tracked, UpToDate, Delivered, AllDone;
      forall r | r in readers
        ensures UpToDate(Delivered(readers[r], emitted + 1), emitted + 1)
        ensures Delivered(readers[r], emitted + 1).handled == readers[r].handled
      {
        DeliveredUpToDate(readers[r], emitted);
      }
      emitted := emitted + 1;
      if ev.BlockStop? && ev.tool.Some? { toolCalls := toolCalls + [ev.tool.value]; }
      ghost var before := readers;
      readers := map r | r in readers :: Delivered(readers[r], emitted);
      SameDone(before, readers, old(emitted), emitted);
      events := events + [ev];
      assert events[..|events| - 1] == old(events);
      assert events[..tracked] == old(events)[..tracked];
    }

    // The second half, after the listeners: the calls are tracked, and handed over as far as the loops have caught up.
    method TrackEvent(ev: Event)
      requires Valid() && tracked < emitted && ev == events[tracked]
      modifies this`closed, this`ready, this`fallback, this`tracked, this`handed, this`handedOver
      ensures Valid() && tracked == emitted && old(handed) <= handed
      ensures failed ==> handed == old(handed)
    {
      hide UpToDate, ToolCalls, Tracked, LoopsCounted, CaughtUp;
      LoopsCountAll();
      TrackedThrough(events, tracked);
      tracked := tracked + 1;
      if !fallback {
        if ev.BlockStart? && ev.fallback {
          fallback, closed := true, None;
        } else {
          if closed.Some? && MovesOn(ev) {
            assert (handedOver + ready) + [Ready(closed.value, emitted)]
                == handedOver + (ready + [Ready(closed.value, emitted)]);
            ready := ready + [Ready(closed.value, emitted)];
            closed := None;
          }
          if ev.BlockStop? && ev.tool.Some? { closed := ev.tool; }
        }
      }
      Release();
    }

    lemma LoopsCountAll()
      requires LoopsCounted()
      ensures emitted == |events|
    {
    }

    // A loop starts; the events so far are not for it.
    method NewReader(r: nat)
      requires Valid() && r !in readers
      modifies this`readers
      ensures Valid() && readers == old(readers)[r := Reader([], false, false, emitted)]
    {
      hide CallsTracked, AllDone;
      StartDone(readers, r, Reader([], false, false, emitted), emitted);
      readers := readers[r := Reader([], false, false, emitted)];
    }

    method RemoveReader(r: nat)
      requires Valid()
      modifies this`readers, this`ready, this`handed, this`handedOver
      ensures Valid() && readers == old(readers) - {r} && old(handed) <= handed
      ensures failed ==> handed == old(handed)
    {
      hide CallsTracked, UpToDate;
      if r in readers {
        readers := readers - {r};
        Release();
      }
    }

    // A loop asks for the next event, which says that it is done with the one it holds.
    method Next(r: nat)
      requires Valid() && r in readers && !readers[r].reading
      modifies this`readers, this`ready, this`handed, this`handedOver
      ensures Valid() && old(handed) <= handed && (failed ==> handed == old(handed))
      ensures forall q | q in readers && q != r :: q in old(readers) && readers[q] == old(readers)[q]
      ensures r in readers ==> readers[r].handled == old(readers)[r].handled + if old(readers)[r].holds then 1 else 0
      ensures r in readers <==> old(readers)[r].queue != [] || !ended
    {
      hide CallsTracked, AllDone;
      if readers[r].holds {
        readers := readers[r := readers[r].(holds := false, handled := readers[r].handled + 1)];
        Counted(old(readers), r, emitted);
        Release();
      }
      Take(r);
    }

    // The loop gets the next event, or waits for it, or ends with the stream.
    method Take(r: nat)
      requires Valid() && r in readers && !readers[r].reading && !readers[r].holds
      modifies this`readers, this`ready, this`handed, this`handedOver
      ensures Valid() && old(handed) <= handed && (failed ==> handed == old(handed))
      ensures forall q | q in readers && q != r :: q in old(readers) && readers[q] == old(readers)[q]
      ensures r in readers ==> readers[r].handled == old(readers)[r].handled
      ensures r in readers <==> old(readers)[r].queue != [] || !ended
    {
      hide CallsTracked, AllDone;
      var reader := readers[r];
      if reader.queue != [] {
        SameDone(readers, readers[r := reader.(queue := reader.queue[1..], holds := true)], emitted, emitted);
        readers := readers[r := reader.(queue := reader.queue[1..], holds := true)];
      } else if ended {
        RemoveReader(r);
      } else {
        SameDone(readers, readers[r := reader.(reading := true)], emitted, emitted);
        readers := readers[r := reader.(reading := true)];
      }
    }

    // Leaving a loop aborts the stream before the loop stops counting.
    method Return(r: nat)
      requires Valid()
      modifies this`failed, this`readers, this`ready, this`handed, this`handedOver
      ensures Valid() && failed && handed == old(handed)
    {
      hide CallsTracked, UpToDate;
      failed := true;
      RemoveReader(r);
    }

    method Fail()
      requires Valid()
      modifies this`failed
      ensures Valid() && failed
    {
      hide CallsTracked, UpToDate;
      failed := true;
    }

    method End()
      requires Valid()
      modifies this`ended
      ensures Valid() && ended
    {
      hide CallsTracked, UpToDate;
      ended := true;
    }

    // A loop that was waiting when the stream ended learns of it.
    method Wake(r: nat)
      requires Valid() && ended && r in readers && readers[r].reading
      modifies this`readers, this`ready, this`handed, this`handedOver
      ensures Valid() && r !in readers && old(handed) <= handed && (failed ==> handed == old(handed))
    {
      hide CallsTracked, UpToDate;
      RemoveReader(r);
    }

    // The event that showed the model had moved on from the `k`th call handed over.
    ghost function ShownBy(k: nat): nat
      requires k < |handedOver|
      reads this
    {
      handedOver[k].event
    }

    /**
     At every moment the calls handed over are a part of those that have closed, in that order, and without gaps when
     blocks stream one after another. The block of each had closed, and a later event had shown that the model moved
     on from it, before any fallback.
     */
    lemma HandedInOrder()
      requires Valid()
      ensures Subsequence(handed, ToolCalls(events))
      ensures OneBlockAtATime(events) ==> handed <= ToolCalls(events)
      ensures forall k | 0 <= k < |handed| ::
                1 <= ShownBy(k) <= |events| && exists stop :: MovedOnFrom(events, handed[k], stop, ShownBy(k))
    {
      hide Tracked, ToolCalls, LoopsCounted, Prompt, Subsequence, OneBlockAtATime, MovedOnFrom;
      var before := events[..tracked];
      var all := handedOver + ready;
      assert CallsOf(all)[..|handed|] == handed;
      ReadyInOrder(before);
      SubsequencePrefix(CallsOf(all), ToolCalls(before), |handed|);
      ToolCallsGrow(events, tracked, handed);
      if OneBlockAtATime(events) {
        StreamsOneByOneBefore(events, tracked);
        NoneSkipped(before);
      }
      forall k | 0 <= k < |handed|
        ensures 1 <= ShownBy(k) <= |events| && exists stop :: MovedOnFrom(events, handed[k], stop, ShownBy(k))
      {
        assert all[k] == handedOver[k];
        MovedOnBefore(events, tracked, k);
      }
    }

    /** When the blocks of a reply stream one after another, the calls handed over are always the reply's first ones. */
    lemma HandedFirst(reply: seq<Event>)
      requires Valid() && events <= reply && OneBlockAtATime(reply) && LastBlockCloses(reply)
      ensures handed <= ToolCalls(reply)
      ensures forall p, q | 0 <= p < q < |ToolCalls(reply)| :: ToolCalls(reply)[p] < ToolCalls(reply)[q]
    {
      hide Valid, OneBlockAtATime, LastBlockCloses, ToolCalls;
      assert reply[..|events|] == events;
      StreamsOneByOneBefore(reply, |events|);
      HandedInOrder();
      ToolCallsGrow(reply, |events|, []);
      CallsClimb(reply);
    }

    /** Once every loop is done with the event that showed a call ready, the call has been handed over. */
    lemma HandedOnceDone(k: nat)
      requires Valid() && !failed && k < |Tracked(events[..tracked]).ready|
      requires forall r | r in readers :: Tracked(events[..tracked]).ready[k].event <= readers[r].handled
      ensures k < |handed| && handed[k] == Tracked(events[..tracked]).ready[k].call
    {
      hide Tracked, ToolCalls, UpToDate;
      var all := Tracked(events[..tracked]).ready;
      ReadyAscends(events[..tracked]);
      assert ready != [] ==> all[|handedOver|] == ready[0];
    }

    /** The event that showed it neither waits for, nor is held by, any loop that is still reading. */
    lemma HandedAfterReaders(k: nat, r: nat)
      requires Valid() && k < |handed| && r in readers
      ensures ShownBy(k) !in readers[r].queue
      ensures readers[r].holds ==> ShownBy(k) != emitted - |readers[r].queue|
    {
      hide Tracked, ToolCalls;
      assert CaughtUp(handedOver[k].event) && UpToDate(readers[r], emitted);
    }
  }
}
