/**
 What one hop contributes to the client's message: its part of the stream keeps the message well formed, and the
 blocks accumulated from it are the blocks that it streamed.
 */
module FallbackForm {
  import opened FallbackStream

  // ----- shifted copies of a hop -----

  // `v` is where the client's message stands when the hop, whose block 0 is the client's block `base`, stands at `h`.
  ghost predicate Shifts(h: State, v: State, base: nat) {
    && h.At? && v.At?
    && v.phase == (if h.phase == Fresh then Body else h.phase)
    && v.count == base + h.count
    && (forall i: nat :: i in h.open <==> base + i in v.open)
    && forall j | j in v.open :: j >= base
  }

  lemma OpenTogether(h: State, v: State, base: nat)
    requires Shifts(h, v, base)
    ensures h.open == {} <==> v.open == {}
  {
    if j :| j in v.open {
      var i: nat := j - base;
      assert base + i in v.open;
      assert i in h.open;
    }
    if i :| i in h.open { assert base + i in v.open; }
  }

  lemma OpenShifted(h: State, v: State, i: nat, base: nat)
    requires Shifts(h, v, base) && h.phase == Body
    ensures Shifts(At(Body, h.count + 1, h.open + {i}), At(Body, v.count + 1, v.open + {i + base}), base)
  {
    forall k: nat ensures k in h.open + {i} <==> base + k in v.open + {i + base} {
      assert k in h.open <==> base + k in v.open;
      assert base + k == i + base <==> k == i;
    }
  }

  lemma StartShifted(h: State, v: State, i: nat, b: Block, base: nat)
    requires Shifts(h, v, base) && Step(h, BlockStart(i, b)).At?
    ensures Shifts(Step(h, BlockStart(i, b)), Step(v, BlockStart(i + base, b)), base)
  {
    hide Shifts;
    OpenTogether(h, v, base);
    ShiftedCount(h, v, base);
    OpenShifted(h, v, i, base);
  }

  lemma ShiftedCount(h: State, v: State, base: nat)
    requires Shifts(h, v, base)
    ensures h.At? && v.At? && v.count == base + h.count && (h.phase == Body ==> v.phase == Body)
  {}

  lemma StopShifted(h: State, v: State, i: nat, base: nat)
    requires Shifts(h, v, base) && Step(h, BlockStop(i)).At?
    ensures Shifts(Step(h, BlockStop(i)), Step(v, BlockStop(i + base)), base)
  {
    assert i in h.open <==> base + i in v.open;
  }

  lemma DeltaShifted(h: State, v: State, i: nat, d: Delta, base: nat)
    requires Shifts(h, v, base) && Step(h, BlockDelta(i, d)).At?
    ensures Step(h, BlockDelta(i, d)) == h && Step(v, BlockDelta(i + base, d)) == v
  {
    assert i in h.open <==> base + i in v.open;
  }

  // Events that are not about blocks; the hop's `message_start` stays out of the client's message.
  lemma OtherShifted(h: State, v: State, ev: Event, base: nat)
    requires Shifts(h, v, base) && Step(h, ev).At? && !ev.BlockStart? && !ev.BlockStop? && !ev.BlockDelta?
    ensures Shifts(Step(h, ev), if ev.MessageStart? then v else Step(v, ev), base)
  {
    OpenTogether(h, v, base);
  }

  lemma DeltaStep(v: State, ev: Event, next: Event)
    requires ev.MessageDelta? && next.MessageDelta? && ev.stop == next.stop
    ensures Step(v, ev) == Step(v, next)
  {}

  lemma StepShifts(h: State, v: State, ev: Event, opening: Opening, base: nat, splice: Option<Splice>)
    requires Shifts(h, v, base) && splice.Some? && Step(h, ev).At?
    ensures Shifts(Step(h, ev), Run(v, Forward(ev, opening, base, splice)), base)
  {
    hide Run, Step, Shifts, Backfill, ToIterationUsage;
    var out := Forward(ev, opening, base, splice);
    RunNone(v);
    if out != [] { RunOne(v, out[0]); }
    match ev
    case BlockStart(i, b) => StartShifted(h, v, i, b, base);
    case BlockStop(i) => StopShifted(h, v, i, base);
    case BlockDelta(i, d) => DeltaShifted(h, v, i, d, base);
    case MessageDelta(_, _, _, _) => DeltaStep(v, ev, out[0]); OtherShifted(h, v, ev, base);
    case _ => OtherShifted(h, v, ev, base);
  }

  lemma RunNone(v: State)
    ensures Run(v, []) == v
  {}

  lemma RunOne(v: State, ev: Event)
    ensures Run(v, [ev]) == Step(v, ev)
  {
    hide Step;
    RunNext(v, [], ev);
    assert [] + [ev] == [ev];
  }

  lemma {:induction false} ForwardedShifts(events: seq<Event>, base: nat, splice: Option<Splice>)
    requires splice.Some? && Run(START, events).At?
    ensures Shifts(Run(START, events), Run(At(Body, base, {}), Forwarded(events, base, splice)), base)
    decreases |events|
  {
    hide Step, Forward, OpeningOf, Shifts;
    var v0 := At(Body, base, {});
    if events == [] {
      StartShifts(base);
    } else {
      var n := |events| - 1;
      var ev := events[n];
      var opening := OpeningOf(events[..n]);
      PrefixNotBroken(START, events, n);
      ForwardedShifts(events[..n], base, splice);
      RunConcat(v0, Forwarded(events[..n], base, splice), Forward(ev, opening, base, splice));
      StepShifts(Run(START, events[..n]), Run(v0, Forwarded(events[..n], base, splice)), ev, opening, base, splice);
    }
  }

  lemma StartShifts(base: nat)
    ensures Shifts(START, At(Body, base, {}), base)
  {}

  lemma {:induction false} ForwardedVerbatim(events: seq<Event>, base: nat)
    ensures Forwarded(events, base, None) == events
    decreases |events|
  {
    hide Forward, OpeningOf;
    if events != [] {
      var n := |events| - 1;
      ForwardedVerbatim(events[..n], base);
      ForwardsAll(events[n], OpeningOf(events[..n]), base);
      assert events[..n] + [events[n]] == events;
    }
  }

  lemma ForwardsAll(ev: Event, opening: Opening, base: nat)
    ensures Forward(ev, opening, base, None) == [ev]
  {}

  // ----- closing what a refusal cut off -----

  predicate NoDuplicates(s: seq<nat>) {
    forall i, j | 0 <= i < j < |s| :: s[i] != s[j]
  }

  // The tracker's open blocks are the open blocks of the hop, and its next index is the next free one.
  ghost predicate Tracks(h: State, t: Track, base: nat) {
    && h.At?
    && t.next == base + h.count
    && NoDuplicates(t.open)
    && (forall i: nat :: i in h.open <==> base + i in t.open)
    && (forall j | j in t.open :: base <= j < base + h.count)
  }

  lemma {:induction false} RemovedKeeps(s: seq<nat>, x: nat)
    requires NoDuplicates(s)
    ensures NoDuplicates(Removed(s, x)) && forall y :: y in Removed(s, x) <==> y in s && y != x
  {
    if s != [] {
      if s[0] == x {
        assert s == [x] + s[1..];
      } else {
        var rest := Removed(s[1..], x);
        RemovedKeeps(s[1..], x);
        assert s == [s[0]] + s[1..];
        assert s[0] !in s[1..];
        assert s[0] !in rest;
        assert Removed(s, x) == [s[0]] + rest;
      }
    }
  }

  lemma StepTracks(h: State, t: Track, ev: Event, base: nat)
    requires Tracks(h, t, base) && Step(h, ev).At?
    ensures Tracks(Step(h, ev), TrackNext(t, ev, base), base)
  {
    hide Removed;
    if ev.BlockStop? {
      assert base + ev.index in t.open;
      RemovedKeeps(t.open, ev.index + base);
    }
  }

  lemma {:induction false} TrackedTracks(events: seq<Event>, base: nat)
    requires Run(START, events).At?
    ensures Tracks(Run(START, events), Tracked(events, base), base)
    decreases |events|
  {
    if events == [] {
      NothingTracked(base);
    } else {
      hide Step, TrackNext, Tracks;
      var n := |events| - 1;
      PrefixNotBroken(START, events, n);
      TrackedTracks(events[..n], base);
      StepTracks(Run(START, events[..n]), Tracked(events[..n], base), events[n], base);
    }
  }

  lemma NothingTracked(base: nat)
    ensures Tracks(START, Track([], base, []), base)
  {}

  lemma {:induction false} ClosersClose(v: State, open: seq<nat>)
    requires v.At? && v.phase == Body && NoDuplicates(open) && forall j | j in open :: j in v.open
    ensures Run(v, Closers(open)) == v.(open := v.open - set j | j in open)
    decreases |open|
  {
    hide Run;
    RunNone(v);
    if open != [] {
      var n := |open| - 1;
      assert forall j | j in open[..n] :: j in open;
      ClosersClose(v, open[..n]);
      assert Closers(open) == Closers(open[..n]) + [BlockStop(open[n])];
      RunNext(v, Closers(open[..n]), BlockStop(open[n]));
      assert open == open[..n] + [open[n]];
      assert open[n] !in open[..n];
    } else {
      assert Closers(open) == [];
    }
  }

  // ----- one hop's part of the client's message -----

  // Where the client's message stands before a hop.
  function Before(base: nat, spliced: bool): State { if spliced then At(Body, base, {}) else START }

  /**
   A well-formed hop leaves the client's message either complete, or, when it ends in a refusal to retry, with
   every block closed and the next index free.
   */
  lemma HopForm(events: seq<Event>, base: nat, hasNext: bool, splice: Option<Splice>)
    requires WellFormed(events) && (splice.None? ==> base == 0)
    ensures var end := Run(Before(base, splice.Some?), Shown(events, base, hasNext, splice));
            var outcome := OutcomeOf(events, base, hasNext, splice.Some?);
            if outcome.refused.Some? then end == At(Body, outcome.nextIndex, {}) else end.At? && end.phase == Done
  {
    hide Step, Forward, OpeningOf, TrackNext, Closers, Cut, Run, BlocksOf, RefusalAt, Tracked, Forwarded, Shifts,
      Tracks;
    var n := ReadOf(events, hasNext);
    var v0 := Before(base, splice.Some?);
    var h := Run(START, events[..n]);
    var forwarded := Forwarded(events[..n], base, splice);
    PrefixNotBroken(START, events, n);
    var v := Run(v0, forwarded);
    if splice.Some? {
      ForwardedShifts(events[..n], base, splice);
    } else {
      ForwardedVerbatim(events[..n], base);
    }
    if n < |events| {
      var open := Tracked(events[..n], base).open;
      TrackedTracks(events[..n], base);
      RefusedInBody(events, n);
      OpenAreTracked(h, v, Tracked(events[..n], base), base, splice);
      ClosersClose(v, open);
      assert v.open - (set j | j in open) == {};
      RunConcat(v0, forwarded, Closers(open));
    } else {
      assert events[..n] == events;
      assert Shown(events, base, hasNext, splice) == forwarded;
      EndsTogether(h, v, base, splice);
    }
  }

  lemma RefusedInBody(events: seq<Event>, n: nat)
    requires n < |events| && Chainable(events[n]) && Run(START, events).At?
    ensures Run(START, events[..n]).At? && Run(START, events[..n]).phase == Body
  {
    hide Run;
    PrefixNotBroken(START, events, n);
    PrefixNotBroken(START, events, n + 1);
    assert events[..n + 1] == events[..n] + [events[n]];
    RunNext(START, events[..n], events[n]);
  }

  lemma OpenAreTracked(h: State, v: State, t: Track, base: nat, splice: Option<Splice>)
    requires Tracks(h, t, base) && h.phase == Body
    requires if splice.Some? then Shifts(h, v, base) else v == h && base == 0
    ensures v.At? && v.phase == Body && v.count == t.next && NoDuplicates(t.open)
    ensures forall j :: j in t.open <==> j in v.open
  {
    forall j ensures j in t.open <==> j in v.open {
      if j >= base {
        var i: nat := j - base;
        assert i in h.open <==> base + i in t.open;
        assert splice.Some? ==> (i in h.open <==> base + i in v.open);
      }
    }
  }

  lemma EndsTogether(h: State, v: State, base: nat, splice: Option<Splice>)
    requires h.At? && h.phase == Done && if splice.Some? then Shifts(h, v, base) else v == h
    ensures v.At? && v.phase == Done
  {}

  // ----- the accumulated blocks -----

  // What the stream makes of its block `i`, read on its own.
  function Streamed(events: seq<Event>, i: nat): Option<Block> {
    if events == [] then None
    else
      var b := Streamed(events[..|events| - 1], i);
      match events[|events| - 1]
      case BlockStart(j, block) => if j == i && b.None? then Some(block) else b
      case BlockDelta(j, delta) => if j == i && b.Some? then Some(WithDelta(b.value, delta)) else b
      case _ => b
  }

  ghost predicate Holds(blocks: seq<Accumulated>, events: seq<Event>, count: nat) {
    && |blocks| == count
    && (forall i | 0 <= i < count :: blocks[i].index == i && Streamed(events, i) == Some(blocks[i].block))
    && forall i: nat | i >= count :: Streamed(events, i) == None
  }

  lemma PlaceIsIndex(blocks: seq<Accumulated>, i: nat)
    requires forall k | 0 <= k < |blocks| :: blocks[k].index == k
    ensures PlaceOf(blocks, i) == if i < |blocks| then i else |blocks|
  {
    hide PlaceOf;
    var k := PlaceOf(blocks, i);
    if i < |blocks| { assert blocks[i].index == i; }
  }

  lemma StreamedNext(events: seq<Event>, i: nat)
    requires events != []
    ensures Streamed(events, i) ==
            (var b := Streamed(events[..|events| - 1], i);
             match events[|events| - 1]
             case BlockStart(j, block) => if j == i && b.None? then Some(block) else b
             case BlockDelta(j, delta) => if j == i && b.Some? then Some(WithDelta(b.value, delta)) else b
             case _ => b)
  {}

  /** In a well-formed stream, the tracker's list is the blocks in order, each as its own events spell it. */
  lemma {:induction false} BlocksAreStreamed(events: seq<Event>, base: nat)
    requires Run(START, events).At?
    ensures Holds(Tracked(events, base).blocks, events, Run(START, events).count)
    decreases |events|
  {
    hide WithDelta, Streamed, PlaceOf;
    if events == [] {
      NothingStreamed();
    } else {
      var n := |events| - 1;
      PrefixNotBroken(START, events, n);
      BlocksAreStreamed(events[..n], base);
      var blocks := Tracked(events[..n], base).blocks;
      if events[n].BlockDelta? { PlaceIsIndex(blocks, events[n].index); }
      TrackedTracks(events[..n], base);
      forall i: nat { StreamedNext(events, i); }
    }
  }

  lemma NothingStreamed()
    ensures forall i: nat :: Streamed([], i) == None
  {}

  // The deltas for block `i`, in order.
  function DeltasFor(events: seq<Event>, i: nat): seq<Delta> {
    if events == [] then []
    else
      var ev := events[|events| - 1];
      DeltasFor(events[..|events| - 1], i) + if ev.BlockDelta? && ev.index == i then [ev.delta] else []
  }

  // What deltas spell, one kind at a time.
  function TextOf(ds: seq<Delta>): string {
    if ds == [] then ""
    else
      var d := ds[|ds| - 1];
      TextOf(ds[..|ds| - 1]) + if d.TextDelta? then d.text else ""
  }

  function JsonOf(ds: seq<Delta>): string {
    if ds == [] then ""
    else
      var d := ds[|ds| - 1];
      JsonOf(ds[..|ds| - 1]) + if d.InputJsonDelta? then d.json else ""
  }

  function ThinkingOf(ds: seq<Delta>): string {
    if ds == [] then ""
    else
      var d := ds[|ds| - 1];
      ThinkingOf(ds[..|ds| - 1]) + if d.ThinkingDelta? then d.thinking else ""
  }

  function CitationsOf(ds: seq<Delta>): seq<nat> {
    if ds == [] then []
    else
      var d := ds[|ds| - 1];
      CitationsOf(ds[..|ds| - 1]) + if d.CitationsDelta? then [d.citation] else []
  }

  // Of these the last delta counts, if there is one.
  function SignatureOf(ds: seq<Delta>, start: Option<string>): Option<string> {
    if ds == [] then start
    else
      var d := ds[|ds| - 1];
      if d.SignatureDelta? then Some(d.signature) else SignatureOf(ds[..|ds| - 1], start)
  }

  function ContentOf(ds: seq<Delta>, start: nat): nat {
    if ds == [] then start
    else
      var d := ds[|ds| - 1];
      if d.CompactionDelta? then d.content else ContentOf(ds[..|ds| - 1], start)
  }

  function EncryptedOf(ds: seq<Delta>, start: Option<nat>): Option<nat> {
    if ds == [] then start
    else
      var d := ds[|ds| - 1];
      if d.CompactionDelta? && d.encrypted.Some? then d.encrypted else EncryptedOf(ds[..|ds| - 1], start)
  }

  function Written(s: Option<string>): string { if s.Some? then s.value else "" }

  // The block is what it started with, followed or replaced by its deltas; a field without a delta stays as it was.
  ghost predicate Accumulates(b: Block, start: Block, ds: seq<Delta>)
    requires start.Content?
  {
    && b.Content? && b.shell == start.shell && b.input == start.input
    && Written(b.text) == Written(start.text) + TextOf(ds)
    && Written(b.partialJson) == Written(start.partialJson) + JsonOf(ds)
    && Written(b.thinking) == Written(start.thinking) + ThinkingOf(ds)
    && (b.partialJson.Some? <==> start.partialJson.Some? || exists d :: d in ds && d.InputJsonDelta?)
    && b.citations == start.citations + CitationsOf(ds)
    && b.signature == SignatureOf(ds, start.signature)
    && b.content == ContentOf(ds, start.content) && b.encrypted == EncryptedOf(ds, start.encrypted)
  }

  lemma StartAccumulates(start: Block)
    requires start.Content?
    ensures Accumulates(start, start, [])
  {
    assert Written(start.text) + "" == Written(start.text);
    assert Written(start.partialJson) + "" == Written(start.partialJson);
    assert Written(start.thinking) + "" == Written(start.thinking);
    assert start.citations + [] == start.citations;
  }

  lemma DeltaAccumulates(b: Block, start: Block, ds: seq<Delta>, d: Delta)
    requires start.Content? && Accumulates(b, start, ds)
    ensures Accumulates(WithDelta(b, d), start, ds + [d])
  {
    hide Written, TextOf, JsonOf, ThinkingOf, CitationsOf, SignatureOf, ContentOf, EncryptedOf, WithDelta;
    DeltaWrites(b, d);
    DeltaSpells(ds, d);
    OneKind(start, b, ds, d);
    Follow(Written(start.text), TextOf(ds), if d.TextDelta? then d.text else "");
    Follow(Written(start.partialJson), JsonOf(ds), if d.InputJsonDelta? then d.json else "");
    Follow(Written(start.thinking), ThinkingOf(ds), if d.ThinkingDelta? then d.thinking else "");
    Follow(start.citations, CitationsOf(ds), if d.CitationsDelta? then [d.citation] else []);
    assert forall x :: x in ds + [d] <==> x in ds || x == d;
  }

  lemma Follow<T>(a: seq<T>, b: seq<T>, c: seq<T>)
    ensures (a + b) + c == a + (b + c)
  {}

  lemma OneKind(start: Block, b: Block, ds: seq<Delta>, d: Delta)
    requires start.Content? && Accumulates(b, start, ds)
    ensures SignatureOf(ds + [d], start.signature) == if d.SignatureDelta? then Some(d.signature) else b.signature
    ensures ContentOf(ds + [d], start.content) == if d.CompactionDelta? then d.content else b.content
    ensures EncryptedOf(ds + [d], start.encrypted)
         == if d.CompactionDelta? && d.encrypted.Some? then d.encrypted else b.encrypted
  {
    assert (ds + [d])[..|ds|] == ds;
  }

  lemma DeltaSpells(ds: seq<Delta>, d: Delta)
    ensures TextOf(ds + [d]) == TextOf(ds) + if d.TextDelta? then d.text else ""
    ensures JsonOf(ds + [d]) == JsonOf(ds) + if d.InputJsonDelta? then d.json else ""
    ensures ThinkingOf(ds + [d]) == ThinkingOf(ds) + if d.ThinkingDelta? then d.thinking else ""
    ensures CitationsOf(ds + [d]) == CitationsOf(ds) + if d.CitationsDelta? then [d.citation] else []
  {
    assert (ds + [d])[..|ds|] == ds;
  }

  lemma DeltaWrites(b: Block, d: Delta)
    requires b.Content?
    ensures WithDelta(b, d).Content?
    ensures Written(WithDelta(b, d).text) == Written(b.text) + if d.TextDelta? then d.text else ""
    ensures Written(WithDelta(b, d).partialJson) == Written(b.partialJson) + if d.InputJsonDelta? then d.json else ""
    ensures Written(WithDelta(b, d).thinking) == Written(b.thinking) + if d.ThinkingDelta? then d.thinking else ""
    ensures WithDelta(b, d).partialJson.Some? <==> b.partialJson.Some? || d.InputJsonDelta?
    ensures WithDelta(b, d).citations == b.citations + if d.CitationsDelta? then [d.citation] else []
    ensures WithDelta(b, d).shell == b.shell && WithDelta(b, d).input == b.input
    ensures WithDelta(b, d).signature == if d.SignatureDelta? then Some(d.signature) else b.signature
    ensures WithDelta(b, d).content == if d.CompactionDelta? then d.content else b.content
    ensures WithDelta(b, d).encrypted == if d.CompactionDelta? && d.encrypted.Some? then d.encrypted else b.encrypted
  {}

  /** A block is what it started with and its own deltas in order, whatever other blocks' events come between. */
  lemma {:induction false} BlockIsItsDeltas(events: seq<Event>, i: nat, start: Block)
    requires Run(START, events).At? && BlockStart(i, start) in events && start.Content?
    ensures Streamed(events, i).Some? && Accumulates(Streamed(events, i).value, start, DeltasFor(events, i))
    decreases |events|
  {
    hide Run, Step, WithDelta, Streamed, Accumulates;
    var n := |events| - 1;
    PrefixNotBroken(START, events, n);
    StreamedNext(events, i);
    if BlockStart(i, start) in events[..n] {
      BlockIsItsDeltas(events[..n], i, start);
      assert DeltasFor(events[..n], i) + [] == DeltasFor(events[..n], i);
      if events[n].BlockDelta? && events[n].index == i {
        DeltaAccumulates(Streamed(events[..n], i).value, start, DeltasFor(events[..n], i), events[n].delta);
      }
    } else {
      assert events[n] == BlockStart(i, start);
      StartsAtCount(events, i, start);
      NoDeltasBefore(events[..n], i);
      StartAccumulates(start);
    }
  }

  lemma StartsAtCount(events: seq<Event>, i: nat, start: Block)
    requires events != [] && events[|events| - 1] == BlockStart(i, start) && Run(START, events).At?
    ensures var before := events[..|events| - 1];
            Run(START, before).At? && i == Run(START, before).count && Streamed(before, i) == None
  {
    hide Streamed, Tracked;
    var n := |events| - 1;
    PrefixNotBroken(START, events, n);
    BlocksAreStreamed(events[..n], 0);
  }

  lemma {:induction false} NoDeltasBefore(events: seq<Event>, i: nat)
    requires Run(START, events).At? && i >= Run(START, events).count
    ensures DeltasFor(events, i) == []
    decreases |events|
  {
    if events != [] {
      var n := |events| - 1;
      PrefixNotBroken(START, events, n);
      TrackedTracks(events[..n], 0);
      NoDeltasBefore(events[..n], i);
    }
  }
}
