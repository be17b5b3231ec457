/**
 One hop of the refusal-fallback splicer: a stream of message events, what the client sees of it, the blocks
 accumulated from it, and what makes such a stream well formed.

 Models, JSON values and other opaque payloads are numbers or strings. Parsing a tool's accumulated JSON is a
 function parameter.
 */
module FallbackStream {
  datatype Option<T> = None | Some(value: T)

  // ----- events -----

  type Token = nat

  datatype Block =
    | Fallback(fromModel: string, toModel: string, category: nat)
    | Content(
        shell: nat, text: Option<string>, partialJson: Option<string>, input: nat, citations: seq<nat>,
        thinking: Option<string>, signature: Option<string>, content: nat, encrypted: Option<nat>)

  datatype Delta =
    | TextDelta(text: string)
    | InputJsonDelta(json: string)
    | CitationsDelta(citation: nat)
    | ThinkingDelta(thinking: string)
    | SignatureDelta(signature: string)
    | CompactionDelta(content: nat, encrypted: Option<nat>)
    | UnknownDelta

  datatype Usage = Usage(
    inputTokens: Option<nat>, outputTokens: Option<nat>, cacheRead: Option<nat>, cacheCreation: Option<nat>,
    cacheDetail: Option<nat>, iterations: seq<Iteration>)

  datatype Iteration = Iteration(
    fallback: bool, model: string, inputTokens: nat, outputTokens: nat, cacheRead: nat, cacheCreation: nat,
    cacheDetail: Option<nat>)

  const NO_USAGE := Usage(None, None, None, None, None, [])

  // A refusal's `stop_details`; the token is None when it is missing, null or empty.
  datatype Details = Details(token: Option<Token>, claim: bool, category: nat, recommended: Option<string>)

  // Whether a `message_delta` stops the message; one that does not only reports usage so far.
  datatype StopReason = Unstopped | ByRefusal | Stopped

  datatype Event =
    | MessageStart(model: string, startUsage: Usage, startTransformations: Option<nat>)
    | BlockStart(index: nat, block: Block)
    | BlockDelta(index: nat, delta: Delta)
    | BlockStop(index: nat)
    | MessageDelta(stop: StopReason, details: Option<Details>, usage: Usage, transformations: Option<nat>)
    | MessageStop
    | Other(payload: nat)

  // ----- well-formed streams -----

  datatype Phase = Fresh | Body | Ended | Done

  // Where a well-formed stream stands: how many blocks have started, and which of them are open.
  datatype State = Broken | At(phase: Phase, count: nat, open: set<nat>)

  /**
   One `message_start`, then blocks with indices 0, 1, 2, ... in the order they start, deltas and stops only for
   open blocks, no open block when a `fallback` block starts, any number of `message_delta`s of which the first that
   stops the message ends the blocks and only a refusal may do so over open ones, and one final `message_stop`.
   */
  function Step(s: State, ev: Event): State {
    if s.Broken? then Broken
    else
      match ev
      case MessageStart(_, _, _) => if s.phase == Fresh then s.(phase := Body) else Broken
      case BlockStart(i, b) =>
        if s.phase == Body && i == s.count && (b.Fallback? ==> s.open == {})
        then At(Body, s.count + 1, s.open + {i}) else Broken
      case BlockDelta(i, _) => if s.phase == Body && i in s.open then s else Broken
      case BlockStop(i) => if s.phase == Body && i in s.open then s.(open := s.open - {i}) else Broken
      case MessageDelta(stop, _, _, _) =>
        if s.phase == Body && stop == Unstopped then s
        else if s.phase == Body && (stop == ByRefusal || s.open == {}) then s.(phase := Ended)
        else if s.phase == Ended && stop != ByRefusal then s
        else Broken
      case MessageStop => if s.phase == Ended then s.(phase := Done) else Broken
      case Other(_) => if s.phase != Done then s else Broken
  }

  function Run(s: State, events: seq<Event>): State {
    if events == [] then s else Step(Run(s, events[..|events| - 1]), events[|events| - 1])
  }

  const START := At(Fresh, 0, {})

  predicate WellFormed(events: seq<Event>) {
    var end := Run(START, events);
    end.At? && end.phase == Done
  }

  lemma RunNext(s: State, events: seq<Event>, ev: Event)
    ensures Run(s, events + [ev]) == Step(Run(s, events), ev)
  {
    hide Step;
    assert (events + [ev])[..|events|] == events;
  }

  lemma {:induction false} RunConcat(s: State, a: seq<Event>, b: seq<Event>)
    ensures Run(s, a + b) == Run(Run(s, a), b)
    decreases |b|
  {
    hide Step;
    if b == [] {
      assert a + b == a;
    } else {
      var n := |b| - 1;
      RunConcat(s, a, b[..n]);
      assert a + b == (a + b[..n]) + [b[n]];
      RunNext(s, a + b[..n], b[n]);
    }
  }

  lemma {:induction false} PrefixNotBroken(s: State, events: seq<Event>, n: nat)
    requires n <= |events| && Run(s, events).At?
    ensures Run(s, events[..n]).At?
    decreases |events|
  {
    var m := |events| - 1;
    if n <= m {
      PrefixNotBroken(s, events[..m], n);
      assert events[..m][..n] == events[..n];
    } else {
      assert events[..n] == events;
    }
  }

  // ----- accumulating blocks -----

  function Append(s: Option<string>, t: string): Option<string> {
    Some(if s.Some? then s.value + t else t)
  }

  function WithDelta(b: Block, d: Delta): Block {
    if b.Fallback? then b
    else
      match d
      case TextDelta(t) => b.(text := Append(b.text, t))
      case InputJsonDelta(j) => b.(partialJson := Append(b.partialJson, j))
      case CitationsDelta(c) => b.(citations := b.citations + [c])
      case ThinkingDelta(t) => b.(thinking := Append(b.thinking, t))
      case SignatureDelta(s) => b.(signature := Some(s))
      case CompactionDelta(c, e) => b.(content := c, encrypted := if e.Some? then e else b.encrypted)
      case UnknownDelta => b
  }

  datatype Accumulated = Accumulated(index: nat, block: Block)

  // The first block with the index, or the end.
  function PlaceOf(blocks: seq<Accumulated>, index: nat): (k: nat)
    ensures k <= |blocks| && (k < |blocks| ==> blocks[k].index == index)
    ensures forall j | 0 <= j < k :: blocks[j].index != index
  {
    if blocks == [] then 0 else if blocks[0].index == index then 0 else 1 + PlaceOf(blocks[1..], index)
  }

  // What the tracker knows: the blocks by wire index, the next free shifted index, the open shifted indices.
  datatype Track = Track(blocks: seq<Accumulated>, next: nat, open: seq<nat>)

  function Max(a: nat, b: nat): nat { if a < b then b else a }

  function Removed(s: seq<nat>, x: nat): (r: seq<nat>)
    ensures x !in s ==> r == s
  {
    if s == [] then [] else if s[0] == x then s[1..] else [s[0]] + Removed(s[1..], x)
  }

  lemma {:induction false} RemovedAt(s: seq<nat>, x: nat, i: nat)
    requires i <= |s| && (i < |s| ==> s[i] == x) && forall j | 0 <= j < i :: s[j] != x
    ensures Removed(s, x) == s[..i] + if i < |s| then s[i + 1..] else []
  {
    if i > 0 { RemovedAt(s[1..], x, i - 1); }
  }

  function TrackNext(t: Track, ev: Event, indexBase: nat): Track {
    match ev
    case BlockStart(i, b) =>
      Track(t.blocks + [Accumulated(i, b)], Max(t.next, i + indexBase + 1), t.open + [i + indexBase])
    case BlockDelta(i, d) =>
      var k := PlaceOf(t.blocks, i);
      if k < |t.blocks| then t.(blocks := t.blocks[k := Accumulated(i, WithDelta(t.blocks[k].block, d))]) else t
    case BlockStop(i) => t.(next := Max(t.next, i + indexBase + 1), open := Removed(t.open, i + indexBase))
    case _ => t
  }

  function Tracked(events: seq<Event>, indexBase: nat): Track {
    if events == [] then Track([], indexBase, [])
    else TrackNext(Tracked(events[..|events| - 1], indexBase), events[|events| - 1], indexBase)
  }

  function BlocksOf(t: Track): (r: seq<Block>)
    ensures |r| == |t.blocks| && forall k | 0 <= k < |r| :: r[k] == t.blocks[k].block
  {
    seq(|t.blocks|, k requires 0 <= k < |t.blocks| => t.blocks[k].block)
  }

  class BlockTracker {
    const indexBase: nat
    var blocks: seq<Accumulated>
    var nextIndex: nat
    var open: seq<nat>

    function State(): Track
      reads this
    {
      Track(blocks, nextIndex, open)
    }

    constructor (indexBase: nat)
      ensures this.indexBase == indexBase && State() == Track([], indexBase, [])
    {
      this.indexBase := indexBase;
      blocks, nextIndex, open := [], indexBase, [];
    }

    method Start(index: nat, block: Block) returns (shifted: nat)
      modifies this
      ensures shifted == index + indexBase
      ensures State() == TrackNext(old(State()), BlockStart(index, block), indexBase)
    {
      blocks := blocks + [Accumulated(index, block)];
      shifted := index + indexBase;
      open := open + [shifted];
      nextIndex := Max(nextIndex, shifted + 1);
    }

    method ApplyDelta(index: nat, delta: Delta)
      modifies this`blocks
      ensures State() == TrackNext(old(State()), BlockDelta(index, delta), indexBase)
    {
      var k := 0;
      while k < |blocks| && blocks[k].index != index
        invariant k <= |blocks| && forall j | 0 <= j < k :: blocks[j].index != index
      {
        k := k + 1;
      }
      if k == |blocks| { return; }
      blocks := blocks[k := Accumulated(index, WithDelta(blocks[k].block, delta))];
    }

    method Delta(index: nat, delta: Delta) returns (shifted: nat)
      modifies this`blocks
      ensures shifted == index + indexBase
      ensures State() == TrackNext(old(State()), BlockDelta(index, delta), indexBase)
    {
      ApplyDelta(index, delta);
      shifted := index + indexBase;
    }

    method Stop(index: nat) returns (shifted: nat)
      modifies this`open, this`nextIndex
      ensures shifted == index + indexBase
      ensures State() == TrackNext(old(State()), BlockStop(index), indexBase)
    {
      shifted := index + indexBase;
      var i := 0;
      while i < |open| && open[i] != shifted
        invariant i <= |open| && forall j | 0 <= j < i :: open[j] != shifted
      {
        i := i + 1;
      }
      RemovedAt(open, shifted, i);
      if i < |open| { open := open[..i] + open[i + 1..]; }
      nextIndex := Max(nextIndex, shifted + 1);
    }

    method CloseOpenBlocks() returns (closers: seq<Event>)
      modifies this`open
      ensures closers == Closers(old(open)) && open == []
    {
      closers := [];
      for i := 0 to |open|
        invariant closers == Closers(open[..i])
      {
        closers := closers + [BlockStop(open[i])];
      }
      open := [];
    }
  }

  function Closers(open: seq<nat>): (r: seq<Event>)
    ensures |r| == |open| && forall i | 0 <= i < |r| :: r[i] == BlockStop(open[i])
  {
    seq(|open|, i requires 0 <= i < |open| => BlockStop(open[i]))
  }

  // ----- usage -----

  function OrElse<T>(a: Option<T>, b: Option<T>): Option<T> { if a.Some? then a else b }

  // Fills the missing fields of `u` from the usage that `message_start` reported.
  function Backfill(u: Usage, start: Usage): Usage {
    u.(inputTokens := OrElse(u.inputTokens, start.inputTokens),
       outputTokens := OrElse(u.outputTokens, start.outputTokens),
       cacheRead := OrElse(u.cacheRead, start.cacheRead), cacheCreation := OrElse(u.cacheCreation, start.cacheCreation),
       cacheDetail := OrElse(u.cacheDetail, start.cacheDetail))
  }

  function OrZero(n: Option<nat>): nat { if n.Some? then n.value else 0 }

  function ToIterationUsage(fallback: bool, model: string, u: Usage): Iteration {
    Iteration(fallback, model, OrZero(u.inputTokens), OrZero(u.outputTokens), OrZero(u.cacheRead),
              OrZero(u.cacheCreation), u.cacheDetail)
  }

  // ----- one hop -----

  datatype Splice = Splice(iterations: seq<Iteration>, model: string)

  // What the latest `message_start` said.
  datatype Opening = Opening(model: Option<string>, usage: Usage, transformations: Option<nat>)

  function OpeningOf(events: seq<Event>): Opening {
    if events == [] then Opening(None, NO_USAGE, None)
    else
      var before := OpeningOf(events[..|events| - 1]);
      var ev := events[|events| - 1];
      if ev.MessageStart? then
        Opening(Some(ev.model), ev.startUsage, OrElse(ev.startTransformations, before.transformations))
      else before
  }

  // A refusal that can be retried.
  predicate Chainable(ev: Event) {
    ev.MessageDelta? && ev.stop == ByRefusal && ev.details.Some? && ev.details.value.token.Some?
  }

  // Where the first retryable refusal stands, or the end.
  function Cut(events: seq<Event>): (n: nat)
    ensures n <= |events| && (n < |events| ==> Chainable(events[n]))
    ensures forall i | 0 <= i < n :: !Chainable(events[i])
  {
    if events == [] then 0 else if Chainable(events[0]) then 0 else 1 + Cut(events[1..])
  }

  // What the client sees of one event of a hop, `opening` being what the hop's `message_start` said.
  function Forward(ev: Event, opening: Opening, indexBase: nat, splice: Option<Splice>): seq<Event> {
    if splice.None? then [ev]
    else
      match ev
      case MessageStart(_, _, _) => []
      case BlockStart(i, b) => [BlockStart(i + indexBase, b)]
      case BlockDelta(i, d) => [BlockDelta(i + indexBase, d)]
      case BlockStop(i) => [BlockStop(i + indexBase)]
      case MessageDelta(stop, details, usage, transformations) =>
        var filled := Backfill(usage, opening.usage);
        var own := ToIterationUsage(true, splice.value.model, filled);
        [MessageDelta(stop, details, filled.(iterations := splice.value.iterations + [own]),
                      OrElse(transformations, opening.transformations))]
      case _ => [ev]
  }

  function Forwarded(events: seq<Event>, indexBase: nat, splice: Option<Splice>): seq<Event> {
    if events == [] then []
    else
      var before := events[..|events| - 1];
      Forwarded(before, indexBase, splice) + Forward(events[|events| - 1], OpeningOf(before), indexBase, splice)
  }

  datatype Refusal = Refusal(token: Token, claim: bool, usage: Usage, details: Details, transformations: Option<nat>)

  datatype Outcome = Outcome(refused: Option<Refusal>, model: Option<string>, blocks: seq<Block>, nextIndex: nat)

  function RefusalAt(ev: Event, opening: Opening, spliced: bool): Refusal
    requires Chainable(ev)
  {
    var details := ev.details.value;
    Refusal(details.token.value, details.claim, Backfill(ev.usage, opening.usage), details,
            if spliced then opening.transformations else None)
  }

  // How much of a hop is read: up to a refusal that can be retried when an entry is left to retry with.
  function ReadOf(events: seq<Event>, hasNext: bool): (n: nat)
    ensures n <= |events| && (n < |events| ==> hasNext && Chainable(events[n]))
  {
    if hasNext then Cut(events) else |events|
  }

  function Shown(events: seq<Event>, indexBase: nat, hasNext: bool, splice: Option<Splice>): seq<Event> {
    var n := ReadOf(events, hasNext);
    Forwarded(events[..n], indexBase, splice)
    + if n < |events| then Closers(Tracked(events[..n], indexBase).open) else []
  }

  function OutcomeOf(events: seq<Event>, indexBase: nat, hasNext: bool, spliced: bool): Outcome {
    var n := ReadOf(events, hasNext);
    var opening := OpeningOf(events[..n]);
    var t := Tracked(events[..n], indexBase);
    Outcome(if n < |events| then Some(RefusalAt(events[n], opening, spliced)) else None,
            opening.model, BlocksOf(t), t.next)
  }

  // Handles an event that does not end the hop, and returns what is forwarded of it.
  method Take(tracker: BlockTracker, ev: Event, opening: Opening, splice: Option<Splice>)
    returns (shown: seq<Event>)
    modifies tracker
    ensures shown == Forward(ev, opening, tracker.indexBase, splice)
    ensures tracker.State() == TrackNext(old(tracker.State()), ev, tracker.indexBase)
  {
    shown := [ev];
    match ev {
      case MessageStart(_, _, _) =>
        if splice.Some? { shown := []; }
      case BlockStart(index, block) =>
        var shifted := tracker.Start(index, block);
        if splice.Some? { shown := [BlockStart(shifted, block)]; }
      case BlockDelta(index, delta) =>
        var shifted := tracker.Delta(index, delta);
        if splice.Some? { shown := [BlockDelta(shifted, delta)]; }
      case BlockStop(index) =>
        var shifted := tracker.Stop(index);
        if splice.Some? { shown := [BlockStop(shifted)]; }
      case MessageDelta(stop, details, usage, transformations) =>
        if splice.Some? {
          var filled := Backfill(usage, opening.usage);
          var own := ToIterationUsage(true, splice.value.model, filled);
          shown := [MessageDelta(stop, details, filled.(iterations := splice.value.iterations + [own]),
                                 OrElse(transformations, opening.transformations))];
        }
      case _ =>
    }
  }

  // Forwards a hop's events until it ends or refuses with a token while an entry is left.
  method ConsumeHop(events: seq<Event>, indexBase: nat, hasNext: bool, splice: Option<Splice>)
    returns (shown: seq<Event>, outcome: Outcome)
    ensures shown == Shown(events, indexBase, hasNext, splice)
    ensures outcome == OutcomeOf(events, indexBase, hasNext, splice.Some?)
  {
    hide TrackNext, Forward;
    var tracker := new BlockTracker(indexBase);
    var opening := OpeningOf([]);
    shown := [];
    for i := 0 to |events|
      invariant shown == Forwarded(events[..i], indexBase, splice)
      invariant tracker.State() == Tracked(events[..i], indexBase) && tracker.indexBase == indexBase
      invariant fresh(tracker) && opening == OpeningOf(events[..i])
      invariant i <= ReadOf(events, hasNext)
    {
      var ev := events[i];
      assert events[..i + 1][..i] == events[..i];
      if hasNext && Chainable(ev) {
        outcome := Outcome(Some(RefusalAt(ev, opening, splice.Some?)), opening.model,
                           BlocksOf(tracker.State()), tracker.nextIndex);
        var closers := tracker.CloseOpenBlocks();
        shown := shown + closers;
        return;
      }
      var forwarded := Take(tracker, ev, opening, splice);
      shown := shown + forwarded;
      if ev.MessageStart? {
        opening := Opening(Some(ev.model), ev.startUsage, OrElse(ev.startTransformations, opening.transformations));
      }
    }
    assert events[..|events|] == events;
    outcome := Outcome(None, opening.model, BlocksOf(tracker.State()), tracker.nextIndex);
  }

}
