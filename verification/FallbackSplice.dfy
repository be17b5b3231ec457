/**
 The refusal-fallback splicer: many hops joined into one message, each hop's request redeeming the credit token of
 the latest refusal.

 A run is told by its exchanges, the requests that were made with their replies. `Visible` is the client's message
 as a function of them, and `Lawful` says which requests may be made.
 */
module FallbackSplice {
  import opened FallbackStream
  import opened FallbackForm

  // ----- requests -----

  datatype Thinking = NoThinking | BetweenTools | Disabled | OtherThinking(budget: nat)

  datatype Turn = Given(turn: nat) | Assistant(content: seq<Block>)

  // A request body; `rest` is every other field.
  datatype RequestBody = RequestBody(
    model: string, token: Option<Token>, thinking: Thinking, messages: seq<Turn>, rest: nat)

  function BuildFallbackRequest(orig: RequestBody, model: string, token: Token, continuation: seq<Block>): RequestBody {
    orig.(model := model, token := Some(token),
          thinking := if orig.thinking == BetweenTools then Disabled else orig.thinking,
          messages := if continuation == [] then orig.messages else orig.messages + [Assistant(continuation)])
  }

  // A tool's input is put together from its accumulated JSON, when that parses.
  function ToPrefill(parse: string -> Option<nat>, b: Block): Block {
    if b.Fallback? || b.partialJson.None? then b
    else
      var parsed := parse(b.partialJson.value);
      b.(partialJson := None, input := if parsed.Some? then parsed.value else b.input)
  }

  function ToPrefillBlocks(parse: string -> Option<nat>, blocks: seq<Block>): (r: seq<Block>)
    ensures |r| == |blocks| && forall i | 0 <= i < |r| :: r[i] == ToPrefill(parse, blocks[i])
  {
    seq(|blocks|, i requires 0 <= i < |blocks| => ToPrefill(parse, blocks[i]))
  }

  // ----- runs -----

  datatype Reply = Served(events: seq<Event>) | Rejected(status: nat) | Threw | Aborted

  datatype Exchange = Exchange(hop: nat, continuation: seq<Block>, body: RequestBody, reply: Reply)

  // The chain, the body stream A was requested with, and stream A itself.
  datatype Setting = Setting(
    first: seq<Event>, orig: RequestBody, fallbacks: seq<string>, firstHop: nat, parse: string -> Option<nat>)
  {
    // The caller splices only when stream A has an entry to fall back to; here stream A also refused with a token.
    predicate Falls() {
      firstHop < |fallbacks| && Cut(first) < |first|
    }

    predicate HasNext(hop: nat) { hop + 1 < |fallbacks| }

    // Whether the exchange was refused with an entry left to retry with.
    predicate Chained(x: Exchange) {
      x.reply.Served? && HasNext(x.hop) && Cut(x.reply.events) < |x.reply.events|
    }

    predicate Failed(x: Exchange) { x.reply.Rejected? || x.reply.Threw? }

    function ModelOf(hop: nat): string { if hop < |fallbacks| then fallbacks[hop] else "" }
  }

  // A refusal whose token is in flight: what its own request carried, what its hop streamed, and who refused.
  datatype Issued = Issued(refusal: Refusal, base: seq<Block>, partial: seq<Block>, model: string)

  function PartialOf(s: Setting, refusal: Refusal, blocks: seq<Block>): (r: seq<Block>)
    ensures r != [] ==> refusal.claim
  {
    if refusal.claim then ToPrefillBlocks(s.parse, blocks) else []
  }

  // The exchange whose refusal issued the token in flight; -1 for stream A.
  function Issuer(s: Setting, xs: seq<Exchange>): (k: int)
    ensures -1 <= k < |xs|
    ensures k >= 0 ==> s.Chained(xs[k])
    ensures forall i | k < i < |xs| :: !s.Chained(xs[i])
  {
    if xs == [] then -1
    else if s.Chained(xs[|xs| - 1]) then |xs| - 1
    else Issuer(s, xs[..|xs| - 1])
  }

  function IssuedBy(s: Setting, x: Exchange): Issued
    requires s.Chained(x)
  {
    var outcome := OutcomeOf(x.reply.events, 0, true, true);
    Issued(outcome.refused.value, x.continuation, PartialOf(s, outcome.refused.value, outcome.blocks), s.ModelOf(x.hop))
  }

  function IssuedByFirst(s: Setting): Issued
    requires s.Falls()
  {
    var outcome := OutcomeOf(s.first, 0, true, false);
    Issued(outcome.refused.value, [], PartialOf(s, outcome.refused.value, outcome.blocks),
           if outcome.model.Some? then outcome.model.value else "")
  }

  function InFlight(s: Setting, xs: seq<Exchange>): Issued
    requires s.Falls()
  {
    var k := Issuer(s, xs);
    if k < 0 then IssuedByFirst(s) else IssuedBy(s, xs[k])
  }

  // Whether the next request for `hop` is the first one for it.
  predicate Opens(xs: seq<Exchange>, hop: nat) {
    xs == [] || xs[|xs| - 1].hop != hop
  }

  // The hop after the one tried last.
  function NextHop(s: Setting, xs: seq<Exchange>): nat {
    if xs == [] then s.firstHop else xs[|xs| - 1].hop + 1
  }

  // Whether the entry tried last is owed a second request, without the newest partial.
  predicate Owed(s: Setting, xs: seq<Exchange>)
    requires s.Falls()
  {
    xs != [] &&
    var n := |xs| - 1;
    xs[n].reply == Rejected(400) && Opens(xs[..n], xs[n].hop) && InFlight(s, xs).partial != []
  }

  /**
   Whether a request may follow `xs`: it redeems the token in flight; the first one for an entry carries what the
   refused request carried and its partial output, and comes right after the previous entry failed or refused; a
   second one comes only after a 400 to a first one that had a partial to leave out.
   */
  ghost predicate Justified(s: Setting, xs: seq<Exchange>, x: Exchange)
    requires s.Falls()
  {
    var i := InFlight(s, xs);
    && x.hop < |s.fallbacks|
    && x.body == BuildFallbackRequest(s.orig, s.fallbacks[x.hop], i.refusal.token, x.continuation)
    && (xs != [] ==> s.Failed(xs[|xs| - 1]) || s.Chained(xs[|xs| - 1]))
    && if Opens(xs, x.hop) then
         x.hop == NextHop(s, xs) && x.continuation == i.base + i.partial && !Owed(s, xs)
       else
         && x.continuation == i.base && i.partial != []
         && xs[|xs| - 1].reply == Rejected(400) && Opens(xs[..|xs| - 1], x.hop)
  }

  ghost predicate Lawful(s: Setting, xs: seq<Exchange>)
    requires s.Falls()
  {
    xs == [] || (Lawful(s, xs[..|xs| - 1]) && Justified(s, xs[..|xs| - 1], xs[|xs| - 1]))
  }

  lemma LawfulNext(s: Setting, xs: seq<Exchange>, x: Exchange)
    requires s.Falls() && Lawful(s, xs) && Justified(s, xs, x)
    ensures Lawful(s, xs + [x])
  {
    hide Justified;
    assert (xs + [x])[..|xs|] == xs;
  }

  // ----- what the client sees -----

  // One `message` entry for stream A and each refused exchange, in order; a failed request adds none.
  function Iterations(s: Setting, xs: seq<Exchange>): seq<Iteration>
    requires s.Falls()
  {
    if xs == [] then
      var a := IssuedByFirst(s);
      [ToIterationUsage(false, a.model, a.refusal.usage)]
    else
      var x := xs[|xs| - 1];
      Iterations(s, xs[..|xs| - 1]) +
      if s.Chained(x) then
        var b := IssuedBy(s, x);
        [ToIterationUsage(false, b.model, b.refusal.usage)]
      else []
  }

  function Boundary(index: nat, from: Issued, model: string): seq<Event> {
    [BlockStart(index, Fallback(from.model, model, from.refusal.details.category)), BlockStop(index)]
  }

  // The block index at which exchange `x` after `xs` continues the message.
  function IndexAt(s: Setting, xs: seq<Exchange>, hop: nat): nat {
    IndexAfter(s, xs) + if Opens(xs, hop) then 1 else 0
  }

  function IndexAfter(s: Setting, xs: seq<Exchange>): nat
    decreases |xs|, 0
  {
    if xs == [] then OutcomeOf(s.first, 0, true, false).nextIndex
    else
      var n := |xs| - 1;
      var index := IndexAfter(s, xs[..n]) + if Opens(xs[..n], xs[n].hop) then 1 else 0;
      if xs[n].reply.Served? then OutcomeOf(xs[n].reply.events, index, s.HasNext(xs[n].hop), true).nextIndex else index
  }

  function ShownOf(s: Setting, xs: seq<Exchange>, x: Exchange): seq<Event>
    requires s.Falls()
  {
    if x.reply.Served? then
      Shown(x.reply.events, IndexAt(s, xs, x.hop), s.HasNext(x.hop), Some(Splice(Iterations(s, xs), s.ModelOf(x.hop))))
    else []
  }

  function BoundaryOf(s: Setting, xs: seq<Exchange>, hop: nat): seq<Event>
    requires s.Falls()
  {
    if Opens(xs, hop) then Boundary(IndexAfter(s, xs), InFlight(s, xs), s.ModelOf(hop)) else []
  }

  // The client's message: stream A, then a boundary for each entry and what its served request streamed.
  function Visible(s: Setting, xs: seq<Exchange>): seq<Event>
    requires s.Falls()
  {
    if xs == [] then Shown(s.first, 0, true, None)
    else
      var n := |xs| - 1;
      Visible(s, xs[..n]) + BoundaryOf(s, xs[..n], xs[n].hop) + ShownOf(s, xs[..n], xs[n])
  }

  // When every entry failed, the held refusal is shown, pointing at the entry tried last.
  function Degraded(i: Issued, model: string): seq<Event> {
    [MessageDelta(ByRefusal, Some(i.refusal.details.(recommended := Some(model))), i.refusal.usage,
                  i.refusal.transformations),
     MessageStop]
  }

  lemma BlocksIgnoreBase(events: seq<Event>, base: nat)
    ensures Tracked(events, base).blocks == Tracked(events, 0).blocks
    ensures BlocksOf(Tracked(events, base)) == BlocksOf(Tracked(events, 0))
  {
    if events != [] { BlocksIgnoreBase(events[..|events| - 1], base); }
  }

  // What an exchange that was not served adds to the message: the boundary, when it is the entry's first.
  lemma UnservedNext(s: Setting, xs: seq<Exchange>, x: Exchange)
    requires s.Falls() && !x.reply.Served?
    ensures Visible(s, xs + [x]) == Visible(s, xs) + BoundaryOf(s, xs, x.hop)
    ensures IndexAfter(s, xs + [x]) == IndexAt(s, xs, x.hop)
    ensures Iterations(s, xs + [x]) == Iterations(s, xs) && InFlight(s, xs + [x]) == InFlight(s, xs)
  {
    hide OutcomeOf, Shown, IssuedBy, IssuedByFirst, ToIterationUsage, Boundary, Opens;
    var all := xs + [x];
    assert all[..|all| - 1] == xs;
    assert Issuer(s, all) == Issuer(s, xs);
    assert Visible(s, xs) + BoundaryOf(s, xs, x.hop) + [] == Visible(s, xs) + BoundaryOf(s, xs, x.hop);
  }

  lemma ServedNext(s: Setting, xs: seq<Exchange>, x: Exchange)
    requires s.Falls() && x.reply.Served?
    ensures Visible(s, xs + [x]) == Visible(s, xs) + BoundaryOf(s, xs, x.hop) + ShownOf(s, xs, x)
    ensures var outcome := OutcomeOf(x.reply.events, IndexAt(s, xs, x.hop), s.HasNext(x.hop), true);
            && IndexAfter(s, xs + [x]) == outcome.nextIndex
            && (s.Chained(x) <==> outcome.refused.Some?)
            && (s.Chained(x) ==>
                 && InFlight(s, xs + [x]) == Issued(outcome.refused.value, x.continuation,
                                                    PartialOf(s, outcome.refused.value, outcome.blocks),
                                                    s.ModelOf(x.hop))
                 && Iterations(s, xs + [x]) == Iterations(s, xs)
                      + [ToIterationUsage(false, s.ModelOf(x.hop), outcome.refused.value.usage)])
  {
    hide Shown, IssuedByFirst, ToIterationUsage, Boundary, Opens, PartialOf, Tracked, BlocksOf, RefusalAt;
    var all := xs + [x];
    assert all[..|all| - 1] == xs;
    var n := ReadOf(x.reply.events, s.HasNext(x.hop));
    BlocksIgnoreBase(x.reply.events[..n], IndexAt(s, xs, x.hop));
    if s.Chained(x) { assert Issuer(s, all) == |xs|; }
  }

  // ----- the splicer -----

  function Request(s: Setting, hop: nat, token: Token, continuation: seq<Block>, reply: Reply): Exchange {
    Exchange(hop, continuation, BuildFallbackRequest(s.orig, s.ModelOf(hop), token, continuation), reply)
  }

  // The one or two requests of an entry.
  function Tries(s: Setting, hop: nat, token: Token, base: seq<Block>, partial: seq<Block>, replies: (Reply, Reply)):
    (r: seq<Exchange>)
    ensures r != [] && forall x | x in r :: x.hop == hop
  {
    [Request(s, hop, token, base + partial, replies.0)] +
    if replies.0 == Rejected(400) && partial != [] then [Request(s, hop, token, base, replies.1)] else []
  }

  // Requests the entry, and once more without the newest partial when the server rejects it with a 400.
  method TryEntry(s: Setting, hop: nat, token: Token, base: seq<Block>, partial: seq<Block>, replies: (Reply, Reply))
    returns (tried: seq<Exchange>, continuation: seq<Block>, reply: Reply)
    ensures tried == Tries(s, hop, token, base, partial, replies)
    ensures reply == tried[|tried| - 1].reply && continuation == tried[|tried| - 1].continuation
  {
    continuation := base + partial;
    tried, reply := [], replies.0;
    for attempt := 0 to 2
      invariant attempt < 2
      invariant attempt == 0 ==> tried == [] && continuation == base + partial
      invariant attempt == 1 ==>
                  tried == [Request(s, hop, token, base + partial, replies.0)] && continuation == base
                  && replies.0 == Rejected(400) && partial != []
    {
      reply := if attempt == 0 then replies.0 else replies.1;
      tried := tried + [Request(s, hop, token, continuation, reply)];
      if !(attempt == 0 && reply == Rejected(400) && partial != []) { return; }
      continuation := base;
    }
  }

  // The exchanges so far were lawful, and the last of them, if any, leaves the message to the next entry.
  ghost predicate InStep(s: Setting, xs: seq<Exchange>)
    requires s.Falls()
  {
    Lawful(s, xs) && !Owed(s, xs) && (xs != [] ==> s.Failed(xs[|xs| - 1]) || s.Chained(xs[|xs| - 1]))
  }

  // The entry's first request, and its second after a 400 to the first, may be made.
  lemma TriesJustified(s: Setting, xs: seq<Exchange>, hop: nat, replies: (Reply, Reply))
    requires s.Falls() && InStep(s, xs) && NextHop(s, xs) == hop < |s.fallbacks|
    ensures var i := InFlight(s, xs);
            var tried := Tries(s, hop, i.refusal.token, i.base, i.partial, replies);
            && Opens(xs, hop) && Justified(s, xs, tried[0])
            && (|tried| == 2 && InFlight(s, xs + [tried[0]]) == i ==> Justified(s, xs + [tried[0]], tried[1]))
  {
    hide Lawful, InFlight, BuildFallbackRequest;
    var i := InFlight(s, xs);
    var tried := Tries(s, hop, i.refusal.token, i.base, i.partial, replies);
    var once := xs + [tried[0]];
    assert once[..|once| - 1] == xs;
  }

  lemma StepIsLawful(s: Setting, xs: seq<Exchange>)
    requires s.Falls() && InStep(s, xs)
    ensures Lawful(s, xs)
  {
    hide Lawful;
  }

  // Before an entry's last request `tried[|tried| - 1]`, its boundary is in place and nothing else has changed.
  ghost predicate EntryAdds(s: Setting, xs: seq<Exchange>, hop: nat, before: seq<Exchange>, last: Exchange)
    requires s.Falls()
  {
    && Lawful(s, before + [last])
    && Visible(s, before) + BoundaryOf(s, before, hop)
         == Visible(s, xs) + Boundary(IndexAfter(s, xs), InFlight(s, xs), s.ModelOf(hop))
    && IndexAt(s, before, hop) == IndexAfter(s, xs) + 1
    && Iterations(s, before) == Iterations(s, xs) && InFlight(s, before) == InFlight(s, xs)
  }

  lemma OneRequest(s: Setting, xs: seq<Exchange>, hop: nat, x: Exchange)
    requires s.Falls() && Lawful(s, xs) && Opens(xs, hop) && Justified(s, xs, x)
    ensures EntryAdds(s, xs, hop, xs, x)
  {
    hide Lawful, Justified, Visible, IndexAfter, Iterations, InFlight, Boundary;
    LawfulNext(s, xs, x);
  }

  lemma TwoRequests(s: Setting, xs: seq<Exchange>, hop: nat, x: Exchange, y: Exchange)
    requires s.Falls() && Lawful(s, xs) && Opens(xs, hop) && x.hop == hop && !x.reply.Served?
    requires Justified(s, xs, x) && (InFlight(s, xs + [x]) == InFlight(s, xs) ==> Justified(s, xs + [x], y))
    ensures EntryAdds(s, xs, hop, xs + [x], y)
  {
    hide Lawful, Justified, Visible, IndexAfter, Iterations, InFlight, Boundary;
    UnservedNext(s, xs, x);
    LawfulNext(s, xs, x);
    LawfulNext(s, xs + [x], y);
    assert Visible(s, xs + [x]) + [] == Visible(s, xs + [x]);
  }

  lemma EntryNext(s: Setting, xs: seq<Exchange>, hop: nat, replies: (Reply, Reply))
    requires s.Falls() && InStep(s, xs) && NextHop(s, xs) == hop < |s.fallbacks|
    ensures var i := InFlight(s, xs);
            var tried := Tries(s, hop, i.refusal.token, i.base, i.partial, replies);
            var n := |tried| - 1;
            && EntryAdds(s, xs, hop, xs + tried[..n], tried[n])
            && xs + tried == (xs + tried[..n]) + [tried[n]]
  {
    hide Lawful, Justified, EntryAdds, InFlight, BuildFallbackRequest, InStep;
    var i := InFlight(s, xs);
    var tried := Tries(s, hop, i.refusal.token, i.base, i.partial, replies);
    var n := |tried| - 1;
    TriesJustified(s, xs, hop, replies);
    StepIsLawful(s, xs);
    assert tried == tried[..n] + [tried[n]];
    assert xs + tried == (xs + tried[..n]) + [tried[n]];
    if n == 0 {
      assert xs + tried[..0] == xs;
      OneRequest(s, xs, hop, tried[0]);
    } else {
      assert tried[..1] == [tried[0]];
      TwoRequests(s, xs, hop, tried[0], tried[1]);
    }
  }

  // An entry whose first request got a 400 has had its second one when it had a partial to leave out.
  lemma EntryPaid(s: Setting, xs: seq<Exchange>, hop: nat, replies: (Reply, Reply))
    requires s.Falls() && InStep(s, xs) && NextHop(s, xs) == hop < |s.fallbacks|
    ensures var i := InFlight(s, xs);
            !Owed(s, xs + Tries(s, hop, i.refusal.token, i.base, i.partial, replies))
  {
    hide Lawful, Justified, EntryAdds, InFlight, BuildFallbackRequest, InStep, Visible, IndexAfter, Iterations;
    var i := InFlight(s, xs);
    var tried := Tries(s, hop, i.refusal.token, i.base, i.partial, replies);
    var all, n := xs + tried, |tried| - 1;
    EntryNext(s, xs, hop, replies);
    assert all[..|all| - 1] == xs + tried[..n];
    if n == 0 {
      assert xs + tried[..0] == xs;
      if !tried[0].reply.Served? { UnservedNext(s, xs, tried[0]); }
    } else {
      assert (xs + tried[..1])[|xs|] == tried[0];
    }
  }

  // How a run may end: the message is complete, or every entry has failed, or the request was aborted.
  ghost predicate Ends(s: Setting, xs: seq<Exchange>)
    requires s.Falls()
  {
    && xs != []
    && !Owed(s, xs)
    && var last := xs[|xs| - 1];
       !s.Chained(last) && (s.Failed(last) ==> !s.HasNext(last.hop))
  }

  /**
   Joins stream A and the fallbacks' streams into one message. The loop always returns from inside its body; the
   requests made are lawful, and the message is what they and their replies say, with the held refusal appended when
   the last entry failed.
   */
  method SplicedEvents(s: Setting, replies: seq<(Reply, Reply)>)
    returns (visible: seq<Event>, exchanges: seq<Exchange>, aborted: bool)
    requires s.firstHop < |s.fallbacks| == |replies|
    ensures Cut(s.first) == |s.first| ==> visible == s.first && exchanges == [] && !aborted
    ensures Cut(s.first) < |s.first| ==>
              && Lawful(s, exchanges) && Ends(s, exchanges)
              && aborted == exchanges[|exchanges| - 1].reply.Aborted?
              && visible == Visible(s, exchanges)
                            + if s.Failed(exchanges[|exchanges| - 1])
                              then Degraded(InFlight(s, exchanges), s.fallbacks[|s.fallbacks| - 1]) else []
  {
    hide Lawful, Visible, IndexAfter, Iterations, InFlight, Shown, Cut, OpeningOf, Tracked, BlocksOf, RefusalAt,
      Boundary, PartialOf, ToIterationUsage, Tries, IndexAt, BoundaryOf, Degraded, Opens, Owed;
    var shown, a := ConsumeHop(s.first, 0, true, None);
    visible, exchanges, aborted := shown, [], false;
    if a.refused.None? {
      WholeIsShown(s.first);
      return;
    }
    FirstInFlight(s, a);
    var nextIndex, token, base := a.nextIndex, a.refused.value.token, [];
    var partial := PartialOf(s, a.refused.value, a.blocks);
    var fromModel, refusal := if a.model.Some? then a.model.value else "", a.refused.value;
    var iterations := [ToIterationUsage(false, fromModel, refusal.usage)];
    for hop := s.firstHop to |s.fallbacks|
      invariant hop < |s.fallbacks| && !aborted
      invariant NextHop(s, exchanges) == hop && InStep(s, exchanges)
      invariant visible == Visible(s, exchanges) && nextIndex == IndexAfter(s, exchanges)
      invariant iterations == Iterations(s, exchanges)
      invariant InFlight(s, exchanges) == Issued(refusal, base, partial, fromModel) && token == refusal.token
    {
      ghost var xs := exchanges;
      EntryNext(s, xs, hop, replies[hop]);
      EntryPaid(s, xs, hop, replies[hop]);
      var model := s.fallbacks[hop];
      visible := visible + Boundary(nextIndex, Issued(refusal, base, partial, fromModel), model);
      nextIndex := nextIndex + 1;
      var tried, continuation, reply := TryEntry(s, hop, token, base, partial, replies[hop]);
      exchanges := exchanges + tried;
      ghost var last := tried[|tried| - 1];
      ghost var before := xs + tried[..|tried| - 1];
      if !reply.Served? {
        UnservedNext(s, before, last);
        if reply.Aborted? {
          aborted := true;
          return;
        }
        if hop + 1 < |s.fallbacks| { continue; }
        visible := visible + Degraded(Issued(refusal, base, partial, fromModel), model);
        return;
      }
      ServedNext(s, before, last);
      var b;
      shown, b := ConsumeHop(reply.events, nextIndex, hop + 1 < |s.fallbacks|, Some(Splice(iterations, model)));
      visible := visible + shown;
      if b.refused.None? { return; }
      refusal := b.refused.value;
      token, base, partial := refusal.token, continuation, PartialOf(s, refusal, b.blocks);
      iterations := iterations + [ToIterationUsage(false, model, refusal.usage)];
      fromModel, nextIndex := model, b.nextIndex;
    }
  }

  lemma WholeIsShown(events: seq<Event>)
    requires Cut(events) == |events|
    ensures Shown(events, 0, true, None) == events
  {
    ForwardedVerbatim(events, 0);
    assert events[..|events|] == events;
  }

  lemma FirstInFlight(s: Setting, a: Outcome)
    requires s.Falls() && a == OutcomeOf(s.first, 0, true, false)
    ensures InStep(s, []) && Visible(s, []) == Shown(s.first, 0, true, None) && IndexAfter(s, []) == a.nextIndex
    ensures var model := if a.model.Some? then a.model.value else "";
            && InFlight(s, []) == Issued(a.refused.value, [], PartialOf(s, a.refused.value, a.blocks), model)
            && Iterations(s, []) == [ToIterationUsage(false, model, a.refused.value.usage)]
  {
    hide OutcomeOf, Shown;
  }
}
