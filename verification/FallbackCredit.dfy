/**
 What a run of the refusal-fallback splicer makes of its hops' events: which refusals are retried, where credit and
 continuations come from, and what blocks and usage the client reads.
 */
module FallbackCredit {
  import opened FallbackStream
  import opened FallbackForm
  import opened FallbackSplice
  import opened FallbackLaws

  // ----- which refusals are retried -----

  // `events[n]` is the first refusal with a token.
  predicate RefusesAt(events: seq<Event>, n: nat) {
    && n < |events| && events[n].MessageDelta? && events[n].stop == ByRefusal
    && events[n].details.Some? && events[n].details.value.token.Some?
    && forall i | 0 <= i < n ::
         events[i].MessageDelta? && events[i].stop == ByRefusal && events[i].details.Some? ==>
           events[i].details.value.token.None?
  }

  lemma CutIsRefusal(events: seq<Event>, n: nat)
    ensures RefusesAt(events, n) <==> n == Cut(events) && n < |events|
  {
    hide Cut;
    var cut := Cut(events);
    if RefusesAt(events, n) {
      assert Chainable(events[n]);
      assert cut < |events| ==> Chainable(events[cut]);
    }
  }

  /** A hop is retried exactly when it was served, it refused with a token, and an entry is left. */
  lemma RetriedExactly(s: Setting, x: Exchange)
    ensures s.Chained(x) <==>
            x.reply.Served? && x.hop + 1 < |s.fallbacks| && exists n :: RefusesAt(x.reply.events, n)
    ensures s.Falls() <==> s.firstHop < |s.fallbacks| && exists n :: RefusesAt(s.first, n)
  {
    hide Cut;
    CutIsRefusal(s.first, Cut(s.first));
    if n: nat :| RefusesAt(s.first, n) { CutIsRefusal(s.first, n); }
    if x.reply.Served? {
      CutIsRefusal(x.reply.events, Cut(x.reply.events));
      if n: nat :| RefusesAt(x.reply.events, n) { CutIsRefusal(x.reply.events, n); }
    }
  }

  // ----- where credit comes from -----

  // The stream of the refusal `r`.
  function StreamOf(s: Setting, xs: seq<Exchange>, r: int): seq<Event>
    requires Refused(s, xs, r)
  {
    if r < 0 then s.first else xs[r].reply.events
  }

  lemma RefusalIsEvent(s: Setting, xs: seq<Exchange>, r: int, n: nat)
    requires s.Falls() && Refused(s, xs, r) && RefusesAt(StreamOf(s, xs, r), n)
    ensures RefusalOf(s, xs, r).details == StreamOf(s, xs, r)[n].details.value
    ensures Some(RefusalOf(s, xs, r).token) == StreamOf(s, xs, r)[n].details.value.token
    ensures RefusalOf(s, xs, r).claim <==> StreamOf(s, xs, r)[n].details.value.claim
  {
    hide Cut, Tracked, OpeningOf, Backfill, PartialOf, BlocksOf;
    CutIsRefusal(StreamOf(s, xs, r), n);
  }

  /**
   A request carries the token of the latest refusal with one, where an entry was left. The first request for an entry
   carries what the refused request carried, and the refused hop's output exactly when that refusal granted the prefill
   claim. The second one carries what the refused request carried, and follows a 400 to a first one that carried more.
   */
  lemma CreditIsRefusals(s: Setting, xs: seq<Exchange>, k: nat, n: nat)
    requires s.Falls() && Lawful(s, xs) && k < |xs| && Refused(s, xs, Issuer(s, xs[..k]))
    requires RefusesAt(StreamOf(s, xs, Issuer(s, xs[..k])), n)
    ensures var r := Issuer(s, xs[..k]);
            forall i | r < i < k :: !s.Chained(xs[i])
    ensures var r := Issuer(s, xs[..k]);
            var details := StreamOf(s, xs, r)[n].details.value;
            && xs[k].body.token == details.token
            && (!details.claim ==> xs[k].continuation == CarriedBy(xs, r))
            && (if k == 0 || xs[k - 1].hop != xs[k].hop then
                  details.claim ==> xs[k].continuation == CarriedBy(xs, r) + OutputOf(s, xs, r)
                else
                  && xs[k].continuation == CarriedBy(xs, r) != xs[k - 1].continuation
                  && xs[k - 1].reply == Rejected(400))
  {
    hide Lawful, RefusalOf, OutputOf, Issuer;
    var r := Issuer(s, xs[..k]);
    assert forall i | 0 <= i < k :: xs[..k][i] == xs[i];
    RequestSays(s, xs, k);
    RefusalIsEvent(s, xs, r, n);
    OutputIsClaimed(s, xs, r);
    assert CarriedBy(xs, r) + [] == CarriedBy(xs, r);
    if k > 0 && xs[k - 1].hop == xs[k].hop { SecondRequest(s, xs, k); }
  }

  // What a request may be, by the refusal that it redeems.
  lemma RequestSays(s: Setting, xs: seq<Exchange>, k: nat)
    requires s.Falls() && Lawful(s, xs) && k < |xs| && Refused(s, xs, Issuer(s, xs[..k]))
    ensures var r := Issuer(s, xs[..k]);
            && xs[k].body.token == Some(RefusalOf(s, xs, r).token)
            && (if k == 0 || xs[k - 1].hop != xs[k].hop then
                  xs[k].continuation == CarriedBy(xs, r) + OutputOf(s, xs, r)
                else xs[k].continuation == CarriedBy(xs, r) && xs[k - 1].reply == Rejected(400))
  {
    hide Lawful, OutcomeOf, PartialOf;
    var r := Issuer(s, xs[..k]);
    assert r >= 0 ==> xs[..k][r] == xs[r];
    assert k > 0 ==> xs[..k][k - 1] == xs[k - 1];
    JustifiedAt(s, xs, k);
  }

  // The second request for an entry redeems the same refusal as the first, which carried its output.
  lemma SecondRequest(s: Setting, xs: seq<Exchange>, k: nat)
    requires s.Falls() && Lawful(s, xs) && 0 < k < |xs| && xs[k - 1].hop == xs[k].hop
    ensures xs[k - 1].continuation != xs[k].continuation
  {
    hide Lawful, OutcomeOf, BuildFallbackRequest, InFlight, Visible, IndexAfter, Iterations, BoundaryOf, Owed;
    JustifiedAt(s, xs, k);
    JustifiedAt(s, xs, k - 1);
    assert xs[..k][..k - 1] == xs[..k - 1] && xs[..k][k - 1] == xs[k - 1];
    UnservedNext(s, xs[..k - 1], xs[k - 1]);
    assert xs[..k] == xs[..k - 1] + [xs[k - 1]];
  }

  /** A 400 to an entry's first request is followed by its second when the first carried more than was refused. */
  lemma RetriedWithoutPartial(s: Setting, xs: seq<Exchange>, k: nat)
    requires s.Falls() && Lawful(s, xs) && Ends(s, xs) && k < |xs| && xs[k].reply == Rejected(400)
    requires k == 0 || xs[k - 1].hop != xs[k].hop
    requires Refused(s, xs, Issuer(s, xs[..k]))
    requires xs[k].continuation != CarriedBy(xs, Issuer(s, xs[..k]))
    ensures k + 1 < |xs| && xs[k + 1].hop == xs[k].hop
    ensures xs[k + 1].continuation == CarriedBy(xs, Issuer(s, xs[..k]))
  {
    hide Lawful, InFlight, BuildFallbackRequest, Owed, Issuer;
    SecondIsOwed(s, xs, k);
    var once := xs[..k + 1];
    assert once[k] == xs[k];
    assert k + 1 == |xs| ==> once == xs;
    JustifiedAt(s, xs, k + 1);
  }

  lemma SecondIsOwed(s: Setting, xs: seq<Exchange>, k: nat)
    requires s.Falls() && Lawful(s, xs) && k < |xs| && xs[k].reply == Rejected(400)
    requires k == 0 || xs[k - 1].hop != xs[k].hop
    requires Refused(s, xs, Issuer(s, xs[..k])) && xs[k].continuation != CarriedBy(xs, Issuer(s, xs[..k]))
    ensures Owed(s, xs[..k + 1])
    ensures InFlight(s, xs[..k + 1]).base == CarriedBy(xs, Issuer(s, xs[..k]))
  {
    hide Lawful, OutcomeOf, PartialOf, BuildFallbackRequest, Visible, IndexAfter, Iterations, BoundaryOf;
    JustifiedAt(s, xs, k);
    var r := Issuer(s, xs[..k]);
    assert r >= 0 ==> xs[..k][r] == xs[r];
    assert k > 0 ==> xs[..k][k - 1] == xs[k - 1];
    var once := xs[..k + 1];
    assert once[..k] == xs[..k] && once[k] == xs[k] && once == xs[..k] + [xs[k]];
    UnservedNext(s, xs[..k], xs[k]);
    assert CarriedBy(xs, r) + [] == CarriedBy(xs, r);
  }

  // ----- what is sent back -----

  // A block as it is sent back: a tool's input is its accumulated JSON, when that parses.
  predicate SentBack(parse: string -> Option<nat>, b: Block, sent: Block) {
    if b.Content? && b.partialJson.Some? then
      var parsed := parse(b.partialJson.value);
      && sent.Content? && sent.partialJson.None?
      && sent.input == (if parsed.Some? then parsed.value else b.input)
      && sent.shell == b.shell && sent.text == b.text && sent.citations == b.citations && sent.thinking == b.thinking
      && sent.signature == b.signature && sent.content == b.content && sent.encrypted == b.encrypted
    else sent == b
  }

  /** The output of a refused hop is every block that it had streamed by the refusal, read from its own events. */
  lemma OutputIsStreamed(s: Setting, xs: seq<Exchange>, r: int, n: nat)
    requires s.Falls() && Refused(s, xs, r) && RefusesAt(StreamOf(s, xs, r), n)
    requires WellFormed(StreamOf(s, xs, r)) && StreamOf(s, xs, r)[n].details.value.claim
    ensures var read, output := StreamOf(s, xs, r)[..n], OutputOf(s, xs, r);
            && (forall i: nat :: i < |output| <==> Streamed(read, i).Some?)
            && forall i: nat | i < |output| && Streamed(read, i).Some? ::
                 SentBack(s.parse, Streamed(read, i).value, output[i])
  {
    hide Run, Cut, Tracked, OpeningOf, Backfill, BlocksOf, Streamed, WithDelta;
    var events := StreamOf(s, xs, r);
    var read := events[..n];
    CutIsRefusal(events, n);
    PrefixNotBroken(START, events, n);
    BlocksAreStreamed(read, 0);
    OutputBlocks(s, xs, r, n);
  }

  lemma OutputBlocks(s: Setting, xs: seq<Exchange>, r: int, n: nat)
    requires s.Falls() && Refused(s, xs, r) && RefusesAt(StreamOf(s, xs, r), n)
    requires StreamOf(s, xs, r)[n].details.value.claim
    ensures OutputOf(s, xs, r) == ToPrefillBlocks(s.parse, BlocksOf(Tracked(StreamOf(s, xs, r)[..n], 0)))
  {
    hide Cut, Tracked, OpeningOf, Backfill, BlocksOf, ToPrefillBlocks;
    CutIsRefusal(StreamOf(s, xs, r), n);
  }

  // ----- the blocks that the client reads -----

  // The blocks of the client's message: stream A's, then for each entry its boundary and the blocks it streamed.
  function Contents(s: Setting, xs: seq<Exchange>): seq<Block>
    requires s.Falls()
  {
    if xs == [] then BlocksOf(Tracked(s.first[..Cut(s.first)], 0))
    else
      var n := |xs| - 1;
      var before, x := xs[..n], xs[n];
      Contents(s, before) + BoundaryBlocks(s, before, x.hop)
      + if x.reply.Served? then BlocksOf(Tracked(x.reply.events[..ReadOf(x.reply.events, s.HasNext(x.hop))], 0)) else []
  }

  function BoundaryBlocks(s: Setting, xs: seq<Exchange>, hop: nat): seq<Block>
    requires s.Falls()
  {
    if Opens(xs, hop) then
      [Fallback(InFlight(s, xs).model, s.ModelOf(hop), InFlight(s, xs).refusal.details.category)]
    else []
  }

  ghost predicate Numbered(blocks: seq<Accumulated>) {
    forall k | 0 <= k < |blocks| :: blocks[k].index == k
  }

  // The blocks read from `all` are those of `front` followed by those of `back`.
  ghost predicate Joins(all: seq<Accumulated>, front: seq<Accumulated>, back: seq<Accumulated>) {
    && |all| == |front| + |back| && Numbered(all) && Numbered(back) && all[..|front|] == front
    && forall k | 0 <= k < |back| :: all[|front| + k].block == back[k].block
  }

  lemma TrackedOne(events: seq<Event>, ev: Event)
    ensures Tracked(events + [ev], 0) == TrackNext(Tracked(events, 0), ev, 0)
  {
    hide TrackNext;
    assert (events + [ev])[..|events|] == events;
  }

  lemma StepJoins(all: Track, front: seq<Accumulated>, back: Track, ev: Event, opening: Opening, splice: Splice)
    requires Joins(all.blocks, front, back.blocks) && (ev.BlockStart? ==> ev.index == |back.blocks|)
    ensures var out := Forward(ev, opening, |front|, Some(splice));
            && |out| <= 1
            && Joins(if out == [] then all.blocks else TrackNext(all, out[0], 0).blocks, front,
                     TrackNext(back, ev, 0).blocks)
  {
    hide Backfill, ToIterationUsage, PlaceOf;
    if ev.BlockDelta? {
      PlaceIsIndex(all.blocks, |front| + ev.index);
      PlaceIsIndex(back.blocks, ev.index);
    }
  }

  lemma {:induction false} ForwardedReads(before: seq<Event>, events: seq<Event>, base: nat, splice: Splice)
    requires |Tracked(before, 0).blocks| == base && Numbered(Tracked(before, 0).blocks) && Run(START, events).At?
    ensures Joins(Tracked(before + Forwarded(events, base, Some(splice)), 0).blocks, Tracked(before, 0).blocks,
                  Tracked(events, 0).blocks)
    decreases |events|
  {
    hide Run, TrackNext, Forward, OpeningOf, Joins, Numbered;
    var front := Tracked(before, 0).blocks;
    if events == [] {
      assert before + [] == before;
      NothingJoins(front);
    } else {
      var n := |events| - 1;
      var ev := events[n];
      var sofar := before + Forwarded(events[..n], base, Some(splice));
      PrefixNotBroken(START, events, n);
      ForwardedReads(before, events[..n], base, splice);
      StartsNext(events);
      StepJoins(Tracked(sofar, 0), front, Tracked(events[..n], 0), ev, OpeningOf(events[..n]), splice);
      var out := Forward(ev, OpeningOf(events[..n]), base, Some(splice));
      var all := before + Forwarded(events, base, Some(splice));
      assert all == sofar + out;
      if out == [] {
        assert all == sofar;
      } else {
        assert out == [out[0]];
        TrackedOne(sofar, out[0]);
      }
    }
  }

  lemma NothingJoins(front: seq<Accumulated>)
    requires Numbered(front)
    ensures Joins(front, front, [])
  {
  }

  lemma StartsNext(events: seq<Event>)
    requires events != [] && Run(START, events).At?
    ensures var n := |events| - 1;
            events[n].BlockStart? ==> events[n].index == |Tracked(events[..n], 0).blocks|
  {
    hide Tracked;
    var n := |events| - 1;
    PrefixNotBroken(START, events, n);
    BlocksAreStreamed(events[..n], 0);
  }

  lemma {:induction false} ClosersKeepBlocks(events: seq<Event>, open: seq<nat>)
    ensures Tracked(events + Closers(open), 0).blocks == Tracked(events, 0).blocks
    decreases |open|
  {
    if open == [] {
      assert events + Closers(open) == events;
    } else {
      var n := |open| - 1;
      ClosersKeepBlocks(events, open[..n]);
      assert Closers(open) == Closers(open[..n]) + [BlockStop(open[n])];
      TrackedOne(events + Closers(open[..n]), BlockStop(open[n]));
      assert events + Closers(open) == (events + Closers(open[..n])) + [BlockStop(open[n])];
    }
  }

  // What a hop shows adds its blocks to those read so far.
  lemma ShownReads(before: seq<Event>, events: seq<Event>, base: nat, hasNext: bool, splice: Splice)
    requires |Tracked(before, 0).blocks| == base && Numbered(Tracked(before, 0).blocks) && Run(START, events).At?
    ensures Joins(Tracked(before + Shown(events, base, hasNext, Some(splice)), 0).blocks, Tracked(before, 0).blocks,
                  Tracked(events[..ReadOf(events, hasNext)], 0).blocks)
  {
    hide Run, Tracked, Forwarded, Joins, Numbered, Cut, Closers;
    var n := ReadOf(events, hasNext);
    PrefixNotBroken(START, events, n);
    ForwardedReads(before, events[..n], base, splice);
    var forwarded := Forwarded(events[..n], base, Some(splice));
    var open := Tracked(events[..n], base).open;
    ClosersKeepBlocks(before + forwarded, open);
    assert before + (forwarded + Closers(open)) == (before + forwarded) + Closers(open);
    assert before + (forwarded + []) == before + forwarded;
  }

  lemma JoinedBlocks(all: Track, front: Track, back: Track)
    requires Joins(all.blocks, front.blocks, back.blocks)
    ensures BlocksOf(all) == BlocksOf(front) + BlocksOf(back)
  {
    assert forall k | 0 <= k < |front.blocks| :: all.blocks[k] == all.blocks[..|front.blocks|][k];
    var a, f := BlocksOf(all), BlocksOf(front);
    forall k | 0 <= k < |a| ensures a[k] == (f + BlocksOf(back))[k] {
      if k >= |f| { assert all.blocks[|f| + (k - |f|)].block == back.blocks[k - |f|].block; }
    }
  }

  lemma BoundaryReads(before: seq<Event>, index: nat, from: Issued, model: string)
    requires |Tracked(before, 0).blocks| == index && Numbered(Tracked(before, 0).blocks)
    ensures var all := Tracked(before + Boundary(index, from, model), 0);
            && |all.blocks| == index + 1 && Numbered(all.blocks)
            && BlocksOf(all) == BlocksOf(Tracked(before, 0))
                                + [Fallback(from.model, model, from.refusal.details.category)]
  {
    hide Tracked;
    var b := Boundary(index, from, model);
    TrackedOne(before, b[0]);
    TrackedOne(before + [b[0]], b[1]);
    assert before + b == (before + [b[0]]) + [b[1]];
  }

  lemma FirstReads(s: Setting)
    requires s.Falls() && WellFormed(s.first)
    ensures Tracked(Visible(s, []), 0).blocks == Tracked(s.first[..Cut(s.first)], 0).blocks
    ensures Numbered(Tracked(Visible(s, []), 0).blocks)
  {
    hide Run, Tracked, Cut, Numbered, Closers;
    var n := Cut(s.first);
    var read := s.first[..n];
    ForwardedVerbatim(read, 0);
    ClosersKeepBlocks(read, Tracked(read, 0).open);
    PrefixNotBroken(START, s.first, n);
    StreamNumbered(read);
    assert Visible(s, []) == read + Closers(Tracked(read, 0).open);
  }

  lemma StreamNumbered(events: seq<Event>)
    requires Run(START, events).At?
    ensures Numbered(Tracked(events, 0).blocks) && |Tracked(events, 0).blocks| == Run(START, events).count
  {
    hide Run, Tracked;
    BlocksAreStreamed(events, 0);
  }

  // Where the client's message stands after `before` and the boundary for `hop`.
  lemma OpenedReads(s: Setting, before: seq<Exchange>, hop: nat)
    requires s.Falls() && Run(START, Visible(s, before)) == At(Body, IndexAfter(s, before), {})
    requires BlocksOf(Tracked(Visible(s, before), 0)) == Contents(s, before)
    ensures var t := Tracked(Visible(s, before) + BoundaryOf(s, before, hop), 0);
            && |t.blocks| == IndexAt(s, before, hop) && Numbered(t.blocks)
            && BlocksOf(t) == Contents(s, before) + BoundaryBlocks(s, before, hop)
  {
    hide Run, Tracked, Visible, Contents, InFlight, Boundary, Numbered, IndexAfter;
    StreamNumbered(Visible(s, before));
    if Opens(before, hop) {
      BoundaryReads(Visible(s, before), IndexAfter(s, before), InFlight(s, before), s.ModelOf(hop));
    } else {
      assert Visible(s, before) + [] == Visible(s, before) && Contents(s, before) + [] == Contents(s, before);
    }
  }

  /**
   The client reads every block that stream A and the served hops streamed, as they streamed it, and between them a
   fallback block for each entry tried, from the model that refused to the entry's.
   */
  lemma {:induction false} ClientReads(s: Setting, xs: seq<Exchange>)
    requires s.Falls() && Lawful(s, xs) && HopsWellFormed(s, xs)
    ensures BlocksOf(Tracked(Visible(s, xs), 0)) == Contents(s, xs)
    decreases |xs|
  {
    hide Run, Tracked, Shown, Visible, OutcomeOf, BoundaryOf, BoundaryBlocks, Iterations, InFlight, Justified, Lawful,
      Cut, BlocksOf, IndexAfter, BuildFallbackRequest, Joins, Numbered;
    if xs == [] {
      FirstReads(s);
      SameBlocks(Tracked(Visible(s, xs), 0), Tracked(s.first[..Cut(s.first)], 0));
    } else {
      var n := |xs| - 1;
      var before, x := xs[..n], xs[n];
      assert xs == before + [x];
      LastJustified(s, xs);
      ClientReads(s, before);
      VisibleForm(s, before);
      StandsInBody(s, xs);
      OpenedReads(s, before, x.hop);
      var soFar := Visible(s, before) + BoundaryOf(s, before, x.hop);
      if x.reply.Served? {
        ServedNext(s, before, x);
        var splice := Splice(Iterations(s, before), s.ModelOf(x.hop));
        ShownReads(soFar, x.reply.events, IndexAt(s, before, x.hop), s.HasNext(x.hop), splice);
        JoinedBlocks(Tracked(soFar + ShownOf(s, before, x), 0), Tracked(soFar, 0),
                     Tracked(x.reply.events[..ReadOf(x.reply.events, s.HasNext(x.hop))], 0));
      } else {
        UnservedNext(s, before, x);
      }
    }
  }

  lemma SameBlocks(a: Track, b: Track)
    requires a.blocks == b.blocks
    ensures BlocksOf(a) == BlocksOf(b)
  {
  }

  lemma StandsInBody(s: Setting, xs: seq<Exchange>)
    requires s.Falls() && xs != [] && Lawful(s, xs) && Stands(s, xs[..|xs| - 1])
    ensures Run(START, Visible(s, xs[..|xs| - 1])) == At(Body, IndexAfter(s, xs[..|xs| - 1]), {})
  {
    hide Run, Visible, IndexAfter, InFlight, BuildFallbackRequest, Lawful;
    LastJustified(s, xs);
  }

  // ----- who refused, and usage -----

  /** In a well-formed stream the opening is what its one `message_start` says. */
  lemma {:induction false} OpeningIsStart(events: seq<Event>, start: Event)
    requires Run(START, events).At? && start in events && start.MessageStart?
    ensures OpeningOf(events) == Opening(Some(start.model), start.startUsage, start.startTransformations)
    ensures Run(START, events).phase != Fresh
    decreases |events|
  {
    hide Run;
    var n := |events| - 1;
    PrefixNotBroken(START, events, n);
    RunNext(START, events[..n], events[n]);
    assert events[..n] + [events[n]] == events;
    if start in events[..n] {
      OpeningIsStart(events[..n], start);
    } else {
      NoStartYet(events[..n]);
    }
  }

  lemma {:induction false} NoStartYet(events: seq<Event>)
    requires Run(START, events).At? && Run(START, events).phase == Fresh
    ensures OpeningOf(events) == Opening(None, NO_USAGE, None)
    decreases |events|
  {
    hide Run;
    if events != [] {
      var n := |events| - 1;
      PrefixNotBroken(START, events, n);
      RunNext(START, events[..n], events[n]);
      assert events[..n] + [events[n]] == events;
      NoStartYet(events[..n]);
    }
  }

  // A usage in which a field reported by `own` wins over the one that the start reported.
  predicate Fills(u: Usage, own: Usage, start: Usage) {
    && u.inputTokens == (if own.inputTokens.Some? then own.inputTokens else start.inputTokens)
    && u.outputTokens == (if own.outputTokens.Some? then own.outputTokens else start.outputTokens)
    && u.cacheRead == (if own.cacheRead.Some? then own.cacheRead else start.cacheRead)
    && u.cacheCreation == (if own.cacheCreation.Some? then own.cacheCreation else start.cacheCreation)
    && u.cacheDetail == (if own.cacheDetail.Some? then own.cacheDetail else start.cacheDetail)
  }

  // An iteration with that usage, where what is missing counts as zero.
  ghost predicate Reports(it: Iteration, fallback: bool, model: string, own: Usage, start: Usage) {
    && it.fallback == fallback && it.model == model
    && exists u :: Fills(u, own, start)
         && it.inputTokens == (if u.inputTokens.Some? then u.inputTokens.value else 0)
         && it.outputTokens == (if u.outputTokens.Some? then u.outputTokens.value else 0)
         && it.cacheRead == (if u.cacheRead.Some? then u.cacheRead.value else 0)
         && it.cacheCreation == (if u.cacheCreation.Some? then u.cacheCreation.value else 0)
         && it.cacheDetail == u.cacheDetail
  }

  lemma FilledReports(own: Usage, start: Usage, fallback: bool, model: string, more: seq<Iteration>)
    ensures Fills(Backfill(own, start).(iterations := more), own, start)
    ensures Reports(ToIterationUsage(fallback, model, Backfill(own, start)), fallback, model, own, start)
  {
    assert Fills(Backfill(own, start), own, start);
  }

  // Who refused, as a boundary names it, and with what usage.
  lemma InFlightIsEvent(s: Setting, xs: seq<Exchange>, n: nat, start: Event)
    requires s.Falls() && Refused(s, xs, Issuer(s, xs)) && RefusesAt(StreamOf(s, xs, Issuer(s, xs)), n)
    requires WellFormed(StreamOf(s, xs, Issuer(s, xs)))
    requires start.MessageStart? && start in StreamOf(s, xs, Issuer(s, xs))[..n]
    ensures var r := Issuer(s, xs);
            var ev := StreamOf(s, xs, r)[n];
            && InFlight(s, xs).model == (if r < 0 then start.model else s.ModelOf(xs[r].hop))
            && InFlight(s, xs).refusal.details == ev.details.value
            && InFlight(s, xs).refusal.usage == Backfill(ev.usage, start.startUsage)
            && InFlight(s, xs).refusal.transformations == if r < 0 then None else start.startTransformations
  {
    hide Cut, Tracked, OpeningOf, Backfill, PartialOf, BlocksOf, Run;
    var events := StreamOf(s, xs, Issuer(s, xs));
    CutIsRefusal(events, n);
    PrefixNotBroken(START, events, n);
    OpeningIsStart(events[..n], start);
  }

  /** A boundary goes from the model that refused last to the entry, and says why that one refused. */
  lemma BoundaryNames(s: Setting, xs: seq<Exchange>, hop: nat, n: nat, start: Event)
    requires s.Falls() && Refused(s, xs, Issuer(s, xs)) && RefusesAt(StreamOf(s, xs, Issuer(s, xs)), n)
    requires WellFormed(StreamOf(s, xs, Issuer(s, xs))) && hop < |s.fallbacks|
    requires start.MessageStart? && start in StreamOf(s, xs, Issuer(s, xs))[..n]
    ensures var r := Issuer(s, xs);
            BoundaryBlocks(s, xs, hop) ==
            if xs != [] && xs[|xs| - 1].hop == hop then []
            else [Fallback(if r < 0 then start.model else s.fallbacks[xs[r].hop], s.fallbacks[hop],
                           StreamOf(s, xs, r)[n].details.value.category)]
  {
    hide InFlight;
    InFlightIsEvent(s, xs, n, start);
    var r := Issuer(s, xs);
    assert r >= 0 ==> s.Chained(xs[r]);
  }

  /**
   When every entry has failed, the message ends in the refusal that was held, as it came but for the entry tried last
   as the recommended model.
   */
  lemma DegradedIsRefusal(s: Setting, xs: seq<Exchange>, n: nat, start: Event)
    requires s.Falls() && Lawful(s, xs) && Ends(s, xs) && s.Failed(xs[|xs| - 1])
    requires Refused(s, xs, Issuer(s, xs)) && RefusesAt(StreamOf(s, xs, Issuer(s, xs)), n)
    requires WellFormed(StreamOf(s, xs, Issuer(s, xs)))
    requires start.MessageStart? && start in StreamOf(s, xs, Issuer(s, xs))[..n]
    ensures var r := Issuer(s, xs);
            var ev, all := StreamOf(s, xs, r)[n], MessageOf(s, xs);
            && |all| >= 2 && all[..|all| - 2] == Visible(s, xs) && all[|all| - 1] == MessageStop
            && var end := all[|all| - 2];
               && end.MessageDelta? && end.stop == ByRefusal && Fills(end.usage, ev.usage, start.startUsage)
               && end.details == Some(ev.details.value.(recommended := Some(s.ModelOf(xs[|xs| - 1].hop))))
               && end.transformations == if r < 0 then None else start.startTransformations
  {
    hide InFlight, Visible, Lawful, BuildFallbackRequest;
    InFlightIsEvent(s, xs, n, start);
    var r := Issuer(s, xs);
    var usage := StreamOf(s, xs, r)[n].usage;
    FilledReports(usage, start.startUsage, false, "", Backfill(usage, start.startUsage).iterations);
    HopsAscend(s, xs, |xs| - 1, |xs| - 1);
    var visible := Visible(s, xs);
    var all := MessageOf(s, xs);
    assert all[..|all| - 2] == visible;
  }

  /** One iteration is reported for stream A, with its own usage or else that of its start. */
  lemma FirstIteration(s: Setting, n: nat, start: Event)
    requires s.Falls() && RefusesAt(s.first, n) && WellFormed(s.first)
    requires start.MessageStart? && start in s.first[..n]
    ensures |Iterations(s, [])| == 1
    ensures Reports(Iterations(s, [])[0], false, start.model, s.first[n].usage, start.startUsage)
  {
    hide InFlight, IssuedByFirst, Backfill, ToIterationUsage;
    InFlightIsEvent(s, [], n, start);
    FirstIssued(s);
    FilledReports(s.first[n].usage, start.startUsage, false, start.model, []);
  }

  lemma FirstIssued(s: Setting)
    requires s.Falls()
    ensures InFlight(s, []) == IssuedByFirst(s)
  {
  }

  /** And one for each hop that refuses with an entry left; any other exchange reports none. */
  lemma NextIteration(s: Setting, xs: seq<Exchange>, x: Exchange, n: nat, start: Event)
    requires s.Falls()
    ensures !s.Chained(x) ==> Iterations(s, xs + [x]) == Iterations(s, xs)
    ensures s.Chained(x) && RefusesAt(x.reply.events, n) && WellFormed(x.reply.events)
            && start.MessageStart? && start in x.reply.events[..n] ==>
              var all := Iterations(s, xs + [x]);
              && |all| == |Iterations(s, xs)| + 1 && all[..|all| - 1] == Iterations(s, xs)
              && Reports(all[|all| - 1], false, s.fallbacks[x.hop], x.reply.events[n].usage, start.startUsage)
  {
    hide InFlight, IssuedBy, Backfill, ToIterationUsage, IssuedByFirst;
    var next := xs + [x];
    assert next[..|next| - 1] == xs;
    assert Iterations(s, xs) + [] == Iterations(s, xs);
    if s.Chained(x) && RefusesAt(x.reply.events, n) && WellFormed(x.reply.events)
       && start.MessageStart? && start in x.reply.events[..n] {
      LastIssues(s, xs, x);
      InFlightIsEvent(s, next, n, start);
      FilledReports(x.reply.events[n].usage, start.startUsage, false, s.fallbacks[x.hop], []);
    }
  }

  lemma LastIssues(s: Setting, xs: seq<Exchange>, x: Exchange)
    requires s.Falls() && s.Chained(x)
    ensures Issuer(s, xs + [x]) == |xs| && InFlight(s, xs + [x]) == IssuedBy(s, x)
  {
  }

  /**
   A spliced hop's `message_delta` reaches the client with its own usage, or else that of its start, and with the
   iterations of the refusals before it and its own as a fallback.
   */
  lemma DeltaReaches(events: seq<Event>, n: nat, base: nat, splice: Splice, start: Event)
    requires Run(START, events).At? && n < |events| && events[n].MessageDelta?
    requires start.MessageStart? && start in events[..n]
    ensures var before := Forwarded(events[..n], base, Some(splice));
            var all, ev := Forwarded(events[..n + 1], base, Some(splice)), events[n];
            && |all| == |before| + 1 && all[..|before|] == before
            && var out := all[|before|];
               && out.MessageDelta? && out.stop == ev.stop && out.details == ev.details
               && Fills(out.usage, ev.usage, start.startUsage)
               && |out.usage.iterations| == |splice.iterations| + 1
               && out.usage.iterations[..|splice.iterations|] == splice.iterations
               && Reports(out.usage.iterations[|splice.iterations|], true, splice.model, ev.usage, start.startUsage)
               && out.transformations
                  == if ev.transformations.Some? then ev.transformations else start.startTransformations
  {
    hide Run, OpeningOf, Backfill, ToIterationUsage, Forwarded;
    PrefixNotBroken(START, events, n);
    OpeningIsStart(events[..n], start);
    ForwardedNext(events, n, base, splice);
    var filled := Backfill(events[n].usage, start.startUsage);
    var own := ToIterationUsage(true, splice.model, filled);
    FilledReports(events[n].usage, start.startUsage, true, splice.model, splice.iterations + [own]);
  }

  lemma ForwardedNext(events: seq<Event>, n: nat, base: nat, splice: Splice)
    requires n < |events|
    ensures Forwarded(events[..n + 1], base, Some(splice))
         == Forwarded(events[..n], base, Some(splice)) + Forward(events[n], OpeningOf(events[..n]), base, Some(splice))
  {
    hide Forward, OpeningOf;
    assert events[..n + 1][..n] == events[..n];
  }

  /** Block events reach the client with their indices shifted, all others as they are, but not another start. */
  lemma OthersReach(events: seq<Event>, n: nat, base: nat, splice: Splice)
    requires n < |events| && !events[n].MessageDelta?
    ensures Forwarded(events[..n + 1], base, Some(splice))
         == Forwarded(events[..n], base, Some(splice))
            + match events[n]
              case MessageStart(_, _, _) => []
              case BlockStart(i, b) => [BlockStart(base + i, b)]
              case BlockDelta(i, d) => [BlockDelta(base + i, d)]
              case BlockStop(i) => [BlockStop(base + i)]
              case _ => [events[n]]
  {
    hide OpeningOf, Forwarded;
    ForwardedNext(events, n, base, splice);
  }
}
