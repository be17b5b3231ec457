/** What every run of the refusal-fallback splicer keeps: one well-formed message, and redeemable credit. */
module FallbackLaws {
  import opened FallbackStream
  import opened FallbackForm
  import opened FallbackSplice

  // Stream A and every served stream are well formed; a refusal may have cut them off inside a block.
  predicate HopsWellFormed(s: Setting, xs: seq<Exchange>) {
    if xs == [] then WellFormed(s.first)
    else
      var n := |xs| - 1;
      HopsWellFormed(s, xs[..n]) && (xs[n].reply.Served? ==> WellFormed(xs[n].reply.events))
  }

  // ----- one message -----

  // Where the client's message stands after `xs`.
  ghost predicate Stands(s: Setting, xs: seq<Exchange>)
    requires s.Falls()
  {
    var end := Run(START, Visible(s, xs));
    if xs != [] && xs[|xs| - 1].reply.Served? && !s.Chained(xs[|xs| - 1]) then end.At? && end.phase == Done
    else end == At(Body, IndexAfter(s, xs), {})
  }

  lemma BoundaryForm(index: nat, from: Issued, model: string)
    ensures Run(At(Body, index, {}), Boundary(index, from, model)) == At(Body, index + 1, {})
  {
    var v := At(Body, index, {});
    var b := Boundary(index, from, model);
    RunOne(v, b[0]);
    assert b == [b[0]] + [b[1]];
    RunNext(v, [b[0]], b[1]);
    assert {index} - {index} == {};
  }

  lemma {:induction false} VisibleForm(s: Setting, xs: seq<Exchange>)
    requires s.Falls() && Lawful(s, xs) && HopsWellFormed(s, xs)
    ensures Stands(s, xs)
    decreases |xs|
  {
    hide Run, Shown, OutcomeOf, WellFormed, Boundary, Iterations, InFlight, Justified, BuildFallbackRequest,
      Lawful, Cut;
    if xs == [] {
      HopForm(s.first, 0, true, None);
      FirstChained(s);
    } else {
      var n := |xs| - 1;
      var before, x := xs[..n], xs[n];
      assert xs == before + [x];
      LastJustified(s, xs);
      VisibleForm(s, before);
      assert Run(START, Visible(s, before)) == At(Body, IndexAfter(s, before), {});
      var soFar := Visible(s, before) + BoundaryOf(s, before, x.hop);
      OpenedForm(s, before, x.hop);
      if x.reply.Served? {
        ServedNext(s, before, x);
        HopForm(x.reply.events, IndexAt(s, before, x.hop), s.HasNext(x.hop),
                Some(Splice(Iterations(s, before), s.ModelOf(x.hop))));
        RunConcat(START, soFar, ShownOf(s, before, x));
      } else {
        UnservedNext(s, before, x);
      }
    }
  }

  lemma FirstChained(s: Setting)
    requires s.Falls()
    ensures var a := OutcomeOf(s.first, 0, true, false);
            a.refused.Some? && IndexAfter(s, []) == a.nextIndex && Visible(s, []) == Shown(s.first, 0, true, None)
  {
    hide Shown;
  }

  lemma LastJustified(s: Setting, xs: seq<Exchange>)
    requires s.Falls() && Lawful(s, xs) && xs != []
    ensures var n := |xs| - 1;
            Lawful(s, xs[..n]) && Justified(s, xs[..n], xs[n])
            && (n > 0 ==> s.Failed(xs[n - 1]) || s.Chained(xs[n - 1]))
  {
    hide InFlight, BuildFallbackRequest;
    assert xs[..|xs| - 1] != [] ==> xs[..|xs| - 1][|xs| - 2] == xs[|xs| - 2];
  }

  lemma {:induction false} JustifiedAt(s: Setting, xs: seq<Exchange>, k: nat)
    requires s.Falls() && Lawful(s, xs) && k < |xs|
    ensures Lawful(s, xs[..k]) && Justified(s, xs[..k], xs[k])
    decreases |xs|
  {
    hide Justified;
    var n := |xs| - 1;
    if k < n {
      JustifiedAt(s, xs[..n], k);
      assert xs[..n][..k] == xs[..k];
    }
  }

  lemma OpenedForm(s: Setting, before: seq<Exchange>, hop: nat)
    requires s.Falls() && Run(START, Visible(s, before)) == At(Body, IndexAfter(s, before), {})
    ensures Run(START, Visible(s, before) + BoundaryOf(s, before, hop)) == At(Body, IndexAt(s, before, hop), {})
  {
    hide Run, Visible, IndexAfter, Boundary, InFlight;
    if Opens(before, hop) {
      BoundaryForm(IndexAfter(s, before), InFlight(s, before), s.ModelOf(hop));
      RunConcat(START, Visible(s, before), BoundaryOf(s, before, hop));
    } else {
      assert Visible(s, before) + [] == Visible(s, before);
    }
  }

  // The client's message at the end of a run.
  function MessageOf(s: Setting, xs: seq<Exchange>): seq<Event>
    requires s.Falls() && Ends(s, xs)
  {
    Visible(s, xs) +
    if s.Failed(xs[|xs| - 1]) then Degraded(InFlight(s, xs), s.fallbacks[|s.fallbacks| - 1]) else []
  }

  /**
   However many entries are tried, and whether they are refused, fail or are rejected, the client sees one
   well-formed message, unless the request was aborted.
   */
  lemma OneMessage(s: Setting, xs: seq<Exchange>)
    requires s.Falls() && Lawful(s, xs) && Ends(s, xs) && HopsWellFormed(s, xs) && !xs[|xs| - 1].reply.Aborted?
    ensures WellFormed(MessageOf(s, xs))
  {
    hide Run, Lawful, InFlight, Visible, IndexAfter;
    VisibleForm(s, xs);
    var visible := Visible(s, xs);
    if s.Failed(xs[|xs| - 1]) {
      var tail := Degraded(InFlight(s, xs), s.fallbacks[|s.fallbacks| - 1]);
      RunNext(START, visible, tail[0]);
      RunNext(START, visible + [tail[0]], tail[1]);
      assert visible + tail == visible + [tail[0]] + [tail[1]];
    } else {
      assert visible + [] == visible;
    }
  }

  // ----- usage -----

  lemma {:induction false} NoStopInBody(events: seq<Event>)
    requires Run(START, events).At? && Run(START, events).phase in {Fresh, Body}
    ensures forall ev | ev in events && ev.MessageDelta? :: ev.stop == Unstopped
    decreases |events|
  {
    hide Step;
    if events != [] {
      var n := |events| - 1;
      PrefixNotBroken(START, events, n);
      NoStopBefore(Run(START, events[..n]), events[n]);
      NoStopInBody(events[..n]);
    }
  }

  lemma NoStopBefore(s: State, ev: Event)
    requires Step(s, ev).At? && Step(s, ev).phase in {Fresh, Body}
    ensures s.At? && s.phase in {Fresh, Body} && (ev.MessageDelta? ==> ev.stop == Unstopped)
  {}

  lemma {:induction false} SplicedUsage(events: seq<Event>, base: nat, splice: Splice)
    ensures forall ev | ev in Forwarded(events, base, Some(splice)) && ev.MessageDelta? ::
              ev.usage.iterations == splice.iterations + [ToIterationUsage(true, splice.model, ev.usage)]
    decreases |events|
  {
    if events != [] { SplicedUsage(events[..|events| - 1], base, splice); }
  }

  /**
   When a fallback's stream ends the message, every `message_delta` that stops the message reports one `message`
   iteration for stream A and each chained refusal, in order, and one `fallback_message` for the stream that ended it.
   */
  lemma TerminalUsage(s: Setting, xs: seq<Exchange>)
    requires s.Falls() && Lawful(s, xs) && Ends(s, xs) && HopsWellFormed(s, xs) && xs[|xs| - 1].reply.Served?
    ensures var n := |xs| - 1;
            forall ev | ev in MessageOf(s, xs) && ev.MessageDelta? && ev.stop != Unstopped ::
              ev.usage.iterations == Iterations(s, xs[..n])
                                     + [ToIterationUsage(true, s.ModelOf(xs[n].hop), ev.usage)]
  {
    hide Run, Iterations, InFlight, IndexAfter, Lawful, Forwarded, ToIterationUsage, OutcomeOf, Justified,
      WellFormed, Cut;
    var n := |xs| - 1;
    var before, x := xs[..n], xs[n];
    LastJustified(s, xs);
    VisibleForm(s, before);
    OpenedForm(s, before, x.hop);
    NoStopInBody(Visible(s, before) + BoundaryOf(s, before, x.hop));
    var splice := Splice(Iterations(s, before), s.ModelOf(x.hop));
    var read := ReadOf(x.reply.events, s.HasNext(x.hop));
    assert x.reply.events[..read] == x.reply.events;
    SplicedUsage(x.reply.events, IndexAt(s, before, x.hop), splice);
    assert ShownOf(s, before, x) == Forwarded(x.reply.events, IndexAt(s, before, x.hop), Some(splice));
    assert MessageOf(s, xs) == Visible(s, before) + BoundaryOf(s, before, x.hop) + ShownOf(s, before, x);
  }

  // The models that refused, in order: stream A's and each chained exchange's.
  function Refusers(s: Setting, xs: seq<Exchange>): seq<string> {
    if xs == [] then []
    else
      var n := |xs| - 1;
      Refusers(s, xs[..n]) + if s.Chained(xs[n]) then [s.ModelOf(xs[n].hop)] else []
  }

  lemma {:induction false} IterationsNameRefusers(s: Setting, xs: seq<Exchange>)
    requires s.Falls()
    ensures |Iterations(s, xs)| == 1 + |Refusers(s, xs)|
    ensures forall k | 0 <= k < |Iterations(s, xs)| :: !Iterations(s, xs)[k].fallback
    ensures forall k | 0 <= k < |Refusers(s, xs)| :: Iterations(s, xs)[k + 1].model == Refusers(s, xs)[k]
    decreases |xs|
  {
    hide OutcomeOf;
    if xs != [] { IterationsNameRefusers(s, xs[..|xs| - 1]); }
  }

  // ----- requests and credit -----

  /**
   Every request redeems the token of the latest refusal, is stream A's body but for the model, the token, a
   `between_tools` thinking turned off and one trailing assistant turn, and that turn carries exactly what the refused
   request carried, or that and the refused hop's output.
   */
  lemma CreditIsRedeemable(s: Setting, xs: seq<Exchange>, k: nat)
    requires s.Falls() && Lawful(s, xs) && k < |xs|
    ensures var body := xs[k].body;
            && body.rest == s.orig.rest && body.model == s.ModelOf(xs[k].hop)
            && body.thinking == (if s.orig.thinking.BetweenTools? then Disabled else s.orig.thinking)
            && body.messages == s.orig.messages
                 + if xs[k].continuation == [] then [] else [Assistant(xs[k].continuation)]
    ensures var r := Issuer(s, xs[..k]);
            && xs[k].body.token == Some(TokenOf(s, xs, r))
            && (xs[k].continuation == CarriedBy(xs, r) || xs[k].continuation == CarriedBy(xs, r) + OutputOf(s, xs, r))
  {
    hide Tracked, OpeningOf, ToPrefillBlocks, BlocksOf, Lawful;
    JustifiedAt(s, xs, k);
    var r := Issuer(s, xs[..k]);
    assert r >= 0 ==> xs[..k][r] == xs[r];
  }

  // Refusals are known by where they came from: exchange `r`, or stream A when `r` is -1.
  predicate Refused(s: Setting, xs: seq<Exchange>, r: int) {
    r == -1 || (0 <= r < |xs| && s.Chained(xs[r]))
  }

  function RefusalOf(s: Setting, xs: seq<Exchange>, r: int): Refusal
    requires s.Falls() && Refused(s, xs, r)
  {
    if r < 0 then IssuedByFirst(s).refusal else IssuedBy(s, xs[r]).refusal
  }

  function TokenOf(s: Setting, xs: seq<Exchange>, r: int): Token
    requires s.Falls() && Refused(s, xs, r)
  {
    RefusalOf(s, xs, r).token
  }

  // What the refused request carried, and what its hop's output adds when the refusal allows it to be resent.
  function CarriedBy(xs: seq<Exchange>, r: int): seq<Block>
    requires -1 <= r < |xs|
  {
    if r < 0 then [] else xs[r].continuation
  }

  function OutputOf(s: Setting, xs: seq<Exchange>, r: int): seq<Block>
    requires s.Falls() && Refused(s, xs, r)
  {
    if r < 0 then IssuedByFirst(s).partial else IssuedBy(s, xs[r]).partial
  }

  lemma OutputIsClaimed(s: Setting, xs: seq<Exchange>, r: int)
    requires s.Falls() && Refused(s, xs, r)
    ensures OutputOf(s, xs, r) != [] ==> RefusalOf(s, xs, r).claim
  {
    hide OutcomeOf, ToPrefillBlocks;
  }

  function OutputsOf(s: Setting, xs: seq<Exchange>, rs: seq<int>): seq<Block>
    requires s.Falls() && forall i | 0 <= i < |rs| :: Refused(s, xs, rs[i])
  {
    if rs == [] then [] else OutputsOf(s, xs, rs[..|rs| - 1]) + OutputOf(s, xs, rs[|rs| - 1])
  }

  // Different refusals, in the order in which they came, each of which allowed its output to be resent.
  predicate ClaimsInOrder(s: Setting, xs: seq<Exchange>, rs: seq<int>)
    requires s.Falls()
  {
    forall i | 0 <= i < |rs| :: Refused(s, xs, rs[i]) && RefusalOf(s, xs, rs[i]).claim && (i > 0 ==> rs[i - 1] < rs[i])
  }

  /**
   The assistant turn of every request is the output of some of the refused hops, each at most once, in the order in
   which they refused, and only of hops whose refusal allowed it.
   */
  lemma {:induction false} TurnIsRefusedOutput(s: Setting, xs: seq<Exchange>, k: nat) returns (rs: seq<int>)
    requires s.Falls() && Lawful(s, xs) && k < |xs|
    ensures ClaimsInOrder(s, xs, rs) && (rs != [] ==> rs[|rs| - 1] < k)
    ensures xs[k].continuation == OutputsOf(s, xs, rs)
    decreases k
  {
    hide OutcomeOf, Lawful, OutputOf, RefusalOf;
    CreditIsRedeemable(s, xs, k);
    var r := Issuer(s, xs[..k]);
    assert r >= 0 ==> xs[..k][r] == xs[r];
    if r >= 0 { rs := TurnIsRefusedOutput(s, xs, r); } else { rs := []; }
    if xs[k].continuation != CarriedBy(xs, r) {
      OutputIsClaimed(s, xs, r);
      rs := rs + [r];
      assert rs[..|rs| - 1] + [r] == rs;
    }
  }

  /** A token is never sent again once the entry that redeemed it was served. */
  lemma RedeemedOnce(s: Setting, xs: seq<Exchange>, i: nat, j: nat)
    requires s.Falls() && Lawful(s, xs) && i < j < |xs| && xs[i].reply.Served?
    ensures s.Chained(xs[i]) && i <= Issuer(s, xs[..j])
  {
    hide InFlight, Issuer, BuildFallbackRequest, Lawful;
    JustifiedAt(s, xs, i + 1);
    assert xs[..i + 1][i] == xs[i];
    assert xs[..j][i] == xs[i];
  }

  lemma {:induction false} HopsAscend(s: Setting, xs: seq<Exchange>, i: nat, j: nat)
    requires s.Falls() && Lawful(s, xs) && i <= j < |xs|
    ensures s.firstHop <= xs[i].hop <= xs[j].hop < |s.fallbacks|
    decreases j
  {
    hide InFlight, BuildFallbackRequest, Lawful, Justified;
    JustifiedAt(s, xs, j);
    HopFollows(s, xs[..j], xs[j]);
    if j == 0 {
    } else if i < j {
      HopsAscend(s, xs, i, j - 1);
    } else {
      HopsAscend(s, xs, j - 1, j - 1);
    }
  }

  lemma HopFollows(s: Setting, xs: seq<Exchange>, x: Exchange)
    requires s.Falls() && Justified(s, xs, x)
    ensures x.hop < |s.fallbacks|
    ensures if xs == [] then x.hop == s.firstHop else xs[|xs| - 1].hop <= x.hop <= xs[|xs| - 1].hop + 1
  {
    hide InFlight, BuildFallbackRequest;
  }

  /** No entry is requested more than twice. */
  lemma AtMostTwoRequests(s: Setting, xs: seq<Exchange>, i: nat, j: nat, k: nat)
    requires s.Falls() && Lawful(s, xs) && i < j < k < |xs|
    ensures xs[i].hop < xs[k].hop
  {
    hide InFlight, BuildFallbackRequest, Lawful;
    HopsAscend(s, xs, i, k - 2);
    HopsAscend(s, xs, k - 2, k - 1);
    HopsAscend(s, xs, k - 1, k);
    JustifiedAt(s, xs, k);
    assert xs[..k][..k - 1] == xs[..k - 1];
  }

  /** Stream A is followed by every entry in turn until one of them ends the message. */
  lemma {:induction false} EveryEntryInTurn(s: Setting, xs: seq<Exchange>, hop: nat)
    requires s.Falls() && Lawful(s, xs) && xs != [] && s.firstHop <= hop <= xs[|xs| - 1].hop
    ensures exists k :: 0 <= k < |xs| && xs[k].hop == hop
    decreases |xs|
  {
    hide InFlight, BuildFallbackRequest;
    var n := |xs| - 1;
    LastJustified(s, xs);
    if xs[n].hop != hop {
      EveryEntryInTurn(s, xs[..n], hop);
      var k :| 0 <= k < |xs[..n]| && xs[..n][k].hop == hop;
      assert xs[k].hop == hop;
    }
  }
}
