/**
 The access token cache: a coalescing refresh over any interleaving of calls, completions and invalidations.

 Times are whole or fractional seconds. A provider call is known by its number; a `getToken` that waits for it is
 answered with its outcome.
 */
module TokenCache {
  datatype Option<T> = None | Some(value: T)

  datatype Token = Token(text: nat, expiresAt: Option<real>)

  const ADVISORY_THRESHOLD: real := 120.0

  const MANDATORY_THRESHOLD: real := 30.0

  const ADVISORY_BACKOFF: real := 5.0

  // What a `getToken` gets: a token at once, or the outcome of a provider call.
  datatype Answer = Now(token: Token) | Later(call: nat)

  datatype Outcome = Fetched(token: Token) | Failed

  // A provider call: whether it was forced, whether a background refresh made it, and its outcome once it is settled.
  datatype Call = Call(forced: bool, advisory: bool, outcome: Option<Outcome>)

  class Cache {
    var cached: Option<Token>
    var pendingRefresh: Option<nat>
    var nextForce: bool
    var lastAdvisoryError: real
    var calls: seq<Call>                 // every provider call so far
    ghost var overlapped: bool           // whether a call was ever made over a pending one
    ghost var source: nat                // the call that the cached token came from

    predicate InFlight(k: nat)
      reads this`calls
    {
      k < |calls| && calls[k].outcome.None?
    }

    predicate Fetches(k: nat)
      reads this`calls
    {
      k < |calls| && calls[k].outcome.Some? && calls[k].outcome.value.Fetched?
    }

    // No call made after the one that the cached token came from has fetched a token.
    ghost predicate Newest()
      reads this`calls, this`source
    {
      forall k | source < k < |calls| :: !Fetches(k)
    }

    ghost predicate Valid()
      reads this
    {
      && (pendingRefresh.Some? ==> pendingRefresh.value < |calls|)
      && (cached.Some? ==> source < |calls| && calls[source].outcome == Some(Fetched(cached.value)))
      && (!overlapped ==>
            && (forall k | 0 <= k < |calls| :: InFlight(k) <==> pendingRefresh == Some(k))
            && (pendingRefresh.Some? ==> pendingRefresh.value == |calls| - 1)
            && (cached.Some? ==> Newest()))
    }

    constructor ()
      ensures Valid() && calls == [] && !overlapped && !nextForce && cached == None
    {
      cached, pendingRefresh, nextForce, lastAdvisoryError := None, None, false, 0.0;
      calls, overlapped, source := [], false, 0;
    }

    /**
     Answers with the cached token only when it has no expiry or more than 30 s left; otherwise with the refresh in
     flight or a new one; and the first call after an invalidation with a forced call of its own. Only that call can
     overlap another, and it does exactly when it finds a refresh pending. A cached token with at most 120 s left is
     refreshed in the background exactly when no refresh is pending and the last one to fail did so 5 s ago or more.
     */
    method GetToken(now: real) returns (answer: Answer)
      requires Valid()
      modifies this`pendingRefresh, this`nextForce, this`calls, this`overlapped
      ensures Valid() && !nextForce
      ensures overlapped <==> old(overlapped) || (old(nextForce) && old(pendingRefresh).Some?)
      ensures !old(overlapped) && overlapped ==>
                && old(pendingRefresh).value < |old(calls)|
                && InFlight(old(pendingRefresh).value) && InFlight(|old(calls)|)
      ensures old(calls) <= calls && |calls| <= |old(calls)| + 1
      ensures answer.Now? ==>
                && cached == Some(answer.token)
                && (answer.token.expiresAt.Some? ==> answer.token.expiresAt.value - now > 30.0)
      ensures old(nextForce) ==>
                && answer == Later(|old(calls)|) && calls == old(calls) + [Call(true, false, None)]
                && pendingRefresh == Some(|old(calls)|)
      ensures answer.Later? && !old(nextForce) ==>
                && pendingRefresh == Some(answer.call)
                && (old(pendingRefresh).Some? ==> answer.call == old(pendingRefresh).value && calls == old(calls))
                && (old(pendingRefresh).None? ==> calls == old(calls) + [Call(false, false, None)])
      ensures answer.Now? <==>
                && !old(nextForce) && cached.Some?
                && (cached.value.expiresAt.Some? ==> cached.value.expiresAt.value - now > 30.0)
      ensures answer.Now? ==>
                if && old(pendingRefresh).None? && now - lastAdvisoryError >= 5.0
                   && answer.token.expiresAt.Some? && answer.token.expiresAt.value - now <= 120.0
                then calls == old(calls) + [Call(false, true, None)] && pendingRefresh == Some(|old(calls)|)
                else calls == old(calls) && pendingRefresh == old(pendingRefresh)
    {
      var force := nextForce;
      nextForce := false;
      if force || cached.None? {
        var call := Refresh(force);
        return Later(call);
      }
      var token := cached.value;
      if token.expiresAt.None? { return Now(token); }
      var remaining := token.expiresAt.value - now;
      if remaining > ADVISORY_THRESHOLD { return Now(token); }
      if remaining > MANDATORY_THRESHOLD {
        BackgroundRefresh(now);
        return Now(token);
      }
      var call := Refresh(false);
      return Later(call);
    }

    // After a 401: the next `getToken` asks the provider anew.
    method Invalidate()
      requires Valid()
      modifies this`cached, this`nextForce
      ensures Valid() && cached == None && nextForce
    {
      cached, nextForce := None, true;
    }

    method Refresh(force: bool) returns (call: nat)
      requires Valid()
      modifies this`pendingRefresh, this`calls, this`overlapped
      ensures Valid() && pendingRefresh == Some(call)
      ensures overlapped == (old(overlapped) || (force && old(pendingRefresh).Some?))
      ensures old(pendingRefresh).Some? && !force ==> call == old(pendingRefresh).value && calls == old(calls)
      ensures old(pendingRefresh).None? || force ==>
                call == |old(calls)| && calls == old(calls) + [Call(force, false, None)]
    {
      if pendingRefresh.Some? && !force { return pendingRefresh.value; }
      call := DoRefresh(force, false);
    }

    method BackgroundRefresh(now: real)
      requires Valid()
      modifies this`pendingRefresh, this`calls, this`overlapped
      ensures Valid() && overlapped == old(overlapped)
      ensures if old(pendingRefresh).None? && now - lastAdvisoryError >= 5.0
              then calls == old(calls) + [Call(false, true, None)] && pendingRefresh == Some(|old(calls)|)
              else calls == old(calls) && pendingRefresh == old(pendingRefresh)
    {
      if pendingRefresh.Some? { return; }
      if now - lastAdvisoryError < ADVISORY_BACKOFF { return; }
      var _ := DoRefresh(false, true);
    }

    method DoRefresh(force: bool, advisory: bool) returns (call: nat)
      requires Valid()
      modifies this`pendingRefresh, this`calls, this`overlapped
      ensures Valid() && call == |old(calls)| && pendingRefresh == Some(call)
      ensures calls == old(calls) + [Call(force, advisory, None)]
      ensures overlapped == (old(overlapped) || old(pendingRefresh).Some?)
    {
      overlapped := overlapped || pendingRefresh.Some?;
      call := |calls|;
      calls := calls + [Call(force, advisory, None)];
      pendingRefresh := Some(call);
      assert forall k | 0 <= k < call :: calls[k] == old(calls)[k];
      assert forall k | 0 <= k < call :: Fetches(k) == old(Fetches(k));
    }

    /**
     A provider call settles: its token is cached, and whoever waits for it is answered with its outcome; a failed
     background refresh starts the back-off. The cached token is then the newest fetched exactly when no call made
     after this one had fetched one already.
     */
    method Settle(k: nat, outcome: Outcome, now: real)
      requires Valid() && InFlight(k)
      modifies this`cached, this`pendingRefresh, this`lastAdvisoryError, this`calls, this`source
      ensures Valid() && pendingRefresh == None
      ensures outcome.Fetched? ==> (Newest() <==> forall j | k < j < |calls| :: !old(Fetches(j)))
      ensures outcome.Failed? && old(cached).Some? ==> (Newest() <==> old(Newest())) && source == old(source)
      ensures calls == old(calls)[k := old(calls)[k].(outcome := Some(outcome))]
      ensures cached == if outcome.Fetched? then Some(outcome.token) else old(cached)
      ensures lastAdvisoryError == if outcome.Failed? && calls[k].advisory then now else old(lastAdvisoryError)
    {
      ghost var before := calls;
      if outcome.Fetched? { cached, source := Some(outcome.token), k; }
      pendingRefresh := None;
      if outcome.Failed? && calls[k].advisory { lastAdvisoryError := now; }
      calls := calls[k := calls[k].(outcome := Some(outcome))];
      assert forall j | 0 <= j < |calls| && j != k :: calls[j] == before[j];
      assert forall j | 0 <= j < |calls| && j != k :: Fetches(j) == old(Fetches(j));
    }

    /** Until a forced call is made over a pending one, at most one call is in flight: the one that callers join. */
    lemma OneCallAtATime(j: nat, k: nat)
      requires Valid() && !overlapped && InFlight(j)
      ensures pendingRefresh == Some(j)
      ensures InFlight(k) ==> k == j
    {}

    /** Until then, too, the cached token is that of the last call that fetched one. */
    lemma CachedIsNewest(k: nat)
      requires Valid() && !overlapped && cached.Some? && Fetches(k)
      ensures Fetches(source) && calls[source].outcome == Some(Fetched(cached.value)) && k <= source
    {}
  }

  /**
   Of any two provider calls in flight, the older one, when it settles last, overwrites the newer token.
   */
  method OlderOverwrites(cache: Cache, j: nat, k: nat, older: Token, newer: Token, now: real, later: real)
    requires cache.Valid() && j < k && cache.InFlight(j) && cache.InFlight(k)
    modifies cache
    ensures cache.Valid() && cache.overlapped && cache.cached == Some(older) && !cache.Newest()
  {
    cache.Settle(k, Fetched(newer), now);
    assert cache.Fetches(k);
    cache.Settle(j, Fetched(older), later);
  }

  /**
   An invalidation while a refresh is in flight puts two provider calls in flight, and the older one, when it settles
   last, overwrites the newer token.
   */
  method OlderRefreshOverwrites(older: Token, newer: Token) returns (cache: Cache)
    ensures cache.cached == Some(older) && |cache.calls| == 2
    ensures cache.calls[1] == Call(true, false, Some(Fetched(newer)))
  {
    cache := new Cache();
    var first := cache.GetToken(0.0);
    cache.Invalidate();
    var second := cache.GetToken(0.0);
    assert cache.InFlight(0) && cache.InFlight(1);
    cache.Settle(1, Fetched(newer), 0.0);
    cache.Settle(0, Fetched(older), 0.0);
  }
}
