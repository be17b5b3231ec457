/**
 The lease of a work item: heartbeats that keep it, why heartbeating ended, and what the teardown does.

 Times are real milliseconds. Timers are ideal: a beat is cut off, and a sleep ends, exactly after the interval. How
 each beat is answered, and when the session ends or is aborted, are arbitrary.
 */
module WorkItemLease {
  datatype Option<T> = None | Some(value: T)

  datatype Reason = RunnerDone | ControlPlaneStop | LeaseLost | HeartbeatRejected | AssumedLost

  // What a beat says it expects the server's last heartbeat to be.
  datatype Expected = NoHeartbeat | Heartbeat(value: nat)

  datatype Reply =
    | Success(heartbeat: nat, ttlSeconds: real, stopping: bool, extended: bool)
    | PreconditionFailed
    | Fatal
    | Transient          // any other failure, also a beat that was cut off

  // The requests and answers of a run, in order.
  datatype Exchange = Sent(expected: Expected) | Got(heartbeat: nat)

  const HEARTBEAT_DEFAULT: real := 30000.0

  const TTL_DEFAULT: real := 90000.0

  function Min(a: real, b: real): real { if a < b then a else b }

  function Max(a: real, b: real): real { if a < b then b else a }

  // Half the ttl, but at least a second and at most half a minute.
  function IntervalFor(ttl: real): (r: real)
    ensures 1000.0 <= r <= 30000.0
    ensures 2000.0 <= ttl <= 60000.0 ==> r + r == ttl
    ensures ttl <= 2000.0 ==> r == 1000.0
    ensures ttl >= 60000.0 ==> r == 30000.0
  {
    Max(1000.0, Min(ttl / 2.0, HEARTBEAT_DEFAULT))
  }

  class Lease {
    var endReason: Option<Reason>
    var aborted: bool

    ghost predicate Valid()
      reads this
    {
      endReason.Some? ==> aborted
    }

    predicate Lost()
      reads this
    {
      endReason == Some(LeaseLost) || endReason == Some(AssumedLost)
    }

    constructor ()
      ensures Valid() && endReason == None && !aborted
    {
      endReason, aborted := None, false;
    }

    // The first reason stays.
    method Finish(reason: Reason)
      requires Valid()
      modifies this
      ensures Valid() && aborted && endReason == if old(endReason).Some? then old(endReason) else Some(reason)
    {
      if endReason.None? { endReason := Some(reason); }
      aborted := true;
    }

    // The external signal, or a failure, aborts without a reason.
    method Abort()
      requires Valid()
      modifies this`aborted
      ensures Valid() && aborted
    {
      aborted := true;
    }
  }

  // The heartbeat value that the server last answered with.
  function LastGot(exchanges: seq<Exchange>): Expected {
    if exchanges == [] then NoHeartbeat
    else
      var n := |exchanges| - 1;
      if exchanges[n].Got? then Heartbeat(exchanges[n].heartbeat) else LastGot(exchanges[..n])
  }

  /** Every beat expects exactly the heartbeat of the last successful one before it. */
  ghost predicate Chained(exchanges: seq<Exchange>) {
    forall k | 0 <= k < |exchanges| && exchanges[k].Sent? :: exchanges[k].expected == LastGot(exchanges[..k])
  }

  lemma ChainedNext(exchanges: seq<Exchange>, next: Exchange)
    requires Chained(exchanges) && (next.Sent? ==> next.expected == LastGot(exchanges))
    ensures Chained(exchanges + [next])
    ensures LastGot(exchanges + [next]) == if next.Got? then Heartbeat(next.heartbeat) else LastGot(exchanges)
  {
    var all := exchanges + [next];
    assert all[..|exchanges|] == exchanges;
    forall k | 0 <= k < |all| && all[k].Sent? ensures all[k].expected == LastGot(all[..k]) {
      assert all[..k] == if k < |exchanges| then exchanges[..k] else exchanges;
    }
  }

  class HeartbeatLoop {
    const lease: Lease
    var interval: real
    var ttl: real
    var lastSuccess: real
    var last: Expected
    var beating: bool             // a beat is in flight; otherwise the loop sleeps
    var since: real               // when the beat or the sleep began
    var ended: bool
    ghost var exchanges: seq<Exchange>

    // How long the loop goes on without a success.
    ghost predicate OnTime()
      reads this
    {
      since <= lastSuccess + ttl + if beating then interval else 0.0
    }

    ghost predicate Valid()
      reads this, lease
    {
      && lease.Valid()
      && ttl > 0.0 && interval == IntervalFor(ttl) && lastSuccess <= since
      && Chained(exchanges) && last == LastGot(exchanges)
      && (!ended && !lease.aborted ==> OnTime())
      && (ended ==> lease.aborted)
    }

    // Heartbeating starts with a beat.
    constructor (lease: Lease, now: real)
      requires lease.Valid()
      ensures Valid() && this.lease == lease && beating && !ended && since == now && exchanges == [Sent(NoHeartbeat)]
    {
      this.lease := lease;
      interval, ttl, lastSuccess, last := HEARTBEAT_DEFAULT, TTL_DEFAULT, now, NoHeartbeat;
      beating, since, ended := true, now, false;
      exchanges := [Sent(NoHeartbeat)];
      new;
      ChainedNext([], Sent(NoHeartbeat));
      assert [] + [Sent(NoHeartbeat)] == [Sent(NoHeartbeat)];
    }

    method Succeed(reply: Reply, now: real)
      requires Valid() && !ended && beating && reply.Success? && since <= now
      modifies this`interval, this`ttl, this`lastSuccess, this`last, this`exchanges, lease
      ensures lease.Valid() && ttl > 0.0 && interval == IntervalFor(ttl) && lastSuccess == now
      ensures exchanges == old(exchanges) + [Got(reply.heartbeat)] && Chained(exchanges) && last == LastGot(exchanges)
      ensures ttl == if reply.ttlSeconds > 0.0 then reply.ttlSeconds * 1000.0 else old(ttl)
      ensures last == Heartbeat(reply.heartbeat)
      ensures reply.stopping || !reply.extended ==>
                lease.aborted
                && lease.endReason
                   == if old(lease.endReason).Some? then old(lease.endReason) else Some(ControlPlaneStop)
      ensures !reply.stopping && reply.extended ==> unchanged(lease)
    {
      ChainedNext(exchanges, Got(reply.heartbeat));
      exchanges := exchanges + [Got(reply.heartbeat)];
      lastSuccess, last := now, Heartbeat(reply.heartbeat);
      if reply.ttlSeconds > 0.0 {
        ttl := reply.ttlSeconds * 1000.0;
        interval := Max(1000.0, Min(ttl / 2.0, HEARTBEAT_DEFAULT));
      }
      if reply.stopping { lease.Finish(ControlPlaneStop); }
      if !reply.extended { lease.Finish(ControlPlaneStop); }
    }

    /**
     The beat in flight is answered, or cut off. A loss is assumed exactly when a beat fails later than the ttl after
     the last success, and that is no later than the ttl and two intervals after it.
     */
    method Settle(reply: Reply, now: real)
      requires Valid() && !ended && beating && since <= now <= since + interval
      modifies this`interval, this`ttl, this`lastSuccess, this`last, this`beating, this`since, this`ended,
               this`exchanges, lease
      ensures Valid() && since == now && !beating && (ended <==> lease.aborted)
      ensures exchanges == old(exchanges) + if reply.Success? then [Got(reply.heartbeat)] else []
      ensures old(lease.endReason).Some? ==> lease.endReason == old(lease.endReason)
      ensures old(lease.aborted) ==> lease.aborted
      ensures !reply.Success? && old(lease.aborted) ==> unchanged(lease)
      ensures reply.PreconditionFailed? && !old(lease.aborted) && old(lease.endReason).None? ==>
                lease.endReason == Some(LeaseLost)
      ensures reply.Fatal? && !old(lease.aborted) && old(lease.endReason).None? ==>
                lease.endReason == Some(HeartbeatRejected)
      ensures reply.Transient? && !old(lease.aborted) ==>
                && (lease.endReason == Some(AssumedLost) <==> now - lastSuccess > ttl)
                && now <= lastSuccess + ttl + 2.0 * interval
                && (lease.aborted <==> now - lastSuccess > ttl)
      ensures reply.Success? ==>
                && lastSuccess == now && last == Heartbeat(reply.heartbeat)
                && ttl == if reply.ttlSeconds > 0.0 then reply.ttlSeconds * 1000.0 else old(ttl)
      ensures !reply.Success? ==> lastSuccess == old(lastSuccess) && last == old(last) && ttl == old(ttl)
      ensures reply.Success? && !reply.stopping && reply.extended ==> unchanged(lease)
      ensures reply.Success? && (reply.stopping || !reply.extended) && old(lease.endReason).None? ==>
                lease.endReason == Some(ControlPlaneStop)
    {
      hide Chained, LastGot, IntervalFor;
      if reply.Success? {
        Succeed(reply, now);
      } else if lease.aborted {
        // the failure unwinds the loop
      } else if reply.PreconditionFailed? {
        lease.Finish(LeaseLost);
      } else if reply.Fatal? {
        lease.Finish(HeartbeatRejected);
      } else if now - lastSuccess > ttl {
        lease.Finish(AssumedLost);
      }
      beating, since, ended := false, now, lease.aborted;
    }

    // The sleep ends, after the interval or early when the lease is aborted, and the next beat begins.
    method Wake(now: real)
      requires Valid() && !ended && !beating && since <= now
      requires lease.aborted || now == since + interval
      modifies this`beating, this`since, this`ended, this`exchanges
      ensures Valid() && since == now && (ended <==> lease.aborted)
      ensures !ended ==> beating && exchanges == old(exchanges) + [Sent(last)]
    {
      hide IntervalFor;
      since := now;
      if lease.aborted {
        ended := true;
        return;
      }
      ChainedNext(exchanges, Sent(last));
      exchanges := exchanges + [Sent(last)];
      beating := true;
    }
  }

  // ----- a work item -----

  // What may happen next while an item is served: the heartbeat goes on after some time, or the session is aborted.
  datatype Step = Beat(reply: Reply, after: real) | External

  // The reason that the answer to a beat gives for ending the lease.
  function Decides(reply: Reply): Option<Reason> {
    match reply
    case Success(_, _, stopping, extended) => if stopping || !extended then Some(ControlPlaneStop) else None
    case PreconditionFailed => Some(LeaseLost)
    case Fatal => Some(HeartbeatRejected)
    case Transient => None
  }

  predicate Healthy(reply: Reply) { reply.Success? && !reply.stopping && reply.extended }

  // The shortest interval is a second.
  predicate InTime(step: Step) { step.Beat? && 0.0 <= step.after <= 1000.0 }

  predicate Live(loop: HeartbeatLoop)
    reads loop, loop.lease
  {
    !loop.ended && !loop.lease.aborted && loop.lease.endReason == None
  }

  // Beats and sleeps alternate, and the server extends the lease at every beat among the first `n` steps.
  predicate HealthyTo(steps: seq<Step>, n: nat) {
    n <= |steps| && forall i | 0 <= i < n :: InTime(steps[i]) && (i % 2 == 0 ==> Healthy(steps[i].reply))
  }

  // The first beat that does not extend the lease ends it, for the reason that its answer gives.
  ghost predicate EndedAt(steps: seq<Step>, n: nat, reason: Reason) {
    && n < |steps| && n % 2 == 0 && HealthyTo(steps, n)
    && InTime(steps[n]) && Decides(steps[n].reply) == Some(reason)
  }

  method Advance(loop: HeartbeatLoop, step: Step)
    requires loop.Valid()
    modifies loop, loop.lease
    ensures loop.Valid()
    ensures old(loop.lease.endReason).Some? ==> loop.lease.endReason == old(loop.lease.endReason)
    ensures old(loop.lease.aborted) ==> loop.lease.aborted
    ensures step.External? ==> loop.lease.endReason == old(loop.lease.endReason)
    ensures step.Beat? && !old(loop.lease.aborted) && !old(loop.ended) && !old(loop.beating) ==>
              loop.beating && !loop.ended && unchanged(loop.lease)
    ensures step.Beat? && InTime(step) && old(Live(loop)) && old(loop.beating) ==>
              && !loop.beating
              && (Decides(step.reply).Some? ==> loop.lease.endReason == Decides(step.reply))
              && (Healthy(step.reply) ==> Live(loop))
  {
    hide Chained, LastGot, IntervalFor;
    if step.External? {
      loop.lease.Abort();
    } else if !loop.ended {
      if loop.beating {
        if 0.0 <= step.after <= loop.interval { loop.Settle(step.reply, loop.since + step.after); }
      } else {
        loop.Wake(loop.since + if loop.lease.aborted then 0.0 else loop.interval);
      }
    }
  }

  /**
   Serving an item ends in a force-stop exactly when the lease is not lost, which it is when a beat was told so or when
   it was assumed lost. A lease that was not lost when the runner was done does not become lost in the teardown. When a
   beat ends the lease, the reason is the one its answer gives, and when none does, the item ends as the runner's.
   */
  method HandleItem(serving: seq<Step>, teardown: seq<Step>)
    returns (stopped: bool, lease: Lease, lostWhileServing: bool)
    ensures stopped <==> lease.endReason != Some(LeaseLost) && lease.endReason != Some(AssumedLost)
    ensures !stopped <==> lostWhileServing
    ensures lease.endReason.Some? && fresh(lease)
    ensures forall n: nat, reason | EndedAt(serving, n, reason) :: lease.endReason == Some(reason)
    ensures HealthyTo(serving, |serving|) ==> lease.endReason == Some(RunnerDone)
  {
    hide Chained, LastGot, IntervalFor;
    lease := new Lease();
    var loop := new HeartbeatLoop(lease, 0.0);
    for i := 0 to |serving|
      invariant fresh(loop) && fresh(lease) && loop.Valid() && loop.lease == lease
      invariant HealthyTo(serving, i) ==> Live(loop) && loop.beating == (i % 2 == 0)
      invariant forall n: nat, reason | n < i && EndedAt(serving, n, reason) :: lease.endReason == Some(reason)
    {
      assert HealthyTo(serving, i + 1) ==> HealthyTo(serving, i);
      Advance(loop, serving[i]);
    }
    lostWhileServing := lease.Lost();
    lease.Finish(RunnerDone);
    ghost var reason := lease.endReason;
    for i := 0 to |teardown|
      invariant fresh(loop) && fresh(lease) && loop.Valid() && loop.lease == lease
      invariant lease.endReason.Some? && (lease.Lost() <==> lostWhileServing)
      invariant lease.endReason == reason
    {
      Advance(loop, teardown[i]);
    }
    stopped := !lease.Lost();
  }

  /**
   When every beat only fails from some moment on, at once or up to when it is cut off, the loop records that the lease
   is assumed lost, later than the ttl after the last success and no later than the ttl and two intervals after it.
   */
  method FailUntilLost(loop: HeartbeatLoop)
    requires loop.Valid() && !loop.ended && !loop.lease.aborted
    modifies loop, loop.lease
    ensures loop.Valid() && loop.ended && loop.lease.endReason == Some(AssumedLost)
    ensures loop.lastSuccess == old(loop.lastSuccess)
    ensures old(loop.lastSuccess + loop.ttl) < loop.since <= old(loop.lastSuccess + loop.ttl + 2.0 * loop.interval)
  {
    hide Chained, LastGot, IntervalFor;
    ghost var limit := loop.lastSuccess + loop.ttl + 2.0 * loop.interval;
    ghost var began := loop.since;
    while !loop.ended
      invariant loop.Valid() && loop.lease.aborted == loop.ended
      invariant loop.lastSuccess == old(loop.lastSuccess)
      invariant loop.ttl == old(loop.ttl) && loop.interval == old(loop.interval)
      invariant loop.since <= limit && (if loop.beating then began == loop.since else began <= loop.since)
      invariant loop.ended ==> loop.lease.endReason == Some(AssumedLost) && loop.since > loop.lastSuccess + loop.ttl
      decreases limit - began, loop.beating
    {
      if loop.beating {
        var after: real := *;
        loop.Settle(Transient, loop.since + if 0.0 <= after <= loop.interval then after else loop.interval);
      } else {
        loop.Wake(loop.since + loop.interval);
        began := loop.since;
      }
    }
  }
}
