/**
 The session tool runner: its idle clock, its handling of live events and of history, and its confirmation gate.

 The stream loop awaits every handler, so handlers do not interleave; what can happen at each `await` is modelled
 by `Await`. Which events arrive, whether a tool's name is registered, how a send turns out and when the runner is
 aborted are all arbitrary.
 */
module SessionToolRunner {
  import opened SessionLog

  datatype Event =
    | ToolUsed(use: ToolUse)                 // agent.tool_use, agent.custom_tool_use
    | Confirmed(id: Id, verdict: Verdict)    // user.tool_confirmation
    | Result(id: Id)                         // user.tool_result, user.custom_tool_result
    | Idle(requiresAction: bool)             // session.status_idle
    | Terminated                             // session.status_terminated, session.deleted
    | Other

  // One connection: whether it attaches, the history that its listing gave before it ended or failed, the live
  // events until it broke off, and whether it ended in an error.
  datatype Connection = Connection(
    attaches: bool, history: seq<Event>, listFails: bool, live: seq<Event>, fails: bool)

  // Only `requires_action` leaves the turn open.
  predicate EndsTurn(ev: Event) { ev.Idle? && !ev.requiresAction }

  // Whether the last event that is not a confirmation ends the turn.
  function LastEndsTurn(list: seq<Event>): bool {
    list != [] &&
    var n := |list| - 1;
    if list[n].Confirmed? then LastEndsTurn(list[..n]) else EndsTurn(list[n])
  }

  // The event that ended the turn came last, but for confirmations.
  ghost predicate EndedBy(events: seq<Event>) {
    exists i :: 0 <= i < |events| && events[i] == Idle(false) && forall k | i < k < |events| :: events[k].Confirmed?
  }

  lemma EndedByNext(events: seq<Event>, ev: Event)
    ensures EndedBy(events + [ev]) <==> if ev.Confirmed? then EndedBy(events) else ev == Idle(false)
  {
    var all := events + [ev];
    assert all[|events|] == ev;
    if i :| 0 <= i < |events| && events[i] == Idle(false) && forall k | i < k < |events| :: events[k].Confirmed? {
      assert all[i] == Idle(false);
    }
    if i :| 0 <= i < |all| && all[i] == Idle(false) && forall k | i < k < |all| :: all[k].Confirmed? {
      assert i < |events| ==> events[i] == Idle(false) && all[|events|].Confirmed?;
      assert forall k | i < k < |events| :: events[k] == all[k];
    }
  }

  lemma {:induction false} LastEndsTurnExactly(list: seq<Event>)
    ensures LastEndsTurn(list) <==> EndedBy(list)
  {
    if list != [] {
      var n := |list| - 1;
      LastEndsTurnExactly(list[..n]);
      EndedByNext(list[..n], list[n]);
      assert list[..n] + [list[n]] == list;
    }
  }

  // What handling an event leaves in the log, whatever else it does.
  function Mark(ev: Event): Act {
    if ev.Confirmed? then Recorded(ev.id, ev.verdict) else Noted(ev == Idle(false))
  }

  // Every event was handled, in order.
  ghost predicate Traced(acts: seq<Act>, events: seq<Event>)
    decreases |events|
  {
    events == [] ||
    (var n := |events| - 1;
     exists k :: 0 <= k < |acts| && acts[k] == Mark(events[n]) && Traced(acts[..k], events[..n]))
  }

  lemma TracedStays(before: seq<Act>, after: seq<Act>, events: seq<Event>)
    requires Traced(before, events) && before <= after
    ensures Traced(after, events)
  {
    if events != [] {
      var n := |events| - 1;
      var k :| 0 <= k < |before| && before[k] == Mark(events[n]) && Traced(before[..k], events[..n]);
      assert after[..k] == before[..k] && after[k] == before[k];
    }
  }

  lemma TracedNext(before: seq<Act>, after: seq<Act>, events: seq<Event>, ev: Event, k: nat)
    requires Traced(before, events) && before <= after && |before| <= k < |after| && after[k] == Mark(ev)
    ensures Traced(after, events + [ev])
  {
    var all := events + [ev];
    TracedStays(before, after[..k], events);
    assert all[..|events|] == events && all[|events|] == ev;
  }

  // The live events of the connections that attached.
  function LiveOf(connections: seq<Connection>): seq<Event> {
    if connections == [] then []
    else
      var c := connections[|connections| - 1];
      LiveOf(connections[..|connections| - 1]) + if c.attaches then c.live else []
  }

  // The events that tell whether the turn is over: the history that was last read in full, and the live ones since.
  function Told(connections: seq<Connection>): seq<Event> {
    if connections == [] then []
    else
      var before, c := Told(connections[..|connections| - 1]), connections[|connections| - 1];
      if c.attaches then ToldBy(c, before) else before
  }

  function ToldBy(c: Connection, before: seq<Event>): seq<Event> {
    (if c.listFails then before else c.history) + c.live
  }

  // What a run has to show for a connection: its live events were handled, and its history was read. `dealt` are the
  // calls that have been dealt with.
  ghost predicate Handled(c: Connection, dealt: set<Id>, answered: set<Id>, acts: seq<Act>) {
    && (forall ev | ev in c.live && ev.ToolUsed? :: ev.use.id in dealt)
    && (forall ev | ev in c.history && ev.ToolUsed? && !c.listFails :: ev.use.id in dealt)
    && (forall ev | (ev in c.live || ev in c.history) && ev.Result? :: ev.id in answered)
    && (forall ev | ev in c.history && ev.Confirmed? :: ev.id in answered || Recorded(ev.id, ev.verdict) in acts)
  }

  ghost predicate AllHandled(cs: seq<Connection>, dealt: set<Id>, answered: set<Id>, acts: seq<Act>) {
    forall c | c in cs && c.attaches :: Handled(c, dealt, answered, acts)
  }

  lemma AllHandledStays(
      cs: seq<Connection>, dealt: set<Id>, answered: set<Id>, acts: seq<Act>, dealt2: set<Id>, answered2: set<Id>,
      acts2: seq<Act>)
    requires AllHandled(cs, dealt, answered, acts) && dealt <= dealt2 && answered <= answered2 && acts <= acts2
    ensures AllHandled(cs, dealt2, answered2, acts2)
  {
    assert forall act | act in acts :: act in acts2;
    forall c | c in cs && c.attaches ensures Handled(c, dealt2, answered2, acts2) {
      assert Handled(c, dealt, answered, acts);
    }
  }

  // How far a run has come: where its log began, whether the clock was armed then, the calls dealt with, the live
  // events handled, and those that tell whether the turn is over.
  datatype Progress = Progress(
    start: nat, armed: bool, dealt: set<Id>, heard: seq<Event>, told: seq<Event>)

  function AfterEvent(p: Progress, ev: Event): Progress {
    p.(dealt := p.dealt + (if ev.ToolUsed? then {ev.use.id} else {}), heard := p.heard + [ev], told := p.told + [ev])
  }

  function AfterEvents(p: Progress, events: seq<Event>): Progress {
    p.(dealt := p.dealt + UsesOf(events), heard := p.heard + events, told := p.told + events)
  }

  function AfterHistory(p: Progress, c: Connection): Progress {
    if c.listFails then p else p.(dealt := p.dealt + UsesOf(c.history), told := c.history)
  }

  lemma AfterNext(p: Progress, events: seq<Event>, i: nat)
    requires i < |events|
    ensures AfterEvents(p, events[..i + 1]) == AfterEvent(AfterEvents(p, events[..i]), events[i])
  {
    UsesOfNext(events, i);
    var before, next := AfterEvents(p, events[..i]), AfterEvents(p, events[..i + 1]);
    assert events[..i + 1] == events[..i] + [events[i]];
    assert next.heard == before.heard + [events[i]] && next.told == before.told + [events[i]];
    assert next.dealt == before.dealt + if events[i].ToolUsed? then {events[i].use.id} else {};
  }

  function Without(uses: seq<ToolUse>, ids: set<Id>): (r: seq<ToolUse>)
    ensures forall use :: use in r <==> use in uses && use.id !in ids
  {
    if uses == [] then [] else (if uses[0].id in ids then [] else [uses[0]]) + Without(uses[1..], ids)
  }

  // The calls that the events show.
  function UsesOf(list: seq<Event>): set<Id> {
    set i | 0 <= i < |list| && list[i].ToolUsed? :: list[i].use.id
  }

  lemma UsesOfNext(list: seq<Event>, i: nat)
    requires i < |list|
    ensures UsesOf(list[..i + 1]) == UsesOf(list[..i]) + if list[i].ToolUsed? then {list[i].use.id} else {}
  {
    var next := list[..i + 1];
    assert forall k | 0 <= k < i :: next[k] == list[..i][k];
    forall id | id in UsesOf(list[..i]) ensures id in UsesOf(next) {
      var k :| 0 <= k < i && list[..i][k].ToolUsed? && list[..i][k].use.id == id;
      assert next[k].ToolUsed?;
    }
    assert next[i] == list[i];
  }

  class IdleClock {
    const maxIdleMs: int
    var blockers: set<Id>
    var armPending: bool
    var timer: bool  // whether the countdown is running

    ghost predicate Safe()
      reads this
    {
      && (timer ==> blockers == {})
      && (armPending ==> blockers != {})
      && (maxIdleMs <= 0 ==> !timer && !armPending)
    }

    // Whether a countdown is running or will start once the last blocker retires.
    predicate Armed()
      reads this
    {
      timer || armPending
    }

    constructor (maxIdleMs: int)
      ensures Safe() && blockers == {} && !Armed() && this.maxIdleMs == maxIdleMs
    {
      this.maxIdleMs := maxIdleMs;
      blockers, armPending, timer := {}, false, false;
    }

    method Block(id: Id)
      requires Safe()
      modifies this
      ensures Safe() && blockers == old(blockers) + {id}
      ensures !timer && Armed() == old(Armed())
    {
      blockers := blockers + {id};
      if timer {
        armPending, timer := true, false;
      }
    }

    method Unblock(id: Id)
      requires Safe()
      modifies this
      ensures Safe() && blockers == old(blockers) - {id}
      ensures Armed() == old(Armed()) && timer == (old(timer) || (blockers == {} && old(armPending)))
    {
      blockers := blockers - {id};
      if blockers == {} && armPending {
        Arm();
      }
    }

    method Arm()
      requires (timer ==> blockers == {}) && (maxIdleMs <= 0 ==> !timer && !armPending)
      modifies this`armPending, this`timer
      ensures Safe() && Armed() == (maxIdleMs > 0)
    {
      if maxIdleMs <= 0 { return; }
      if blockers != {} {
        armPending := true;
        return;
      }
      armPending, timer := false, true;
    }

    method Disarm()
      modifies this`armPending, this`timer
      ensures !timer && !armPending
    {
      armPending, timer := false, false;
    }
  }

  // Permissions that wait for a confirmation; an unrecognized one fails closed.
  predicate Waits(p: Permission) { p == Ask || p == Unknown }

  // What is done with a call when it is routed.
  datatype Course = Run | Hold | Settle(verdict: Verdict)

  // A server-side `deny` overrides any recorded verdict; without a verdict, whatever is not plainly permitted waits.
  function CourseOf(use: ToolUse, verdicts: map<Id, Verdict>): (c: Course)
    ensures c == Run || c == Settle(Allowed) <==> MayRun(use, verdicts)
    ensures c == Hold <==> use.id !in verdicts && Waits(use.permission)
  {
    if use.permission == Deny then Settle(Denied)
    else if use.id in verdicts then Settle(verdicts[use.id])
    else if use.permission == Absent || use.permission == Allow then Run
    else Hold
  }

  // What executing a call leaves in the log: nothing when it was answered already, no run when no tool here has its
  // name, and a post only when the send went through.
  function ExecutionOf(use: ToolUse, answeredBefore: bool, owned: bool, posted: bool): seq<Act> {
    if answeredBefore then [] else [Begin(use)] + RunOf(use, owned, posted) + [End(use.id)]
  }

  function RunOf(use: ToolUse, owned: bool, posted: bool): seq<Act> {
    if !owned then [] else [Ran(use)] + if posted then [Posted(use.id)] else []
  }

  lemma Enclosed(log: seq<Act>, first: Act, middle: seq<Act>, last: Act)
    ensures log + [first] + middle + [last] == log + ([first] + middle + [last])
  {}

  lemma ExecutionBegins(use: ToolUse, answeredBefore: bool, owned: bool, posted: bool)
    requires !answeredBefore
    ensures var acts := ExecutionOf(use, answeredBefore, owned, posted);
            |acts| >= 2 && acts[0] == Begin(use) && (owned ==> acts[1] == Ran(use))
  {}

  function ReleaseOf(id: Id, held: bool): seq<Act> { if held then [Released(id)] else [] }

  // How an attempt to send a result turns out.
  datatype Send = Accepted | Missed | Fatal

  // Some attempt is accepted, and none before it fails for good.
  predicate Accepts(sends: seq<Send>) {
    exists i :: 0 <= i < |sends| && sends[i] == Accepted && forall k | 0 <= k < i :: sends[k] == Missed
  }

  class Runner {
    const clock: IdleClock
    const registered: set<nat>
    var seen: set<Id>
    var answered: set<Id>
    var verdicts: map<Id, Verdict>
    var awaiting: map<Id, ToolUse>
    var inFlight: nat
    var aborted: bool
    ghost var dispatching: set<Id>  // the approved call that is being dispatched
    ghost var left: bool            // the consumer has left, or the countdown has run out
    ghost var over: bool            // the session has ended, or the stream has failed for good
    ghost var log: seq<Act>

    /**
     Holds at every await: a running countdown has no blocker and no tool in flight, a pending one has some
     blocker, the blockers are the calls awaiting confirmation and the approved call being dispatched, the
     bookkeeping is what the log says, and an abort has a reason.
     */
    ghost predicate Valid()
      reads this, clock
    {
      && clock.Safe()
      && clock.blockers == awaiting.Keys + dispatching
      && (clock.timer ==> inFlight == 0)
      && (clock.Armed() ==> Replay(log).turnEnded)
      && (aborted ==> left || over)
      && Logged()
      && HeldWait()
    }

    // The held calls are those that wait for a confirmation.
    ghost predicate HeldWait()
      reads this`awaiting
    {
      forall id | id in awaiting :: awaiting[id].id == id && Waits(awaiting[id].permission)
    }

    ghost predicate Logged()
      reads this`log, this`answered, this`verdicts, this`awaiting, this`inFlight
    {
      && Lawful(log)
      && Replay(log) == View(answered, verdicts, awaiting.Keys, inFlight, Replay(log).turnEnded)
    }

    // Between events nothing is in flight.
    ghost predicate Between()
      reads this, clock
    {
      Valid() && dispatching == {} && inFlight == 0
    }

    constructor (maxIdleMs: int, registered: set<nat>)
      ensures Between() && fresh(clock) && log == [] && this.registered == registered
    {
      this.registered := registered;
      clock := new IdleClock(maxIdleMs);
      seen, answered, verdicts, awaiting := {}, {}, map[], map[];
      inFlight, aborted, dispatching, left, over, log := 0, false, {}, false, false, [];
    }

    // While the runner waits, the countdown may run out if it is running, and the consumer may leave, which
    // aborts the runner and disarms the clock.
    method Await()
      requires Valid()
      modifies this`aborted, this`left, this`log, clock`timer, clock`armPending
      ensures Valid() && (old(aborted) ==> aborted)
      ensures log == old(log) || (old(clock.timer) && log == old(log) + [IdleStop])
      ensures (clock.timer == old(clock.timer) && clock.armPending == old(clock.armPending)) || !clock.Armed()
      ensures !aborted ==>
                log == old(log) && clock.timer == old(clock.timer) && clock.armPending == old(clock.armPending)
    {
      hide Replay, Lawful, HeldWait;
      var expires: bool := *;
      if clock.timer && !aborted && expires {
        Log(IdleStop);
        aborted, left := true, true;
      }
      var leaves: bool := *;
      if leaves {
        aborted, left := true, true;
        clock.Disarm();
      }
    }

    ghost method Log(act: Act)
      requires Lawful(log) && Follows(log, act)
      modifies this`log
      ensures log == old(log) + [act] && Lawful(log) && Replay(log) == Apply(Replay(old(log)), act)
    {
      hide *;
      LawfulNext(log, act);
      log := log + [act];
    }

    // ----- tool execution -----

    // Posts the result, retrying until a send is accepted, fails for good, or the time for retries is over; an abort
    // unwinds the caller.
    method SendResult(use: ToolUse, sends: seq<Send>) returns (posted: bool, thrown: bool)
      requires Valid() && !clock.timer && inFlight > 0
      requires use.id !in answered && log != [] && log[|log| - 1] == Ran(use)
      modifies this`answered, this`aborted, this`left, this`log, clock`timer, clock`armPending
      ensures Valid() && !clock.timer && (clock.Armed() ==> old(clock.Armed()))
      ensures answered == old(answered) + if posted then {use.id} else {}
      ensures log == old(log) + if posted then [Posted(use.id)] else []
      ensures (thrown ==> aborted && !posted) && (old(aborted) ==> aborted)
      ensures !thrown ==> (posted <==> Accepts(sends))
      ensures !aborted ==> clock.Armed() == old(clock.Armed())
    {
      hide Replay, Lawful, HeldWait;
      posted, thrown := false, false;
      for i := 0 to |sends|
        invariant Valid() && !clock.timer && (clock.Armed() ==> old(clock.Armed()))
        invariant log == old(log) && answered == old(answered) && !posted && !thrown
        invariant (old(aborted) ==> aborted) && (!aborted ==> clock.Armed() == old(clock.Armed()))
        invariant forall k | 0 <= k < i :: sends[k] == Missed
      {
        if aborted { return false, true; }
        Await();
        if sends[i] == Accepted {
          Log(Posted(use.id));
          answered := answered + {use.id};
          return true, false;
        }
        if sends[i] == Fatal { break; }
        Await();
      }
    }

    // Whether executing the call drops a pending countdown: its owner elsewhere still has to answer.
    predicate Drops(use: ToolUse, confirmed: bool, answeredBefore: set<Id>) {
      confirmed && use.id !in answeredBefore && use.name !in registered
    }

    method RunTool(use: ToolUse, sends: seq<Send>) returns (thrown: bool)
      requires Valid() && !clock.timer && inFlight > 0
      requires use.id !in answered && MayRun(use, verdicts)
      modifies this`answered, this`aborted, this`left, this`log, clock`timer, clock`armPending
      ensures Valid() && !clock.timer && (clock.Armed() ==> old(clock.Armed()))
      ensures answered == old(answered) || answered == old(answered) + {use.id}
      ensures log == old(log) + RunOf(use, true, use.id in answered)
      ensures thrown ==> aborted
      ensures !thrown ==> (use.id in answered <==> Accepts(sends))
      ensures !aborted ==> clock.Armed() == old(clock.Armed())
    {
      hide Replay, Lawful, HeldWait, Accepts;
      Log(Ran(use));
      Await();
      var posted;
      posted, thrown := SendResult(use, sends);
    }

    method Execute(use: ToolUse, confirmed: bool, sends: seq<Send>) returns (thrown: bool)
      requires Valid() && !clock.timer && inFlight == 0
      requires MayRun(use, verdicts)
      modifies this`answered, this`aborted, this`left, this`log, this`inFlight, clock`timer, clock`armPending
      ensures Valid() && !clock.timer && (clock.Armed() ==> old(clock.Armed())) && inFlight == 0
      ensures thrown ==> aborted
      ensures old(answered) <= answered <= old(answered) + {use.id}
      ensures log == old(log)
                     + ExecutionOf(use, use.id in old(answered), use.name in registered, use.id in answered)
      ensures use.id !in old(answered) && use.name !in registered ==>
                !thrown && answered == old(answered) && (confirmed ==> !clock.Armed())
      ensures !aborted ==> clock.Armed() == (old(clock.Armed()) && !Drops(use, confirmed, old(answered)))
      ensures use.id !in old(answered) && use.name in registered && !thrown ==> (use.id in answered <==> Accepts(sends))
    {
      hide Replay, Lawful, Logged, MayRun, HeldWait, Accepts;
      thrown := false;
      if use.id in answered { return; }
      EnterFlight(use);
      if use.name !in registered {
        if confirmed { clock.Disarm(); }
      } else {
        thrown := RunTool(use, sends);
      }
      LeaveFlight(use.id);
      Enclosed(old(log), Begin(use), RunOf(use, use.name in registered, use.id in answered), End(use.id));
    }

    method EnterFlight(use: ToolUse)
      requires Valid() && !clock.timer
      modifies this`inFlight, this`log
      ensures Valid() && inFlight == old(inFlight) + 1 && log == old(log) + [Begin(use)]
    {
      hide Replay, Lawful, HeldWait;
      inFlight := inFlight + 1;
      Log(Begin(use));
    }

    method LeaveFlight(id: Id)
      requires Valid() && !clock.timer && inFlight > 0
      modifies this`inFlight, this`log
      ensures Valid() && inFlight == old(inFlight) - 1 && log == old(log) + [End(id)]
    {
      hide Replay, Lawful, HeldWait;
      inFlight := inFlight - 1;
      Log(End(id));
    }

    // ----- confirmation gating -----

    // `wasHeld` gives up the hold; the blocker stays until `Execute` is done with an approved call.
    method ApplyVerdict(use: ToolUse, verdict: Verdict) returns (thrown: bool)
      requires Between() && (verdict == Allowed ==> MayRun(use, verdicts))
      requires verdict != Allowed ==>
                 use.permission == Deny || (use.id in verdicts && verdicts[use.id] != Allowed)
      modifies this`answered, this`aborted, this`left, this`log, this`inFlight, this`awaiting, this`dispatching, clock
      ensures Between() && (thrown ==> aborted) && (clock.Armed() ==> old(clock.Armed()))
      ensures awaiting == old(awaiting) - {use.id}
      ensures !aborted ==>
                clock.Armed() == (old(clock.Armed()) && !(verdict == Allowed && Drops(use, true, old(answered))))
      ensures old(answered) <= answered <= old(answered) + {use.id}
      ensures verdict == Allowed ==>
                log == old(log) + ReleaseOf(use.id, use.id in old(awaiting))
                       + ExecutionOf(use, use.id in old(answered), use.name in registered, use.id in answered)
      ensures verdict != Allowed ==>
                (!thrown && use.id in answered
                 && log == old(log) + ReleaseOf(use.id, use.id in old(awaiting)) + [Refused(use)])
    {
      hide Replay, Lawful, ExecutionOf;
      if verdict == Allowed {
        thrown := ApplyAllow(use);
        return;
      }
      thrown := false;
      var wasHeld := use.id in awaiting;
      awaiting := awaiting - {use.id};
      if wasHeld {
        Log(Released(use.id));
        clock.Unblock(use.id);
      }
      Log(Refused(use));
      answered := answered + {use.id};
    }

    method ApplyAllow(use: ToolUse) returns (thrown: bool)
      requires Between() && MayRun(use, verdicts)
      modifies this`answered, this`aborted, this`left, this`log, this`inFlight, this`awaiting, this`dispatching, clock
      ensures Between() && (thrown ==> aborted) && (clock.Armed() ==> old(clock.Armed()))
      ensures awaiting == old(awaiting) - {use.id}
      ensures !aborted ==> clock.Armed() == (old(clock.Armed()) && !Drops(use, true, old(answered)))
      ensures old(answered) <= answered <= old(answered) + {use.id}
      ensures log == old(log) + ReleaseOf(use.id, use.id in old(awaiting))
                     + ExecutionOf(use, use.id in old(answered), use.name in registered, use.id in answered)
    {
      hide Replay, Lawful, ExecutionOf;
      var wasHeld := use.id in awaiting;
      awaiting := awaiting - {use.id};
      dispatching := {use.id};
      if wasHeld {
        Log(Released(use.id));
      } else {
        clock.Block(use.id);
      }
      var sends: seq<Send> := *;
      thrown := Execute(use, true, sends);
      clock.Unblock(use.id);
      dispatching := {};
    }

    // What routing `use` leaves in the log.
    ghost function Routed(use: ToolUse, wasHeld: bool, wasAnswered: bool): seq<Act>
      reads this
    {
      match CourseOf(use, verdicts)
      case Run => ExecutionOf(use, wasAnswered, use.name in registered, use.id in answered)
      case Hold => if wasHeld then [] else [Held(use)]
      case Settle(verdict) =>
        ReleaseOf(use.id, wasHeld) +
        if verdict == Allowed then ExecutionOf(use, wasAnswered, use.name in registered, use.id in answered)
        else [Refused(use)]
    }

    method RouteToolEvent(use: ToolUse) returns (thrown: bool)
      requires Between() && !clock.Armed()
      modifies this`answered, this`aborted, this`left, this`log, this`inFlight, this`awaiting, this`dispatching, clock
      ensures Between() && !clock.Armed() && (thrown ==> aborted)
      ensures old(answered) <= answered <= old(answered) + {use.id}
      ensures log == old(log) + Routed(use, use.id in old(awaiting), use.id in old(answered))
      ensures awaiting == match CourseOf(use, verdicts)
                          case Run => old(awaiting)
                          case Hold => if use.id in old(awaiting) then old(awaiting) else old(awaiting)[use.id := use]
                          case Settle(_) => old(awaiting) - {use.id}
      ensures CourseOf(use, verdicts).Settle? && CourseOf(use, verdicts).verdict != Allowed ==> use.id in answered
    {
      hide Replay, Lawful, ExecutionOf, ReleaseOf;
      thrown := false;
      var known := use.permission == Deny || use.id in verdicts;
      if !known {
        if use.permission == Absent || use.permission == Allow {
          var sends: seq<Send> := *;
          thrown := Execute(use, false, sends);
        } else if use.id !in awaiting {
          awaiting := awaiting[use.id := use];
          Log(Held(use));
          clock.Block(use.id);
        }
        return;
      }
      thrown := ApplyVerdict(use, if use.permission == Deny then Denied else verdicts[use.id]);
    }

    method NoteConfirmation(id: Id, verdict: Verdict) returns (thrown: bool)
      requires Between()
      modifies this, clock
      ensures Between() && (thrown ==> aborted) && (clock.Armed() ==> old(clock.Armed()))
      ensures !aborted && !(id in old(awaiting) && verdict == Allowed && Drops(old(awaiting)[id], true, old(answered)))
              ==> clock.Armed() == old(clock.Armed())
      ensures unchanged(this`seen, this`over)
      ensures verdicts == old(verdicts)[id := verdict] && awaiting == old(awaiting) - {id}
      ensures old(answered) <= answered <= old(answered) + {id}
      ensures id in old(awaiting) && verdict != Allowed ==> id in answered
      ensures log == old(log) + [Recorded(id, verdict)] +
                     if id !in old(awaiting) then []
                     else
                       var use := old(awaiting)[id];
                       [Released(id)] +
                       if verdict == Allowed then
                         ExecutionOf(use, id in old(answered), use.name in registered, id in answered)
                       else [Refused(use)]
    {
      hide Replay, Lawful, ExecutionOf;
      thrown := false;
      verdicts := verdicts[id := verdict];
      Log(Recorded(id, verdict));
      if id !in awaiting { return; }
      thrown := ApplyVerdict(awaiting[id], verdict);
    }

    // ----- live events -----

    method NoteEvent(ev: Event)
      requires Between()
      modifies this`log, clock`timer, clock`armPending
      ensures Between()
      ensures ev.Confirmed? ==> log == old(log) && clock.Armed() == old(clock.Armed())
      ensures !ev.Confirmed? ==> log == old(log) + [Noted(ev == Idle(false))]
                                 && clock.Armed() == (ev == Idle(false) && clock.maxIdleMs > 0)
    {
      hide Replay, Lawful, HeldWait;
      if ev.Confirmed? { return; }
      if EndsTurn(ev) {
        Log(Noted(true));
        clock.Arm();
      } else {
        clock.Disarm();
        Log(Noted(false));
      }
    }

    // A confirmation keeps the calls dealt with that were.
    method ConfirmAndDeal(id: Id, verdict: Verdict, ghost dealt: set<Id>) returns (thrown: bool)
      requires Between() && forall d | d in dealt :: Dealt(d, 0)
      modifies this, clock
      ensures Between() && (thrown ==> aborted) && (clock.Armed() ==> old(clock.Armed()))
      ensures unchanged(this`seen, this`over)
      ensures verdicts == old(verdicts)[id := verdict] && awaiting == old(awaiting) - {id}
      ensures old(answered) <= answered && old(log) + [Recorded(id, verdict)] <= log
      ensures forall d | d in dealt :: Dealt(d, 0)
    {
      hide Replay, Lawful, ExecutionOf, Executed;
      thrown := NoteConfirmation(id, verdict);
      if id in old(awaiting) {
        ghost var use := old(awaiting)[id];
        if id !in answered {
          ExecutionBegins(use, false, use.name in registered, false);
          BeginExecutes(old(log) + [Recorded(id, verdict)] + [Released(id)], use,
                        ExecutionOf(use, false, use.name in registered, false));
        }
      }
      forall d | d in dealt && d !in answered && d !in awaiting && d !in old(awaiting) ensures Dealt(d, 0) {
        var k :| 0 <= k && Executed(old(log), k, d);
        ExecutedStays(old(log), k, d, 0);
      }
    }

    lemma BeginExecutes(before: seq<Act>, use: ToolUse, acts: seq<Act>)
      requires log == before + acts
      requires |acts| >= 2 && acts[0] == Begin(use) && (use.name in registered ==> acts[1] == Ran(use))
      ensures Dealt(use.id, 0)
    {
      assert Executed(log, |before|, use.id);
    }

    // Whatever is not about calls leaves the calls dealt with that were.
    lemma DealtStays(before: seq<Act>, dealt: set<Id>, wereAnswered: set<Id>, wereHeld: set<Id>)
      requires before <= log && wereAnswered <= answered && wereHeld <= awaiting.Keys
      requires forall d | d in dealt ::
                 d in wereAnswered || d in wereHeld || exists k :: 0 <= k && Executed(before, k, d)
      ensures forall d | d in dealt :: Dealt(d, 0)
    {
      hide Executed;
      forall d | d in dealt && d !in answered && d !in awaiting ensures Dealt(d, 0) {
        var k :| 0 <= k && Executed(before, k, d);
        ExecutedStays(before, k, d, 0);
      }
    }

    method NoteResult(id: Id)
      requires Between()
      modifies this`answered, this`log
      ensures Between() && answered == old(answered) + {id} && log == old(log) + [Saw(id)]
    {
      hide Replay, Lawful, HeldWait;
      Log(Saw(id));
      answered := answered + {id};
    }

    // Returns whether the runner should exit.
    method HandleStreamEvent(ev: Event, ghost dealt: set<Id>) returns (exit: bool, thrown: bool)
      requires Between() && seen <= dealt && forall d | d in dealt :: Dealt(d, 0)
      modifies this, clock
      ensures Between() && (thrown || exit ==> aborted) && exit == ev.Terminated?
      ensures over == (old(over) || ev.Terminated?)
      ensures old(answered) <= answered && old(log) + [Mark(ev)] <= log
      ensures seen == old(seen) + if ev.ToolUsed? then {ev.use.id} else {}
      ensures ev.ToolUsed? && ev.use.id in old(seen) ==>
                log == old(log) + [Noted(false)] && awaiting == old(awaiting)
      ensures ev.ToolUsed? && ev.use.id !in old(seen) ==>
                log == old(log) + [Noted(false)]
                       + Routed(ev.use, ev.use.id in old(awaiting), ev.use.id in old(answered))
      ensures ev.Result? ==> log == old(log) + [Noted(false), Saw(ev.id)] && ev.id in answered
      ensures ev.Idle? || ev.Terminated? || ev.Other? ==> log == old(log) + [Mark(ev)] && answered == old(answered)
      ensures ev.Confirmed? ==> verdicts == old(verdicts)[ev.id := ev.verdict] && ev.id !in awaiting
      ensures !ev.Confirmed? ==> verdicts == old(verdicts)
      ensures clock.Armed() ==> if ev.Confirmed? then old(clock.Armed()) else ev == Idle(false)
      ensures ev == Idle(false) && clock.maxIdleMs > 0 ==> clock.Armed()
      ensures forall d | d in dealt :: Dealt(d, 0)
      ensures ev.ToolUsed? ==> Dealt(ev.use.id, 0)
    {
      hide Replay, Lawful, Logged, HeldWait, Routed, Executed;
      exit, thrown := false, false;
      NoteEvent(ev);
      DealtStays(old(log), dealt, old(answered), old(awaiting.Keys));
      match ev {
        case ToolUsed(use) =>
          if use.id !in seen {
            seen := seen + {use.id};
            thrown := RouteAndDeal(use, 0, dealt);
          }
        case Confirmed(id, verdict) => thrown := ConfirmAndDeal(id, verdict, dealt);
        case Result(id) =>
          NoteResult(id);
          DealtStays(old(log), dealt, old(answered), old(awaiting.Keys));
        case Terminated =>
          aborted, over := true, true;
          exit := true;
        case _ =>
      }
    }

    // ----- history -----

    method IngestHistory(ev: Event, before: seq<ToolUse>) returns (pending: seq<ToolUse>)
      requires Between()
      modifies this`seen, this`answered, this`verdicts, this`log
      ensures Between()
      ensures pending == before + if ev.ToolUsed? && ev.use.id !in old(answered) then [ev.use] else []
      ensures seen == old(seen) + if ev.ToolUsed? then {ev.use.id} else {}
      ensures answered == old(answered) + if ev.Result? then {ev.id} else {}
      ensures verdicts == if ev.Confirmed? && ev.id !in old(answered) then old(verdicts)[ev.id := ev.verdict]
                          else old(verdicts)
      ensures log == old(log) + if ev.Result? then [Saw(ev.id)]
                                else if ev.Confirmed? && ev.id !in old(answered) then [Recorded(ev.id, ev.verdict)]
                                else []
    {
      hide Replay, Lawful, HeldWait;
      pending := before;
      match ev {
        case ToolUsed(use) =>
          seen := seen + {use.id};
          if use.id !in answered { pending := pending + [use]; }
        case Result(id) =>
          Log(Saw(id));
          answered := answered + {id};
        case Confirmed(id, verdict) =>
          if id !in answered {
            Log(Recorded(id, verdict));
            verdicts := verdicts[id := verdict];
          }
        case _ =>
      }
    }

    // Reads the whole history and collects the calls that were not answered when they were read.
    method ReadHistory(list: seq<Event>) returns (pending: seq<ToolUse>, lastEnded: bool)
      requires Between()
      modifies this`seen, this`answered, this`verdicts, this`aborted, this`left, this`log, clock`timer, clock`armPending
      ensures Between() && old(answered) <= answered && old(log) <= log
      ensures forall ev | ev in list && ev.Result? :: ev.id in answered
      ensures forall ev | ev in list && ev.Confirmed? :: ev.id in answered || Recorded(ev.id, ev.verdict) in log
      ensures forall ev | ev in list && ev.ToolUsed? :: ev.use in pending || ev.use.id in answered
      ensures forall use | use in pending :: ToolUsed(use) in list
      ensures clock.Armed() ==> old(clock.Armed())
      ensures seen == old(seen) + UsesOf(list) && lastEnded == LastEndsTurn(list)
    {
      hide Replay, Lawful, HeldWait;
      pending, lastEnded := [], false;
      for i := 0 to |list|
        invariant Between() && old(answered) <= answered && old(log) <= log
        invariant forall ev | ev in list[..i] && ev.Result? :: ev.id in answered
        invariant forall ev | ev in list[..i] && ev.Confirmed? ::
                    ev.id in answered || Recorded(ev.id, ev.verdict) in log
        invariant clock.Armed() ==> old(clock.Armed())
        invariant forall ev | ev in list[..i] && ev.ToolUsed? :: ev.use in pending || ev.use.id in answered
        invariant forall use | use in pending :: ToolUsed(use) in list[..i]
        invariant seen == old(seen) + UsesOf(list[..i]) && lastEnded == LastEndsTurn(list[..i])
      {
        UsesOfNext(list, i);
        assert list[..i + 1] == list[..i] + [list[i]];
        Await();
        pending := IngestHistory(list[i], pending);
        if !list[i].Confirmed? { lastEnded := EndsTurn(list[i]); }
      }
      assert list[..|list|] == list;
      Await();
    }

    // Forgets that the calls were seen, so that the next pass or the live stream picks them up.
    method Rollback(pending: seq<ToolUse>)
      requires Between()
      modifies this`seen
      ensures Between() && forall id :: id in seen <==> id in old(seen) && forall use | use in pending :: use.id != id
    {
      for i := 0 to |pending|
        invariant forall id :: id in seen <==> id in old(seen) && forall use | use in pending[..i] :: use.id != id
      {
        seen := seen - {pending[i].id};
      }
    }

    // The call's execution began at `k`, and ran the tool if one here has its name.
    ghost predicate Executed(acts: seq<Act>, k: nat, id: Id) {
      && k + 1 < |acts| && acts[k].Begin? && acts[k].use.id == id
      && (acts[k].use.name in registered ==> acts[k + 1] == Ran(acts[k].use))
    }

    // The call is answered, or held, or was executed after the first `from` acts.
    ghost predicate Dealt(id: Id, from: nat)
      reads this`answered, this`awaiting, this`log
    {
      id in answered || id in awaiting || exists k :: from <= k && Executed(log, k, id)
    }

    lemma ExecutedStays(before: seq<Act>, k: nat, id: Id, from: nat)
      requires before <= log && from <= k && Executed(before, k, id)
      ensures Dealt(id, from)
    {
      assert Executed(log, k, id);
    }

    method RoutePending(pending: seq<ToolUse>, ghost from: nat, ghost dealt: set<Id>) returns (thrown: bool)
      requires Between() && !clock.Armed() && from <= |log|
      requires forall id | id in dealt :: Dealt(id, from)
      modifies this`answered, this`aborted, this`left, this`log, this`inFlight, this`awaiting, this`dispatching, clock
      ensures Between() && !clock.Armed() && (thrown ==> aborted)
      ensures old(answered) <= answered && old(log) <= log
      ensures !thrown ==> forall use | use in pending :: Dealt(use.id, from)
      ensures !thrown ==> forall id | id in dealt :: Dealt(id, from)
    {
      hide Replay, Lawful, Routed, Dealt;
      thrown := false;
      for i := 0 to |pending|
        invariant Between() && !clock.Armed() && !thrown
        invariant old(answered) <= answered && old(log) <= log
        invariant forall use | use in pending[..i] :: Dealt(use.id, from)
        invariant forall id | id in dealt :: Dealt(id, from)
      {
        thrown := RouteAndDeal(pending[i], from, dealt + set use | use in pending[..i] :: use.id);
        if thrown { return; }
        assert pending[..i + 1] == pending[..i] + [pending[i]];
        assert forall use | use in pending[..i] :: use.id in dealt + set use | use in pending[..i] :: use.id;
      }
    }

    // Routing keeps the calls dealt with that were.
    method RouteAndDeal(use: ToolUse, ghost from: nat, ghost dealt: set<Id>) returns (thrown: bool)
      requires Between() && !clock.Armed() && from <= |log|
      requires forall id | id in dealt :: Dealt(id, from)
      modifies this`answered, this`aborted, this`left, this`log, this`inFlight, this`awaiting, this`dispatching, clock
      ensures Between() && !clock.Armed() && (thrown ==> aborted)
      ensures old(answered) <= answered && old(log) <= log
      ensures forall id | id in dealt || id == use.id :: Dealt(id, from)
      ensures log == old(log) + Routed(use, use.id in old(awaiting), use.id in old(answered))
    {
      hide Replay, Lawful, Routed, Executed;
      thrown := RouteToolEvent(use);
      RoutingDeals(use, use.id in old(awaiting), use.id in old(answered), old(log));
      forall id | id in dealt && id !in answered && id !in awaiting && id != use.id ensures Dealt(id, from) {
        var k :| from <= k && Executed(old(log), k, id);
        ExecutedStays(old(log), k, id, from);
      }
    }

    // What routing leaves in the log executes the call, unless it is answered or held.
    lemma RoutingDeals(use: ToolUse, wasHeld: bool, wasAnswered: bool, before: seq<Act>)
      requires log == before + Routed(use, wasHeld, wasAnswered)
      requires wasAnswered ==> use.id in answered
      requires CourseOf(use, verdicts) == Hold ==> use.id in awaiting
      requires CourseOf(use, verdicts).Settle? && CourseOf(use, verdicts).verdict != Allowed ==> use.id in answered
      ensures Dealt(use.id, |before|)
    {
      hide ExecutionOf;
      if use.id !in answered && use.id !in awaiting {
        var acts := Routed(use, wasHeld, wasAnswered);
        var release := ReleaseOf(use.id, wasHeld);
        var k := if CourseOf(use, verdicts) == Run then 0 else |release|;
        ExecutionBegins(use, false, use.name in registered, false);
        assert acts[k] == Begin(use) && (use.name in registered ==> acts[k + 1] == Ran(use));
        assert log[|before| + k] == acts[k] && log[|before| + k + 1] == acts[k + 1];
        assert Executed(log, |before| + k, use.id);
      }
    }

    // Applies the recorded verdicts to the calls still held.
    method ReleaseHeld(ghost from: nat, ghost dealt: set<Id>) returns (thrown: bool)
      requires Between() && !clock.Armed() && from <= |log|
      requires forall id | id in dealt :: Dealt(id, from)
      modifies this`answered, this`aborted, this`left, this`log, this`inFlight, this`awaiting, this`dispatching, clock
      ensures Between() && !clock.Armed() && (thrown ==> aborted)
      ensures old(answered) <= answered && old(log) <= log
      ensures !thrown ==> forall id | id in awaiting :: id !in verdicts
      ensures forall id | id in dealt :: Dealt(id, from)
    {
      hide Replay, Lawful;
      thrown := false;
      var ids := awaiting.Keys;
      while ids != {}
        invariant Between() && !clock.Armed() && !thrown
        invariant old(answered) <= answered && old(log) <= log
        invariant forall id | id in awaiting && id !in ids :: id !in verdicts
        invariant forall id | id in dealt :: Dealt(id, from)
        decreases ids
      {
        var id :| id in ids;
        ids := ids - {id};
        if id in awaiting && id in verdicts {
          thrown := Release(id, from, dealt);
          if thrown { return; }
        }
      }
    }

    method Release(id: Id, ghost from: nat, ghost dealt: set<Id>) returns (thrown: bool)
      requires Between() && !clock.Armed() && from <= |log| && id in awaiting && id in verdicts
      requires forall d | d in dealt :: Dealt(d, from)
      modifies this`answered, this`aborted, this`left, this`log, this`inFlight, this`awaiting, this`dispatching, clock
      ensures Between() && !clock.Armed() && (thrown ==> aborted)
      ensures old(answered) <= answered && old(log) <= log && awaiting == old(awaiting) - {id}
      ensures forall d | d in dealt :: Dealt(d, from)
    {
      hide Replay, Lawful, ExecutionOf;
      var use := awaiting[id];
      thrown := ApplyVerdict(use, verdicts[id]);
      if id !in old(answered) { ExecutionBegins(use, false, use.name in registered, id in answered); }
      ghost var begins := |old(log)| + 1;
      assert id !in answered ==> Executed(log, begins, id);
      forall d | d in dealt && d !in answered && d !in awaiting && d != id ensures Dealt(d, from) {
        var k :| from <= k && Executed(old(log), k, d);
        ExecutedStays(old(log), k, d, from);
      }
    }

    // Arms the clock when the turn is over and no tool work is outstanding.
    method Conclude(unanswered: seq<ToolUse>, lastEnded: bool, ghost from: nat, ghost dealt: set<Id>)
      requires Between() && !clock.Armed()
      requires forall id | id in dealt :: Dealt(id, from)
      modifies this`log, clock`timer, clock`armPending
      ensures Between() && (log == old(log) || log == old(log) + [Noted(true)])
      ensures forall id | id in dealt :: Dealt(id, from)
      ensures clock.Armed() <==>
              && clock.maxIdleMs > 0
              && lastEnded
              && forall use | use in unanswered :: use.id in answered || use.id in awaiting
    {
      hide Replay, Lawful, HeldWait;
      var outstanding := Without(unanswered, answered + awaiting.Keys);
      assert outstanding != [] ==> outstanding[0] in outstanding;
      ghost var before := log;
      if lastEnded && outstanding == [] {
        Log(Noted(true));
        clock.Arm();
      } else {
        clock.Disarm();
      }
      forall id | id in dealt && id !in answered && id !in awaiting ensures Dealt(id, from) {
        var k :| from <= k && Executed(before, k, id);
        ExecutedStays(before, k, id, from);
      }
    }

    // Every call of the history is answered, or was routed.
    lemma AllDealt(list: seq<Event>, pending: seq<ToolUse>, unanswered: seq<ToolUse>, from: nat)
      requires forall ev | ev in list && ev.ToolUsed? :: ev.use in pending || ev.use.id in answered
      requires forall use | use in pending :: use in unanswered || use.id in answered
      requires forall use | use in unanswered :: Dealt(use.id, from)
      ensures forall ev | ev in list && ev.ToolUsed? :: Dealt(ev.use.id, from)
    {}

    /**
     Reads the whole history, routes what is unanswered, applies verdicts to the calls still held, and arms the
     clock exactly when the last telling event ended the turn and every call of the history is answered or held. When
     the listing fails, the unanswered calls it showed count as unseen again.
     */
    method Reconcile(list: seq<Event>, listFails: bool, ghost dealt: set<Id>) returns (thrown: bool)
      requires Between() && forall d | d in dealt :: Dealt(d, 0)
      modifies this, clock
      ensures Between() && (thrown ==> aborted) && unchanged(this`over)
      ensures old(answered) <= answered && old(log) <= log
      ensures forall ev | ev in list && ev.Result? :: ev.id in answered
      ensures forall ev | ev in list && ev.Confirmed? :: ev.id in answered || Recorded(ev.id, ev.verdict) in log
      ensures listFails && !thrown ==>
                forall ev | ev in list && ev.ToolUsed? :: ev.use.id in answered || ev.use.id !in seen
      ensures listFails ==> seen <= old(seen) + UsesOf(list) && (clock.Armed() ==> old(clock.Armed()))
      ensures !listFails ==> seen == old(seen) + UsesOf(list)
      ensures !listFails && !thrown ==>
                && (forall id | id in awaiting :: id !in verdicts)
                && forall ev | ev in list && ev.ToolUsed? :: Dealt(ev.use.id, |old(log)|)
      ensures !listFails && !thrown ==>
                (clock.Armed() <==>
                 && clock.maxIdleMs > 0
                 && EndedBy(list)
                 && forall ev | ev in list && ev.ToolUsed? :: ev.use.id in answered || ev.use.id in awaiting)
      ensures !thrown ==> forall d | d in dealt :: Dealt(d, 0)
    {
      hide Replay, Lawful, LastEndsTurn, EndedBy, Dealt, Executed;
      ghost var acts, held := log, awaiting.Keys;
      DealtMeans(dealt);
      var pending, lastEnded := ReadHistory(list);
      if listFails {
        if aborted { return true; }
        Rollback(pending);
        HeldAreDealt(|acts|);
        StillDealt(acts, |acts|, dealt, old(answered), held);
        return false;
      }
      thrown := RouteHistory(list, pending, lastEnded, |acts|);
      if thrown { return; }
      StillDealt(acts, |acts|, dealt, old(answered), held);
    }

    // Routes the calls of the history that are not answered, and settles what is still held.
    method RouteHistory(list: seq<Event>, pending: seq<ToolUse>, lastEnded: bool, ghost from: nat)
      returns (thrown: bool)
      requires Between() && from <= |log| && lastEnded == LastEndsTurn(list)
      requires forall ev | ev in list && ev.ToolUsed? :: ev.use in pending || ev.use.id in answered
      requires forall use | use in pending :: ToolUsed(use) in list
      modifies this`answered, this`aborted, this`left, this`log, this`inFlight, this`awaiting, this`dispatching, clock
      ensures Between() && (thrown ==> aborted)
      ensures old(answered) <= answered && old(log) <= log
      ensures !thrown ==>
                && (forall id | id in awaiting :: id !in verdicts)
                && (forall ev | ev in list && ev.ToolUsed? :: Dealt(ev.use.id, from))
                && (forall id | id in old(awaiting) :: Dealt(id, from))
                && (clock.Armed() <==>
                    && clock.maxIdleMs > 0
                    && EndedBy(list)
                    && forall ev | ev in list && ev.ToolUsed? :: ev.use.id in answered || ev.use.id in awaiting)
    {
      hide Replay, Lawful, LastEndsTurn, EndedBy, Dealt, Executed, HeldWait;
      ghost var held := awaiting.Keys;
      LastEndsTurnExactly(list);
      var unanswered := Without(pending, answered);
      clock.Disarm();
      Log(Noted(false));
      HeldAreDealt(from);
      thrown := RoutePending(unanswered, from, held);
      if thrown { return; }
      ghost var routed := held + set use | use in unanswered :: use.id;
      thrown := ReleaseHeld(from, routed);
      if thrown { return; }
      Conclude(unanswered, lastEnded, from, routed);
      assert forall use | use in unanswered :: use.id in routed;
      AllDealt(list, pending, unanswered, from);
      assert forall use :: use in unanswered ==> ToolUsed(use) in list;
    }

    lemma DealtMeans(dealt: set<Id>)
      requires forall d | d in dealt :: Dealt(d, 0)
      ensures forall d | d in dealt :: d in answered || d in awaiting || exists k :: 0 <= k && Executed(log, k, d)
    {
      hide Executed;
    }

    lemma HeldAreDealt(from: nat)
      ensures forall id | id in awaiting :: Dealt(id, from)
    {}

    // A call that was dealt with still is, when one that was held has been dealt with since.
    lemma StillDealt(before: seq<Act>, from: nat, dealt: set<Id>, wereAnswered: set<Id>, wereHeld: set<Id>)
      requires before <= log && wereAnswered <= answered
      requires forall d | d in wereHeld :: d in awaiting || Dealt(d, from)
      requires forall d | d in dealt ::
                 d in wereAnswered || d in wereHeld || exists k :: 0 <= k && Executed(before, k, d)
      ensures forall d | d in dealt :: Dealt(d, 0)
    {
      hide Executed;
      forall d | d in dealt && d !in answered && d !in awaiting ensures Dealt(d, 0) {
        if d in wereHeld {
          assert Dealt(d, from);
        } else {
          var k :| 0 <= k && Executed(before, k, d);
          ExecutedStays(before, k, d, 0);
        }
      }
    }

    // ----- event stream -----

    ghost predicate AllDealtWith(dealt: set<Id>)
      reads this`answered, this`awaiting, this`log
    {
      forall d | d in dealt :: Dealt(d, 0)
    }

    // The run has come as far as `p` says: every call seen was dealt with, every live event left its mark, and the
    // countdown is on only when the last telling event ended the turn.
    ghost predicate Kept(p: Progress)
      reads this, clock
    {
      && p.start <= |log| && seen <= p.dealt + answered && AllDealtWith(p.dealt)
      && Traced(log[p.start..], p.heard)
      && (clock.Armed() ==> p.armed || EndedBy(p.told))
    }

    /**
     One run over any number of connections: each attaches, reads the history and then handles its live events
     until it breaks off, and a broken one is followed by the next after a pause. Whatever arrives and whenever it
     stops, the log keeps the laws and nothing is left in flight. Unless the run is aborted, every live event was
     handled, in order; every call shown, live or by a full history, is answered or held or was executed, and run if
     its tool is here; and the countdown is on only when an idle that needs no action was the last telling event. It is
     aborted only when the consumer leaves, the countdown runs out, the session ends, or the stream fails for good.
     */
    method StreamLoop(connections: seq<Connection>) returns (ghost dealt: set<Id>)
      requires Between() && forall id | id in seen :: Dealt(id, 0)
      modifies this, clock
      ensures Between() && Lawful(log)
      ensures old(answered) <= answered && old(log) <= log
      ensures aborted ==> left || over
      ensures over && !old(over) ==> AnyEnds(connections)
      ensures !aborted ==> Traced(log[|old(log)|..], LiveOf(connections))
      ensures !aborted ==> AllDealtWith(dealt) && AllHandled(connections, dealt, answered, log)
      ensures !aborted && clock.Armed() ==> old(clock.Armed()) || EndedBy(Told(connections))
    {
      hide Replay, Lawful, Kept, Traced, EndedBy, Handled, AllHandled, AllDealtWith, Dealt, AnyEnds, AfterConnection;
      dealt := {};
      var next := 0;
      ghost var p := Progress(|log|, clock.Armed(), seen, [], []);
      NothingHandled(p);
      NoneToHandle(p.dealt, answered, log);
      while !aborted && next < |connections|
        invariant Between() && next <= |connections|
        invariant old(answered) <= answered && old(log) <= log
        invariant over && !old(over) ==> AnyEnds(connections)
        invariant p.start == |old(log)| && p.armed == old(clock.Armed())
        invariant p.heard == LiveOf(connections[..next]) && p.told == Told(connections[..next])
        invariant Kept(p) && AllHandled(connections[..next], p.dealt, answered, log)
        decreases |connections| - next
      {
        var connection := connections[next];
        ghost var wereAnswered, acts, before := answered, log, p;
        EndsAny(connections, connection);
        var stop := Connect(connection, p);
        if stop { return; }
        p := AfterConnection(p, connection);
        AfterGrows(before, connection);
        AllHandledStays(connections[..next], before.dealt, wereAnswered, acts, p.dealt, answered, log);
        NextHandled(connections, next, p.dealt, answered, log);
        next := next + 1;
      }
      assert !aborted ==> connections[..next] == connections;
      KeptSays(p);
      dealt := p.dealt;
    }

    // One connection; returns whether the loop is over.
    method Connect(connection: Connection, ghost p: Progress) returns (stop: bool)
      requires Between() && Kept(p)
      modifies this, clock
      ensures Between() && (stop ==> aborted) && (over ==> old(over) || Ends(connection))
      ensures old(answered) <= answered && old(log) <= log
      ensures !stop ==>
                var q := AfterConnection(p, connection);
                Kept(q) && (connection.attaches ==> Handled(connection, q.dealt, answered, log))
    {
      hide Replay, Lawful, Kept, Traced, EndedBy, Handled;
      ghost var q := AfterConnection(p, connection);
      Pause(p);
      if connection.attaches {
        stop := Serve(connection, p);
        if stop { return; }
      }
      if aborted { return true; }
      var fatal: bool := *;
      if fatal && connection.fails {
        aborted, over := true, true;
        return true;
      }
      ghost var acts := log;
      Pause(q);
      if connection.attaches { HandledStays(connection, q.dealt, answered, acts, log); }
      return false;
    }

    // Time passes.
    method Pause(ghost p: Progress)
      requires Between() && Kept(p)
      modifies this`aborted, this`left, this`log, clock`timer, clock`armPending
      ensures Between() && Kept(p) && old(log) <= log && (old(aborted) ==> aborted)
    {
      hide Replay, Lawful, HeldWait, Traced, EndedBy, Executed;
      ghost var before := log[p.start..];
      Await();
      DealtStays(old(log), p.dealt, answered, awaiting.Keys);
      assert before <= log[p.start..];
      TracedStays(before, log[p.start..], p.heard);
    }

    // Returns whether the loop is over; an exception from an abort ends it too.
    method Serve(connection: Connection, ghost p: Progress) returns (done: bool)
      requires Between() && Kept(p)
      modifies this, clock
      ensures Between() && (over ==> old(over) || Terminated in connection.live)
      ensures old(answered) <= answered && old(log) <= log
      ensures done ==> aborted
      ensures !done ==>
                var q := AfterEvents(AfterHistory(p, connection), connection.live);
                && Kept(q) && Handled(connection, q.dealt, answered, log)
    {
      hide Replay, Lawful, Kept, Traced, EndedBy, Handled;
      done := ReadBack(connection, p);
      if done { return; }
      ghost var q, acts := AfterHistory(p, connection), log;
      var live := connection.live;
      AfterNone(q, live);
      for i := 0 to |live|
        invariant Between() && !done && Kept(AfterEvents(q, live[..i]))
        invariant over ==> old(over) || Terminated in connection.live
        invariant old(answered) <= answered && old(log) <= log && acts <= log
        invariant forall ev | ev in connection.history && ev.Result? :: ev.id in answered
        invariant forall ev | ev in connection.history && ev.Confirmed? ::
                    ev.id in answered || Recorded(ev.id, ev.verdict) in acts
        invariant forall ev | ev in live[..i] && ev.Result? :: ev.id in answered
      {
        AfterNext(q, live, i);
        assert live[..i + 1] == live[..i] + [live[i]];
        Pause(AfterEvents(q, live[..i]));
        var exit, thrown := HandleNext(live[i], AfterEvents(q, live[..i]));
        if exit || thrown { return true; }
      }
      assert live[..|live|] == live;
      assert forall act | act in acts :: act in log;
      ServedAll(connection, p, answered, log);
    }

    method ReadBack(c: Connection, ghost p: Progress) returns (thrown: bool)
      requires Between() && Kept(p)
      modifies this, clock
      ensures Between() && (thrown ==> aborted) && unchanged(this`over)
      ensures old(answered) <= answered && old(log) <= log
      ensures !thrown ==> Kept(AfterHistory(p, c))
      ensures forall ev | ev in c.history && ev.Result? :: ev.id in answered
      ensures forall ev | ev in c.history && ev.Confirmed? :: ev.id in answered || Recorded(ev.id, ev.verdict) in log
    {
      hide Replay, Lawful, Traced, EndedBy, Executed, Dealt;
      ghost var before := log[p.start..];
      thrown := Reconcile(c.history, c.listFails, p.dealt);
      if thrown { return; }
      assert before <= log[p.start..];
      TracedStays(before, log[p.start..], p.heard);
      if !c.listFails {
        ListedDealt(c.history, |old(log)|);
      } else {
        ShownOrForgotten(c.history);
      }
    }

    lemma ListedDealt(list: seq<Event>, from: nat)
      requires forall ev | ev in list && ev.ToolUsed? :: Dealt(ev.use.id, from)
      ensures forall id | id in UsesOf(list) :: Dealt(id, 0)
    {
      forall id | id in UsesOf(list) ensures Dealt(id, 0) {
        var i :| 0 <= i < |list| && list[i].ToolUsed? && list[i].use.id == id;
        assert list[i] in list;
        assert Dealt(id, from);
      }
    }

    lemma ShownOrForgotten(list: seq<Event>)
      requires forall ev | ev in list && ev.ToolUsed? :: ev.use.id in answered || ev.use.id !in seen
      ensures forall id | id in UsesOf(list) :: id in answered || id !in seen
    {
      forall id | id in UsesOf(list) ensures id in answered || id !in seen {
        var i :| 0 <= i < |list| && list[i].ToolUsed? && list[i].use.id == id;
        assert list[i] in list;
      }
    }

    method HandleNext(ev: Event, ghost p: Progress) returns (exit: bool, thrown: bool)
      requires Between() && Kept(p)
      modifies this, clock
      ensures Between() && (exit || thrown ==> aborted) && over == (old(over) || ev.Terminated?)
      ensures old(answered) <= answered && old(log) <= log
      ensures Kept(AfterEvent(p, ev)) && (ev.Result? ==> ev.id in answered)
    {
      hide Replay, Lawful, Routed, Traced, EndedBy, Executed, Dealt;
      ghost var before, k := log[p.start..], |log| - p.start;
      AnsweredIsDealt(p.dealt);
      exit, thrown := HandleStreamEvent(ev, p.dealt + answered);
      assert before <= log[p.start..] && log[p.start..][k] == Mark(ev);
      TracedNext(before, log[p.start..], p.heard, ev, k);
      EndedByNext(p.told, ev);
    }

    lemma AnsweredIsDealt(dealt: set<Id>)
      requires forall d | d in dealt :: Dealt(d, 0)
      ensures forall d | d in dealt + answered :: Dealt(d, 0)
    {}

    lemma NothingHandled(p: Progress)
      requires p == Progress(|log|, clock.Armed(), seen, [], [])
      requires forall id | id in seen :: Dealt(id, 0)
      ensures Kept(p)
    {}

    lemma KeptSays(p: Progress)
      requires Kept(p)
      ensures AllDealtWith(p.dealt) && Traced(log[p.start..], p.heard)
      ensures clock.Armed() ==> p.armed || EndedBy(p.told)
    {}
  }

  // The session ended on the connection, or it failed for good.
  predicate Ends(c: Connection) { c.fails || (c.attaches && Terminated in c.live) }

  ghost predicate AnyEnds(cs: seq<Connection>) { exists c :: c in cs && Ends(c) }

  lemma EndsAny(cs: seq<Connection>, c: Connection)
    requires c in cs
    ensures Ends(c) ==> AnyEnds(cs)
  {}

  function AfterConnection(p: Progress, c: Connection): Progress {
    if c.attaches then AfterEvents(AfterHistory(p, c), c.live) else p
  }

  lemma AfterGrows(p: Progress, c: Connection)
    ensures var q := AfterConnection(p, c);
            && q.start == p.start && q.armed == p.armed && p.dealt <= q.dealt
            && q.heard == p.heard + (if c.attaches then c.live else [])
            && q.told == if c.attaches then ToldBy(c, p.told) else p.told
  {
    assert p.heard + [] == p.heard;
  }

  lemma HandledStays(c: Connection, dealt: set<Id>, answered: set<Id>, acts: seq<Act>, acts2: seq<Act>)
    requires Handled(c, dealt, answered, acts) && acts <= acts2
    ensures Handled(c, dealt, answered, acts2)
  {
    assert forall act | act in acts :: act in acts2;
  }

  lemma NoneToHandle(dealt: set<Id>, answered: set<Id>, acts: seq<Act>)
    ensures AllHandled([], dealt, answered, acts)
  {}

  lemma NextHandled(connections: seq<Connection>, n: nat, dealt: set<Id>, answered: set<Id>, acts: seq<Act>)
    requires n < |connections| && AllHandled(connections[..n], dealt, answered, acts)
    requires connections[n].attaches ==> Handled(connections[n], dealt, answered, acts)
    ensures AllHandled(connections[..n + 1], dealt, answered, acts)
    ensures LiveOf(connections[..n + 1])
         == LiveOf(connections[..n]) + if connections[n].attaches then connections[n].live else []
    ensures Told(connections[..n + 1])
         == if connections[n].attaches then ToldBy(connections[n], Told(connections[..n])) else Told(connections[..n])
  {
    hide Handled;
    assert connections[..n + 1][..n] == connections[..n];
    assert connections[..n + 1] == connections[..n] + [connections[n]];
  }

  lemma AfterNone(p: Progress, events: seq<Event>)
    ensures AfterEvents(p, events[..0]) == p
  {
    assert events[..0] == [] && p.heard + [] == p.heard && p.told + [] == p.told;
    assert UsesOf(events[..0]) == {};
  }

  lemma ServedAll(c: Connection, p: Progress, answered: set<Id>, acts: seq<Act>)
    requires forall ev | (ev in c.live || ev in c.history) && ev.Result? :: ev.id in answered
    requires forall ev | ev in c.history && ev.Confirmed? :: ev.id in answered || Recorded(ev.id, ev.verdict) in acts
    ensures Handled(c, AfterEvents(AfterHistory(p, c), c.live).dealt, answered, acts)
  {
    AllUses(c.live);
    AllUses(c.history);
  }

  lemma AllUses(list: seq<Event>)
    ensures forall ev | ev in list && ev.ToolUsed? :: ev.use.id in UsesOf(list)
  {
    forall ev | ev in list && ev.ToolUsed? ensures ev.use.id in UsesOf(list) {
      var i :| 0 <= i < |list| && list[i] == ev;
      assert list[i].ToolUsed?;
    }
  }
}
