/**
 What a run of the session tool runner does, as a log, and the laws every log keeps.

 Ids and tool names are opaque, so numbers stand for them.
 */
module SessionLog {
  type Id = nat

  // `evaluated_permission` of a call; `Unknown` is any value the SDK does not recognize.
  datatype Permission = Absent | Allow | Ask | Deny | Unknown

  // The result of a `user.tool_confirmation`; `Unrecognized` is any other value.
  datatype Verdict = Allowed | Denied | Unrecognized

  datatype ToolUse = ToolUse(id: Id, name: nat, permission: Permission)

  datatype Act =
    | Noted(turnEnded: bool)                // an event, or a reconcile pass, showed whether the turn is over
    | Recorded(id: Id, verdict: Verdict)    // a confirmation was recorded
    | Saw(id: Id)                           // a result by someone was seen, live or in history
    | Held(use: ToolUse)                    // a call waits for its confirmation
    | Released(id: Id)                      // it no longer does
    | Begin(use: ToolUse)
    | Ran(use: ToolUse)                     // the tool's body ran
    | Posted(id: Id)                        // the session accepted the result
    | End(id: Id)
    | Refused(use: ToolUse)                 // a call was denied
    | IdleStop                              // the idle countdown ran out

  // The runner's bookkeeping, as the log explains it.
  datatype View = View(
    answered: set<Id>, verdicts: map<Id, Verdict>, held: set<Id>, inFlight: nat, turnEnded: bool)

  function Apply(v: View, act: Act): View {
    match act
    case Noted(ended) => v.(turnEnded := ended)
    case Recorded(id, verdict) => v.(verdicts := v.verdicts[id := verdict])
    case Saw(id) => v.(answered := v.answered + {id})
    case Held(use) => v.(held := v.held + {use.id})
    case Released(id) => v.(held := v.held - {id})
    case Begin(_) => v.(inFlight := v.inFlight + 1)
    case End(_) => v.(inFlight := if v.inFlight > 0 then v.inFlight - 1 else 0)
    case Posted(id) => v.(answered := v.answered + {id})
    case Refused(use) => v.(answered := v.answered + {use.id})
    case _ => v
  }

  function Replay(log: seq<Act>): View {
    if log == [] then View({}, map[], {}, 0, false)
    else Apply(Replay(log[..|log| - 1]), log[|log| - 1])
  }

  // A gated call needs an `allow` on record, any other call must not have anything else on record, and a call
  // that the server denied may never run.
  predicate MayRun(use: ToolUse, verdicts: map<Id, Verdict>) {
    && use.permission != Deny
    && if use.id in verdicts then verdicts[use.id] == Allowed else use.permission in {Absent, Allow}
  }

  predicate Follows(log: seq<Act>, act: Act) {
    var v := Replay(log);
    match act
    case Ran(use) => use.id !in v.answered && MayRun(use, v.verdicts)
    case Posted(id) =>
      && id !in v.answered
      && log != [] && log[|log| - 1].Ran? && log[|log| - 1].use.id == id
    case Held(use) => use.permission in {Ask, Unknown} && use.id !in v.verdicts
    case Refused(use) => use.permission == Deny || (use.id in v.verdicts && v.verdicts[use.id] != Allowed)
    case IdleStop => v.held == {} && v.inFlight == 0 && v.turnEnded
    case _ => true
  }

  ghost predicate Lawful(log: seq<Act>) {
    forall i | 0 <= i < |log| :: Follows(log[..i], log[i])
  }

  lemma LawfulNext(log: seq<Act>, act: Act)
    requires Lawful(log) && Follows(log, act)
    ensures Lawful(log + [act]) && Replay(log + [act]) == Apply(Replay(log), act)
  {
    hide Follows, Apply, Replay;
    var next := log + [act];
    forall i | 0 <= i < |next| ensures Follows(next[..i], next[i]) {
      assert next[..i] == if i < |log| then log[..i] else log;
    }
    ReplayNext(log, act);
  }

  lemma ReplayNext(log: seq<Act>, act: Act)
    ensures Replay(log + [act]) == Apply(Replay(log), act)
  {
    hide Apply;
    assert (log + [act])[..|log|] == log;
  }

  // ----- what the laws mean -----

  predicate Answers(act: Act, id: Id) {
    act == Saw(id) || act == Posted(id) || (act.Refused? && act.use.id == id)
  }

  lemma {:induction false} AnsweredStays(log: seq<Act>, i: nat, id: Id)
    requires i < |log| && Answers(log[i], id)
    ensures id in Replay(log).answered
    decreases |log|
  {
    var n := |log| - 1;
    if i < n { AnsweredStays(log[..n], i, id); }
  }

  /** No call gets two results, and once it is answered its tool never runs again. */
  lemma AnsweredOnce(log: seq<Act>, i: nat, j: nat, id: Id)
    requires Lawful(log) && i < j < |log| && Answers(log[i], id)
    ensures log[j] != Posted(id)
    ensures log[j].Ran? ==> log[j].use.id != id
  {
    hide Replay, MayRun;
    AnsweredStays(log[..j], i, id);
    assert Follows(log[..j], log[j]);
  }

  // The last verdict recorded for `id` in the first `n` acts, as where it stands; -1 when there is none.
  function LastRecorded(log: seq<Act>, id: Id): (at: int)
    ensures -1 <= at < |log|
    ensures at != -1 ==> log[at].Recorded? && log[at].id == id
    ensures forall i | at < i < |log| :: !(log[i].Recorded? && log[i].id == id)
  {
    if log == [] then -1
    else
      var n := |log| - 1;
      if log[n].Recorded? && log[n].id == id then n else LastRecorded(log[..n], id)
  }

  lemma {:induction false} VerdictIsLast(log: seq<Act>, id: Id)
    ensures var at := LastRecorded(log, id);
            if at == -1 then id !in Replay(log).verdicts
            else id in Replay(log).verdicts && Replay(log).verdicts[id] == log[at].verdict
    decreases |log|
  {
    if log != [] { VerdictIsLast(log[..|log| - 1], id); }
  }

  /**
   A tool runs only for a call that the server did not deny, and whose latest confirmation is `allow`; one
   with no confirmation at all must have had its permission absent or `allow`.
   */
  lemma RunsOnlyPermitted(log: seq<Act>, j: nat)
    requires Lawful(log) && j < |log| && log[j].Ran?
    ensures log[j].use.permission != Deny
    ensures var at := LastRecorded(log[..j], log[j].use.id);
            if at == -1 then log[j].use.permission in {Absent, Allow} else log[at].verdict == Allowed
  {
    hide Replay;
    var use := log[j].use;
    assert Follows(log[..j], log[j]);
    VerdictIsLast(log[..j], use.id);
  }

  /** A call is refused only when the server denied it, or its latest confirmation is anything but `allow`. */
  lemma RefusesOnlyDenied(log: seq<Act>, j: nat)
    requires Lawful(log) && j < |log| && log[j].Refused?
    ensures var at := LastRecorded(log[..j], log[j].use.id);
            log[j].use.permission == Deny || (at != -1 && log[at].verdict != Allowed)
  {
    hide Replay;
    assert Follows(log[..j], log[j]);
    VerdictIsLast(log[..j], log[j].use.id);
  }

  /** A call is held only when its permission is to be asked for, or unknown, and no confirmation has come. */
  lemma HoldsOnlyGated(log: seq<Act>, j: nat)
    requires Lawful(log) && j < |log| && log[j].Held?
    ensures log[j].use.permission == Ask || log[j].use.permission == Unknown
    ensures LastRecorded(log[..j], log[j].use.id) == -1
  {
    hide Replay;
    assert Follows(log[..j], log[j]);
    VerdictIsLast(log[..j], log[j].use.id);
  }

  /** A posted result is that of the tool's run just before it, and nothing is posted for a refused call. */
  lemma PostsOnlyRuns(log: seq<Act>, j: nat, id: Id)
    requires Lawful(log) && j < |log| && log[j] == Posted(id)
    ensures j > 0 && log[j - 1].Ran? && log[j - 1].use.id == id
    ensures forall i | 0 <= i < j && log[i].Refused? :: log[i].use.id != id
  {
    hide Replay, MayRun;
    assert Follows(log[..j], log[j]);
    assert log[..j][j - 1] == log[j - 1];
    forall i | 0 <= i < j && log[i].Refused? ensures log[i].use.id != id {
      if log[i].use.id == id { AnsweredOnce(log, i, j, id); }
    }
  }

  /** The idle countdown never runs out over a held call or a tool in flight, nor before the turn has ended. */
  lemma IdleStopsOverNothing(log: seq<Act>, j: nat)
    requires Lawful(log) && j < |log| && log[j] == IdleStop
    ensures Replay(log[..j]).held == {} && Replay(log[..j]).inFlight == 0
    ensures exists i :: 0 <= i < j && log[i] == Noted(true) && forall k | i < k < j :: !log[k].Noted?
  {
    assert Follows(log[..j], log[j]);
    var i := LastNote(log[..j]);
  }

  lemma {:induction false} LastNote(log: seq<Act>) returns (i: nat)
    requires Replay(log).turnEnded
    ensures i < |log| && log[i] == Noted(true) && forall k | i < k < |log| :: !log[k].Noted?
    decreases |log|
  {
    var n := |log| - 1;
    if log[n].Noted? { i := n; } else { i := LastNote(log[..n]); }
  }
}
