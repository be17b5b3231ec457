/**
 How a tool runner starts the calls of one reply, while the reply streams and when the response is generated.

 The calls of a reply have distinct ids, so a call's position in the reply stands for its id. Which step comes next,
 which calls the stream hands over and in what order, how a call turns out, and which calls are held are all arbitrary.
 A promise that resolves and its callback are separate steps.
 */
module ToolsetSequencing {
  import EagerHandover

  type Name = string

  datatype Option<T> = None | Some(value: T)

  // A `tool_use` block: the tool's name, and its toolset when it is a toolset's member.
  datatype ToolUse = ToolUse(name: Name, family: Option<Name>)

  datatype Outcome = Fine | Errored | Rejected

  datatype CallState = Held | Started

  datatype Mode = Running | Waiting

  // The reply's calls, the toolsets registered with the run, and its available function tools.
  datatype Reply = Reply(calls: seq<ToolUse>, families: set<Name>, tools: set<Name>)
  {
    predicate IsMember(i: nat) { i < |calls| && calls[i].family.Some? }

    // The toolset that an eager start puts the call under; a call named after a toolset counts as malformed.
    function EagerFamily(i: nat): Option<Name>
      requires i < |calls|
    {
      if calls[i].family.Some? then calls[i].family
      else if calls[i].name in families then Some(calls[i].name) else None
    }

    // A call named after a toolset that no function tool answers.
    predicate Malformed(i: nat) {
      i < |calls| && calls[i].family.None? && calls[i].name in families && calls[i].name !in tools
    }

    // The toolset sequence that the response puts the call in.
    function Family(i: nat): Option<Name>
      requires i < |calls|
    {
      if calls[i].family.Some? then calls[i].family else if Malformed(i) then Some(calls[i].name) else None
    }

    predicate InFamily(i: nat, f: Name) { i < |calls| && Family(i) == Some(f) }

    // The call before `i` in its toolset's sequence; -1 when it is the first.
    function Before(i: nat, f: Name): (j: int)
      requires i <= |calls|
      ensures -1 <= j < i && (j >= 0 ==> InFamily(j, f))
      ensures forall k | j < k < i :: !InFamily(k, f)
    {
      if i == 0 then -1 else if InFamily(i - 1, f) then i - 1 else Before(i - 1, f)
    }
  }

  // ----- the laws of a run -----

  datatype Act =
    | Hold(i: nat)
    | Hand(i: nat)                      // the stream hands the call over
    | Begin(i: nat)
    | Finish(i: nat, outcome: Outcome)  // the call is answered, or its promise rejects
    | Respond

  datatype View =
    View(begun: set<nat>, ended: map<nat, Outcome>, held: set<nat>, handed: seq<nat>, responded: bool)

  function Apply(v: View, act: Act): View {
    match act
    case Hold(i) => v.(held := v.held + {i})
    case Hand(i) => v.(handed := v.handed + [i])
    case Begin(i) => v.(begun := v.begun + {i})
    case Finish(i, outcome) => v.(ended := v.ended[i := outcome])
    case Respond => v.(responded := true)
  }

  function Replay(log: seq<Act>): View {
    if log == [] then View({}, map[], {}, [], false) else Apply(Replay(log[..|log| - 1]), log[|log| - 1])
  }

  // Whether the call `j` lets the later calls of its toolset run: it ran and was answered without an error.
  predicate Passed(reply: Reply, begun: set<nat>, ended: map<nat, Outcome>, j: nat) {
    reply.IsMember(j) && j in begun && j in ended && ended[j] == Fine
  }

  // The calls of `i`'s toolset before it, when the toolset is registered, have all passed.
  ghost predicate Clear(reply: Reply, begun: set<nat>, ended: map<nat, Outcome>, i: nat) {
    reply.IsMember(i) && reply.calls[i].family.value in reply.families ==>
      forall j | 0 <= j < i && reply.InFamily(j, reply.calls[i].family.value) :: Passed(reply, begun, ended, j)
  }

  // No call of `i`'s toolset after it has begun, when the toolset is registered.
  ghost predicate Next(reply: Reply, begun: set<nat>, i: nat) {
    reply.IsMember(i) && reply.calls[i].family.value in reply.families ==>
      forall j | j in begun && reply.InFamily(j, reply.calls[i].family.value) :: j < i
  }

  // The calls of `i`'s toolset before it, when the toolset is registered, have all been handed over.
  ghost predicate InTurn(reply: Reply, handed: seq<nat>, i: nat) {
    reply.IsMember(i) && reply.calls[i].family.value in reply.families ==>
      forall j | 0 <= j < i && reply.InFamily(j, reply.calls[i].family.value) :: j in handed
  }

  // A call that makes the toolset `f` fail: malformed, or rejected, or an error in a registered toolset.
  predicate Fails(reply: Reply, ended: map<nat, Outcome>, j: nat, f: Name) {
    reply.InFamily(j, f) &&
    (reply.Malformed(j) || (j in ended && (ended[j] == Rejected || (ended[j] == Errored && f in reply.families))))
  }

  // Why a call may be answered without having run: it is malformed, or another call of its toolset made it fail.
  ghost predicate Unrun(reply: Reply, ended: map<nat, Outcome>, i: nat) {
    reply.Malformed(i) ||
    (reply.IsMember(i) && exists j :: j != i && Fails(reply, ended, j, reply.calls[i].family.value))
  }

  // In a registered toolset, that is an earlier call.
  ghost predicate UnrunInOrder(reply: Reply, ended: map<nat, Outcome>, i: nat) {
    reply.IsMember(i) && reply.calls[i].family.value in reply.families ==>
      exists j | 0 <= j < i :: Fails(reply, ended, j, reply.calls[i].family.value)
  }

  // A call begins once, not before the response when it is held, and before the response only once handed over. It is
  // answered once, after it has begun, or else, in the response, with an error.
  ghost predicate Follows(reply: Reply, v: View, act: Act) {
    match act
    case Begin(i) =>
      && i < |reply.calls| && !reply.Malformed(i)
      && i !in v.begun && i !in v.ended
      && (i in v.held || i !in v.handed ==> v.responded)
    case Finish(i, outcome) =>
      && i < |reply.calls| && i !in v.ended
      && (i in v.begun || (v.responded && outcome == Errored && Unrun(reply, v.ended, i)))
    case Hand(i) => i < |reply.calls|
    case Hold(i) => i !in v.begun
    case Respond => true
  }

  // A registered toolset's call begins only when all calls of the toolset before it ran without an error, and none
  // after it has begun. It is answered without having run only when one before it has failed.
  ghost predicate InSequence(reply: Reply, v: View, act: Act) {
    match act
    case Begin(i) => Clear(reply, v.begun, v.ended, i) && Next(reply, v.begun, i)
    case Finish(i, _) => i in v.begun || UnrunInOrder(reply, v.ended, i)
    case _ => true
  }

  // A call that starts before the response does so in turn.
  ghost predicate StartsInTurn(reply: Reply, v: View, act: Act) {
    act.Begin? && !v.responded ==> InTurn(reply, v.handed, act.i)
  }

  ghost predicate Lawful(reply: Reply, log: seq<Act>) {
    forall k | 0 <= k < |log| :: Follows(reply, Replay(log[..k]), log[k])
  }

  ghost predicate Sequential(reply: Reply, log: seq<Act>) {
    forall k | 0 <= k < |log| :: InSequence(reply, Replay(log[..k]), log[k])
  }

  ghost predicate StartedInTurn(reply: Reply, log: seq<Act>) {
    forall k | 0 <= k < |log| :: StartsInTurn(reply, Replay(log[..k]), log[k])
  }

  lemma LawfulNext(reply: Reply, log: seq<Act>, act: Act)
    ensures Lawful(reply, log + [act]) <==> Lawful(reply, log) && Follows(reply, Replay(log), act)
    ensures Sequential(reply, log + [act]) <==> Sequential(reply, log) && InSequence(reply, Replay(log), act)
    ensures StartedInTurn(reply, log + [act]) <==> StartedInTurn(reply, log) && StartsInTurn(reply, Replay(log), act)
    ensures Replay(log + [act]) == Apply(Replay(log), act)
  {
    hide Follows, InSequence, StartsInTurn, Apply, Replay;
    var next := log + [act];
    assert next[..|log|] == log && next[|log|] == act;
    assert forall k | 0 <= k < |log| :: next[..k] == log[..k] && next[k] == log[k];
    ReplayNext(log, act);
  }

  lemma ReplayNext(log: seq<Act>, act: Act)
    ensures Replay(log + [act]) == Apply(Replay(log), act)
  {
    hide Apply;
    assert (log + [act])[..|log|] == log;
  }

  // ----- what the laws mean -----

  lemma {:induction false} BegunStays(log: seq<Act>, k: nat, i: nat)
    requires k < |log| && log[k] == Begin(i)
    ensures i in Replay(log).begun
    decreases |log|
  {
    var n := |log| - 1;
    if k < n { BegunStays(log[..n], k, i); }
  }

  lemma {:induction false} EndedStays(reply: Reply, log: seq<Act>, k: nat, i: nat, outcome: Outcome)
    requires Lawful(reply, log) && k < |log| && log[k] == Finish(i, outcome)
    ensures i in Replay(log).ended && Replay(log).ended[i] == outcome
    decreases |log|
  {
    hide Replay, Lawful, Follows;
    var n := |log| - 1;
    ReplayNext(log[..n], log[n]);
    assert log[..n] + [log[n]] == log;
    if k < n {
      LawfulBefore(reply, log, n);
      EndedStays(reply, log[..n], k, i, outcome);
      LawfulAt(reply, log, n);
      EndsOnce(reply, Replay(log[..n]), log[n], i);
    }
  }

  lemma EndsOnce(reply: Reply, v: View, act: Act, i: nat)
    requires Follows(reply, v, act) && i in v.ended
    ensures i in Apply(v, act).ended && Apply(v, act).ended[i] == v.ended[i]
  {
  }

  lemma LawfulBefore(reply: Reply, log: seq<Act>, n: nat)
    requires Lawful(reply, log) && n <= |log|
    ensures Lawful(reply, log[..n])
  {
    hide Follows, Replay;
    forall k | 0 <= k < n ensures Follows(reply, Replay(log[..n][..k]), log[..n][k]) {
      assert log[..n][..k] == log[..k];
      assert Follows(reply, Replay(log[..k]), log[k]);
    }
  }

  // Where the call's answer stands that the replay knows of.
  lemma {:induction false} FinishOf(log: seq<Act>, i: nat) returns (k: nat)
    requires i in Replay(log).ended
    ensures k < |log| && log[k] == Finish(i, Replay(log).ended[i])
    decreases |log|
  {
    var n := |log| - 1;
    if log[n].Finish? && log[n].i == i { k := n; } else { k := FinishOf(log[..n], i); }
  }

  lemma {:induction false} RespondOf(log: seq<Act>) returns (k: nat)
    requires Replay(log).responded
    ensures k < |log| && log[k] == Respond
    decreases |log|
  {
    var n := |log| - 1;
    if log[n].Respond? { k := n; } else { k := RespondOf(log[..n]); }
  }

  lemma {:induction false} HeldStays(log: seq<Act>, k: nat, i: nat)
    requires k < |log| && log[k] == Hold(i)
    ensures i in Replay(log).held
    decreases |log|
  {
    var n := |log| - 1;
    if k < n { HeldStays(log[..n], k, i); }
  }

  /** No call runs twice, and none is answered twice. */
  lemma RunsOnce(reply: Reply, log: seq<Act>, k: nat, m: nat)
    requires Lawful(reply, log) && k < m < |log|
    ensures log[k].Begin? ==> log[m] != log[k]
    ensures log[k].Finish? && log[m].Finish? ==> log[k].i != log[m].i
  {
    hide Replay;
    assert Follows(reply, Replay(log[..m]), log[m]);
    assert log[..m][k] == log[k];
    LawfulBefore(reply, log, m);
    if log[k].Begin? { BegunStays(log[..m], k, log[k].i); }
    if log[k].Finish? { EndedStays(reply, log[..m], k, log[k].i, log[k].outcome); }
  }

  /**
   The calls of a registered toolset run in the model's order, without overlap and only after successes: between two
   runs, the earlier one, which is of the earlier call, has been answered without an error.
   */
  lemma OneAtATime(reply: Reply, log: seq<Act>, k: nat, m: nat, f: Name) returns (done: nat)
    requires Lawful(reply, log) && Sequential(reply, log)
    requires k < m < |log| && log[k].Begin? && log[m].Begin?
    requires f in reply.families && reply.IsMember(log[k].i) && reply.IsMember(log[m].i)
    requires reply.calls[log[k].i].family == reply.calls[log[m].i].family == Some(f)
    ensures log[k].i < log[m].i
    ensures k < done < m && log[done] == Finish(log[k].i, Fine)
  {
    hide Replay;
    var a, b := log[k].i, log[m].i;
    assert InSequence(reply, Replay(log[..m]), log[m]);
    assert log[..m][k] == log[k];
    BegunStays(log[..m], k, a);
    assert reply.InFamily(a, f);
    assert Passed(reply, Replay(log[..m]).begun, Replay(log[..m]).ended, a);
    done := FinishOf(log[..m], a);
    assert log[done] == Finish(a, Fine);
    BeginsBeforeFinish(reply, log, k, done, a, Fine);
  }

  lemma BeginsBeforeFinish(reply: Reply, log: seq<Act>, k: nat, done: nat, i: nat, outcome: Outcome)
    requires Lawful(reply, log) && k < |log| && done < |log|
    requires log[k] == Begin(i) && log[done] == Finish(i, outcome)
    ensures k < done
  {
    hide Replay;
    var before := log[..k];
    assert Follows(reply, Replay(before), log[k]);
    LawfulBefore(reply, log, k);
    assert done < k ==> before[done] == log[done];
    if done < k { EndedStays(reply, before, done, i, outcome); }
  }

  // Named after the registered toolset `f`, but with no function tool to answer it: a toolset call gone wrong.
  predicate NamesToolset(reply: Reply, j: nat, f: Name) {
    j < |reply.calls| && reply.calls[j] == ToolUse(f, None) && f in reply.families && f !in reply.tools
  }

  /** Such a call never runs, and is answered with an error. */
  lemma MalformedNeverRuns(reply: Reply, log: seq<Act>, k: nat, j: nat, f: Name)
    requires Lawful(reply, log) && k < |log| && NamesToolset(reply, j, f)
    ensures log[k] != Begin(j)
    ensures log[k].Finish? && log[k].i == j ==> log[k].outcome == Errored
    decreases k
  {
    hide Replay, Lawful;
    LawfulAt(reply, log, k);
    if log[k].Finish? && log[k].i == j && j in Replay(log[..k]).begun {
      var b := BeginOf(log[..k], j);
      MalformedNeverRuns(reply, log, b, j, f);
    }
  }

  lemma {:induction false} BeginOf(log: seq<Act>, i: nat) returns (k: nat)
    requires i in Replay(log).begun
    ensures k < |log| && log[k] == Begin(i)
    decreases |log|
  {
    var n := |log| - 1;
    if log[n] == Begin(i) { k := n; } else { k := BeginOf(log[..n], i); }
  }

  /** Once a call of a registered toolset has failed, no later call of the toolset runs, before or after. */
  lemma NoneAfterAnError(reply: Reply, log: seq<Act>, k: nat, m: nat, f: Name)
    requires Lawful(reply, log) && Sequential(reply, log) && k < |log| && m < |log| && f in reply.families
    requires log[k].Finish? && log[k].outcome != Fine && log[k].i < |reply.calls|
    requires reply.calls[log[k].i].family == Some(f)
    requires log[m].Begin? && reply.IsMember(log[m].i) && reply.calls[log[m].i].family == Some(f)
    ensures log[m].i <= log[k].i
  {
    hide Replay;
    var a, b := log[k].i, log[m].i;
    if a < b {
      assert InSequence(reply, Replay(log[..m]), log[m]);
      assert Passed(reply, Replay(log[..m]).begun, Replay(log[..m]).ended, a);
      var done := FinishOf(log[..m], a);
      assert log[done] == Finish(a, Fine);
      if done < k { RunsOnce(reply, log, done, k); } else { RunsOnce(reply, log, k, done); }
    }
  }

  /** A malformed call keeps the later calls of its toolset from running. */
  lemma NoneAfterMalformed(reply: Reply, log: seq<Act>, m: nat, j: nat, f: Name)
    requires Sequential(reply, log) && m < |log| && log[m].Begin? && f in reply.families
    requires reply.IsMember(log[m].i) && reply.calls[log[m].i].family == Some(f)
    requires NamesToolset(reply, j, f)
    ensures log[m].i < j
  {
    hide Replay;
    assert InSequence(reply, Replay(log[..m]), log[m]);
    assert reply.InFamily(j, f);
    assert !Passed(reply, Replay(log[..m]).begun, Replay(log[..m]).ended, j);
  }

  /** A call that is held runs only once the response is generated. */
  lemma HeldUntilResponse(reply: Reply, log: seq<Act>, k: nat, m: nat, i: nat) returns (r: nat)
    requires Lawful(reply, log) && k < |log| && m < |log| && log[k] == Hold(i) && log[m] == Begin(i)
    ensures k < m && r < m && log[r] == Respond
  {
    hide Replay;
    if m < k {
      assert Follows(reply, Replay(log[..k]), log[k]);
      assert log[..k][m] == log[m];
      BegunStays(log[..k], m, i);
    } else {
      assert Follows(reply, Replay(log[..m]), log[m]);
      assert log[..m][k] == log[k];
      HeldStays(log[..m], k, i);
      r := RespondOf(log[..m]);
    }
  }

  lemma {:induction false} BegunGrow(log: seq<Act>, n: nat)
    requires n <= |log|
    ensures Replay(log[..n]).begun <= Replay(log).begun
    decreases |log|
  {
    hide Apply;
    if n == |log| {
      assert log[..n] == log;
    } else {
      var m := |log| - 1;
      BegunGrow(log[..m], n);
      assert log[..m][..n] == log[..n];
      ApplyBegins(Replay(log[..m]), log[m]);
    }
  }

  lemma ApplyBegins(v: View, act: Act)
    ensures v.begun <= Apply(v, act).begun
  {
  }

  // What made a toolset fail still does later.
  lemma FailsStays(reply: Reply, log: seq<Act>, n: nat, j: nat, f: Name)
    requires Lawful(reply, log) && n <= |log| && Fails(reply, Replay(log[..n]).ended, j, f)
    ensures Fails(reply, Replay(log).ended, j, f)
  {
    hide Replay, Lawful;
    if !reply.Malformed(j) {
      var k := FinishOf(log[..n], j);
      EndedStays(reply, log, k, j, Replay(log[..n]).ended[j]);
    }
  }

  /** A call that is answered has run, unless it is malformed or another call has made its toolset fail. */
  lemma RunsUnlessFailed(reply: Reply, log: seq<Act>, i: nat)
    requires Lawful(reply, log) && i in Replay(log).ended && !reply.Malformed(i)
    requires reply.IsMember(i) ==>
               var f, ended := reply.calls[i].family.value, Replay(log).ended;
               forall j: nat | j < |reply.calls| && j != i ::
                 && !NamesToolset(reply, j, f)
                 && (reply.calls[j].family == Some(f) && j in ended ==>
                       ended[j] == Fine || (ended[j] == Errored && f !in reply.families))
    ensures i in Replay(log).begun
  {
    hide Replay, Lawful;
    var k := FinishOf(log, i);
    LawfulAt(reply, log, k);
    BegunGrow(log, k);
    if i !in Replay(log[..k]).begun {
      var j: nat :| j != i && Fails(reply, Replay(log[..k]).ended, j, reply.calls[i].family.value);
      FailsStays(reply, log, k, j, reply.calls[i].family.value);
      assert false;
    }
  }

  /** In a sequential run, a registered toolset's call that is answered has run when the calls before it all passed. */
  lemma RunsAfterSuccesses(reply: Reply, log: seq<Act>, i: nat, f: Name)
    requires Lawful(reply, log) && Sequential(reply, log) && f in reply.families
    requires i in Replay(log).ended && reply.IsMember(i) && reply.calls[i].family == Some(f)
    requires forall j | 0 <= j < i ::
               && !NamesToolset(reply, j, f)
               && (reply.calls[j].family == Some(f) ==> j in Replay(log).ended && Replay(log).ended[j] == Fine)
    ensures i in Replay(log).begun
  {
    hide Replay, Lawful;
    var k := FinishOf(log, i);
    assert InSequence(reply, Replay(log[..k]), log[k]);
    BegunGrow(log, k);
    if i !in Replay(log[..k]).begun {
      var j :| 0 <= j < i && Fails(reply, Replay(log[..k]).ended, j, f);
      FailsStays(reply, log, k, j, f);
      assert false;
    }
  }

  // ----- when the laws of toolsets hold -----

  lemma {:induction false} BegunWasHanded(reply: Reply, log: seq<Act>)
    requires Lawful(reply, log) && !Replay(log).responded
    ensures forall i | i in Replay(log).begun :: i in Replay(log).handed
    decreases |log|
  {
    hide Lawful, Follows;
    if log != [] {
      var n := |log| - 1;
      LawfulBefore(reply, log, n);
      LawfulAt(reply, log, n);
      BegunWasHanded(reply, log[..n]);
      if log[n].Begin? { BeginNeedsHandover(reply, Replay(log[..n]), log[n].i); }
    }
  }

  lemma LawfulAt(reply: Reply, log: seq<Act>, k: nat)
    requires Lawful(reply, log) && k < |log|
    ensures Follows(reply, Replay(log[..k]), log[k])
  {
  }

  lemma BeginNeedsHandover(reply: Reply, v: View, i: nat)
    requires Follows(reply, v, Begin(i)) && !v.responded
    ensures i in v.handed
  {
  }

  // A call that starts out of turn while the reply streams runs before a call of its toolset that it should follow.
  lemma SequentialNeedsTurns(reply: Reply, log: seq<Act>)
    requires Lawful(reply, log) && Sequential(reply, log)
    ensures StartedInTurn(reply, log)
  {
    hide Replay, Lawful, Follows;
    forall k | 0 <= k < |log| && log[k].Begin? && !Replay(log[..k]).responded
      ensures InTurn(reply, Replay(log[..k]).handed, log[k].i)
    {
      LawfulBefore(reply, log, k);
      BegunWasHanded(reply, log[..k]);
      assert InSequence(reply, Replay(log[..k]), log[k]);
    }
  }

  // The handovers come in turn: each after those of the calls of its registered toolset before it.
  ghost predicate HandedInTurn(reply: Reply, handed: seq<nat>) {
    forall k | 0 <= k < |handed| :: InTurn(reply, handed[..k], handed[k])
  }

  lemma {:induction false} HandedGrow(log: seq<Act>, n: nat)
    requires n <= |log|
    ensures Replay(log[..n]).handed <= Replay(log).handed
    decreases |log|
  {
    hide Apply;
    if n == |log| {
      assert log[..n] == log;
    } else {
      var m := |log| - 1;
      HandedGrow(log[..m], n);
      assert log[..m][..n] == log[..n];
      ApplyHands(Replay(log[..m]), log[m]);
    }
  }

  lemma ApplyHands(v: View, act: Act)
    ensures v.handed <= Apply(v, act).handed
  {
  }

  /** When the calls are handed over in turn, they start in turn. */
  lemma HandedThenStarted(reply: Reply, log: seq<Act>)
    requires Lawful(reply, log) && HandedInTurn(reply, Replay(log).handed)
    ensures StartedInTurn(reply, log)
  {
    hide Replay, Lawful, Follows, InTurn;
    forall k | 0 <= k < |log| && log[k].Begin? && !Replay(log[..k]).responded
      ensures InTurn(reply, Replay(log[..k]).handed, log[k].i)
    {
      var i, now, all := log[k].i, Replay(log[..k]).handed, Replay(log).handed;
      LawfulAt(reply, log, k);
      BeginNeedsHandover(reply, Replay(log[..k]), i);
      HandedGrow(log, k);
      var n :| 0 <= n < |now| && now[n] == i;
      assert all[n] == i && all[..n] == now[..n];
      InTurnGrows(reply, now[..n], now, i);
    }
  }

  lemma InTurnGrows(reply: Reply, before: seq<nat>, after: seq<nat>, i: nat)
    requires InTurn(reply, before, i) && before <= after
    ensures InTurn(reply, after, i)
  {
  }

  // `handed` are calls, by their position, that a stream handed over, in order.
  ghost predicate HandedBy(handed: seq<nat>, byStream: seq<EagerHandover.Call>, calls: seq<EagerHandover.Call>) {
    |handed| <= |byStream| &&
    forall k | 0 <= k < |handed| :: handed[k] < |calls| && calls[handed[k]] == byStream[k]
  }

  /** When the blocks of a reply stream one after another, the calls start in turn. */
  lemma OneByOneInTurn(
      reply: Reply, log: seq<Act>, stream: EagerHandover.ToolRunnerStream, events: seq<EagerHandover.Event>)
    requires EagerHandover.OneBlockAtATime(events) && EagerHandover.LastBlockCloses(events)
    requires stream.Valid() && stream.events <= events
    requires |EagerHandover.ToolCalls(events)| == |reply.calls|
    requires Lawful(reply, log)
    requires HandedBy(Replay(log).handed, stream.handed, EagerHandover.ToolCalls(events))
    ensures StartedInTurn(reply, log)
  {
    hide Replay, Lawful, StartedInTurn;
    hide EagerHandover.ToolCalls, EagerHandover.OneBlockAtATime, EagerHandover.LastBlockCloses;
    stream.HandedFirst(events);
    var handed, calls := Replay(log).handed, EagerHandover.ToolCalls(events);
    forall k | 0 <= k < |handed| ensures handed[k] == k {
      assert calls[handed[k]] == stream.handed[k] == calls[k];
    }
    forall k | 0 <= k < |handed| ensures InTurn(reply, handed[..k], handed[k]) {
      assert forall j | 0 <= j < k :: handed[..k][j] == j && j in handed[..k];
    }
    HandedThenStarted(reply, log);
  }

  // ----- the steps of the runner -----

  datatype State = State(
    handed: seq<nat>,              // the calls that the stream has handed over
    calls: map<nat, CallState>,
    toolsets: map<Name, Mode>,
    unsettled: set<nat>,           // started while streaming, with the callback on the result still to come
    queued: set<nat>,              // waiting for the call before it in its toolset's sequence
    failed: set<Name>,             // toolset sequences that have failed
    tails: set<nat>,               // calls that their toolset's sequence has moved past
    begun: set<nat>,
    ended: map<nat, Outcome>,
    responded: bool)

  predicate IsStarted(s: State, i: nat) { i in s.calls && s.calls[i] == Started }

  // What the handover of a call does, and whether it starts the call.
  predicate Starts(reply: Reply, s: State, i: nat)
    requires i < |reply.calls|
  {
    var family := reply.EagerFamily(i);
    && i !in s.calls
    && (family.Some? ==> reply.IsMember(i) && family.value !in s.toolsets)
  }

  function AfterArrive(reply: Reply, s: State, i: nat): State
    requires i < |reply.calls|
  {
    var family := reply.EagerFamily(i);
    if Starts(reply, s, i) then
      s.(handed := s.handed + [i], calls := s.calls[i := Started], begun := s.begun + {i},
         toolsets := if family.Some? then s.toolsets[family.value := Running] else s.toolsets,
         unsettled := if family.Some? then s.unsettled + {i} else s.unsettled)
    else
      s.(handed := s.handed + [i], toolsets := if family.Some? then s.toolsets[family.value := Waiting] else s.toolsets)
  }

  function AfterSettle(reply: Reply, s: State, i: nat): State
    requires reply.IsMember(i) && i in s.ended && reply.calls[i].family.value in s.toolsets
  {
    var f := reply.calls[i].family.value;
    s.(unsettled := s.unsettled - {i},
       toolsets := if s.ended[i] != Fine || s.toolsets[f] == Waiting then s.toolsets[f := Waiting]
                   else s.toolsets - {f})
  }

  // What generating the response does with the call `i`.
  function AfterRespondTo(reply: Reply, s: State, i: nat): State
    requires i < |reply.calls|
  {
    if reply.Malformed(i) then
      if i in s.ended then s else s.(ended := s.ended[i := Errored])
    else if IsStarted(s, i) then s
    else if reply.IsMember(i) then s.(calls := s.calls[i := Started], queued := s.queued + {i})
    else s.(calls := s.calls[i := Started], begun := s.begun + {i})
  }

  // What generating the response does with the first `n` calls.
  function AfterResponding(reply: Reply, s: State, n: nat): State
    requires n <= |reply.calls|
  {
    if n == 0 then s.(responded := true) else AfterRespondTo(reply, AfterResponding(reply, s, n - 1), n - 1)
  }

  // A queued call's turn comes when the sequence has moved past the call before it.
  predicate Turn(reply: Reply, s: State, i: nat) {
    && reply.IsMember(i) && i in s.queued
    && var before := reply.Before(i, reply.calls[i].family.value);
       before >= 0 ==> before in s.tails
  }

  function AfterTurn(reply: Reply, s: State, i: nat): State
    requires Turn(reply, s, i)
  {
    if reply.calls[i].family.value in s.failed then
      s.(queued := s.queued - {i}, ended := s.ended[i := Errored])
    else
      s.(queued := s.queued - {i}, begun := s.begun + {i})
  }

  // The sequence moves past a call that is answered, and past a malformed one in its turn.
  predicate Moves(reply: Reply, s: State, i: nat) {
    && s.responded && i < |reply.calls| && reply.Family(i).Some? && i in s.ended
    && (reply.Malformed(i) ==>
         var before := reply.Before(i, reply.calls[i].name);
         before >= 0 ==> before in s.tails)
  }

  function AfterMove(reply: Reply, s: State, i: nat): State
    requires Moves(reply, s, i)
  {
    var f := reply.Family(i).value;
    var fails := reply.Malformed(i) || s.ended[i] == Rejected || (s.ended[i] == Errored && f in reply.families);
    s.(tails := s.tails + {i}, failed := if fails then s.failed + {f} else s.failed)
  }

  // ----- what every step keeps -----

  ghost predicate Begun(reply: Reply, s: State) {
    forall i | i in s.begun ::
      i < |reply.calls| && !reply.Malformed(i) && IsStarted(s, i) && (i in s.handed || s.responded)
  }

  // Every call that has begun is clear of its toolset's earlier calls.
  ghost predicate Ordered(reply: Reply, s: State) {
    forall i | i in s.begun :: Clear(reply, s.begun, s.ended, i)
  }

  // What the mode of the toolset `f` says of its calls that have been handed over.
  ghost predicate EagerAt(reply: Reply, s: State, f: Name) {
    forall j | j in s.handed && j < |reply.calls| && reply.EagerFamily(j) == Some(f) ::
      if f !in s.toolsets then Passed(reply, s.begun, s.ended, j)
      else s.toolsets[f] == Running ==>
        reply.IsMember(j) && j in s.begun && (j in s.unsettled || Passed(reply, s.begun, s.ended, j))
  }

  ghost predicate Eager(reply: Reply, s: State) {
    && (forall i | i in s.unsettled :: reply.IsMember(i) && i in s.begun && reply.calls[i].family.value in s.toolsets)
    && (forall i, k | i in s.unsettled && k in s.unsettled && reply.calls[i].family == reply.calls[k].family :: i == k)
    && forall f | f in reply.families :: EagerAt(reply, s, f)
  }

  // Why a queued call may start in its turn.
  ghost predicate Chained(reply: Reply, s: State) {
    && (forall i | i in s.queued ::
          reply.IsMember(i) && IsStarted(s, i) && s.responded && i !in s.begun && i !in s.ended)
    && (forall i | i in s.tails :: i < |reply.calls| && reply.Family(i).Some?
          && (reply.Family(i).value in reply.families && reply.Family(i).value !in s.failed ==>
                Passed(reply, s.begun, s.ended, i)))
  }

  // Generating the response has gone through the first `n` calls.
  ghost predicate Known(reply: Reply, s: State, n: nat) {
    && (s.responded ==> forall i | 0 <= i < n && i < |reply.calls| ::
          if reply.Malformed(i) then i in s.ended else IsStarted(s, i))
    && (forall i | i in s.ended :: i < |reply.calls| && (reply.Malformed(i) || IsStarted(s, i))
          && (i in s.begun || (s.responded && s.ended[i] == Errored)))
    && (forall i | i in s.calls && s.calls[i] == Started :: i in s.begun || i in s.ended || i in s.queued)
  }

  // Why a toolset has failed, and why a call was answered without having run.
  ghost predicate Reasons(reply: Reply, s: State) {
    && (!s.responded ==> s.tails == {} && s.failed == {})
    && (forall i | i in s.tails :: i in s.ended)
    && (forall f | f in s.failed :: exists j :: j in s.tails && Fails(reply, s.ended, j, f))
    && forall i | i in s.ended && i !in s.begun && reply.IsMember(i) :: TurnCame(reply, s.tails, i)
  }

  predicate TurnCame(reply: Reply, tails: set<nat>, i: nat)
    requires reply.IsMember(i)
  {
    var before := reply.Before(i, reply.calls[i].family.value);
    before >= 0 ==> before in tails
  }

  // A registered toolset's sequence moves past its calls in the model's order.
  ghost predicate TailsFirst(reply: Reply, s: State) {
    forall i, j | i in s.queued && j in s.tails && reply.IsMember(i) && j < |reply.calls|
                  && reply.Family(j) == reply.calls[i].family && reply.calls[i].family.value in reply.families :: j < i
  }

  ghost predicate Steady(reply: Reply, s: State) { Ordered(reply, s) && TailsFirst(reply, s) }

  predicate Distinct(handed: seq<nat>) { forall i, j | 0 <= i < j < |handed| :: handed[i] != handed[j] }

  // A call of the toolset that stands in the way of its later calls until the reply is complete.
  predicate Hinders(reply: Reply, s: State, j: nat, f: Name) {
    && j in s.handed && j < |reply.calls| && reply.EagerFamily(j) == Some(f)
    && (!reply.IsMember(j) || j !in s.begun || (j in s.ended && s.ended[j] != Fine))
  }

  predicate InProgress(reply: Reply, s: State, j: nat, f: Name) {
    j in s.unsettled && reply.IsMember(j) && reply.calls[j].family == Some(f)
  }

  // Why a toolset is busy while the reply streams.
  ghost predicate Busy(reply: Reply, s: State) {
    !s.responded && Distinct(s.handed) ==>
      forall f | f in s.toolsets ::
        if s.toolsets[f] == Running then exists j :: InProgress(reply, s, j, f) else exists j :: Hinders(reply, s, j, f)
  }

  ghost predicate Tells(v: View, s: State) {
    && v.begun == s.begun && v.ended == s.ended && v.handed == s.handed && v.responded == s.responded
    && (forall i | i in v.held && !s.responded :: i in s.calls && s.calls[i] == Held)
    && forall i | i in s.calls && s.calls[i] == Held :: i in v.held
  }

  ghost predicate Inv(reply: Reply, s: State, n: nat) {
    Begun(reply, s) && Eager(reply, s) && Chained(reply, s) && Known(reply, s, n)
  }

  lemma ArriveKeeps(reply: Reply, s: State, i: nat)
    requires Inv(reply, s, |reply.calls|) && i < |reply.calls|
    ensures Inv(reply, AfterArrive(reply, s, i), |reply.calls|)
  {
    hide Begun, Eager, Chained, Known, AfterArrive;
    ArriveKeepsRest(reply, s, i);
    ArriveKeepsEager(reply, s, i);
  }

  // An eager start goes by the laws, and keeps its toolset's sequence exactly when it comes in turn.
  lemma StartsExactly(reply: Reply, s: State, i: nat)
    requires Inv(reply, s, |reply.calls|) && i < |reply.calls| && Starts(reply, s, i)
    ensures !s.responded && i !in s.begun && i !in s.ended && !reply.Malformed(i)
    ensures Ordered(reply, s) ==>
              (Clear(reply, s.begun, s.ended, i) && Next(reply, s.begun, i) <==> InTurn(reply, s.handed + [i], i))
  {
    hide Chained;
    assert s.responded ==> IsStarted(s, i);
    if reply.IsMember(i) && reply.calls[i].family.value in reply.families {
      var f := reply.calls[i].family.value;
      assert EagerAt(reply, s, f);
      forall j | j in s.handed && reply.InFamily(j, f) ensures Passed(reply, s.begun, s.ended, j) {
        assert reply.EagerFamily(j) == Some(f);
      }
      assert reply.InFamily(i, f);
      if Ordered(reply, s) {
        forall j | j in s.begun && reply.InFamily(j, f) ensures j < i {
          assert Clear(reply, s.begun, s.ended, j);
        }
      }
    }
  }

  // The log explains the handover.
  lemma ArriveTells(reply: Reply, s: State, v: View, i: nat)
    requires Tells(v, s) && Inv(reply, s, |reply.calls|) && i < |reply.calls|
    ensures var w := Apply(v, Hand(i));
            && Follows(reply, v, Hand(i)) && InSequence(reply, v, Hand(i))
            && w.handed == s.handed + [i] && w.begun == s.begun && w.ended == s.ended && w.responded == s.responded
            && (if Starts(reply, s, i) then
                  && Follows(reply, w, Begin(i)) && !s.responded
                  && Tells(Apply(w, Begin(i)), AfterArrive(reply, s, i))
                else Tells(w, AfterArrive(reply, s, i)))
  {
    hide Begun, Eager, Chained, Known, Clear, Next, Inv;
    if Starts(reply, s, i) { StartsExactly(reply, s, i); }
  }

  lemma ArriveOrdered(reply: Reply, s: State, i: nat)
    requires Inv(reply, s, |reply.calls|) && i < |reply.calls| && Ordered(reply, s)
    requires Starts(reply, s, i) ==> InTurn(reply, s.handed + [i], i)
    ensures Ordered(reply, AfterArrive(reply, s, i))
    ensures Starts(reply, s, i) ==> Clear(reply, s.begun, s.ended, i) && Next(reply, s.begun, i)
  {
    hide Inv, Ordered, Clear, Next, InTurn, Starts;
    if Starts(reply, s, i) {
      StartsExactly(reply, s, i);
      OrderedBegins(reply, s, AfterArrive(reply, s, i), i);
    } else {
      OrderedGrows(reply, s, AfterArrive(reply, s, i));
    }
  }

  lemma ClearGrows(reply: Reply, s: State, t: State, i: nat)
    requires Clear(reply, s.begun, s.ended, i) && s.begun <= t.begun
    requires forall j | j in s.ended :: j in t.ended && t.ended[j] == s.ended[j]
    ensures Clear(reply, t.begun, t.ended, i)
  {}

  // The eager starts rest on nothing but the handover, the toolsets, and runs and answers that stay.
  lemma EagerGrows(reply: Reply, s: State, t: State)
    requires Eager(reply, s) && s.begun <= t.begun
    requires forall j | j in s.ended :: j in t.ended && t.ended[j] == s.ended[j]
    requires t.handed == s.handed && t.toolsets == s.toolsets && t.unsettled == s.unsettled
    ensures Eager(reply, t)
  {
    forall f | f in reply.families ensures EagerAt(reply, t, f) { assert EagerAt(reply, s, f); }
  }

  lemma OrderedGrows(reply: Reply, s: State, t: State)
    requires Ordered(reply, s) && t.begun == s.begun
    requires forall j | j in s.ended :: j in t.ended && t.ended[j] == s.ended[j]
    ensures Ordered(reply, t)
  {
    hide Clear;
    forall i | i in t.begun ensures Clear(reply, t.begun, t.ended, i) { ClearGrows(reply, s, t, i); }
  }

  lemma OrderedBegins(reply: Reply, s: State, t: State, i: nat)
    requires Ordered(reply, s) && Clear(reply, s.begun, s.ended, i)
    requires t.begun == s.begun + {i} && t.ended == s.ended
    ensures Ordered(reply, t)
  {
    hide Clear;
    forall k | k in t.begun ensures Clear(reply, t.begun, t.ended, k) { ClearGrows(reply, s, t, k); }
  }

  lemma ArriveKeepsRest(reply: Reply, s: State, i: nat)
    requires Inv(reply, s, |reply.calls|) && i < |reply.calls|
    ensures var t := AfterArrive(reply, s, i); Begun(reply, t) && Chained(reply, t) && Known(reply, t, |reply.calls|)
  {
    hide Eager;
    if Starts(reply, s, i) { StartsExactly(reply, s, i); }
  }

  lemma ArriveKeepsEager(reply: Reply, s: State, i: nat)
    requires Inv(reply, s, |reply.calls|) && i < |reply.calls|
    ensures Eager(reply, AfterArrive(reply, s, i))
  {
    hide Begun, Chained;
    var t := AfterArrive(reply, s, i);
    forall f | f in reply.families ensures EagerAt(reply, t, f) {
      assert EagerAt(reply, s, f);
    }
  }

  lemma DeferKeeps(reply: Reply, s: State, i: nat)
    requires Inv(reply, s, |reply.calls|) && i !in s.calls
    ensures Inv(reply, s.(calls := s.calls[i := Held]), |reply.calls|)
  {
    hide Eager;
    var t := s.(calls := s.calls[i := Held]);
    EagerGrows(reply, s, t);
  }

  lemma CompleteKeeps(reply: Reply, s: State, i: nat, outcome: Outcome)
    requires Inv(reply, s, |reply.calls|) && i in s.begun && i !in s.ended
    ensures Inv(reply, s.(ended := s.ended[i := outcome]), |reply.calls|)
  {
    hide Eager;
    var t := s.(ended := s.ended[i := outcome]);
    EagerGrows(reply, s, t);
  }

  // A toolset becomes free only when all its calls so far have passed.
  lemma SettleKeeps(reply: Reply, s: State, i: nat)
    requires Inv(reply, s, |reply.calls|) && i in s.unsettled && i in s.ended
    ensures Inv(reply, AfterSettle(reply, s, i), |reply.calls|)
  {
    hide Chained, Known;
    var t := AfterSettle(reply, s, i);
    var g := reply.calls[i].family.value;
    forall f | f in reply.families ensures EagerAt(reply, t, f) {
      assert EagerAt(reply, s, f);
    }
    SettleKeepsRest(reply, s, i);
  }

  lemma SettleKeepsRest(reply: Reply, s: State, i: nat)
    requires reply.IsMember(i) && i in s.ended && reply.calls[i].family.value in s.toolsets
    requires Chained(reply, s) && Known(reply, s, |reply.calls|)
    ensures var t := AfterSettle(reply, s, i); Chained(reply, t) && Known(reply, t, |reply.calls|)
  {
  }

  lemma RespondingKeeps(reply: Reply, s: State)
    requires Inv(reply, s, |reply.calls|) && !s.responded
    ensures Inv(reply, s.(responded := true), 0)
  {
    hide Eager;
    var t := s.(responded := true);
    EagerGrows(reply, s, t);
  }

  lemma RespondToKeeps(reply: Reply, s: State, i: nat)
    requires Inv(reply, s, i) && i < |reply.calls| && s.responded
    ensures Inv(reply, AfterRespondTo(reply, s, i), i + 1)
  {
    hide Begun, Chained, Eager, Known, AfterRespondTo;
    RespondToKeepsBegun(reply, s, i);
    RespondToKeepsEager(reply, s, i);
    RespondToKeepsRest(reply, s, i);
  }

  lemma RespondToKeepsBegun(reply: Reply, s: State, i: nat)
    requires Inv(reply, s, i) && i < |reply.calls| && s.responded
    ensures Begun(reply, AfterRespondTo(reply, s, i))
  {
    hide Eager, Chained;
  }

  lemma RespondToKeepsEager(reply: Reply, s: State, i: nat)
    requires Inv(reply, s, i) && i < |reply.calls| && s.responded
    ensures Eager(reply, AfterRespondTo(reply, s, i))
  {
    hide Eager, Begun, Chained;
    var t := AfterRespondTo(reply, s, i);
    EagerGrows(reply, s, t);
  }

  lemma RespondToKeepsRest(reply: Reply, s: State, i: nat)
    requires Inv(reply, s, i) && i < |reply.calls| && s.responded
    ensures Chained(reply, AfterRespondTo(reply, s, i)) && Known(reply, AfterRespondTo(reply, s, i), i + 1)
  {
    hide AfterRespondTo, Chained, Known;
    RespondToKeepsChained(reply, s, i);
    RespondToKeepsKnown(reply, s, i);
  }

  lemma RespondToKeepsChained(reply: Reply, s: State, i: nat)
    requires Begun(reply, s) && Chained(reply, s) && Known(reply, s, i) && i < |reply.calls| && s.responded
    ensures Chained(reply, AfterRespondTo(reply, s, i))
  {}

  lemma RespondToKeepsKnown(reply: Reply, s: State, i: nat)
    requires Known(reply, s, i) && i < |reply.calls| && s.responded
    ensures Known(reply, AfterRespondTo(reply, s, i), i + 1)
  {}

  lemma FunctionIsClear(reply: Reply, s: State, i: nat)
    requires !reply.IsMember(i)
    ensures Clear(reply, s.begun, s.ended, i)
  {}

  // A queued call that runs in its turn is clear of its toolset's earlier calls.
  lemma TurnClear(reply: Reply, s: State, i: nat)
    requires Inv(reply, s, |reply.calls|) && Ordered(reply, s)
    requires Turn(reply, s, i) && reply.calls[i].family.value !in s.failed
    ensures Clear(reply, s.begun, s.ended, i) && Next(reply, s.begun, i)
  {
    hide Eager;
    var f := reply.calls[i].family.value;
    if f in reply.families {
      var before := reply.Before(i, f);
      forall j | 0 <= j < i && reply.InFamily(j, f) ensures Passed(reply, s.begun, s.ended, j) {
        assert Clear(reply, s.begun, s.ended, before);
      }
      forall j | j in s.begun && reply.InFamily(j, f) ensures j < i {
        assert Clear(reply, s.begun, s.ended, j);
        assert reply.InFamily(i, f);
      }
    }
  }

  lemma TurnFollows(reply: Reply, s: State, i: nat)
    requires Inv(reply, s, |reply.calls|) && Turn(reply, s, i)
    ensures reply.IsMember(i) && !reply.Malformed(i) && i !in s.begun && i !in s.ended && s.responded
  {
    hide Begun, Eager, Known;
  }

  lemma TurnOrdered(reply: Reply, s: State, i: nat)
    requires Inv(reply, s, |reply.calls|) && Ordered(reply, s) && Turn(reply, s, i)
    ensures Ordered(reply, AfterTurn(reply, s, i))
    ensures reply.calls[i].family.value !in s.failed ==>
              Clear(reply, s.begun, s.ended, i) && Next(reply, s.begun, i)
  {
    hide Begun, Eager, Known, Ordered, Clear, Next;
    if reply.calls[i].family.value in s.failed {
      OrderedGrows(reply, s, AfterTurn(reply, s, i));
    } else {
      TurnClear(reply, s, i);
      OrderedBegins(reply, s, AfterTurn(reply, s, i), i);
    }
  }

  lemma RespondToOrdered(reply: Reply, s: State, i: nat)
    requires i < |reply.calls|
    ensures Ordered(reply, s) ==> Ordered(reply, AfterRespondTo(reply, s, i))
  {
    hide Ordered, Clear;
    var t := AfterRespondTo(reply, s, i);
    if Ordered(reply, s) {
      if t.begun == s.begun {
        OrderedGrows(reply, s, t);
      } else {
        FunctionIsClear(reply, s, i);
        OrderedBegins(reply, s, t, i);
      }
    }
  }

  lemma TurnKeeps(reply: Reply, s: State, i: nat)
    requires Inv(reply, s, |reply.calls|) && Turn(reply, s, i)
    ensures Inv(reply, AfterTurn(reply, s, i), |reply.calls|)
  {
    hide Begun, Eager, Chained, Known;
    TurnKeepsBegun(reply, s, i);
    TurnKeepsRest(reply, s, i);
    EagerGrows(reply, s, AfterTurn(reply, s, i));
  }

  lemma TurnKeepsBegun(reply: Reply, s: State, i: nat)
    requires Inv(reply, s, |reply.calls|) && Turn(reply, s, i)
    ensures Begun(reply, AfterTurn(reply, s, i))
    ensures var next := AfterTurn(reply, s, i);
            forall j | j in s.ended :: j in next.ended && next.ended[j] == s.ended[j]
  {
    hide Eager;
  }

  lemma TurnKeepsRest(reply: Reply, s: State, i: nat)
    requires Chained(reply, s) && Known(reply, s, |reply.calls|) && Turn(reply, s, i)
    ensures Chained(reply, AfterTurn(reply, s, i)) && Known(reply, AfterTurn(reply, s, i), |reply.calls|)
  {}

  lemma MoveKeeps(reply: Reply, s: State, i: nat)
    requires Inv(reply, s, |reply.calls|) && Moves(reply, s, i)
    ensures Inv(reply, AfterMove(reply, s, i), |reply.calls|)
  {
    hide Eager;
    var t := AfterMove(reply, s, i);
    EagerGrows(reply, s, t);
  }

  // ----- why toolsets fail or are busy -----

  lemma ReasonsGrow(reply: Reply, s: State, t: State)
    requires Reasons(reply, s) && t.tails == s.tails && t.failed == s.failed && (s.responded ==> t.responded)
    requires forall j | j in s.ended :: j in t.ended && t.ended[j] == s.ended[j]
    requires s.begun <= t.begun
    requires forall i | i in t.ended && i !in s.ended && i !in t.begun && reply.IsMember(i) ::
               TurnCame(reply, t.tails, i)
    ensures Reasons(reply, t)
  {
    hide TurnCame;
    forall f | f in t.failed ensures exists j :: j in t.tails && Fails(reply, t.ended, j, f) {
      var j :| j in s.tails && Fails(reply, s.ended, j, f);
      assert Fails(reply, t.ended, j, f);
    }
  }

  lemma TurnReasons(reply: Reply, s: State, i: nat)
    requires Reasons(reply, s) && Turn(reply, s, i) && i !in s.ended
    ensures Reasons(reply, AfterTurn(reply, s, i))
    ensures reply.calls[i].family.value in s.failed ==> Unrun(reply, s.ended, i)
    ensures reply.calls[i].family.value in s.failed && Steady(reply, s) ==> UnrunInOrder(reply, s.ended, i)
  {
    hide Reasons;
    TurnReason(reply, s, i);
    ReasonsGrow(reply, s, AfterTurn(reply, s, i));
  }

  lemma TurnReason(reply: Reply, s: State, i: nat)
    requires Reasons(reply, s) && Turn(reply, s, i) && i !in s.ended
    ensures TurnCame(reply, s.tails, i)
    ensures reply.calls[i].family.value in s.failed ==> Unrun(reply, s.ended, i)
    ensures reply.calls[i].family.value in s.failed && Steady(reply, s) ==> UnrunInOrder(reply, s.ended, i)
  {
    var f := reply.calls[i].family.value;
    if f in s.failed {
      var j :| j in s.tails && Fails(reply, s.ended, j, f);
      assert reply.Family(j) == reply.calls[i].family;
    }
  }

  lemma MoveReasons(reply: Reply, s: State, i: nat)
    requires Reasons(reply, s) && Moves(reply, s, i)
    ensures Reasons(reply, AfterMove(reply, s, i))
  {
    var t := AfterMove(reply, s, i);
    var g := reply.Family(i).value;
    forall f | f in t.failed ensures exists j :: j in t.tails && Fails(reply, t.ended, j, f) {
      if f in s.failed {
        var j :| j in s.tails && Fails(reply, s.ended, j, f);
        assert j in t.tails;
      } else {
        assert Fails(reply, t.ended, i, f);
      }
    }
  }

  lemma MoveSteady(reply: Reply, s: State, i: nat)
    requires Inv(reply, s, |reply.calls|) && Reasons(reply, s) && Steady(reply, s) && Moves(reply, s, i)
    ensures Steady(reply, AfterMove(reply, s, i))
  {
    hide Inv, Reasons, Clear;
    var t := AfterMove(reply, s, i);
    OrderedGrows(reply, s, t);
    forall q | q in s.queued && reply.IsMember(q) && reply.Family(i) == reply.calls[q].family
               && reply.calls[q].family.value in reply.families
      ensures i < q
    {
      MovesInOrder(reply, s, i, q);
    }
  }

  lemma MovesInOrder(reply: Reply, s: State, i: nat, q: nat)
    requires Inv(reply, s, |reply.calls|) && Reasons(reply, s) && Steady(reply, s) && Moves(reply, s, i)
    requires q in s.queued && reply.Family(i) == reply.calls[q].family && reply.calls[q].family.value in reply.families
    ensures i < q
  {
    hide Eager, Known;
    var f := reply.calls[q].family.value;
    assert reply.InFamily(q, f);
    if i in s.begun {
      assert Clear(reply, s.begun, s.ended, i);
      assert q < i ==> Passed(reply, s.begun, s.ended, q);
    } else {
      var before := reply.Before(i, f);
      assert q < i ==> q <= before;
      assert before >= 0 ==> before in s.tails;
    }
  }

  lemma SteadyStays(reply: Reply, s: State, t: State)
    requires Steady(reply, s) && t.begun == s.begun && t.tails == s.tails && t.queued <= s.queued
    requires forall j | j in s.ended :: j in t.ended && t.ended[j] == s.ended[j]
    ensures Steady(reply, t)
  {
    hide Ordered;
    OrderedGrows(reply, s, t);
  }

  lemma ArriveBusy(reply: Reply, s: State, i: nat)
    requires Inv(reply, s, |reply.calls|) && Busy(reply, s) && i < |reply.calls|
    ensures Busy(reply, AfterArrive(reply, s, i))
  {
    hide Eager, Chained, Known;
    var t := AfterArrive(reply, s, i);
    if !t.responded && Distinct(t.handed) {
      HandedBefore(s.handed, i);
      var family := reply.EagerFamily(i);
      forall f | f in t.toolsets
        ensures if t.toolsets[f] == Running then exists j :: InProgress(reply, t, j, f)
                else exists j :: Hinders(reply, t, j, f)
      {
        if Some(f) == family {
          assert if Starts(reply, s, i) then InProgress(reply, t, i, f) else Hinders(reply, t, i, f);
        } else if t.toolsets[f] == Running {
          var j :| InProgress(reply, s, j, f);
          assert InProgress(reply, t, j, f);
        } else {
          var j :| Hinders(reply, s, j, f);
          assert Hinders(reply, t, j, f);
        }
      }
    }
  }

  lemma HandedBefore(handed: seq<nat>, i: nat)
    requires Distinct(handed + [i])
    ensures Distinct(handed) && i !in handed
  {
    var all := handed + [i];
    assert forall k | 0 <= k < |handed| :: all[k] == handed[k];
    assert all[|handed|] == i;
  }

  lemma CompleteBusy(reply: Reply, s: State, i: nat, outcome: Outcome)
    requires Busy(reply, s) && i in s.begun && i !in s.ended
    ensures Busy(reply, s.(ended := s.ended[i := outcome]))
  {
    var t := s.(ended := s.ended[i := outcome]);
    BusyOn(reply, s, t);
  }

  lemma BusyOn(reply: Reply, s: State, t: State)
    requires Busy(reply, s) && t.toolsets == s.toolsets && t.handed == s.handed && t.unsettled == s.unsettled
    requires s.responded ==> t.responded
    requires forall j, f :: Hinders(reply, s, j, f) ==> Hinders(reply, t, j, f)
    ensures Busy(reply, t)
  {
    if !t.responded && Distinct(t.handed) {
      forall f | f in t.toolsets
        ensures if t.toolsets[f] == Running then exists j :: InProgress(reply, t, j, f)
                else exists j :: Hinders(reply, t, j, f)
      {
        if t.toolsets[f] == Running {
          var j :| InProgress(reply, s, j, f);
          assert InProgress(reply, t, j, f);
        } else {
          var j :| Hinders(reply, s, j, f);
          assert Hinders(reply, t, j, f);
        }
      }
    }
  }

  lemma SettleBusy(reply: Reply, s: State, i: nat)
    requires Inv(reply, s, |reply.calls|) && Busy(reply, s) && i in s.unsettled && i in s.ended
    ensures Busy(reply, AfterSettle(reply, s, i))
  {
    hide Chained, Known;
    var t := AfterSettle(reply, s, i);
    var g := reply.calls[i].family.value;
    if !t.responded && Distinct(t.handed) {
      forall f | f in t.toolsets
        ensures if t.toolsets[f] == Running then exists j :: InProgress(reply, t, j, f)
                else exists j :: Hinders(reply, t, j, f)
      {
        if f == g && s.ended[i] != Fine {
          assert Hinders(reply, t, i, f);
        } else if t.toolsets[f] == Running {
          var j :| InProgress(reply, s, j, f);
          assert InProgress(reply, t, j, f);
        } else {
          var j :| Hinders(reply, s, j, f);
          assert Hinders(reply, t, j, f);
        }
      }
    }
  }

  lemma BusyIsOver(reply: Reply, s: State, t: State)
    requires t.responded
    ensures Busy(reply, t)
  {
  }

  lemma CallsAside(reply: Reply, s: State, t: State)
    requires t == s.(calls := t.calls)
    ensures Reasons(reply, s) ==> Reasons(reply, t)
    ensures Busy(reply, s) ==> Busy(reply, t)
    ensures Steady(reply, s) ==> Steady(reply, t)
  {
    if Reasons(reply, s) { ReasonsGrow(reply, s, t); }
    if Busy(reply, s) { BusyOn(reply, s, t); }
    if Steady(reply, s) { SteadyStays(reply, s, t); }
  }

  lemma ArriveReasons(reply: Reply, s: State, i: nat)
    requires Reasons(reply, s) && i < |reply.calls|
    ensures Reasons(reply, AfterArrive(reply, s, i))
  {
    hide Reasons;
    ReasonsGrow(reply, s, AfterArrive(reply, s, i));
  }

  lemma ArriveSteady(reply: Reply, s: State, i: nat)
    requires Inv(reply, s, |reply.calls|) && i < |reply.calls| && Steady(reply, s)
    requires Starts(reply, s, i) ==> InTurn(reply, s.handed + [i], i)
    ensures Steady(reply, AfterArrive(reply, s, i))
    ensures Starts(reply, s, i) ==> Clear(reply, s.begun, s.ended, i) && Next(reply, s.begun, i)
  {
    hide Inv, Ordered, Clear, Next, InTurn, Starts;
    ArriveOrdered(reply, s, i);
  }

  lemma RespondingReasons(reply: Reply, s: State)
    requires Reasons(reply, s) && !s.responded
    ensures s.tails == {} && Reasons(reply, s.(responded := true)) && Busy(reply, s.(responded := true))
  {
    ReasonsGrow(reply, s, s.(responded := true));
  }

  lemma RespondToReasons(reply: Reply, s: State, i: nat)
    requires Reasons(reply, s) && s.responded && i < |reply.calls|
    ensures Reasons(reply, AfterRespondTo(reply, s, i)) && Busy(reply, AfterRespondTo(reply, s, i))
  {
    hide Reasons;
    ReasonsGrow(reply, s, AfterRespondTo(reply, s, i));
  }

  lemma RespondToSteady(reply: Reply, s: State, i: nat)
    requires i < |reply.calls| && s.tails == {}
    ensures Steady(reply, s) ==> Steady(reply, AfterRespondTo(reply, s, i))
  {
    hide Ordered;
    RespondToOrdered(reply, s, i);
  }

  lemma TurnSteady(reply: Reply, s: State, i: nat)
    requires Inv(reply, s, |reply.calls|) && Steady(reply, s) && Turn(reply, s, i)
    ensures Steady(reply, AfterTurn(reply, s, i))
    ensures reply.calls[i].family.value !in s.failed ==>
              Clear(reply, s.begun, s.ended, i) && Next(reply, s.begun, i)
  {
    hide Inv, Ordered, Clear, Next, Turn;
    TurnOrdered(reply, s, i);
  }

  // The toolset that a call is of, or is named after.
  function ToolsetOf(reply: Reply, j: nat): Name
    requires j < |reply.calls|
  {
    if reply.calls[j].family.Some? then reply.calls[j].family.value else reply.calls[j].name
  }

  // The toolset's calls handed over so far have all succeeded and settled, and none was malformed.
  ghost predicate AllSucceeded(reply: Reply, s: State, f: Name) {
    forall j | j in s.handed && j < |reply.calls| && ToolsetOf(reply, j) == f ::
      reply.calls[j].family.Some? && j !in s.unsettled && j in s.ended && s.ended[j] == Fine
  }

  lemma HeldOrNew(reply: Reply, s: State, v: View, i: nat)
    requires Inv(reply, s, |reply.calls|) && Tells(v, s) && !s.responded && i !in s.handed
    ensures i in s.calls <==> i in v.held
  {
    hide Eager;
  }

  /**
   While the reply streams, a call handed over for the first time starts exactly when it is not held and, if it is a
   registered toolset's, all the toolset's calls handed over before it have succeeded and settled. A call named after
   a toolset does not start.
   */
  lemma StartsWhenIdle(reply: Reply, s: State, v: View, i: nat)
    requires Inv(reply, s, |reply.calls|) && Busy(reply, s) && Tells(v, s) && !s.responded
    requires i < |reply.calls| && Distinct(s.handed + [i])
    requires reply.calls[i].family.Some? ==> reply.calls[i].family.value in reply.families
    ensures Starts(reply, s, i) <==>
            i !in v.held && if reply.calls[i].family.None? then reply.calls[i].name !in reply.families
                            else AllSucceeded(reply, s, reply.calls[i].family.value)
  {
    HandedBefore(s.handed, i);
    HeldOrNew(reply, s, v, i);
    if reply.calls[i].family.Some? {
      var f := reply.calls[i].family.value;
      assert EagerAt(reply, s, f);
      assert forall j: nat | j < |reply.calls| :: reply.EagerFamily(j) == Some(f) <==> ToolsetOf(reply, j) == f;
      if f in s.toolsets {
        if s.toolsets[f] == Running {
          var j :| InProgress(reply, s, j, f);
          assert j in s.handed && ToolsetOf(reply, j) == f;
        } else {
          var j :| Hinders(reply, s, j, f);
          assert !Passed(reply, s.begun, s.ended, j) && ToolsetOf(reply, j) == f;
        }
      }
    }
  }

  // ----- nothing is stranded -----

  // Nothing is left to happen: every call that has begun has settled, no queued call's turn has come, and every
  // sequence has moved as far as it can.
  ghost predicate Quiet(reply: Reply, s: State) {
    && s.responded
    && (forall i | i in s.begun :: i in s.ended)
    && (forall i: nat :: !Turn(reply, s, i))
    && (forall i: nat | Moves(reply, s, i) :: i in s.tails)
  }

  // The call is answered, and its sequence has moved past it.
  predicate Done(reply: Reply, s: State, i: nat)
    requires i < |reply.calls|
  {
    i in s.ended && (reply.Family(i).Some? ==> i in s.tails)
  }

  lemma Covered(reply: Reply, s: State, i: nat)
    requires Inv(reply, s, |reply.calls|) && s.responded && i < |reply.calls|
    ensures i in s.begun || i in s.ended || (i in s.queued && reply.IsMember(i))
  {
    hide Begun, Eager;
    assert reply.Malformed(i) || IsStarted(s, i);
  }

  // A call after which nothing is left to happen is done when the one before it in its sequence is.
  lemma DoneNext(reply: Reply, s: State, i: nat)
    requires Inv(reply, s, |reply.calls|) && Quiet(reply, s) && i < |reply.calls|
    requires reply.Family(i).Some? ==>
               var before := reply.Before(i, reply.Family(i).value);
               before >= 0 ==> before in s.tails
    ensures Done(reply, s, i)
  {
    hide Inv;
    Covered(reply, s, i);
    assert !Turn(reply, s, i);
    assert Moves(reply, s, i) ==> i in s.tails;
  }

  lemma {:induction false} DoneUpTo(reply: Reply, s: State, n: nat)
    requires Inv(reply, s, |reply.calls|) && Quiet(reply, s) && n <= |reply.calls|
    ensures forall i | 0 <= i < n :: Done(reply, s, i)
  {
    hide Inv, Quiet;
    if n > 0 {
      var i := n - 1;
      DoneUpTo(reply, s, i);
      if reply.Family(i).Some? {
        var before := reply.Before(i, reply.Family(i).value);
        assert before >= 0 ==> Done(reply, s, before);
      }
      DoneNext(reply, s, i);
    }
  }

  /** No call is stranded: once nothing is left to happen, every call of the reply is answered or has rejected. */
  lemma NoneStranded(reply: Reply, s: State)
    requires Inv(reply, s, |reply.calls|) && Quiet(reply, s)
    ensures forall i | 0 <= i < |reply.calls| :: i in s.ended
  {
    hide Inv, Quiet;
    DoneUpTo(reply, s, |reply.calls|);
    forall i | 0 <= i < |reply.calls| ensures i in s.ended {
      assert Done(reply, s, i);
    }
  }

  // ----- the runner -----

  class Runner {
    const reply: Reply
    var handed: seq<nat>
    var calls: map<nat, CallState>
    var toolsets: map<Name, Mode>
    var unsettled: set<nat>
    var queued: set<nat>
    var failed: set<Name>
    var tails: set<nat>
    var begun: set<nat>
    var ended: map<nat, Outcome>
    var responded: bool
    ghost var log: seq<Act>

    function Now(): State
      reads this
    {
      State(handed, calls, toolsets, unsettled, queued, failed, tails, begun, ended, responded)
    }

    ghost predicate Valid()
      reads this
    {
      ValidUpTo(|reply.calls|)
    }

    // Generating the response has gone through the first `n` calls.
    ghost predicate ValidUpTo(n: nat)
      reads this
    {
      && Inv(reply, Now(), n) && Lawful(reply, log) && Tells(Replay(log), Now())
      && Reasons(reply, Now()) && Busy(reply, Now())
      && (StartedInTurn(reply, log) ==> Sequential(reply, log) && Steady(reply, Now()))
    }

    constructor (reply: Reply)
      ensures Valid() && this.reply == reply && log == []
      ensures Now() == State([], map[], map[], {}, {}, {}, {}, {}, map[], false)
    {
      this.reply := reply;
      handed, calls, toolsets, unsettled, queued, failed, tails := [], map[], map[], {}, {}, {}, {};
      begun, ended, responded, log := {}, map[], false, [];
    }

    ghost method Log(act: Act)
      requires Lawful(reply, log) && Follows(reply, Replay(log), act)
      modifies this`log
      ensures log == old(log) + [act] && Lawful(reply, log) && Replay(log) == Apply(Replay(old(log)), act)
      ensures StartedInTurn(reply, log) ==> StartedInTurn(reply, old(log)) && StartsInTurn(reply, Replay(old(log)), act)
      ensures Sequential(reply, old(log)) && InSequence(reply, Replay(old(log)), act) ==> Sequential(reply, log)
    {
      hide *;
      LawfulNext(reply, log, act);
      log := log + [act];
    }

    // `deferToolCall` does nothing for a call that is known.
    method Defer(i: nat)
      requires Valid()
      modifies this`calls, this`log
      ensures Valid() && log == old(log) + if i in old(calls) then [] else [Hold(i)]
      ensures calls == if i in old(calls) then old(calls) else old(calls)[i := Held]
    {
      hide Replay, Lawful, Sequential, StartedInTurn, Eager, Chained, Known, Steady, Reasons, Busy;
      if i in calls { return; }
      DeferKeeps(reply, Now(), i);
      ghost var s := Now();
      CallsAside(reply, s, s.(calls := s.calls[i := Held]));
      calls := calls[i := Held];
      Log(Hold(i));
    }

    // The stream hands over a call, which starts unless it is held or known or its toolset is busy.
    method Arrive(i: nat)
      requires Valid() && i < |reply.calls|
      modifies this`handed, this`calls, this`toolsets, this`unsettled, this`begun, this`log
      ensures Valid() && Now() == AfterArrive(reply, old(Now()), i)
      ensures handed == old(handed) + [i]
      ensures log == old(log) + [Hand(i)] + if Starts(reply, old(Now()), i) then [Begin(i)] else []
    {
      hide Replay, Lawful, Sequential, StartedInTurn, Inv, Steady, Reasons, Busy, Clear, Next, InTurn, Starts,
        AfterArrive, Tells;
      ghost var s := Now();
      ArriveKeeps(reply, s, i);
      ArriveTells(reply, s, Replay(log), i);
      ArriveBusy(reply, s, i);
      ArriveReasons(reply, s, i);
      if Steady(reply, s) && (Starts(reply, s, i) ==> InTurn(reply, s.handed + [i], i)) {
        ArriveSteady(reply, s, i);
      }
      Log(Hand(i));
      if Starts(reply, s, i) {
        Log(Begin(i));
      }
      HandOver(i);
    }

    method HandOver(i: nat)
      requires i < |reply.calls|
      modifies this`handed, this`calls, this`toolsets, this`unsettled, this`begun
      ensures Now() == AfterArrive(reply, old(Now()), i) && handed == old(handed) + [i]
    {
      var known := i in calls;
      var malformed := reply.calls[i].family.None? && reply.calls[i].name in reply.families;
      var family := if malformed then Some(reply.calls[i].name) else reply.calls[i].family;
      handed := handed + [i];
      if family.Some? {
        var f := family.value;
        if known || malformed || f in toolsets {
          toolsets := toolsets[f := Waiting];
          return;
        }
        toolsets := toolsets[f := Running];
        unsettled := unsettled + {i};
      } else if known {
        return;
      }
      calls := calls[i := Started];
      begun := begun + {i};
    }

    // A call that has begun is answered, or its promise rejects.
    method Complete(i: nat, outcome: Outcome)
      requires Valid() && i in begun && i !in ended
      modifies this`ended, this`log
      ensures Valid() && log == old(log) + [Finish(i, outcome)] && ended == old(ended)[i := outcome]
    {
      hide Replay, Lawful, Sequential, StartedInTurn, Steady, Reasons, Busy, Eager, Chained, Known, Unrun, UnrunInOrder;
      CompleteKeeps(reply, Now(), i, outcome);
      ghost var s := Now();
      CompleteBusy(reply, s, i, outcome);
      ReasonsGrow(reply, s, s.(ended := s.ended[i := outcome]));
      Log(Finish(i, outcome));
      ended := ended[i := outcome];
      if Steady(reply, s) { SteadyStays(reply, s, Now()); }
    }

    // The callback on the result of a call that started while the reply streamed.
    method Settle(i: nat)
      requires Valid() && i in unsettled && i in ended
      modifies this`unsettled, this`toolsets
      ensures Valid() && Now() == AfterSettle(reply, old(Now()), i)
    {
      hide Replay, Lawful, Sequential, StartedInTurn, Begun, Chained, Known, EagerAt, Steady, Reasons, Busy;
      ghost var s := Now();
      SettleKeeps(reply, s, i);
      SettleBusy(reply, s, i);
      ReasonsGrow(reply, s, AfterSettle(reply, s, i));
      if Steady(reply, s) { SteadyStays(reply, s, AfterSettle(reply, s, i)); }
      var f := reply.calls[i].family.value;
      unsettled := unsettled - {i};
      if ended[i] != Fine || toolsets[f] == Waiting {
        toolsets := toolsets[f := Waiting];
      } else {
        toolsets := toolsets - {f};
      }
    }

    // Goes through the reply's calls: a started call is reused, a toolset's call is queued behind the toolset's
    // calls before it, a malformed one is answered, and any other call starts.
    method Respond()
      requires Valid() && !responded
      modifies this`calls, this`queued, this`begun, this`ended, this`responded, this`log
      ensures Valid() && Now() == AfterResponding(reply, old(Now()), |reply.calls|) && old(log) + [Act.Respond] <= log
      ensures responded
      ensures forall i | 0 <= i < |reply.calls| :: i in begun || i in ended || i in queued
    {
      hide Replay, Lawful, Sequential, StartedInTurn, Begun, Eager, Chained, Known, Steady, Reasons, Busy,
        AfterRespondTo;
      ghost var s := Now();
      RespondingKeeps(reply, s);
      RespondingReasons(reply, s);
      Log(Act.Respond);
      responded := true;
      if Steady(reply, s) { SteadyStays(reply, s, Now()); }
      for i := 0 to |reply.calls|
        invariant responded && tails == {} && ValidUpTo(i) && old(log) + [Act.Respond] <= log
        invariant Now() == AfterResponding(reply, s, i)
        invariant forall k | 0 <= k < i :: k in begun || k in ended || k in queued
      {
        RespondTo(i);
      }
    }

    method RespondTo(i: nat)
      requires responded && tails == {} && i < |reply.calls| && ValidUpTo(i)
      modifies this`calls, this`queued, this`begun, this`ended, this`log
      ensures ValidUpTo(i + 1) && Now() == AfterRespondTo(reply, old(Now()), i) && old(log) <= log
      ensures old(begun) <= begun && old(ended.Keys) <= ended.Keys && old(queued) <= queued
      ensures i in begun || i in ended || i in queued
    {
      hide Replay, Lawful, Sequential, StartedInTurn, Steady, Reasons, Busy, Clear, Next, Inv;
      ghost var s := Now();
      RespondToKeeps(reply, s, i);
      RespondToGrows(reply, s, i);
      RespondToSteady(reply, s, i);
      RespondToReasons(reply, s, i);
      if reply.Malformed(i) {
        if i !in ended {
          Log(Finish(i, Errored));
          ended := ended[i := Errored];
        }
      } else if i in calls && calls[i] == Started {
      } else if reply.calls[i].family.Some? {
        queued := queued + {i};
        calls := calls[i := Started];
      } else {
        Log(Begin(i));
        begun := begun + {i};
        calls := calls[i := Started];
      }
    }

    // A queued call's turn comes: it runs, or is answered unrun when the toolset's sequence has failed.
    method TakeTurn(i: nat)
      requires Valid() && Turn(reply, Now(), i)
      modifies this`queued, this`begun, this`ended, this`log
      ensures Valid() && Now() == AfterTurn(reply, old(Now()), i)
      ensures log == old(log) + [if reply.calls[i].family.value in failed then Finish(i, Errored) else Begin(i)]
    {
      hide Replay, Lawful, Sequential, StartedInTurn, Steady, Reasons, Busy, Inv, Turn, Clear, Next, Unrun,
        UnrunInOrder;
      ghost var s := Now();
      TurnKeeps(reply, s, i);
      TurnFollows(reply, s, i);
      TurnReasons(reply, s, i);
      BusyIsOver(reply, s, AfterTurn(reply, s, i));
      if Steady(reply, s) { TurnSteady(reply, s, i); }
      queued := queued - {i};
      if reply.calls[i].family.value in failed {
        Log(Finish(i, Errored));
        ended := ended[i := Errored];
      } else {
        Log(Begin(i));
        begun := begun + {i};
      }
    }

    // Once nothing is left to happen, the response has one result for each call, in the model's order, unless one
    // rejected.
    method Response() returns (results: Option<seq<(nat, Outcome)>>)
      requires Valid() && Quiet(reply, Now())
      ensures forall i | 0 <= i < |reply.calls| :: i in ended
      ensures results.Some? <==> forall i | 0 <= i < |reply.calls| :: ended[i] != Rejected
      ensures results.Some? ==>
                |results.value| == |reply.calls|
                && forall i | 0 <= i < |reply.calls| :: results.value[i] == (i, ended[i])
    {
      hide Inv, Quiet, Lawful, Replay;
      NoneStranded(reply, Now());
      var collected := [];
      for i := 0 to |reply.calls|
        invariant |collected| == i
        invariant forall k | 0 <= k < i :: collected[k] == (k, ended[k]) && ended[k] != Rejected
      {
        if ended[i] == Rejected { return None; }
        collected := collected + [(i, ended[i])];
      }
      return Some(collected);
    }

    // The sequence of the call's toolset moves past it.
    method MoveOn(i: nat)
      requires Valid() && Moves(reply, Now(), i)
      modifies this`tails, this`failed
      ensures Valid() && Now() == AfterMove(reply, old(Now()), i)
    {
      hide Replay, Lawful, Sequential, StartedInTurn, Begun, Eager, Chained, Known, Steady, Reasons, Busy;
      ghost var s := Now();
      MoveKeeps(reply, s, i);
      MoveReasons(reply, s, i);
      BusyIsOver(reply, s, AfterMove(reply, s, i));
      if Steady(reply, s) { MoveSteady(reply, s, i); }
      var f := reply.Family(i).value;
      tails := tails + {i};
      if reply.Malformed(i) || ended[i] == Rejected || (ended[i] == Errored && f in reply.families) {
        failed := failed + {f};
      }
    }
  }

  lemma RespondToGrows(reply: Reply, s: State, i: nat)
    requires Inv(reply, s, i) && i < |reply.calls|
    ensures var t := AfterRespondTo(reply, s, i);
            && s.begun <= t.begun && s.ended.Keys <= t.ended.Keys && s.queued <= t.queued
            && (i in t.begun || i in t.ended || i in t.queued)
    ensures !reply.Malformed(i) && !reply.IsMember(i) && (i in s.calls ==> s.calls[i] != Started) ==>
              i !in s.begun && i !in s.ended && Clear(reply, s.begun, s.ended, i) && Next(reply, s.begun, i)
  {
    hide Eager, Chained, Clear, Next;
    if !reply.Malformed(i) && !reply.IsMember(i) && !IsStarted(s, i) { FunctionMayBegin(reply, s, i); }
  }

  lemma FunctionMayBegin(reply: Reply, s: State, i: nat)
    requires Inv(reply, s, i) && i < |reply.calls| && !reply.Malformed(i) && !reply.IsMember(i) && !IsStarted(s, i)
    ensures i !in s.begun && i !in s.ended && Clear(reply, s.begun, s.ended, i) && Next(reply, s.begun, i)
  {}

  lemma RespondedToBoth(reply: Reply, s: State, f: Name)
    requires reply == Reply([ToolUse("open", Some(f)), ToolUse("close", Some(f))], {f}, {})
    requires s.calls == map[1 := Started]
    ensures AfterResponding(reply, s, 2)
         == s.(responded := true, calls := s.calls[0 := Started], queued := s.queued + {0})
  {
    var t := s.(responded := true);
    assert AfterResponding(reply, s, 0) == t;
    assert AfterResponding(reply, s, 1) == AfterRespondTo(reply, t, 0);
  }

  lemma StartsOverSkipped(reply: Reply, log: seq<Act>, f: Name)
    requires reply == Reply([ToolUse("open", Some(f)), ToolUse("close", Some(f))], {f}, {})
    requires [Hand(1), Begin(1)] <= log
    ensures !Sequential(reply, log)
  {
    hide Replay;
    assert log[..1] == [] + [Hand(1)];
    ReplayNext([], Hand(1));
    assert reply.InFamily(0, f) && 0 !in Replay(log[..1]).begun by { NothingBegun(); }
    assert !InSequence(reply, Replay(log[..1]), log[1]);
  }

  lemma NothingBegun()
    ensures Replay([]).begun == {}
  {
  }

  /**
   When the first of two calls of a registered toolset is skipped, as `EagerHandover.OverlapSkips` shows it can be, the
   second starts while the reply streams, and the response starts the first beside it.
   */
  method SkippedCallOverlaps(f: Name) returns (runner: Runner)
    ensures runner.Valid() && runner.reply == Reply([ToolUse("open", Some(f)), ToolUse("close", Some(f))], {f}, {})
    ensures runner.begun == {0, 1} && runner.ended == map[] && !Sequential(runner.reply, runner.log)
    ensures [Hand(1), Begin(1), Act.Respond] <= runner.log && runner.log[|runner.log| - 1] == Begin(0)
  {
    hide Inv, Lawful, Sequential, StartedInTurn, Tells, Replay, AfterResponding;
    var reply := Reply([ToolUse("open", Some(f)), ToolUse("close", Some(f))], {f}, {});
    runner := new Runner(reply);
    runner.Arrive(1);
    RespondedToBoth(reply, runner.Now(), f);
    runner.Respond();
    assert Turn(reply, runner.Now(), 0);
    runner.TakeTurn(0);
    StartsOverSkipped(reply, runner.log, f);
  }

  datatype Choice =
    | ToDefer(i: nat) | ToArrive(i: nat) | ToComplete(i: nat, outcome: Outcome) | ToSettle(i: nat) | ToRespond
    | ToTakeTurn(i: nat) | ToMoveOn(i: nat)

  // One thing happens, if it can.
  method Happen(runner: Runner, choice: Choice)
    requires runner.Valid()
    modifies runner
    ensures runner.Valid() && old(runner.handed) <= runner.handed && (old(runner.responded) ==> runner.responded)
    ensures choice.ToArrive? && choice.i < |runner.reply.calls| ==> choice.i in runner.handed
    ensures choice == ToRespond ==> runner.responded
  {
    hide Inv, Lawful, Sequential, StartedInTurn, Tells, Reasons, Busy, Steady;
    hide AfterArrive, AfterSettle, AfterTurn, AfterMove, AfterResponding;
    match choice {
      case ToDefer(i) => runner.Defer(i);
      case ToArrive(i) => if i < |runner.reply.calls| { runner.Arrive(i); }
      case ToComplete(i, outcome) =>
        if i in runner.begun && i !in runner.ended { runner.Complete(i, outcome); }
      case ToSettle(i) => if i in runner.unsettled && i in runner.ended { runner.Settle(i); }
      case ToRespond => if !runner.responded { runner.Respond(); }
      case ToTakeTurn(i) => if Turn(runner.reply, runner.Now(), i) { runner.TakeTurn(i); }
      case ToMoveOn(i) => if Moves(runner.reply, runner.Now(), i) { runner.MoveOn(i); }
    }
  }

  /**
   Whatever happens in whatever order, a run keeps the laws, and it runs its toolsets in sequence exactly when the
   calls that start while the reply streams start in turn.
   */
  method RunSchedule(runner: Runner, schedule: seq<Choice>)
    requires runner.Valid()
    modifies runner
    ensures runner.Valid() && Lawful(runner.reply, runner.log)
    ensures Sequential(runner.reply, runner.log) <==> StartedInTurn(runner.reply, runner.log)
    ensures forall choice | choice in schedule && choice.ToArrive? && choice.i < |runner.reply.calls| ::
              choice.i in runner.handed
    ensures ToRespond in schedule ==> runner.responded
  {
    hide Inv, Lawful, Sequential, StartedInTurn, Tells, Reasons, Busy, Steady;
    for n := 0 to |schedule|
      invariant runner.Valid()
      invariant forall choice | choice in schedule[..n] && choice.ToArrive? && choice.i < |runner.reply.calls| ::
                  choice.i in runner.handed
      invariant ToRespond in schedule[..n] ==> runner.responded
    {
      assert schedule[..n + 1] == schedule[..n] + [schedule[n]];
      Happen(runner, schedule[n]);
    }
    assert schedule[..|schedule|] == schedule;
    if Sequential(runner.reply, runner.log) { SequentialNeedsTurns(runner.reply, runner.log); }
  }
}
