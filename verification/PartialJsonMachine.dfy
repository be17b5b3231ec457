/**
 What the partial-JSON parser makes of a prefix of a JSON text.

 `Run` reads tokens into the arrays and objects that are still open, each with its complete entries and with
 what has arrived of the next one. Stripping drops what has arrived of an entry that is not complete,
 unstripping closes what is open, and the result spells `Shown`, the value with exactly the complete entries.
 */
module PartialJsonMachine {
  import opened JsonText
  import opened PartialJsonParser
  import opened PartialJsonLexing

  // An array or object that is still open, with its complete entries. `comma` is set after a comma, and
  // `key` and `colon` once the next member's key and colon have arrived.
  datatype Frame =
    | InArr(items: seq<Json>, comma: bool)
    | InObj(members: seq<Member>, comma: bool, hasKey: bool, key: string, colon: bool)

  datatype State = Building(frames: seq<Frame>) | Done(value: Json) | Failed

  predicate TakesEntry(empty: bool, comma: bool) { empty || comma }

  predicate TakesValue(frames: seq<Frame>) {
    if frames == [] then true else
      match frames[|frames| - 1]
      case InArr(items, comma) => TakesEntry(items == [], comma)
      case InObj(_, _, _, _, colon) => colon
  }

  // `f` with `v` as its next entry.
  function WithValue(f: Frame, v: Json): Frame {
    match f
    case InArr(items, _) => InArr(items + [v], false)
    case InObj(members, _, _, key, _) => InObj(members + [Member(key, v)], false, false, "", false)
  }

  function Push(frames: seq<Frame>, v: Json): State {
    if frames == [] then Done(v)
    else Building(frames[..|frames| - 1] + [WithValue(frames[|frames| - 1], v)])
  }

  predicate IsValueToken(t: Token) { t.Number? || t.Name? || t.Str? }

  function ScalarValue(t: Token): Json
    requires IsValueToken(t)
  {
    match t
    case Number(digits, _) => Num(digits)
    case Name(name) => Literal(name)
    case Str(body) => Text(body)
  }

  // The object frame `f` after a string, colon, comma or closing brace that is not a value.
  function TopStep(frames: seq<Frame>, t: Token): State
    requires frames != []
  {
    var below, top := frames[..|frames| - 1], frames[|frames| - 1];
    match top
    case InArr(items, comma) =>
      if t == Shut(Square) && !comma then Push(below, Arr(items))
      else if t == Delimiter && items != [] && !comma then Building(below + [InArr(items, true)])
      else Failed
    case InObj(members, comma, hasKey, key, colon) =>
      if t.Str? && !hasKey && TakesEntry(members == [], comma) then
        Building(below + [InObj(members, comma, true, t.value, false)])
      else if t == Separator && hasKey && !colon then Building(below + [InObj(members, comma, true, key, true)])
      else if t == Delimiter && members != [] && !comma && !hasKey then
        Building(below + [InObj(members, true, false, "", false)])
      else if t == Shut(Curly) && !comma && !hasKey then Push(below, Obj(members))
      else Failed
  }

  function Step(st: State, t: Token): State {
    if !st.Building? || !IsJsonToken(t) then Failed
    else if TakesValue(st.frames) && IsValueToken(t) then Push(st.frames, ScalarValue(t))
    else if TakesValue(st.frames) && t == Open(Square) then Building(st.frames + [InArr([], false)])
    else if TakesValue(st.frames) && t == Open(Curly) then Building(st.frames + [InObj([], false, false, "", false)])
    else if st.frames == [] then Failed
    else TopStep(st.frames, t)
  }

  function Run(tokens: seq<Token>): State {
    if tokens == [] then Building([]) else Step(Run(tokens[..|tokens| - 1]), tokens[|tokens| - 1])
  }

  lemma RunNext(tokens: seq<Token>, t: Token)
    ensures Run(tokens + [t]) == Step(Run(tokens), t)
  {
    hide Step;
    assert (tokens + [t])[..|tokens|] == tokens;
  }

  lemma Regroup<T>(a: seq<T>, b: seq<T>, c: seq<T>)
    ensures a + (b + c) == (a + b) + c
  {
  }

  function EmptyFrame(b: Bracket): Frame {
    if b == Curly then InObj([], false, false, "", false) else InArr([], false)
  }

  function Separators(needed: bool): seq<Token> { if needed then [Delimiter] else [] }

  lemma ItemTokensSnoc(items: seq<Json>, v: Json)
    ensures ItemTokens(items + [v]) == ItemTokens(items) + Separators(items != []) + TokensOf(v)
  {
    hide TokensOf;
    assert (items + [v])[..|items|] == items;
  }

  lemma MemberTokensSnoc(members: seq<Member>, m: Member)
    ensures MemberTokens(members + [m])
         == MemberTokens(members) + Separators(members != []) + [Str(m.key), Separator] + TokensOf(m.value)
  {
    hide TokensOf;
    assert (members + [m])[..|members|] == members;
  }

  // ----- reading a value's tokens gives the value -----

  lemma RunOpen(before: seq<Token>, frames: seq<Frame>, b: Bracket)
    requires Run(before) == Building(frames) && TakesValue(frames)
    ensures Run(before + [Open(b)]) == Building(frames + [EmptyFrame(b)])
  {
    hide Run;
    RunNext(before, Open(b));
  }

  lemma RunScalar(before: seq<Token>, frames: seq<Frame>, t: Token)
    requires Run(before) == Building(frames) && TakesValue(frames) && IsValueToken(t) && IsJsonToken(t)
    ensures Run(before + [t]) == Push(frames, ScalarValue(t))
  {
    hide Run, Push;
    RunNext(before, t);
  }

  // A token that `TopStep` reads for the innermost open bracket.
  lemma RunTop(before: seq<Token>, frames: seq<Frame>, t: Token)
    requires Run(before) == Building(frames) && frames != [] && IsJsonToken(t)
    requires !(TakesValue(frames) && (IsValueToken(t) || t.Open?))
    ensures Run(before + [t]) == TopStep(frames, t)
  {
    hide Run, TopStep;
    RunNext(before, t);
  }

  lemma {:induction false} RunValue(before: seq<Token>, frames: seq<Frame>, j: Json)
    requires WellFormed(j) && Run(before) == Building(frames) && TakesValue(frames)
    ensures Run(before + TokensOf(j)) == Push(frames, j)
    decreases j, 0
  {
    hide Run, Step, Push, ItemTokens, MemberTokens, IsNumber, IsStringBody, TakesValue;
    match j
    case Arr(items) =>
      RunOpen(before, frames, Square);
      RunItems(before + [Open(Square)], frames, items);
      RunTop(before + [Open(Square)] + ItemTokens(items), frames + [InArr(items, false)], Shut(Square));
      assert (frames + [InArr(items, false)])[..|frames|] == frames;
      Regroup(before, [Open(Square)] + ItemTokens(items), [Shut(Square)]);
      Regroup(before, [Open(Square)], ItemTokens(items));
    case Obj(members) =>
      RunOpen(before, frames, Curly);
      RunMembers(before + [Open(Curly)], frames, members);
      var inside := frames + [InObj(members, false, false, "", false)];
      RunTop(before + [Open(Curly)] + MemberTokens(members), inside, Shut(Curly));
      assert inside[..|frames|] == frames;
      Regroup(before, [Open(Curly)] + MemberTokens(members), [Shut(Curly)]);
      Regroup(before, [Open(Curly)], MemberTokens(members));
    case _ => RunScalar(before, frames, TokensOf(j)[0]);
  }

  // After an optional comma.
  lemma RunComma(before: seq<Token>, below: seq<Frame>, top: Frame, needed: bool)
    requires Run(before) == Building(below + [top])
    requires top.InArr? ==> !top.comma && needed == (top.items != [])
    requires top.InObj? ==> !top.comma && !top.hasKey && top.key == "" && !top.colon && needed == (top.members != [])
    ensures Run(before + Separators(needed)) == Building(below + [top.(comma := needed)])
  {
    hide Run;
    if needed {
      RunTop(before, below + [top], Delimiter);
      assert (below + [top])[..|below|] == below;
    } else {
      assert before + Separators(needed) == before;
    }
  }

  lemma PushOnto(below: seq<Frame>, top: Frame, v: Json)
    ensures Push(below + [top], v) == Building(below + [WithValue(top, v)])
  {
    assert (below + [top])[..|below|] == below;
  }

  lemma {:induction false} RunItems(before: seq<Token>, below: seq<Frame>, items: seq<Json>)
    requires forall i | 0 <= i < |items| :: WellFormed(items[i])
    requires Run(before) == Building(below + [InArr([], false)])
    ensures Run(before + ItemTokens(items)) == Building(below + [InArr(items, false)])
    decreases items, 1
  {
    hide Run, Step, Push, TokensOf, WellFormed;
    if items == [] {
      assert before + ItemTokens(items) == before;
    } else {
      var n := |items| - 1;
      var front, v := items[..n], items[n];
      RunItems(before, below, front);
      RunComma(before + ItemTokens(front), below, InArr(front, false), n > 0);
      RunValue(before + ItemTokens(front) + Separators(n > 0), below + [InArr(front, n > 0)], v);
      PushOnto(below, InArr(front, n > 0), v);
      Regroup(before, ItemTokens(front) + Separators(n > 0), TokensOf(v));
      Regroup(before, ItemTokens(front), Separators(n > 0));
      assert front + [v] == items;
    }
  }

  lemma RunKey(before: seq<Token>, below: seq<Frame>, members: seq<Member>, comma: bool, key: string)
    requires Run(before) == Building(below + [InObj(members, comma, false, "", false)])
    requires TakesEntry(members == [], comma) && IsStringBody(key)
    ensures Run(before + [Str(key), Separator]) == Building(below + [InObj(members, comma, true, key, true)])
  {
    hide Run, IsStringBody;
    var keyed := below + [InObj(members, comma, true, key, false)];
    RunTop(before, below + [InObj(members, comma, false, "", false)], Str(key));
    assert (below + [InObj(members, comma, false, "", false)])[..|below|] == below;
    RunTop(before + [Str(key)], keyed, Separator);
    assert keyed[..|below|] == below;
    assert before + [Str(key), Separator] == before + [Str(key)] + [Separator];
  }

  lemma {:induction false} RunMembers(before: seq<Token>, below: seq<Frame>, members: seq<Member>)
    requires forall i | 0 <= i < |members| :: IsStringBody(members[i].key) && WellFormed(members[i].value)
    requires Run(before) == Building(below + [InObj([], false, false, "", false)])
    ensures Run(before + MemberTokens(members)) == Building(below + [InObj(members, false, false, "", false)])
    decreases members, 1
  {
    hide Run, Step, Push, TokensOf, WellFormed, IsStringBody;
    if members == [] {
      assert before + MemberTokens(members) == before;
    } else {
      var n := |members| - 1;
      var front, m := members[..n], members[n];
      var sofar := MemberTokens(front) + Separators(n > 0);
      var keyed := InObj(front, n > 0, true, m.key, true);
      RunMembers(before, below, front);
      RunComma(before + MemberTokens(front), below, InObj(front, false, false, "", false), n > 0);
      RunKey(before + MemberTokens(front) + Separators(n > 0), below, front, n > 0, m.key);
      Regroup(before, MemberTokens(front), Separators(n > 0));
      RunValue(before + sofar + [Str(m.key), Separator], below + [keyed], m.value);
      PushOnto(below, keyed, m.value);
      Regroup(before, sofar, [Str(m.key), Separator]);
      Regroup(before, sofar + [Str(m.key), Separator], TokensOf(m.value));
      assert front + [Member(m.key, m.value)] == members;
    }
  }

  lemma RunDocument(j: Json)
    requires WellFormed(j)
    ensures Run(TokensOf(j)) == Done(j)
  {
    RunValue([], [], j);
    assert [] + TokensOf(j) == TokensOf(j);
  }

  // ----- the tokens read can be told from the state -----

  function KeyTokens(hasKey: bool, key: string, colon: bool): seq<Token> {
    if !hasKey then [] else if colon then [Str(key), Separator] else [Str(key)]
  }

  // The frame's bracket and its complete entries.
  function SettledTokens(f: Frame): seq<Token> {
    match f
    case InArr(items, _) => [Open(Square)] + ItemTokens(items)
    case InObj(members, _, _, _, _) => [Open(Curly)] + MemberTokens(members)
  }

  // What has arrived of the frame's next entry.
  function PendingTokens(f: Frame): seq<Token> {
    match f
    case InArr(_, comma) => Separators(comma)
    case InObj(_, comma, hasKey, key, colon) => Separators(comma) + KeyTokens(hasKey, key, colon)
  }

  function FrameTokens(f: Frame): seq<Token> { SettledTokens(f) + PendingTokens(f) }

  function FramesTokens(frames: seq<Frame>): seq<Token> {
    if frames == [] then [] else FramesTokens(frames[..|frames| - 1]) + FrameTokens(frames[|frames| - 1])
  }

  ghost predicate FrameOk(f: Frame) {
    match f
    case InArr(items, comma) =>
      && (comma ==> items != [])
      && forall i | 0 <= i < |items| :: WellFormed(items[i])
    case InObj(members, comma, hasKey, key, colon) =>
      && (comma ==> members != [])
      && (hasKey ==> TakesEntry(members == [], comma) && IsStringBody(key))
      && (!hasKey ==> key == "")
      && (colon ==> hasKey)
      && forall i | 0 <= i < |members| :: IsStringBody(members[i].key) && WellFormed(members[i].value)
  }

  predicate AwaitsValue(f: Frame) { TakesValue([f]) }

  // Every frame but the last waits for the value that the frames above it are building.
  ghost predicate FramesOk(frames: seq<Frame>) {
    && (forall i | 0 <= i < |frames| :: FrameOk(frames[i]))
    && forall i | 0 <= i < |frames| - 1 :: AwaitsValue(frames[i])
  }

  ghost predicate Explains(st: State, tokens: seq<Token>) {
    match st
    case Building(frames) => FramesOk(frames) && tokens == FramesTokens(frames)
    case Done(v) => WellFormed(v) && tokens == TokensOf(v)
    case Failed => true
  }

  lemma FramesTokensSnoc(below: seq<Frame>, top: Frame)
    ensures FramesTokens(below + [top]) == FramesTokens(below) + FrameTokens(top)
  {
    assert (below + [top])[..|below|] == below;
  }

  lemma WithValueTokens(f: Frame, v: Json)
    requires FrameOk(f) && AwaitsValue(f)
    ensures SettledTokens(WithValue(f, v)) == FrameTokens(f) + TokensOf(v)
    ensures PendingTokens(WithValue(f, v)) == []
  {
    hide TokensOf, ItemTokens, MemberTokens, WellFormed, IsStringBody;
    match f
    case InArr(items, comma) =>
      ItemTokensSnoc(items, v);
      Regroup([Open(Square)], ItemTokens(items) + Separators(comma), TokensOf(v));
      Regroup([Open(Square)], ItemTokens(items), Separators(comma));
    case InObj(members, comma, hasKey, key, colon) =>
      MemberTokensSnoc(members, Member(key, v));
      var before := MemberTokens(members) + Separators(comma);
      Regroup([Open(Curly)], before + [Str(key), Separator], TokensOf(v));
      Regroup([Open(Curly)], before, [Str(key), Separator]);
      Regroup([Open(Curly)], MemberTokens(members), Separators(comma));
      Regroup([Open(Curly)] + MemberTokens(members), Separators(comma), [Str(key), Separator]);
  }

  lemma PushOk(frames: seq<Frame>, v: Json)
    requires FramesOk(frames) && TakesValue(frames) && WellFormed(v)
    ensures match Push(frames, v)
            case Building(next) => FramesOk(next)
            case Done(w) => WellFormed(w)
            case Failed => false
  {
    hide IsStringBody, WellFormed;
    if frames != [] {
      var n := |frames| - 1;
      var f := frames[n];
      assert FrameOk(f);
      assert FrameOk(WithValue(f, v));
    }
  }

  lemma PushExplains(frames: seq<Frame>, v: Json)
    requires FramesOk(frames) && TakesValue(frames) && WellFormed(v)
    ensures Explains(Push(frames, v), FramesTokens(frames) + TokensOf(v))
  {
    hide TokensOf, FrameTokens, SettledTokens, PendingTokens, FrameOk, WellFormed;
    PushOk(frames, v);
    if frames != [] {
      var n := |frames| - 1;
      assert AwaitsValue(frames[n]);
      FrameExplains(frames[n], v);
      FramesTokensSnoc(frames[..n], WithValue(frames[n], v));
      Regroup(FramesTokens(frames[..n]), FrameTokens(frames[n]), TokensOf(v));
    } else {
      assert FramesTokens(frames) + TokensOf(v) == TokensOf(v);
    }
  }

  lemma FrameExplains(f: Frame, v: Json)
    requires FrameOk(f) && AwaitsValue(f)
    ensures FrameTokens(WithValue(f, v)) == FrameTokens(f) + TokensOf(v)
  {
    hide SettledTokens, PendingTokens, WithValue, FrameOk;
    WithValueTokens(f, v);
    assert FrameTokens(WithValue(f, v)) == SettledTokens(WithValue(f, v));
  }

  lemma OpenExplains(frames: seq<Frame>, b: Bracket)
    requires FramesOk(frames) && TakesValue(frames)
    ensures Explains(Building(frames + [EmptyFrame(b)]), FramesTokens(frames) + [Open(b)])
  {
    hide FramesTokens, FrameTokens, FrameOk, EmptyFrame, TakesValue;
    FramesTokensSnoc(frames, EmptyFrame(b));
    EmptyFrameOpens(b);
    LastAwaits(frames);
    var next := frames + [EmptyFrame(b)];
    assert forall i | 0 <= i < |frames| :: next[i] == frames[i];
  }

  lemma EmptyFrameOpens(b: Bracket)
    ensures FrameOk(EmptyFrame(b)) && FrameTokens(EmptyFrame(b)) == [Open(b)]
  {
    hide IsStringBody, WellFormed, TokensOf;
  }

  lemma LastAwaits(frames: seq<Frame>)
    requires TakesValue(frames)
    ensures frames != [] ==> AwaitsValue(frames[|frames| - 1])
  {
  }

  lemma StepExplains(st: State, tokens: seq<Token>, t: Token)
    requires Explains(st, tokens)
    ensures Explains(Step(st, t), tokens + [t])
  {
    hide Explains, FramesTokens, TopStep, Push;
    if st.Building? && IsJsonToken(t) {
      ExplainedFrames(st, tokens);
      if TakesValue(st.frames) && IsValueToken(t) {
        PushExplains(st.frames, ScalarValue(t));
      } else if TakesValue(st.frames) && t.Open? {
        OpenExplains(st.frames, t.bracket);
      } else if st.frames != [] {
        TopStepExplains(st.frames, t);
      } else {
        FailedExplains(tokens + [t]);
      }
    } else {
      FailedExplains(tokens + [t]);
    }
  }

  lemma ExplainedFrames(st: State, tokens: seq<Token>)
    requires Explains(st, tokens) && st.Building?
    ensures FramesOk(st.frames) && tokens == FramesTokens(st.frames)
  {
  }

  lemma FailedExplains(tokens: seq<Token>)
    ensures Explains(Failed, tokens)
  {
  }

  lemma TopStepExplains(frames: seq<Frame>, t: Token)
    requires FramesOk(frames) && frames != [] && IsJsonToken(t)
    ensures Explains(TopStep(frames, t), FramesTokens(frames) + [t])
  {
    hide IsStringBody, WellFormed, TokensOf, ItemTokens, MemberTokens, Push;
    var below, top := frames[..|frames| - 1], frames[|frames| - 1];
    if t.Shut? && !TopStep(frames, t).Failed? {
      ShutExplains(below, top);
    } else if !TopStep(frames, t).Failed? {
      PendingExplains(below, top, TopStep(frames, t).frames[|below|], t);
    }
  }

  lemma ShutExplains(below: seq<Frame>, top: Frame)
    requires FramesOk(below + [top]) && PendingTokens(top) == []
    ensures Explains(Push(below, Value(top)), FramesTokens(below + [top]) + [Shut(BracketOf(top))])
  {
    hide Push, Explains;
    ShutFrame(top);
    BelowOk(below, top);
    PushExplains(below, Value(top));
    FramesTokensSnoc(below, top);
    assert FrameTokens(top) == SettledTokens(top);
    Regroup(FramesTokens(below), SettledTokens(top), [Shut(BracketOf(top))]);
  }

  function BracketOf(f: Frame): Bracket { if f.InArr? then Square else Curly }

  lemma ShutFrame(f: Frame)
    ensures TokensOf(Value(f)) == SettledTokens(f) + [Shut(BracketOf(f))]
    ensures FrameOk(f) ==> WellFormed(Value(f))
  {
    hide ItemTokens, MemberTokens, IsStringBody;
  }

  lemma BelowOk(below: seq<Frame>, top: Frame)
    requires FramesOk(below + [top])
    ensures FramesOk(below) && TakesValue(below) && FrameOk(top)
  {
    hide FrameOk;
    forall i | 0 <= i < |below| ensures FrameOk(below[i]) && AwaitsValue(below[i]) {
      assert (below + [top])[i] == below[i];
    }
    assert (below + [top])[|below|] == top;
    if below != [] { assert AwaitsValue(below[|below| - 1]); }
  }

  lemma PendingExplains(below: seq<Frame>, top: Frame, next: Frame, t: Token)
    requires FramesOk(below + [top]) && FrameOk(next)
    requires SettledTokens(next) == SettledTokens(top) && PendingTokens(next) == PendingTokens(top) + [t]
    ensures Explains(Building(below + [next]), FramesTokens(below + [top]) + [t])
  {
    hide FrameOk, SettledTokens, PendingTokens;
    BelowOk(below, top);
    forall i | 0 <= i < |below| ensures AwaitsValue(below[i]) { assert (below + [top])[i] == below[i]; }
    FramesTokensSnoc(below, top);
    FramesTokensSnoc(below, next);
    Regroup(SettledTokens(top), PendingTokens(top), [t]);
    Regroup(FramesTokens(below), FrameTokens(top), [t]);
  }

  lemma {:induction false} RunExplains(tokens: seq<Token>)
    ensures Explains(Run(tokens), tokens)
  {
    hide Explains, Step;
    if tokens == [] {
      NothingExplained();
    } else {
      var n := |tokens| - 1;
      RunExplains(tokens[..n]);
      StepExplains(Run(tokens[..n]), tokens[..n], tokens[n]);
      assert tokens == tokens[..n] + [tokens[n]];
    }
  }

  lemma NothingExplained()
    ensures Explains(Building([]), [])
  {
  }

  // ----- what is shown of a prefix -----

  // The frame's complete entries, as a value.
  function Value(f: Frame): Json {
    match f
    case InArr(items, _) => Arr(items)
    case InObj(members, _, _, _, _) => Obj(members)
  }

  // The outermost value when `frames` are closed around `v`.
  function Close(frames: seq<Frame>, v: Json): Json {
    if frames == [] then v else Close(frames[..|frames| - 1], Value(WithValue(frames[|frames| - 1], v)))
  }

  predicate Showing(st: State) { st.Done? || (st.Building? && st.frames != []) }

  function Shown(st: State): Json
    requires Showing(st)
  {
    match st
    case Done(v) => v
    case Building(frames) => Close(frames[..|frames| - 1], Value(frames[|frames| - 1]))
  }

  // ----- the brackets that are open -----

  function Brackets(frames: seq<Frame>): (bs: seq<Bracket>)
    ensures |bs| == |frames|
  {
    seq(|frames|, i requires 0 <= i < |frames| => BracketOf(frames[i]))
  }

  // A step opens the bracket it reads, shuts the innermost one, or leaves the brackets as they are.
  lemma StepBrackets(frames: seq<Frame>, t: Token)
    ensures match Step(Building(frames), t)
            case Failed => true
            case Building(next) =>
              if t.Open? then Brackets(next) == Brackets(frames) + [t.bracket]
              else if t.Shut? then Brackets(next) + [t.bracket] == Brackets(frames)
              else Brackets(next) == Brackets(frames)
            case Done(_) => !t.Open? && Brackets(frames) == if t.Shut? then [t.bracket] else []
  {
    hide IsJsonToken;
    var next := Step(Building(frames), t);
    if next.Building? && t.Shut? { assert |next.frames| == |frames| - 1; }
  }

  lemma NoBrackets()
    ensures Brackets([]) == [] && ClosersFor([]) == []
  {
  }

  lemma {:induction false} BracketsOfRun(tokens: seq<Token>)
    ensures match Run(tokens)
            case Failed => true
            case Building(frames) =>
              OpenBrackets(tokens) == Brackets(frames) && MissingClosers(tokens) == Brackets(frames)
            case Done(_) => OpenBrackets(tokens) == [] && MissingClosers(tokens) == []
  {
    hide Step, Brackets, TailStep;
    if tokens == [] {
      NoBrackets();
    } else {
      var n := |tokens| - 1;
      var before, t := Run(tokens[..n]), tokens[n];
      BracketsOfRun(tokens[..n]);
      if before.Building? {
        StepBrackets(before.frames, t);
        TailStepCases(OpenBrackets(tokens[..n]), t);
        if t.Shut? && !Run(tokens).Failed? {
          DropLast(if Run(tokens).Building? then Brackets(Run(tokens).frames) else [], t.bracket);
          assert t == Shut(t.bracket) && [t.bracket] == [] + [t.bracket];
        }
      } else {
        StuckStep(before, t);
      }
    }
  }

  lemma TailStepCases(tail: seq<Bracket>, t: Token)
    ensures t.Open? ==> TailStep(tail, t) == tail + [t.bracket]
    ensures !t.Open? && !t.Shut? ==> TailStep(tail, t) == tail
  {
  }

  lemma StuckStep(st: State, t: Token)
    requires !st.Building?
    ensures Step(st, t) == Failed
  {
  }

  // Taking away the last closing half for `b` takes the tail's last element when that is one.
  lemma DropLast(front: seq<Bracket>, b: Bracket)
    ensures TailStep(front + [b], Shut(b)) == front
    ensures (front + [b])[..|front + [b]| - 1] == front
  {
    assert LastIndexOf(front + [b], b) == |front|;
  }
}
