/** The promises of the partial JSON parser, for every prefix of every valid document. */
module PartialJsonTheorems {
  import opened JsonText
  import opened PartialJsonParser
  import opened PartialJsonLexing
  import opened PartialJsonMachine
  import opened PartialJsonRepair

  // ----- a text spells one value -----

  // All the tokens of a whole text have arrived, unless it ends in a number.
  lemma {:induction false} AllArrive(gaps: seq<string>, tokens: seq<Token>)
    requires |gaps| == |tokens| + 1 && Lexable(tokens)
    ensures var k := |Weave(gaps, tokens)|;
            if tokens != [] && tokens[|tokens| - 1].Number? && gaps[|tokens|] == "" then
              Arrived(gaps, tokens, k) == |tokens| - 1 &&
              Dangling(gaps, tokens, k) == [Number(tokens[|tokens| - 1].value, true)]
            else Arrived(gaps, tokens, k) == |tokens| && Dangling(gaps, tokens, k) == []
    decreases tokens
  {
    hide Written, Lexable, IsJsonToken, IsScalar, Weave, Arrived, Dangling;
    if tokens == [] {
      NoneArrives(gaps);
    } else {
      LexableTail(tokens);
      if |tokens| == 1 {
        OneArrives(gaps, tokens);
      } else {
        AllArrive(gaps[1..], tokens[1..]);
        LexableTail(tokens[1..]);
        FirstArrives(gaps, tokens);
      }
    }
  }

  lemma NoneArrives(gaps: seq<string>)
    requires |gaps| == 1
    ensures Arrived(gaps, [], |Weave(gaps, [])|) == 0 && Dangling(gaps, [], |Weave(gaps, [])|) == []
  {
  }

  lemma OneArrives(gaps: seq<string>, tokens: seq<Token>)
    requires |tokens| == 1 && |gaps| == 2 && IsJsonToken(tokens[0])
    ensures var k := |Weave(gaps, tokens)|;
            if tokens[0].Number? && gaps[1] == "" then
              Arrived(gaps, tokens, k) == 0 && Dangling(gaps, tokens, k) == [Number(tokens[0].value, true)]
            else Arrived(gaps, tokens, k) == 1 && Dangling(gaps, tokens, k) == []
  {
    hide Written, IsJsonToken;
    NumberWidth(tokens[0]);
    WrittenNonEmpty(tokens[0]);
    assert tokens[1..] == [] && gaps[1..] == [gaps[1]];
  }

  lemma FirstArrives(gaps: seq<string>, tokens: seq<Token>)
    requires |tokens| > 1 && |gaps| == |tokens| + 1 && IsJsonToken(tokens[1])
    ensures var k, rest := |Weave(gaps, tokens)|, |Weave(gaps[1..], tokens[1..])|;
            && Arrived(gaps, tokens, k) == 1 + Arrived(gaps[1..], tokens[1..], rest)
            && Dangling(gaps, tokens, k) == Dangling(gaps[1..], tokens[1..], rest)
  {
    hide Written, IsJsonToken;
    WrittenNonEmpty(tokens[1]);
    assert |Weave(gaps[1..], tokens[1..])| >= |Written(tokens[1])|;
  }

  lemma NumberWidth(t: Token)
    ensures t.Number? ==> |Written(t)| == |t.value| && t.value[..|t.value|] == t.value
  {
  }

  // The tokens of a whole text are those of its value; a bare number at the very end counts as unterminated.
  lemma TokensOfText(s: string, j: Json)
    requires Spells(s, j)
    ensures Tokens(s) == TokensOf(j) || (j.Num? && Tokens(s) == [Number(j.digits, true)])
  {
    hide TokensFrom, Lexable, WellFormed, TokensOf, Arrived, Dangling, Weave;
    var gaps :| SpelledWith(s, j, gaps);
    var tokens := TokensOf(j);
    ValueIsLexable(j);
    assert s[..|s|] == s;
    TokensOfPrefix(s, 0, gaps, tokens);
    AllArrive(gaps, tokens);
    LastToken(j);
    LastIsNumber(j);
    assert tokens[..|tokens|] == tokens;
  }

  lemma LastIsNumber(j: Json)
    ensures var ts := TokensOf(j); ts != [] && ts[|ts| - 1].Number? ==> j.Num? && ts == [Number(j.digits, false)]
  {
    hide ItemTokens, MemberTokens;
  }

  /** A text spells at most one value. */
  lemma SpelledValueIsUnique(s: string, v: Json, w: Json)
    requires Spells(s, v) && Spells(s, w)
    ensures v == w
  {
    hide TokensFrom, TokensOf, Run;
    TokensOfText(s, v);
    TokensOfText(s, w);
    RunDocument(v);
    RunDocument(w);
    NumberTokens(v);
    NumberTokens(w);
  }

  lemma NumberTokens(v: Json)
    ensures v.Num? ==> TokensOf(v) == [Number(v.digits, false)]
    ensures forall d :: TokensOf(v) != [Number(d, true)]
  {
    hide ItemTokens, MemberTokens;
  }

  // ----- the theorems -----

  /**
   Every prefix of the text of an array or object, from its opening bracket on, is repaired to a valid text,
   and its value is a partial view of the whole value.
   */
  lemma PrefixRepairsToPartialView(doc: string, j: Json, k: nat)
    requires Spells(doc, j) && (j.Arr? || j.Obj?) && k <= |doc| && !Blank(doc[..k])
    ensures exists v :: Spells(Repaired(doc[..k]), v) && PartialOf(v, j)
  {
    hide Spells, PartialOf, SpelledWith, Blank, Repaired, WellFormed, Shown, Showing;
    var gaps := GapsOf(doc, j);
    var m := PrefixRepair(doc, j, gaps, k);
    SomethingArrived(doc, j, gaps, k);
  }

  lemma GapsOf(doc: string, j: Json) returns (gaps: seq<string>)
    requires Spells(doc, j)
    ensures WellFormed(j) && SpelledWith(doc, j, gaps)
  {
    gaps :| SpelledWith(doc, j, gaps);
  }

  /** A longer prefix never takes back what a shorter one has shown. */
  lemma NeverTakesBack(doc: string, j: Json, k: nat, l: nat)
    requires Spells(doc, j) && (j.Arr? || j.Obj?) && k <= l <= |doc| && !Blank(doc[..k])
    ensures forall v, w | Spells(Repaired(doc[..k]), v) && Spells(Repaired(doc[..l]), w) ::
              PartialOf(v, w) && PartialOf(w, j)
  {
    hide Spells, PartialOf, SpelledWith, Blank, Repaired, WellFormed, Shown, Showing;
    var gaps := GapsOf(doc, j);
    var m := PrefixRepair(doc, j, gaps, k);
    var n := PrefixRepair(doc, j, gaps, l);
    SomethingArrived(doc, j, gaps, k);
    ArrivedMonotone(gaps, TokensOf(j), k, l);
    RunDocument(j);
    ShownGrows(TokensOf(j), m, n);
    forall v, w | Spells(Repaired(doc[..k]), v) && Spells(Repaired(doc[..l]), w)
      ensures PartialOf(v, w) && PartialOf(w, j)
    {
      SpelledValueIsUnique(Repaired(doc[..k]), v, Shown(Run(TokensOf(j)[..m])));
      SpelledValueIsUnique(Repaired(doc[..l]), w, Shown(Run(TokensOf(j)[..n])));
    }
  }

  // ----- what is kept only grows -----

  // How many tokens of a prefix are kept, by what it runs to.
  function KeptOf(st: State, n: nat): (k: nat) {
    if st.Building? && st.frames != [] then HeldBy(st.frames[..|st.frames| - 1], st.frames[|st.frames| - 1]) else n
  }

  function HeldBy(below: seq<Frame>, top: Frame): nat { |FramesTokens(below)| + |SettledTokens(top)| }

  lemma KeptByRun(tokens: seq<Token>)
    requires !Run(tokens).Failed?
    ensures |Stripped(tokens)| == KeptOf(Run(tokens), |tokens|) <= |tokens|
    ensures Stripped(tokens) == tokens[..|Stripped(tokens)|]
    ensures OnlyPending(tokens[|Stripped(tokens)|..]) && |tokens| - |Stripped(tokens)| <= 3
  {
    hide Run, KeptLength, SettledTokens, PendingTokens, FrameOk, OpenBrackets, TokensOf;
    var st := Run(tokens);
    RunExplains(tokens);
    if st.Done? {
      DoneRepaired(tokens, st.value);
    } else if st.frames != [] {
      var below, top := st.frames[..|st.frames| - 1], st.frames[|st.frames| - 1];
      assert st.frames == below + [top];
      StripFrames(tokens, below, top);
      FramesTokensSnoc(below, top);
      Regroup(FramesTokens(below), SettledTokens(top), PendingTokens(top));
      PendingIsPending(top);
      assert tokens[|Stripped(tokens)|..] == PendingTokens(top);
    }
  }

  // Commas, colons, keys, and a number that may go on.
  ghost predicate OnlyPending(tokens: seq<Token>) {
    forall i | 0 <= i < |tokens| ::
      tokens[i].Delimiter? || tokens[i].Separator? || tokens[i].Str? || (tokens[i].Number? && tokens[i].unterminated)
  }

  lemma PendingIsPending(f: Frame)
    ensures OnlyPending(PendingTokens(f)) && |PendingTokens(f)| <= 3
  {
  }

  lemma KeptStep(tokens: seq<Token>, t: Token)
    requires !Run(tokens + [t]).Failed?
    ensures KeptOf(Run(tokens), |tokens|) <= KeptOf(Run(tokens + [t]), |tokens| + 1)
  {
    hide Run, Step, FramesOk, FramesTokens, HeldBy, KeptOf, Stripped;
    RunNext(tokens, t);
    StepFails(Run(tokens), t);
    var frames := Run(tokens).frames;
    RunExplains(tokens);
    if frames == [] {
      NothingKept();
    } else {
      var below, top := frames[..|frames| - 1], frames[|frames| - 1];
      assert frames == below + [top];
      KeptByRun(tokens);
      HeldIsKept(below, top, |tokens|);
      StepHolds(below, top, t, |tokens| + 1);
    }
  }

  lemma HeldIsKept(below: seq<Frame>, top: Frame, n: nat)
    ensures KeptOf(Building(below + [top]), n) == HeldBy(below, top)
  {
    hide HeldBy;
    assert (below + [top])[..|below|] == below;
  }

  // One more token takes nothing from what the open frames hold.
  lemma StepHolds(below: seq<Frame>, top: Frame, t: Token, n: nat)
    requires FramesOk(below + [top]) && HeldBy(below, top) <= n && !Step(Building(below + [top]), t).Failed?
    ensures HeldBy(below, top) <= KeptOf(Step(Building(below + [top]), t), n)
  {
    hide Step, Push, TopStep, FramesOk, TakesValue, FramesTokens, SettledTokens, TokensOf;
    var frames := below + [top];
    if TakesValue(frames) && t.Open? {
      StepOpen(frames, t);
      HeldIsKept(frames, EmptyFrame(t.bracket), n);
      FramesTokensSnoc(below, top);
    } else if TakesValue(frames) && IsValueToken(t) {
      StepScalar(frames, t);
      KeptPush(frames, ScalarValue(t));
      FramesTokensSnoc(below, top);
    } else if t.Shut? {
      StepShut(below, top, t);
      KeptShut(below, top);
    } else {
      StepPending(below, top, t);
    }
  }

  // The value that a closing bracket completes brings all its tokens.
  lemma KeptShut(below: seq<Frame>, top: Frame)
    requires FramesOk(below + [top])
    ensures var next := Push(below, Value(top));
            next.Building? && next.frames != [] ==> |FramesTokens(below)| + |SettledTokens(top)| <= KeptOf(next, 0)
  {
    hide FramesOk, FramesTokens, SettledTokens, TokensOf, Push, KeptOf, Value, TakesValue;
    BelowOk(below, top);
    KeptPush(below, Value(top));
    ShutFrame(top);
  }

  lemma NothingKept()
    ensures KeptOf(Run([]), 0) == 0 && FramesTokens([]) == []
  {
  }

  lemma StepOpen(frames: seq<Frame>, t: Token)
    requires TakesValue(frames) && t.Open? && !Step(Building(frames), t).Failed?
    ensures Step(Building(frames), t) == Building(frames + [EmptyFrame(t.bracket)])
  {
  }

  lemma StepScalar(frames: seq<Frame>, t: Token)
    requires TakesValue(frames) && IsValueToken(t) && !Step(Building(frames), t).Failed?
    ensures Step(Building(frames), t) == Push(frames, ScalarValue(t)) && WellFormed(ScalarValue(t))
  {
  }

  lemma StepShut(below: seq<Frame>, top: Frame, t: Token)
    requires t.Shut? && !Step(Building(below + [top]), t).Failed?
    ensures Step(Building(below + [top]), t) == Push(below, Value(top))
  {
    hide Push;
    assert (below + [top])[..|below|] == below;
  }

  lemma StepPending(below: seq<Frame>, top: Frame, t: Token)
    requires !Step(Building(below + [top]), t).Failed? && !t.Shut?
    requires !(TakesValue(below + [top]) && (IsValueToken(t) || t.Open?))
    ensures var next := Step(Building(below + [top]), t);
            && next.Building? && next.frames != [] && next.frames[..|next.frames| - 1] == below
            && SettledTokens(next.frames[|next.frames| - 1]) == SettledTokens(top)
  {
    hide TakesValue, Push;
    assert (below + [top])[..|below|] == below;
  }

  // Pushing a value keeps all that was read before it.
  lemma KeptPush(frames: seq<Frame>, v: Json)
    requires FramesOk(frames) && TakesValue(frames)
    ensures Push(frames, v).Building? ==> KeptOf(Push(frames, v), 0) == |FramesTokens(frames)| + |TokensOf(v)|
  {
    hide TokensOf, SettledTokens, PendingTokens, FrameOk, WithValue;
    if frames != [] {
      var below, f := frames[..|frames| - 1], frames[|frames| - 1];
      assert frames == below + [f];
      AwaitsLast(below, f);
      BelowOk(below, f);
      WithValueTokens(f, v);
      FramesTokensSnoc(below, f);
      assert (below + [WithValue(f, v)])[..|below|] == below;
    }
  }

  lemma {:induction false} KeptGrows(tokens: seq<Token>, m: nat, n: nat)
    requires m <= n <= |tokens| && !Run(tokens).Failed?
    ensures Stripped(tokens[..m]) <= Stripped(tokens[..n]) <= tokens
    decreases n
  {
    hide Run, Stripped, KeptOf;
    RunPrefix(tokens, n);
    KeptByRun(tokens[..n]);
    if m < n {
      KeptGrows(tokens, m, n - 1);
      RunPrefix(tokens, n - 1);
      KeptByRun(tokens[..n - 1]);
      assert tokens[..n - 1] + [tokens[n - 1]] == tokens[..n];
      KeptStep(tokens[..n - 1], tokens[n - 1]);
    }
  }

  /**
   Of the tokens of the value, stripping keeps more of a longer prefix than of a shorter one. All it drops are
   the comma, key, colon and unterminated number of the entry that has not arrived.
   */
  lemma StripNeverTakesBack(doc: string, j: Json, k: nat, l: nat)
    requires Spells(doc, j) && k <= l <= |doc|
    ensures Stripped(Tokens(doc[..k])) <= Stripped(Tokens(doc[..l])) <= TokensOf(j)
    ensures Stripped(Tokens(doc[..k])) <= Tokens(doc[..k])
    ensures OnlyPending(Tokens(doc[..k])[|Stripped(Tokens(doc[..k]))|..])
    ensures |Tokens(doc[..k])| <= |Stripped(Tokens(doc[..k]))| + 4
  {
    hide Spells, SpelledWith, TokensOf, Run, Stripped, KeptOf, Tokens, WellFormed, Repaired, Shown, PartialOf, Arrived,
      OnlyPending, Dangling;
    var gaps := GapsOf(doc, j);
    var tokens := TokensOf(j);
    var m := PrefixRepair(doc, j, gaps, k);
    var n := PrefixRepair(doc, j, gaps, l);
    ArrivedMonotone(gaps, tokens, k, l);
    RunDocument(j);
    KeptGrows(tokens, m, n);
    RunPrefix(tokens, m);
    KeptByRun(tokens[..m]);
    DanglingIsNumber(gaps, tokens, k);
    PendingWithNumber(tokens[..m], |Stripped(tokens[..m])|, Dangling(gaps, tokens, k));
  }

  lemma PendingWithNumber(tokens: seq<Token>, n: nat, dangling: seq<Token>)
    requires n <= |tokens| && OnlyPending(tokens[n..])
    requires dangling == [] || (|dangling| == 1 && dangling[0].Number? && dangling[0].unterminated)
    ensures OnlyPending((tokens + dangling)[n..]) && tokens[..n] <= tokens + dangling
  {
    assert (tokens + dangling)[n..] == tokens[n..] + dangling;
  }

  /** A whole text that is not a bare number keeps every token and gains none, so it keeps its value. */
  lemma WholeTextIsKept(doc: string, j: Json)
    requires Spells(doc, j) && !j.Num?
    ensures Stripped(Tokens(doc)) == Unstripped(Stripped(Tokens(doc))) == TokensOf(j)
    ensures Spells(Repaired(doc), j)
  {
    hide Spells, TokensFrom, TokensOf, Run, Stripped, Unstripped;
    TokensOfText(doc, j);
    var _ := GapsOf(doc, j);
    RunDocument(j);
    DoneRepaired(TokensOf(j), j);
    GeneratedSpells(j);
  }

  // Whether the text stops right after a bare number, so that more of its digits could follow.
  predicate StopsInNumber(doc: string, j: Json) { j.Num? && doc != "" && !IsBlank(doc[|doc| - 1]) }

  /** A whole text keeps its tokens exactly when it does not stop right after a bare number. */
  lemma KeptUnlessBareNumber(doc: string, j: Json)
    requires Spells(doc, j)
    ensures Stripped(Tokens(doc)) == TokensOf(j) <==> !StopsInNumber(doc, j)
    ensures StopsInNumber(doc, j) ==> Repaired(doc) == ""
  {
    hide Spells, SpelledWith, Tokens, TokensOf, Run, Stripped, Unstripped, Repaired, WellFormed;
    if j.Num? {
      var gaps := GapsOf(doc, j);
      TokensOfNumber(doc, j, gaps);
      NumberTokens(j);
      if gaps[1] == "" {
        UnterminatedGoes(j.digits);
        NumberIsDropped(doc, j.digits);
      } else {
        RunDocument(j);
        DoneRepaired(TokensOf(j), j);
      }
    } else {
      WholeTextIsKept(doc, j);
    }
  }

  lemma UnterminatedGoes(digits: string)
    ensures Stripped([Number(digits, true)]) == []
  {
  }

  lemma NumberIsDropped(doc: string, digits: string)
    requires Tokens(doc) == [Number(digits, true)]
    ensures Repaired(doc) == ""
  {
    UnterminatedGoes(digits);
    assert Unstripped([]) == [];
  }

  lemma TokensOfNumber(doc: string, j: Json, gaps: seq<string>)
    requires WellFormed(j) && j.Num? && SpelledWith(doc, j, gaps)
    ensures |gaps| == 2 && Tokens(doc) == [Number(j.digits, gaps[1] == "")]
    ensures gaps[1] == "" <==> StopsInNumber(doc, j)
  {
    hide TokensFrom, Lexable, Arrived, Dangling, RunsFrom, IsNumber;
    var tokens := TokensOf(j);
    ValueIsLexable(j);
    assert doc[..|doc|] == doc;
    TokensOfPrefix(doc, 0, gaps, tokens);
    AllArrive(gaps, tokens);
    assert tokens[..1] == tokens && tokens[..0] == [];
    NumberEndsInDigit(j.digits);
    assert doc == gaps[0] + (j.digits + gaps[1]);
    if gaps[1] != "" {
      assert Blank(gaps[1]);
      assert doc[|doc| - 1] == gaps[1][|gaps[1]| - 1];
    } else {
      assert doc[|doc| - 1] == j.digits[|j.digits| - 1];
    }
  }

  lemma NumberEndsInDigit(digits: string)
    requires IsNumber(digits)
    ensures digits != "" && IsDigit(digits[|digits| - 1])
  {
    NumberRuns(digits);
  }
}
