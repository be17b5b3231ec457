/** How the repair follows the machine: what stripping, unstripping and generating make of the tokens read. */
module PartialJsonRepair {
  import opened JsonText
  import opened PartialJsonParser
  import opened PartialJsonLexing
  import opened PartialJsonMachine

  // ----- stripping -----

  // The last token of a value is a closing bracket or the value's only token.
  lemma LastToken(v: Json)
    requires WellFormed(v)
    ensures var ts := TokensOf(v);
            ts != [] && IsJsonToken(ts[|ts| - 1]) && !ts[|ts| - 1].Separator? && !ts[|ts| - 1].Delimiter?
    ensures var ts := TokensOf(v); ts[|ts| - 1].Str? ==> |ts| == 1
  {
    hide ItemTokens, MemberTokens;
  }

  lemma NoEntries()
    ensures ItemTokens([]) == [] && MemberTokens([]) == []
  {
  }

  lemma LastOfSettled(top: Frame)
    requires FrameOk(top)
    ensures var ts := SettledTokens(top);
            && ts != [] && IsJsonToken(ts[|ts| - 1]) && !ts[|ts| - 1].Separator? && !ts[|ts| - 1].Delimiter?
            && (top.InObj? && ts[|ts| - 1].Str? ==> |ts| > 1 && ts[|ts| - 2] == Separator)
  {
    hide TokensOf, WellFormed, IsNumber, IsStringBody, IsLiteralName, ItemTokens, MemberTokens;
    NoEntries();
    match top
    case InArr(items, _) =>
      if items != [] {
        var n := |items| - 1;
        LastToken(items[n]);
        assert items[..n] + [items[n]] == items;
        ItemTokensSnoc(items[..n], items[n]);
      }
    case InObj(members, _, _, _, _) =>
      if members != [] {
        var n := |members| - 1;
        LastToken(members[n].value);
        assert members[..n] + [members[n]] == members;
        MemberTokensSnoc(members[..n], members[n]);
      }
  }

  // The settled tokens at the end of the first `n` stay.
  lemma SettledStay(tokens: seq<Token>, n: nat, top: Frame)
    requires FrameOk(top) && |SettledTokens(top)| <= n <= |tokens|
    requires tokens[n - |SettledTokens(top)|..n] == SettledTokens(top)
    ensures KeptLength(tokens, n, top.InObj?) == n
  {
    hide SettledTokens, FrameOk;
    LastOfSettled(top);
    var ts := SettledTokens(top);
    var m := |ts|;
    assert tokens[n - 1] == tokens[n - m..n][m - 1];
    if m > 1 { assert tokens[n - 2] == tokens[n - m..n][m - 2]; }
  }

  lemma PendingGoes(tokens: seq<Token>, before: seq<Token>, top: Frame)
    requires FrameOk(top) && tokens == before + SettledTokens(top) + PendingTokens(top)
    ensures KeptLength(tokens, |tokens|, top.InObj?) == |before + SettledTokens(top)|
  {
    hide SettledTokens, PendingTokens, KeptLength, FrameOk;
    var n := |before + SettledTokens(top)|;
    assert tokens[n..] == PendingTokens(top);
    assert tokens[n - |SettledTokens(top)|..n] == SettledTokens(top);
    SettledStay(tokens, n, top);
    if top.InArr? { CommaPending(tokens, n, top); } else { KeyPending(tokens, n, top); }
  }

  lemma CommaPending(tokens: seq<Token>, n: nat, top: Frame)
    requires top.InArr? && n <= |tokens| && tokens[n..] == PendingTokens(top) && KeptLength(tokens, n, false) == n
    ensures KeptLength(tokens, |tokens|, false) == n
  {
    hide KeptLength;
    assert tokens[n..n + |Separators(top.comma)|] == tokens[n..];
    CommaGoes(tokens, n, top.comma, false);
  }

  lemma KeyPending(tokens: seq<Token>, n: nat, top: Frame)
    requires FrameOk(top) && top.InObj? && |SettledTokens(top)| <= n <= |tokens|
    requires tokens[n..] == PendingTokens(top) && tokens[n - |SettledTokens(top)|..n] == SettledTokens(top)
    requires KeptLength(tokens, n, true) == n
    ensures KeptLength(tokens, |tokens|, true) == n
  {
    hide KeptLength, SettledTokens, FrameOk, Separators, KeyTokens;
    var m := n + |Separators(top.comma)|;
    TwoParts(tokens, n, Separators(top.comma), KeyTokens(top.hasKey, top.key, top.colon));
    CommaGoes(tokens, n, top.comma, true);
    KeyArrived(tokens, m, top.hasKey, top.key, top.colon);
    if top.hasKey {
      BeforeKey(tokens, n, top);
      KeyGoes(tokens, m, top.colon);
    }
  }

  lemma TwoParts(tokens: seq<Token>, n: nat, a: seq<Token>, b: seq<Token>)
    requires n <= |tokens| && tokens[n..] == a + b
    ensures n + |a| <= |tokens| && tokens[n..n + |a|] == a && tokens[n + |a|..] == b
  {
    assert tokens[n..n + |a|] == tokens[n..][..|a|];
    assert tokens[n + |a|..] == tokens[n..][|a|..];
  }

  lemma KeyArrived(tokens: seq<Token>, m: nat, hasKey: bool, key: string, colon: bool)
    requires m <= |tokens| && tokens[m..] == KeyTokens(hasKey, key, colon)
    ensures if hasKey then
              && |tokens| == m + (if colon then 2 else 1)
              && tokens[m] == Str(key) && (colon ==> tokens[m + 1] == Separator)
            else |tokens| == m
  {
    if hasKey {
      assert tokens[m] == tokens[m..][0];
      assert colon ==> tokens[m + 1] == tokens[m..][1];
    }
  }

  // A pending key comes after a comma or the opening bracket.
  lemma BeforeKey(tokens: seq<Token>, n: nat, top: Frame)
    requires FrameOk(top) && top.InObj? && top.hasKey && |SettledTokens(top)| <= n
    requires n + |Separators(top.comma)| <= |tokens|
    requires tokens[n..n + |Separators(top.comma)|] == Separators(top.comma)
    requires tokens[n - |SettledTokens(top)|..n] == SettledTokens(top)
    ensures var m := n + |Separators(top.comma)|;
            m > 0 && (tokens[m - 1] == Delimiter || tokens[m - 1] == Open(Curly))
  {
    hide SettledTokens, FrameOk;
    if top.comma {
      assert tokens[n] == tokens[n..n + 1][0];
    } else {
      EmptySettled(top);
      assert tokens[n - 1] == tokens[n - 1..n][0];
    }
  }

  lemma CommaGoes(tokens: seq<Token>, n: nat, comma: bool, inObject: bool)
    requires n + |Separators(comma)| <= |tokens| && tokens[n..n + |Separators(comma)|] == Separators(comma)
    requires KeptLength(tokens, n, inObject) == n
    ensures KeptLength(tokens, n + |Separators(comma)|, inObject) == n
  {
    hide IsNumber;
    if comma { assert tokens[n] == tokens[n..n + 1][0] == Delimiter; }
  }

  // A key, and the colon after it, go when a comma or the opening brace stands before them.
  lemma KeyGoes(tokens: seq<Token>, n: nat, colon: bool)
    requires 0 < n && |tokens| == n + (if colon then 2 else 1)
    requires tokens[n].Str? && (colon ==> tokens[n + 1] == Separator)
    requires tokens[n - 1] == Delimiter || tokens[n - 1] == Open(Curly)
    ensures KeptLength(tokens, |tokens|, true) == KeptLength(tokens, n, true)
  {
    hide IsNumber;
    assert IsDanglingKey(tokens, n + 1, true);
    assert KeptLength(tokens, n + 1, true) == KeptLength(tokens, n, true);
  }

  lemma EmptySettled(top: Frame)
    requires FrameOk(top) && top.InObj? && top.hasKey && !top.comma
    ensures SettledTokens(top) == [Open(Curly)]
  {
  }

  lemma StripFrames(tokens: seq<Token>, below: seq<Frame>, top: Frame)
    requires Run(tokens) == Building(below + [top])
    ensures Stripped(tokens) == FramesTokens(below) + SettledTokens(top)
  {
    hide Run, KeptLength, SettledTokens, PendingTokens, FrameOk, Brackets;
    RunExplains(tokens);
    BelowOk(below, top);
    FramesTokensSnoc(below, top);
    Regroup(FramesTokens(below), SettledTokens(top), PendingTokens(top));
    PendingGoes(tokens, FramesTokens(below), top);
    BracketsOfRun(tokens);
    InnermostBracket(below, top);
  }

  lemma InnermostBracket(below: seq<Frame>, top: Frame)
    ensures Brackets(below + [top]) == Brackets(below) + [BracketOf(top)]
  {
  }

  // ----- unstripping -----

  lemma {:induction false} NoBracketsLater(tokens: seq<Token>, more: seq<Token>)
    requires forall i | 0 <= i < |more| :: !more[i].Open? && !more[i].Shut?
    ensures MissingClosers(tokens + more) == MissingClosers(tokens)
  {
    if more == [] {
      assert tokens + more == tokens;
    } else {
      var n := |more| - 1;
      NoBracketsLater(tokens, more[..n]);
      assert (tokens + more)[..|tokens| + n] == tokens + more[..n];
    }
  }

  lemma MissingAfterStrip(tokens: seq<Token>, below: seq<Frame>, top: Frame)
    requires Run(tokens) == Building(below + [top])
    ensures MissingClosers(FramesTokens(below) + SettledTokens(top)) == Brackets(below) + [BracketOf(top)]
  {
    hide Run, SettledTokens, FrameOk, MissingClosers, Brackets;
    RunExplains(tokens);
    FramesTokensSnoc(below, top);
    Regroup(FramesTokens(below), SettledTokens(top), PendingTokens(top));
    NoBracketsLater(FramesTokens(below) + SettledTokens(top), PendingTokens(top));
    BracketsOfRun(tokens);
    InnermostBracket(below, top);
  }

  lemma ClosersForSnoc(front: seq<Bracket>, b: Bracket)
    ensures ClosersFor(front + [b]) == [Shut(b)] + ClosersFor(front)
  {
    assert (front + [b])[..|front|] == front;
  }

  // Closing `frames` around `v` appends the closing brackets.
  lemma {:induction false} CloseTokens(frames: seq<Frame>, v: Json)
    requires FramesOk(frames) && TakesValue(frames) && WellFormed(v)
    ensures TokensOf(Close(frames, v)) == FramesTokens(frames) + TokensOf(v) + ClosersFor(Brackets(frames))
    ensures WellFormed(Close(frames, v))
    decreases |frames|
  {
    hide TokensOf, SettledTokens, PendingTokens, FrameOk, WellFormed, Brackets, ClosersFor, FrameTokens, TakesValue;
    if frames == [] {
      NoBrackets();
      assert FramesTokens(frames) + TokensOf(v) + ClosersFor(Brackets(frames)) == TokensOf(v);
    } else {
      var below, f := frames[..|frames| - 1], frames[|frames| - 1];
      assert frames == below + [f];
      BelowOk(below, f);
      AwaitsLast(below, f);
      var w := Value(WithValue(f, v));
      EntryClosed(f, v);
      CloseTokens(below, w);
      InnermostBracket(below, f);
      ClosersForSnoc(Brackets(below), BracketOf(f));
      FramesTokensSnoc(below, f);
      var a, b, c := FramesTokens(below), FrameTokens(f), TokensOf(v);
      var d, e := [Shut(BracketOf(f))], ClosersFor(Brackets(below));
      Regroup(a, b + c, d);
      Regroup(a, b, c);
      Regroup(a + b + c, d, e);
    }
  }

  lemma AwaitsLast(below: seq<Frame>, f: Frame)
    requires TakesValue(below + [f])
    ensures AwaitsValue(f)
  {
  }

  lemma EntryClosed(f: Frame, v: Json)
    requires FrameOk(f) && AwaitsValue(f) && WellFormed(v)
    ensures TokensOf(Value(WithValue(f, v))) == FrameTokens(f) + TokensOf(v) + [Shut(BracketOf(f))]
    ensures WellFormed(Value(WithValue(f, v)))
  {
    hide TokensOf, SettledTokens, PendingTokens, FrameTokens, Value;
    assert FrameOk(WithValue(f, v));
    assert BracketOf(WithValue(f, v)) == BracketOf(f);
    hide FrameOk, WithValue, WellFormed;
    WithValueTokens(f, v);
    ShutFrame(WithValue(f, v));
  }

  /** Stripping and unstripping the tokens of a prefix gives the tokens of the value shown. */
  lemma RepairedTokens(tokens: seq<Token>)
    requires tokens != [] && !Run(tokens).Failed?
    ensures Run(tokens).Building? ==> Run(tokens).frames != []
    ensures WellFormed(Shown(Run(tokens)))
    ensures Unstripped(Stripped(tokens)) == TokensOf(Shown(Run(tokens)))
  {
    hide Run, Step, TokensOf, SettledTokens, PendingTokens, FrameOk, WellFormed, Brackets, ClosersFor, MissingClosers,
      KeptLength, OpenBrackets;
    RunExplains(tokens);
    if Run(tokens).Done? {
      DoneRepaired(tokens, Run(tokens).value);
    } else {
      var frames := Run(tokens).frames;
      var below, top := frames[..|frames| - 1], frames[|frames| - 1];
      assert frames == below + [top];
      StripFrames(tokens, below, top);
      MissingAfterStrip(tokens, below, top);
      BelowOk(below, top);
      ShutFrame(top);
      CloseTokens(below, Value(top));
      ClosersForSnoc(Brackets(below), BracketOf(top));
      Regroup(FramesTokens(below), SettledTokens(top), [Shut(BracketOf(top))]);
      Regroup(FramesTokens(below) + SettledTokens(top), [Shut(BracketOf(top))], ClosersFor(Brackets(below)));
    }
  }

  // A complete value other than a number that runs to the end of the input stays as it is.
  lemma DoneRepaired(tokens: seq<Token>, v: Json)
    requires Run(tokens) == Done(v)
    ensures Stripped(tokens) == tokens && Unstripped(tokens) == tokens == TokensOf(v)
  {
    hide Run, TokensOf, WellFormed, OpenBrackets, MissingClosers;
    RunExplains(tokens);
    BracketsOfRun(tokens);
    LastToken(v);
    assert tokens[..|tokens|] == tokens;
    assert ClosersFor([]) == [];
  }

  // ----- generating -----

  lemma {:induction false} GeneratedFront(t: Token, tokens: seq<Token>)
    ensures Generated([t] + tokens) == Written(t) + Generated(tokens)
  {
    hide Written;
    var n := |tokens|;
    if n > 0 {
      assert [t] + tokens == ([t] + tokens[..n - 1]) + [tokens[n - 1]];
      assert ([t] + tokens)[..n] == [t] + tokens[..n - 1];
      GeneratedFront(t, tokens[..n - 1]);
      Regroup(Written(t), Generated(tokens[..n - 1]), Written(tokens[n - 1]));
    } else {
      assert ([t] + tokens)[..0] == [];
    }
  }

  // The generated text is the tokens with nothing between them.
  lemma {:induction false} GeneratedIsWoven(tokens: seq<Token>)
    ensures var gaps := seq(|tokens| + 1, _ => ""); AllBlank(gaps) && Generated(tokens) == Weave(gaps, tokens)
  {
    hide Written;
    if tokens != [] {
      var gaps := seq(|tokens| + 1, _ => "");
      GeneratedIsWoven(tokens[1..]);
      assert gaps[1..] == seq(|tokens[1..]| + 1, _ => "");
      assert tokens == [tokens[0]] + tokens[1..];
      GeneratedFront(tokens[0], tokens[1..]);
    }
  }

  lemma GeneratedSpells(j: Json)
    requires WellFormed(j)
    ensures Spells(Generated(TokensOf(j)), j)
  {
    hide WellFormed, TokensOf;
    GeneratedIsWoven(TokensOf(j));
    assert SpelledWith(Generated(TokensOf(j)), j, seq(|TokensOf(j)| + 1, _ => ""));
  }

  // ----- what is shown only grows -----

  lemma WithValueGrows(f: Frame, v: Json)
    ensures PartialOf(Value(f), Value(WithValue(f, v)))
  {
    match f
    case InArr(items, _) => if items != [] { PartialOfReflexive(items[|items| - 1]); }
    case InObj(members, _, _, _, _) => if members != [] { PartialOfReflexive(members[|members| - 1].value); }
  }

  lemma WithValueMonotone(f: Frame, v: Json, w: Json)
    requires PartialOf(v, w)
    ensures PartialOf(Value(WithValue(f, v)), Value(WithValue(f, w)))
  {
  }

  lemma {:induction false} CloseMonotone(frames: seq<Frame>, v: Json, w: Json)
    requires PartialOf(v, w)
    ensures PartialOf(Close(frames, v), Close(frames, w))
    decreases |frames|
  {
    if frames != [] {
      var n := |frames| - 1;
      WithValueMonotone(frames[n], v, w);
      CloseMonotone(frames[..n], Value(WithValue(frames[n], v)), Value(WithValue(frames[n], w)));
    }
  }

  // Closing around one more entry shows more than closing without it.
  lemma CloseGrows(below: seq<Frame>, top: Frame, v: Json)
    ensures PartialOf(Shown(Building(below + [top])), Close(below + [top], v))
  {
    hide PartialOf, WithValue;
    assert (below + [top])[..|below|] == below;
    WithValueGrows(top, v);
    CloseMonotone(below, Value(top), Value(WithValue(top, v)));
  }

  lemma ShownPush(frames: seq<Frame>, v: Json)
    ensures Showing(Push(frames, v)) && Shown(Push(frames, v)) == Close(frames, v)
  {
  }

  lemma ShownStep(st: State, t: Token)
    requires st.Building? && st.frames != [] && !Step(st, t).Failed?
    ensures Showing(Step(st, t)) && PartialOf(Shown(st), Shown(Step(st, t)))
  {
    hide PartialOf, IsJsonToken, TopStep, Push;
    var frames := st.frames;
    var below, top := frames[..|frames| - 1], frames[|frames| - 1];
    assert frames == below + [top];
    if TakesValue(frames) && IsValueToken(t) {
      CloseGrows(below, top, ScalarValue(t));
      ShownPush(frames, ScalarValue(t));
    } else if TakesValue(frames) && t.Open? {
      CloseGrows(below, top, Value(EmptyFrame(t.bracket)));
    } else {
      ShownTopStep(frames, t);
    }
  }

  lemma ShownTopStep(frames: seq<Frame>, t: Token)
    requires frames != [] && !TopStep(frames, t).Failed?
    ensures Showing(TopStep(frames, t)) && PartialOf(Shown(Building(frames)), Shown(TopStep(frames, t)))
  {
    hide PartialOf, Push;
    var below, top := frames[..|frames| - 1], frames[|frames| - 1];
    ShownPush(below, Value(top));
    PartialOfReflexive(Shown(Building(frames)));
  }

  lemma {:induction false} RunShows(tokens: seq<Token>)
    requires tokens != [] && !Run(tokens).Failed?
    ensures Showing(Run(tokens))
  {
    hide Step;
    RunExplains(tokens);
  }

  // A run that does not fail has not failed before.
  lemma {:induction false} RunPrefix(tokens: seq<Token>, n: nat)
    requires n <= |tokens| && !Run(tokens).Failed?
    ensures !Run(tokens[..n]).Failed?
    ensures n < |tokens| ==> Run(tokens[..n]).Building?
    decreases |tokens|
  {
    hide Step;
    if n == |tokens| {
      assert tokens[..n] == tokens;
    } else {
      var front := tokens[..|tokens| - 1];
      StepFails(Run(front), tokens[|tokens| - 1]);
      RunPrefix(front, n);
      assert front[..n] == tokens[..n];
    }
  }

  lemma StepFails(st: State, t: Token)
    requires !Step(st, t).Failed?
    ensures st.Building?
  {
  }

  lemma {:induction false} ShownGrows(tokens: seq<Token>, m: nat, n: nat)
    requires 0 < m <= n <= |tokens| && !Run(tokens).Failed?
    ensures Showing(Run(tokens[..m])) && Showing(Run(tokens[..n]))
    ensures PartialOf(Shown(Run(tokens[..m])), Shown(Run(tokens[..n])))
    decreases n
  {
    hide PartialOf, Step, Shown;
    RunPrefix(tokens, m);
    RunPrefix(tokens, n);
    RunShows(tokens[..m]);
    RunShows(tokens[..n]);
    if m == n {
      PartialOfReflexive(Shown(Run(tokens[..m])));
    } else {
      ShownGrows(tokens, m, n - 1);
      RunPrefix(tokens, n - 1);
      RunNext(tokens[..n - 1], tokens[n - 1]);
      assert tokens[..n - 1] + [tokens[n - 1]] == tokens[..n];
      ShownStep(Run(tokens[..n - 1]), tokens[n - 1]);
      PartialOfTransitive(Shown(Run(tokens[..m])), Shown(Run(tokens[..n - 1])), Shown(Run(tokens[..n])));
    }
  }

  // ----- the dangling number -----

  // An unterminated number at the end is stripped away before anything else.
  lemma StripDangling(tokens: seq<Token>, dangling: seq<Token>)
    requires dangling == [] || (|dangling| == 1 && dangling[0].Number? && dangling[0].unterminated)
    ensures Stripped(tokens + dangling) == Stripped(tokens)
  {
    hide KeptLength, OpenBrackets;
    if dangling == [] {
      assert tokens + dangling == tokens;
    } else {
      assert dangling == [dangling[0]];
      SameBrackets(tokens, dangling[0]);
      KeptBefore(tokens, dangling[0], InObject(tokens));
      var n := KeptLength(tokens, |tokens|, InObject(tokens));
      assert (tokens + dangling)[..n] == tokens[..n];
    }
  }

  lemma SameBrackets(tokens: seq<Token>, t: Token)
    requires t.Number?
    ensures OpenBrackets(tokens + [t]) == OpenBrackets(tokens)
  {
    assert (tokens + [t])[..|tokens|] == tokens;
  }

  lemma KeptBefore(tokens: seq<Token>, t: Token, inObject: bool)
    requires t.Number? && t.unterminated
    ensures KeptLength(tokens + [t], |tokens| + 1, inObject) == KeptLength(tokens, |tokens|, inObject)
  {
    KeptOfPrefix(tokens, [t], |tokens|, inObject);
  }

  lemma {:induction false} KeptOfPrefix(tokens: seq<Token>, more: seq<Token>, n: nat, inObject: bool)
    requires n <= |tokens|
    ensures KeptLength(tokens + more, n, inObject) == KeptLength(tokens, n, inObject)
    decreases n
  {
    hide IsNumber;
    if n > 0 { KeptOfPrefix(tokens, more, n - 1, inObject); }
  }

  lemma {:induction false} DanglingIsNumber(gaps: seq<string>, tokens: seq<Token>, k: nat)
    requires |gaps| == |tokens| + 1
    ensures var d := Dangling(gaps, tokens, k); d == [] || (|d| == 1 && d[0].Number? && d[0].unterminated)
    decreases tokens
  {
    if tokens != [] {
      var width := |gaps[0]| + |Written(tokens[0])|;
      if k >= width { DanglingIsNumber(gaps[1..], tokens[1..], k - width); }
    }
  }

  // ----- the theorems -----

  // What the tokens of the first `k` characters run to, and what the parser makes of those characters.
  lemma PrefixRepair(doc: string, j: Json, gaps: seq<string>, k: nat) returns (m: nat)
    requires WellFormed(j) && SpelledWith(doc, j, gaps) && k <= |doc|
    ensures m == Arrived(gaps, TokensOf(j), k) <= |TokensOf(j)|
    ensures Tokens(doc[..k]) == TokensOf(j)[..m] + Dangling(gaps, TokensOf(j), k)
    ensures Stripped(Tokens(doc[..k])) == Stripped(TokensOf(j)[..m])
    ensures m > 0 ==> Showing(Run(TokensOf(j)[..m])) && Spells(Repaired(doc[..k]), Shown(Run(TokensOf(j)[..m])))
    ensures m > 0 ==> PartialOf(Shown(Run(TokensOf(j)[..m])), j)
  {
    hide TokensFrom, Weave, Lexable, WellFormed, TokensOf, Arrived, Dangling, Run, Step, Stripped, MissingClosers,
      PartialOf;
    var tokens := TokensOf(j);
    m := Arrived(gaps, tokens, k);
    ValueIsLexable(j);
    assert doc[..k] == doc[..k][0..];
    TokensOfPrefix(doc[..k], 0, gaps, tokens);
    DanglingIsNumber(gaps, tokens, k);
    StripDangling(tokens[..m], Dangling(gaps, tokens, k));
    RunDocument(j);
    if m > 0 {
      RunPrefix(tokens, m);
      ShownGrows(tokens, m, |tokens|);
      assert tokens[..|tokens|] == tokens;
      RepairedTokens(tokens[..m]);
      GeneratedSpells(Shown(Run(tokens[..m])));
    }
  }

  lemma GapIsBlank(doc: string, j: Json, gaps: seq<string>, k: nat)
    requires SpelledWith(doc, j, gaps) && k <= |doc| && k <= |gaps[0]|
    ensures Blank(doc[..k])
  {
    hide TokensOf;
    forall i | 0 <= i < k ensures IsBlank(doc[..k][i]) { assert doc[i] == gaps[0][i]; }
  }

  // Past the blanks that lead in, an array or object has at least its bracket.
  lemma SomethingArrived(doc: string, j: Json, gaps: seq<string>, k: nat)
    requires SpelledWith(doc, j, gaps) && k <= |doc| && (j.Arr? || j.Obj?)
    requires !Blank(doc[..k])
    ensures Arrived(gaps, TokensOf(j), k) > 0
  {
    hide ItemTokens, MemberTokens, Blank;
    assert TokensOf(j)[0].Open? && |Written(TokensOf(j)[0])| == 1;
    if k <= |gaps[0]| { GapIsBlank(doc, j, gaps, k); }
  }
}
