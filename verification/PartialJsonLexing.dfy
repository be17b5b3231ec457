/**
 Tokenizing a prefix of a JSON text: the tokens that have fully arrived, and possibly one unterminated number.
 */
module PartialJsonLexing {
  import opened JsonText
  import opened PartialJsonParser

  predicate IsScalar(t: Token) { t.Number? || t.Name? }

  predicate IsJsonToken(t: Token) {
    match t
    case Str(body) => IsStringBody(body)
    case Number(digits, unterminated) => IsNumber(digits) && !unterminated
    case Name(name) => IsLiteralName(name)
    case _ => true
  }

  // No two numbers or names stand side by side, so each ends where its characters end.
  ghost predicate Lexable(tokens: seq<Token>) {
    && (forall i | 0 <= i < |tokens| :: IsJsonToken(tokens[i]))
    && forall i | 0 < i < |tokens| :: !(IsScalar(tokens[i - 1]) && IsScalar(tokens[i]))
  }

  // ----- the tokens of a value are lexable -----

  lemma LexableConcat(a: seq<Token>, b: seq<Token>)
    requires Lexable(a) && Lexable(b)
    requires a != [] && b != [] ==> !IsScalar(a[|a| - 1]) || !IsScalar(b[0])
    ensures Lexable(a + b)
  {
  }

  lemma {:induction false} ValueIsLexable(j: Json)
    requires WellFormed(j)
    ensures Lexable(TokensOf(j))
    decreases j, 0
  {
    match j
    case Arr(items) =>
      ItemsAreLexable(items);
      LexableConcat([Open(Square)], ItemTokens(items));
      LexableConcat([Open(Square)] + ItemTokens(items), [Shut(Square)]);
    case Obj(members) =>
      MembersAreLexable(members);
      LexableConcat([Open(Curly)], MemberTokens(members));
      LexableConcat([Open(Curly)] + MemberTokens(members), [Shut(Curly)]);
    case _ =>
  }

  lemma {:induction false} ItemsAreLexable(items: seq<Json>)
    requires forall i | 0 <= i < |items| :: WellFormed(items[i])
    ensures Lexable(ItemTokens(items))
    decreases items, 1
  {
    if items != [] {
      var n := |items| - 1;
      ItemsAreLexable(items[..n]);
      ValueIsLexable(items[n]);
      if n > 0 { LexableConcat(ItemTokens(items[..n]), [Delimiter]); }
      LexableConcat(ItemTokens(items[..n]) + (if n == 0 then [] else [Delimiter]), TokensOf(items[n]));
    }
  }

  lemma {:induction false} MembersAreLexable(members: seq<Member>)
    requires forall i | 0 <= i < |members| :: IsStringBody(members[i].key) && WellFormed(members[i].value)
    ensures Lexable(MemberTokens(members))
    decreases members, 1
  {
    if members != [] {
      var n := |members| - 1;
      MembersAreLexable(members[..n]);
      ValueIsLexable(members[n].value);
      var before := MemberTokens(members[..n]) + (if n == 0 then [] else [Delimiter]);
      if n > 0 { LexableConcat(MemberTokens(members[..n]), [Delimiter]); }
      LexableConcat(before, [Str(members[n].key), Separator]);
      LexableConcat(before + [Str(members[n].key), Separator], TokensOf(members[n].value));
    }
  }

  // ----- numbers -----

  ghost predicate Runs(n: string, i: nat)
    requires i < |n|
  {
    (i == 0 && n[0] == '-') || NumberGoesOn(n, 0, i)
  }

  // From `i` on every character of `n` continues the number, and the last one is a digit.
  ghost predicate RunsFrom(n: string, i: nat) {
    && (forall k | i <= k < |n| :: Runs(n, k))
    && |n| > 0 && IsDigit(n[|n| - 1])
  }

  lemma {:induction false} DigitsRun(n: string, i: nat)
    requires i < |n| && IsDigits(n[i..])
    ensures RunsFrom(n, i)
    decreases |n| - i
  {
    if i + 1 < |n| {
      assert n[i..][1..] == n[i + 1..];
      DigitsRun(n, i + 1);
    }
  }

  lemma AfterFracRuns(n: string, i: nat)
    requires 0 < i <= |n| && IsAfterFrac(n[i..]) && IsDigit(n[i - 1])
    ensures RunsFrom(n, i)
  {
    if i < |n| {
      assert n[i..][1..] == n[i + 1..];
      if n[i + 1] == '-' || n[i + 1] == '+' {
        assert n[i..][2..] == n[i + 2..];
        DigitsRun(n, i + 2);
      } else {
        DigitsRun(n, i + 1);
      }
    }
  }

  lemma {:induction false} FracDigitsRun(n: string, i: nat)
    requires 0 < i <= |n| && IsFracDigits(n[i..]) && IsDigit(n[i - 1])
    ensures RunsFrom(n, i)
    decreases |n| - i
  {
    if i < |n| && IsDigit(n[i]) {
      assert n[i..][1..] == n[i + 1..];
      FracDigitsRun(n, i + 1);
    } else {
      AfterFracRuns(n, i);
    }
  }

  lemma AfterIntRuns(n: string, i: nat)
    requires 0 < i <= |n| && IsAfterInt(n[i..]) && IsDigit(n[i - 1])
    ensures RunsFrom(n, i)
  {
    if i < |n| && n[i] == '.' {
      assert n[i..][2..] == n[i + 2..];
      FracDigitsRun(n, i + 2);
    } else {
      AfterFracRuns(n, i);
    }
  }

  lemma {:induction false} IntDigitsRun(n: string, i: nat)
    requires 0 < i <= |n| && IsIntDigits(n[i..]) && IsDigit(n[i - 1])
    ensures RunsFrom(n, i)
    decreases |n| - i
  {
    if i < |n| && IsDigit(n[i]) {
      assert n[i..][1..] == n[i + 1..];
      IntDigitsRun(n, i + 1);
    } else {
      AfterIntRuns(n, i);
    }
  }

  lemma NumberRuns(n: string)
    requires IsNumber(n)
    ensures RunsFrom(n, 0) && StartsNumber(n[0])
  {
    var i := if n[0] == '-' then 1 else 0;
    assert n[i..] == if n[0] == '-' then n[1..] else n;
    assert n[i..][1..] == n[i + 1..];
    if n[i] == '0' { AfterIntRuns(n, i + 1); } else { IntDigitsRun(n, i + 1); }
  }

  lemma {:induction false} NumberEndAt(s: string, start: nat, at: nat, end: nat)
    requires start <= at <= end <= |s|
    requires forall i | at <= i < end :: NumberGoesOn(s, start, i)
    requires end < |s| ==> !NumberGoesOn(s, start, end)
    ensures NumberEnd(s, start, at) == end
    decreases end - at
  {
    if at < end { NumberEndAt(s, start, at + 1, end); }
  }

  // A number, or the part of it that has arrived, is read up to where it ends.
  lemma ReadNumberToken(s: string, at: nat, n: string, k: nat)
    requires IsNumber(n) && 0 < k <= |n| && at + k <= |s| && s[at..at + k] == n[..k]
    requires at + k < |s| ==> k == |n| && !StartsNumber(s[at + k]) && !IsLetter(s[at + k]) && s[at + k] != '+'
    ensures ReadAt(s, at) == ([Number(n[..k], at + k == |s|)], at + k)
  {
    NumberRuns(n);
    forall i | 0 <= i < k ensures s[at + i] == n[i] { assert s[at..at + k][i] == n[..k][i]; }
    var first := if s[at] == '-' then at + 1 else at;
    forall i | first <= i < at + k ensures NumberGoesOn(s, at, i) { assert Runs(n, i - at); }
    NumberEndAt(s, at, first, at + k);
  }

  // ----- names -----

  lemma {:induction false} LettersEndAt(s: string, at: nat, end: nat)
    requires at <= end <= |s|
    requires forall i | at <= i < end :: IsLetter(s[i])
    requires end < |s| ==> !IsLetter(s[end])
    ensures LettersEnd(s, at) == end
    decreases end - at
  {
    if at < end { LettersEndAt(s, at + 1, end); }
  }

  lemma ReadNameToken(s: string, at: nat, n: string, k: nat)
    requires IsLiteralName(n) && 0 < k <= |n| && at + k <= |s| && s[at..at + k] == n[..k]
    requires at + k < |s| ==> k == |n| && !IsLetter(s[at + k])
    ensures k == |n| ==> ReadAt(s, at) == ([Name(n)], at + k)
    ensures k < |n| ==> ReadAt(s, at) == ([], |s| + 1)
  {
    assert forall i | 0 <= i < |n| :: IsLetter(n[i]);
    forall i | 0 <= i < k ensures s[at + i] == n[i] { assert s[at..at + k][i] == n[..k][i]; }
    LettersEndAt(s, at, at + k);
    assert s[at] == n[0] && LettersEnd(s, at) == at + k;
    if k < |n| { assert !IsLiteralName(s[at..at + k]); }
  }

  // ----- strings -----

  // Over the first `k` characters of a string body no quotation mark closes the string.
  lemma {:induction false} BodyStaysOpen(s: string, start: nat, p: nat, body: string, k: nat)
    requires IsStringBody(body) && k <= |body| && start <= p && p + k <= |s|
    requires s[p..p + k] == body[..k]
    requires Backslashes(s, start, p) % 2 == 0
    ensures forall i | p <= i < p + k :: !ClosesString(s, start, i)
    ensures k == |body| ==> Backslashes(s, start, p + k) % 2 == 0
    decreases k
  {
    if k > 0 {
      forall i | 0 <= i < k ensures s[p + i] == body[i] { assert s[p..p + k][i] == body[..k][i]; }
      var step := if body[0] != '\\' then 1 else if body[1] == 'u' then 6 else 2;
      if k >= step {
        assert body[step..][..k - step] == body[..k][step..];
        assert s[p + step..p + k] == s[p..p + k][step..];
        BodyStaysOpen(s, start, p + step, body[step..], k - step);
      }
    }
  }

  lemma {:induction false} NoQuoteUpTo(s: string, start: nat, from: nat, next: nat)
    requires start <= from <= next <= |s|
    requires forall i | from <= i < next :: !ClosesString(s, start, i)
    ensures CloseQuote(s, start, from) == CloseQuote(s, start, next)
    decreases next - from
  {
    if from < next { NoQuoteUpTo(s, start, from + 1, next); }
  }

  lemma ReadStringToken(s: string, at: nat, body: string, k: nat)
    requires IsStringBody(body) && k <= |body| && at + 1 + k <= |s|
    requires s[at] == '\"' && s[at + 1..at + 1 + k] == body[..k]
    requires at + 1 + k < |s| ==> k == |body| && s[at + 1 + k] == '\"'
    ensures at + 1 + k == |s| ==> ReadAt(s, at) == ([], |s|)
    ensures at + 1 + k < |s| ==> ReadAt(s, at) == ([Str(body)], at + 2 + k)
  {
    BodyStaysOpen(s, at + 1, at + 1, body, k);
    NoQuoteUpTo(s, at + 1, at + 1, at + 1 + k);
    if k == |body| { assert s[at + 1..at + 1 + k] == body; }
  }

  // ----- whole texts -----

  // How many of the woven tokens have fully arrived in the first `k` characters; a number has once something
  // follows it.
  function Arrived(gaps: seq<string>, tokens: seq<Token>, k: nat): (n: nat)
    requires |gaps| == |tokens| + 1
    ensures n <= |tokens|
  {
    if tokens == [] then 0 else
      var width := |gaps[0]| + |Written(tokens[0])|;
      if k < width || (k == width && tokens[0].Number?) then 0
      else 1 + Arrived(gaps[1..], tokens[1..], k - width)
  }

  // The unterminated number that ends the first `k` characters, if one does.
  function Dangling(gaps: seq<string>, tokens: seq<Token>, k: nat): seq<Token>
    requires |gaps| == |tokens| + 1
  {
    if tokens == [] then [] else
      var width := |gaps[0]| + |Written(tokens[0])|;
      if k < width || (k == width && tokens[0].Number?) then
        if tokens[0].Number? && k > |gaps[0]| then
          [Number(tokens[0].value[..k - |gaps[0]|], true)]
        else []
      else Dangling(gaps[1..], tokens[1..], k - width)
  }

  lemma {:induction false} ArrivedMonotone(gaps: seq<string>, tokens: seq<Token>, k: nat, l: nat)
    requires |gaps| == |tokens| + 1 && k <= l
    ensures Arrived(gaps, tokens, k) <= Arrived(gaps, tokens, l)
    decreases tokens
  {
    if tokens != [] {
      var width := |gaps[0]| + |Written(tokens[0])|;
      if k >= width { ArrivedMonotone(gaps[1..], tokens[1..], k - width, l - width); }
    }
  }

  lemma {:induction false} SkipBlanks(s: string, at: nat, next: nat)
    requires at <= next <= |s| && forall i | at <= i < next :: IsBlank(s[i])
    ensures TokensFrom(s, at) == TokensFrom(s, next)
    decreases next - at
  {
    if at < next {
      assert ReadAt(s, at) == ([], at + 1);
      SkipBlanks(s, at + 1, next);
    }
  }

  // What follows a number or a name does not continue it.
  lemma AfterScalar(gaps: seq<string>, tokens: seq<Token>)
    requires |gaps| == |tokens| + 1 && AllBlank(gaps) && Lexable(tokens) && Weave(gaps, tokens) != ""
    requires tokens != [] ==> !IsScalar(tokens[0])
    ensures var c := Weave(gaps, tokens)[0]; !StartsNumber(c) && !IsLetter(c) && c != '+'
  {
    if gaps[0] != "" {
      assert Weave(gaps, tokens)[0] == gaps[0][0];
    } else {
      assert Weave(gaps, tokens)[0] == Written(tokens[0])[0];
    }
  }

  ghost predicate ReadsWoven(s: string, at: nat, token: Token)
    requires at < |s|
  {
    var k := |s| - at;
    if k < |Written(token)| || (k == |Written(token)| && token.Number?) then
      ReadAt(s, at).1 >= |s| &&
      ReadAt(s, at).0 == if token.Number? then [Number(token.value[..k], true)] else []
    else ReadAt(s, at) == ([token], at + |Written(token)|)
  }

  lemma ReadWovenString(s: string, at: nat, body: string)
    requires at < |s| && IsStringBody(body)
    requires var w := Written(Str(body));
             forall i | 0 <= i < |w| && at + i < |s| :: s[at + i] == w[i]
    ensures ReadsWoven(s, at, Str(body))
  {
    hide ReadAt, IsStringBody;
    var w, k := Written(Str(body)), |s| - at;
    var inside := if k < |w| then k - 1 else |body|;
    forall i | 0 <= i < inside ensures s[at + 1 + i] == body[i] { assert s[at + (1 + i)] == w[1 + i]; }
    assert s[at + 1..at + 1 + inside] == body[..inside];
    assert s[at + 0] == w[0];
    if k >= |w| { assert s[at + (|w| - 1)] == w[|w| - 1]; }
    ReadStringToken(s, at, body, inside);
  }

  // Reading the first woven token of a prefix that reaches past the gap before it.
  lemma ReadWoven(s: string, at: nat, token: Token)
    requires at < |s| && IsJsonToken(token)
    requires var w := Written(token); forall i | 0 <= i < |w| && at + i < |s| :: s[at + i] == w[i]
    requires IsScalar(token) && |s| - at > |Written(token)| ==>
               var c := s[at + |Written(token)|]; !StartsNumber(c) && !IsLetter(c) && c != '+'
    ensures ReadsWoven(s, at, token)
  {
    hide IsNumber, IsStringBody, CloseQuote, NumberEnd, LettersEnd;
    var w, k := Written(token), |s| - at;
    var here := if k < |w| then k else |w|;
    assert s[at..at + here] == w[..here];
    match token {
      case Number(_, _) =>
        NumberRuns(token.value);
        ReadNumberToken(s, at, token.value, here);
        assert token.value[..|w|] == token.value;
      case Name(_) => ReadNameToken(s, at, token.value, here);
      case Str(_) => ReadWovenString(s, at, token.value);
      case _ =>
        assert |w| == 1 && s[at + 0] == w[0];
        assert ReadAt(s, at) == ([token], at + 1);
    }
  }

  lemma WrittenNonEmpty(token: Token)
    requires IsJsonToken(token)
    ensures |Written(token)| > 0
  {
  }

  // `s` from `at` on is a prefix of `text`.
  ghost predicate ReadsPrefix(s: string, at: nat, text: string) {
    at <= |s| && |s| - at <= |text| && forall i | 0 <= i < |s| - at :: s[at + i] == text[i]
  }

  /** Tokenizing a prefix of a woven text gives the tokens that have arrived and the dangling number. */
  lemma {:induction false} TokensOfPrefix(s: string, at: nat, gaps: seq<string>, tokens: seq<Token>)
    requires |gaps| == |tokens| + 1 && AllBlank(gaps) && Lexable(tokens)
    requires ReadsPrefix(s, at, Weave(gaps, tokens))
    ensures TokensFrom(s, at)
         == tokens[..Arrived(gaps, tokens, |s| - at)] + Dangling(gaps, tokens, |s| - at)
    decreases tokens, 1
  {
    hide ReadAt, TokensFrom, Weave;
    SkipGap(s, at, gaps, tokens);
    if |s| - at > |gaps[0]| {
      TokensPastGap(s, at + |gaps[0]|, gaps, tokens);
    } else if tokens != [] {
      WrittenNonEmpty(tokens[0]);
    }
  }

  lemma ReadsTail(s: string, at: nat, head: string, tail: string)
    requires ReadsPrefix(s, at, head + tail)
    ensures forall i | 0 <= i < |head| && at + i < |s| :: s[at + i] == head[i]
    ensures |s| - at >= |head| ==> ReadsPrefix(s, at + |head|, tail)
    ensures |s| - at > |head| ==> tail != "" && s[at + |head|] == tail[0]
  {
    forall i | 0 <= i < |head| && at + i < |s| ensures s[at + i] == head[i] {
      assert s[at + i] == (head + tail)[i];
    }
    var next := at + |head|;
    forall i | 0 <= i < |s| - next ensures s[next + i] == tail[i] {
      assert s[at + (|head| + i)] == (head + tail)[|head| + i];
    }
  }

  lemma WeaveStarts(gaps: seq<string>, tokens: seq<Token>)
    requires |gaps| == |tokens| + 1
    ensures Weave(gaps, tokens)
         == gaps[0] + if tokens == [] then "" else Written(tokens[0]) + Weave(gaps[1..], tokens[1..])
  {
    hide Written;
    if tokens == [] { assert gaps[0] + "" == gaps[0]; }
  }

  lemma NothingLeft(s: string)
    ensures TokensFrom(s, |s|) == []
  {
  }

  lemma SkipGap(s: string, at: nat, gaps: seq<string>, tokens: seq<Token>)
    requires |gaps| == |tokens| + 1 && AllBlank(gaps)
    requires ReadsPrefix(s, at, Weave(gaps, tokens))
    ensures |s| - at <= |gaps[0]| ==> TokensFrom(s, at) == []
    ensures |s| - at > |gaps[0]| ==>
              var p := at + |gaps[0]|;
              && tokens != [] && TokensFrom(s, at) == TokensFrom(s, p)
              && ReadsPrefix(s, p, Written(tokens[0]) + Weave(gaps[1..], tokens[1..]))
  {
    hide Weave, TokensFrom, Written, IsBlank;
    var rest := if tokens == [] then "" else Written(tokens[0]) + Weave(gaps[1..], tokens[1..]);
    WeaveStarts(gaps, tokens);
    ReadsTail(s, at, gaps[0], rest);
    if |s| - at <= |gaps[0]| { NothingLeft(s); }
    var blanks := if |s| - at < |gaps[0]| then |s| - at else |gaps[0]|;
    forall i | at <= i < at + blanks ensures IsBlank(s[i]) { assert s[at + (i - at)] == gaps[0][i - at]; }
    SkipBlanks(s, at, at + blanks);
  }

  lemma LexableTail(tokens: seq<Token>)
    requires Lexable(tokens) && tokens != []
    ensures Lexable(tokens[1..]) && IsJsonToken(tokens[0])
    ensures tokens[1..] != [] && IsScalar(tokens[0]) ==> !IsScalar(tokens[1..][0])
  {
    forall i | 0 < i < |tokens[1..]| ensures !(IsScalar(tokens[1..][i - 1]) && IsScalar(tokens[1..][i])) {
      assert tokens[1..][i - 1] == tokens[i] && tokens[1..][i] == tokens[i + 1];
    }
  }

  lemma TokensAfterRead(s: string, at: nat)
    requires at < |s|
    ensures TokensFrom(s, at) == ReadAt(s, at).0 + TokensFrom(s, ReadAt(s, at).1)
    ensures ReadAt(s, at).1 >= |s| ==> TokensFrom(s, at) == ReadAt(s, at).0
  {
  }

  lemma {:induction false} TokensPastGap(s: string, p: nat, gaps: seq<string>, tokens: seq<Token>)
    requires |gaps| == |tokens| + 1 && AllBlank(gaps) && Lexable(tokens) && tokens != [] && p < |s|
    requires ReadsPrefix(s, p, Written(tokens[0]) + Weave(gaps[1..], tokens[1..]))
    ensures TokensFrom(s, p)
         == tokens[..Arrived(gaps, tokens, |s| - p + |gaps[0]|)] + Dangling(gaps, tokens, |s| - p + |gaps[0]|)
    decreases tokens, 0
  {
    hide ReadAt, TokensFrom, Arrived, Dangling, Written, Weave;
    var w, rest, k := Written(tokens[0]), Weave(gaps[1..], tokens[1..]), |s| - p;
    ReadsTail(s, p, w, rest);
    LexableTail(tokens);
    if IsScalar(tokens[0]) && k > |w| { AfterScalar(gaps[1..], tokens[1..]); }
    ReadWoven(s, p, tokens[0]);
    if k > |w| || (k == |w| && !tokens[0].Number?) { TokensOfPrefix(s, p + |w|, gaps[1..], tokens[1..]); }
    JoinRead(s, p, gaps, tokens);
  }

  lemma JoinRead(s: string, p: nat, gaps: seq<string>, tokens: seq<Token>)
    requires |gaps| == |tokens| + 1 && tokens != [] && p < |s| && ReadsWoven(s, p, tokens[0])
    requires var w := Written(tokens[0]);
             |s| - p > |w| || (|s| - p == |w| && !tokens[0].Number?) ==>
               TokensFrom(s, p + |w|) == tokens[1..][..Arrived(gaps[1..], tokens[1..], |s| - p - |w|)]
                                         + Dangling(gaps[1..], tokens[1..], |s| - p - |w|)
    ensures TokensFrom(s, p)
         == tokens[..Arrived(gaps, tokens, |s| - p + |gaps[0]|)] + Dangling(gaps, tokens, |s| - p + |gaps[0]|)
  {
    hide ReadAt, TokensFrom, Arrived, Dangling;
    TokensAfterRead(s, p);
    if |s| - p < |Written(tokens[0])| || (|s| - p == |Written(tokens[0])| && tokens[0].Number?) {
      NothingArrives(gaps, tokens, |s| - p);
    } else {
      OneArrives(gaps, tokens, |s| - p);
    }
  }

  lemma NothingArrives(gaps: seq<string>, tokens: seq<Token>, k: nat)
    requires |gaps| == |tokens| + 1 && tokens != [] && k > 0
    requires k < |Written(tokens[0])| || (k == |Written(tokens[0])| && tokens[0].Number?)
    ensures tokens[..Arrived(gaps, tokens, k + |gaps[0]|)] + Dangling(gaps, tokens, k + |gaps[0]|)
         == if tokens[0].Number? then [Number(tokens[0].value[..k], true)] else []
  {
  }

  lemma OneArrives(gaps: seq<string>, tokens: seq<Token>, k: nat)
    requires |gaps| == |tokens| + 1 && tokens != []
    requires k > |Written(tokens[0])| || (k == |Written(tokens[0])| && !tokens[0].Number?)
    ensures tokens[..Arrived(gaps, tokens, k + |gaps[0]|)] + Dangling(gaps, tokens, k + |gaps[0]|)
         == [tokens[0]] + (tokens[1..][..Arrived(gaps[1..], tokens[1..], k - |Written(tokens[0])|)]
                           + Dangling(gaps[1..], tokens[1..], k - |Written(tokens[0])|))
  {
    var n := Arrived(gaps[1..], tokens[1..], k - |Written(tokens[0])|);
    assert tokens[..1 + n] == [tokens[0]] + tokens[1..][..n];
  }
}
