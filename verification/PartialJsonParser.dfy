/**
 The vendored partial-JSON parser: `tokenize`, `strip`, `unstrip` and `generate`, each with its loops, and
 the recursive functions that say what the loops compute.
 */
module PartialJsonParser {
  import opened JsonText

  // ----- tokenize -----

  predicate IsLetter(c: char) { 'a' <= c <= 'z' || 'A' <= c <= 'Z' }

  // The characters of the regular expression class \s.
  predicate IsSpace(c: char) {
    || c == ' ' || '\t' <= c <= '\r'
    || c == '\U{A0}' || c == '\U{1680}' || '\U{2000}' <= c <= '\U{200A}'
    || c == '\U{2028}' || c == '\U{2029}' || c == '\U{202F}' || c == '\U{205F}' || c == '\U{3000}'
    || c == '\U{FEFF}'
  }

  predicate IsMark(c: char) { c == '{' || c == '}' || c == '[' || c == ']' || c == ':' || c == ',' }

  function MarkToken(c: char): Token
    requires IsMark(c)
  {
    if c == '{' then Open(Curly) else if c == '}' then Shut(Curly)
    else if c == '[' then Open(Square) else if c == ']' then Shut(Square)
    else if c == ':' then Separator else Delimiter
  }

  // How many backslashes stand directly before position `at`, not counting any before `start`.
  function Backslashes(s: string, start: nat, at: nat): (n: nat)
    requires start <= at <= |s|
    ensures n <= at - start
  {
    if at > start && s[at - 1] == '\\' then 1 + Backslashes(s, start, at - 1) else 0
  }

  predicate ClosesString(s: string, start: nat, at: nat)
    requires start <= at < |s|
  {
    s[at] == '\"' && Backslashes(s, start, at) % 2 == 0
  }

  // Where the string whose contents begin at `start` closes, looking from `from` on; -1 when it does not.
  function CloseQuote(s: string, start: nat, from: nat): (at: int)
    requires start <= from <= |s|
    ensures at == -1 || (from <= at < |s| && ClosesString(s, start, at))
    decreases |s| - from
  {
    if from == |s| then -1
    else if ClosesString(s, start, from) then from
    else CloseQuote(s, start, from + 1)
  }

  // Whether a number that began at `start` goes on with the character at `at`.
  predicate NumberGoesOn(s: string, start: nat, at: nat)
    requires start <= at < |s|
  {
    || IsDigit(s[at]) || s[at] == '.' || s[at] == 'e' || s[at] == 'E'
    || ((s[at] == '-' || s[at] == '+') && at > start && (s[at - 1] == 'e' || s[at - 1] == 'E'))
  }

  function NumberEnd(s: string, start: nat, at: nat): (end: nat)
    requires start <= at <= |s|
    ensures at <= end <= |s|
    decreases |s| - at
  {
    if at < |s| && NumberGoesOn(s, start, at) then NumberEnd(s, start, at + 1) else at
  }

  function LettersEnd(s: string, at: nat): (end: nat)
    requires at <= |s|
    ensures at <= end <= |s|
    decreases |s| - at
  {
    if at < |s| && IsLetter(s[at]) then LettersEnd(s, at + 1) else at
  }

  predicate StartsNumber(c: char) { IsDigit(c) || c == '-' || c == '.' }

  // What the character at `at` starts: at most one token, and the position to go on from.
  function ReadAt(s: string, at: nat): (r: (seq<Token>, nat))
    requires at < |s|
    ensures r.1 > at && |r.0| <= 1
  {
    var c := s[at];
    if IsMark(c) then ([MarkToken(c)], at + 1)
    else if c == '\"' then
      var end := CloseQuote(s, at + 1, at + 1);
      if end == -1 then ([], |s|) else ([Str(s[at + 1..end])], end + 1)
    else if StartsNumber(c) then
      var end := NumberEnd(s, at, if c == '-' then at + 1 else at);
      assert c != '-' ==> NumberEnd(s, at, at) == NumberEnd(s, at, at + 1);
      ([Number(s[at..end], end == |s|)], end)
    else if IsLetter(c) then
      var end := LettersEnd(s, at);
      assert LettersEnd(s, at) == LettersEnd(s, at + 1);
      if IsLiteralName(s[at..end]) then ([Name(s[at..end])], end) else ([], end + 1)
    else ([], at + 1)
  }

  // The tokens of `s` from position `at` on.
  function TokensFrom(s: string, at: nat): seq<Token>
    decreases |s| - at
  {
    if at >= |s| then [] else
      var (token, next) := ReadAt(s, at);
      token + TokensFrom(s, next)
  }

  function Tokens(s: string): seq<Token> { TokensFrom(s, 0) }

  // The first position of a quotation mark from `from` on, or -1.
  function IndexOfQuote(s: string, from: nat): (at: int)
    requires from <= |s|
    ensures at == -1 ==> forall i | from <= i < |s| :: s[i] != '\"'
    ensures at != -1 ==> from <= at < |s| && s[at] == '\"' && forall i | from <= i < at :: s[i] != '\"'
    decreases |s| - from
  {
    if from == |s| then -1 else if s[from] == '\"' then from else IndexOfQuote(s, from + 1)
  }

  lemma {:induction false} SkipToQuote(s: string, start: nat, from: nat, next: nat)
    requires start <= from <= next <= |s|
    requires forall i | from <= i < next :: s[i] != '\"'
    ensures CloseQuote(s, start, from) == CloseQuote(s, start, next)
    decreases next - from
  {
    if from < next { SkipToQuote(s, start, from + 1, next); }
  }

  method FindClosingQuote(input: string, start: nat) returns (end: int)
    requires start <= |input|
    ensures end == CloseQuote(input, start, start)
  {
    end := start;
    while true
      invariant start <= end <= |input|
      invariant CloseQuote(input, start, start) == CloseQuote(input, start, end)
      decreases |input| - end
    {
      var from := end;
      end := IndexOfQuote(input, end);
      if end == -1 {
        SkipToQuote(input, start, from, |input|);
        return -1;
      }
      SkipToQuote(input, start, from, end);
      var backslashes := 0;
      var i := end - 1;
      while i >= start && input[i] == '\\'
        invariant start - 1 <= i < end && backslashes == end - 1 - i
        invariant Backslashes(input, start, end) == backslashes + Backslashes(input, start, i + 1)
      {
        backslashes := backslashes + 1;
        i := i - 1;
      }
      if backslashes % 2 == 0 { return; }
      end := end + 1;
    }
  }

  method ReadNumber(input: string, start: nat) returns (value: string, end: nat)
    requires start < |input| && StartsNumber(input[start])
    ensures end == NumberEnd(input, start, if input[start] == '-' then start + 1 else start)
    ensures start < end <= |input| && value == input[start..end]
  {
    value, end := "", start;
    if input[start] == '-' {
      value, end := value + [input[start]], end + 1;
    }
    ghost var first := end;
    while
      && end < |input|
      && (|| IsDigit(input[end]) || input[end] == '.' || input[end] == 'e' || input[end] == 'E'
          || ((input[end] == '-' || input[end] == '+') && |value| > 0
              && (value[|value| - 1] == 'e' || value[|value| - 1] == 'E')))
      invariant start <= end <= |input| && value == input[start..end]
      invariant end == start ==> first == start
      invariant NumberEnd(input, start, first) == NumberEnd(input, start, end)
    {
      value, end := value + [input[end]], end + 1;
    }
  }

  method ReadLetters(input: string, start: nat) returns (value: string, end: nat)
    requires start < |input| && IsLetter(input[start])
    ensures end == LettersEnd(input, start) && start < end && value == input[start..end]
  {
    value, end := "", start;
    while end < |input| && IsLetter(input[end])
      invariant start <= end <= |input| && value == input[start..end]
      invariant LettersEnd(input, start) == LettersEnd(input, end)
    {
      value, end := value + [input[end]], end + 1;
    }
  }

  method ReadToken(input: string, current: nat) returns (token: seq<Token>, next: nat)
    requires current < |input|
    ensures (token, next) == ReadAt(input, current)
  {
    var c := input[current];
    token, next := [], current + 1;
    if c == '\\' { return; }
    if IsMark(c) { return [MarkToken(c)], current + 1; }
    if c == '\"' {
      var start := current + 1;
      var end := FindClosingQuote(input, start);
      if end == -1 { return [], |input|; }
      return [Str(input[start..end])], end + 1;
    }
    if IsSpace(c) { return; }
    if StartsNumber(c) {
      var value, end := ReadNumber(input, current);
      return [Number(value, end == |input|)], end;
    }
    if IsLetter(c) {
      var value, end := ReadLetters(input, current);
      if IsLiteralName(value) { return [Name(value)], end; }
      return [], end + 1;
    }
  }

  method Tokenize(input: string) returns (tokens: seq<Token>)
    ensures tokens == Tokens(input)
  {
    var current := 0;
    tokens := [];
    while current < |input|
      invariant tokens + TokensFrom(input, current) == Tokens(input)
      decreases |input| - current
    {
      var token, next := ReadToken(input, current);
      tokens := tokens + token;
      current := next;
    }
  }

  // ----- strip -----

  // The brackets left open after `tokens`; a closing bracket takes the innermost one away, whatever it is.
  function OpenBrackets(tokens: seq<Token>): seq<Bracket> {
    if tokens == [] then [] else
      var open := OpenBrackets(tokens[..|tokens| - 1]);
      match tokens[|tokens| - 1]
      case Open(b) => open + [b]
      case Shut(_) => if open == [] then [] else open[..|open| - 1]
      case _ => open
  }

  // Whether the innermost bracket left open is a `{`.
  predicate InObject(tokens: seq<Token>) {
    var open := OpenBrackets(tokens);
    open != [] && open[|open| - 1] == Curly
  }

  // Whether the last of the first `length` tokens is a key with no value yet: a string directly inside an
  // object that follows its `{` or a comma.
  predicate IsDanglingKey(tokens: seq<Token>, length: nat, inObject: bool)
    requires 0 < length <= |tokens|
  {
    inObject && length > 1 && (tokens[length - 2] == Delimiter || tokens[length - 2] == Open(Curly))
  }

  // How many of the first `length` tokens stay, `inObject` saying what the innermost open bracket is.
  function KeptLength(tokens: seq<Token>, length: nat, inObject: bool): (n: nat)
    requires length <= |tokens|
    ensures n <= length
  {
    if length == 0 then 0 else
      match tokens[length - 1]
      case Separator => KeptLength(tokens, length - 1, inObject)
      case Number(value, unterminated) =>
        if unterminated || !IsNumber(value) then KeptLength(tokens, length - 1, inObject) else length
      case Str(_) =>
        if IsDanglingKey(tokens, length, inObject) then KeptLength(tokens, length - 1, inObject) else length
      case Delimiter => length - 1
      case _ => length
  }

  function Stripped(tokens: seq<Token>): seq<Token> { tokens[..KeptLength(tokens, |tokens|, InObject(tokens))] }

  method FindInnermost(tokens: seq<Token>) returns (inObject: bool)
    ensures inObject == InObject(tokens)
  {
    var open: seq<Bracket> := [];
    for i := 0 to |tokens|
      invariant open == OpenBrackets(tokens[..i])
    {
      assert tokens[..i + 1][..i] == tokens[..i];
      match tokens[i] {
        case Open(b) => open := open + [b];
        case Shut(_) => open := if open == [] then [] else open[..|open| - 1];
        case _ =>
      }
    }
    assert tokens[..|tokens|] == tokens;
    inObject := open != [] && open[|open| - 1] == Curly;
  }

  method Strip(tokens: seq<Token>) returns (kept: seq<Token>)
    ensures kept == Stripped(tokens)
  {
    var inObject := FindInnermost(tokens);
    var length := |tokens|;
    while length > 0
      invariant 0 <= length <= |tokens|
      invariant KeptLength(tokens, |tokens|, inObject) == KeptLength(tokens, length, inObject)
    {
      match tokens[length - 1] {
        case Separator =>
          length := length - 1;
          continue;
        case Number(value, unterminated) =>
          if unterminated || !IsNumber(value) {
            length := length - 1;
            continue;
          }
        case Str(_) =>
          if inObject && length > 1 && (tokens[length - 2] == Delimiter || tokens[length - 2] == Open(Curly)) {
            length := length - 1;
            continue;
          }
        case Delimiter =>
          return tokens[..length - 1];
        case _ =>
      }
      break;
    }
    kept := tokens[..length];
  }

  // ----- unstrip -----

  function LastIndexOf(tail: seq<Bracket>, b: Bracket): (at: int)
    ensures -1 <= at < |tail|
  {
    if tail == [] then -1
    else if tail[|tail| - 1] == b then |tail| - 1
    else LastIndexOf(tail[..|tail| - 1], b)
  }

  // What Array.prototype.splice(at, 1) leaves of `tail`; an index of -1 is the last element.
  function WithoutAt(tail: seq<Bracket>, at: int): seq<Bracket>
    requires -1 <= at < |tail|
  {
    if tail == [] then [] else
      var k := if at == -1 then |tail| - 1 else at;
      tail[..k] + tail[k + 1..]
  }

  function TailStep(tail: seq<Bracket>, t: Token): seq<Bracket> {
    match t
    case Open(b) => tail + [b]
    case Shut(b) => WithoutAt(tail, LastIndexOf(tail, b))
    case _ => tail
  }

  // The brackets whose closing half is missing after `tokens`, outermost first.
  function MissingClosers(tokens: seq<Token>): seq<Bracket> {
    if tokens == [] then [] else TailStep(MissingClosers(tokens[..|tokens| - 1]), tokens[|tokens| - 1])
  }

  function ClosersFor(tail: seq<Bracket>): seq<Token> {
    if tail == [] then [] else [Shut(tail[|tail| - 1])] + ClosersFor(tail[..|tail| - 1])
  }

  function Unstripped(tokens: seq<Token>): seq<Token> { tokens + ClosersFor(MissingClosers(tokens)) }

  method Unstrip(stripped: seq<Token>) returns (tokens: seq<Token>)
    ensures tokens == Unstripped(stripped)
  {
    tokens := stripped;
    var tail: seq<Bracket> := [];
    for i := 0 to |tokens|
      invariant tokens == stripped && tail == MissingClosers(stripped[..i])
    {
      assert stripped[..i + 1][..i] == stripped[..i];
      tail := TailStep(tail, tokens[i]);
    }
    assert stripped[..|stripped|] == stripped && tail[..|tail|] == tail;
    var n := |tail|;
    while n > 0
      invariant 0 <= n <= |tail|
      invariant Unstripped(stripped) == tokens + ClosersFor(tail[..n])
    {
      n := n - 1;
      assert tail[..n + 1][..n] == tail[..n];
      tokens := tokens + [Shut(tail[n])];
    }
  }

  // ----- generate -----

  function Generated(tokens: seq<Token>): string {
    if tokens == [] then "" else Generated(tokens[..|tokens| - 1]) + Written(tokens[|tokens| - 1])
  }

  method Generate(tokens: seq<Token>) returns (output: string)
    ensures output == Generated(tokens)
  {
    output := "";
    for i := 0 to |tokens|
      invariant output == Generated(tokens[..i])
    {
      assert tokens[..i + 1][..i] == tokens[..i];
      output := output + Written(tokens[i]);
    }
    assert tokens[..|tokens|] == tokens;
  }

  function Repaired(input: string): string { Generated(Unstripped(Stripped(Tokens(input)))) }

  /** The text that `partialParse` gives to JSON.parse. */
  method Repair(input: string) returns (output: string)
    ensures output == Repaired(input)
  {
    var tokens := Tokenize(input);
    tokens := Strip(tokens);
    tokens := Unstrip(tokens);
    output := Generate(tokens);
  }
}
