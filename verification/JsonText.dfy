/**
 The reference for the partial-JSON parser: JSON values, their tokens, and the texts that spell them.

 The grammar is the one of RFC 8259. Section 2 describes a JSON text as a sequence of tokens (six
 structural characters, strings, numbers and three literal names) with insignificant whitespace around
 them, which is how `Spells` reads here. Strings and numbers are kept as written: what an escape sequence
 or a number means is left to whoever reads the value.

 Text is a `string`. The parser tells apart ASCII characters only, so a lone UTF-16 surrogate behaves like any
 other character above U+007F.
 */
module JsonText {

  datatype Json =
    | Literal(name: string)
    | Num(digits: string)
    | Text(body: string)
    | Arr(items: seq<Json>)
    | Obj(members: seq<Member>)

  datatype Member = Member(key: string, value: Json)

  datatype Bracket = Curly | Square

  // `unterminated` is set on a number that runs to the very end of the input.
  datatype Token =
    | Open(bracket: Bracket)
    | Shut(bracket: Bracket)
    | Separator
    | Delimiter
    | Str(value: string)
    | Number(value: string, unterminated: bool)
    | Name(value: string)

  // ----- the lexical grammar (sections 2, 3, 6 and 7 of RFC 8259) -----

  predicate IsBlank(c: char) { c == ' ' || c == '\t' || c == '\n' || c == '\r' }

  predicate IsDigit(c: char) { '0' <= c <= '9' }

  predicate IsHex(c: char) { IsDigit(c) || 'a' <= c <= 'f' || 'A' <= c <= 'F' }

  predicate IsLiteralName(s: string) { s == "true" || s == "false" || s == "null" }

  // number = [ minus ] int [ frac ] [ exp ], read from the left
  predicate IsNumber(s: string) {
    IsUnsigned(if |s| > 0 && s[0] == '-' then s[1..] else s)
  }

  predicate IsUnsigned(s: string) {
    |s| > 0 && (if s[0] == '0' then IsAfterInt(s[1..]) else IsDigit(s[0]) && IsIntDigits(s[1..]))
  }

  predicate IsIntDigits(s: string) {
    if |s| > 0 && IsDigit(s[0]) then IsIntDigits(s[1..]) else IsAfterInt(s)
  }

  predicate IsAfterInt(s: string) {
    if |s| > 0 && s[0] == '.' then |s| > 1 && IsDigit(s[1]) && IsFracDigits(s[2..]) else IsAfterFrac(s)
  }

  predicate IsFracDigits(s: string) {
    if |s| > 0 && IsDigit(s[0]) then IsFracDigits(s[1..]) else IsAfterFrac(s)
  }

  predicate IsAfterFrac(s: string) {
    s == "" || ((s[0] == 'e' || s[0] == 'E') && |s| > 1 &&
                (if s[1] == '-' || s[1] == '+' then IsDigits(s[2..]) else IsDigits(s[1..])))
  }

  predicate IsDigits(s: string) {
    |s| > 0 && IsDigit(s[0]) && (|s| == 1 || IsDigits(s[1..]))
  }

  // *char of a string, between its quotation marks
  predicate IsStringBody(s: string) {
    if s == "" then true
    else if s[0] == '\\' then
      |s| > 1 &&
      (if s[1] == 'u' then
         |s| > 5 && IsHex(s[2]) && IsHex(s[3]) && IsHex(s[4]) && IsHex(s[5]) && IsStringBody(s[6..])
       else
         s[1] in "\"\\/bfnrt" && IsStringBody(s[2..]))
    else
      s[0] != '\"' && s[0] >= ' ' && IsStringBody(s[1..])
  }

  ghost predicate WellFormed(j: Json) {
    match j
    case Literal(name) => IsLiteralName(name)
    case Num(digits) => IsNumber(digits)
    case Text(body) => IsStringBody(body)
    case Arr(items) => forall i | 0 <= i < |items| :: WellFormed(items[i])
    case Obj(members) =>
      forall i | 0 <= i < |members| :: IsStringBody(members[i].key) && WellFormed(members[i].value)
  }

  // ----- values as tokens, tokens as text -----

  function TokensOf(j: Json): seq<Token>
    decreases j, 0
  {
    match j
    case Literal(name) => [Name(name)]
    case Num(digits) => [Number(digits, false)]
    case Text(body) => [Str(body)]
    case Arr(items) => [Open(Square)] + ItemTokens(items) + [Shut(Square)]
    case Obj(members) => [Open(Curly)] + MemberTokens(members) + [Shut(Curly)]
  }

  function ItemTokens(items: seq<Json>): seq<Token>
    decreases items, 1
  {
    if items == [] then [] else
      var n := |items| - 1;
      ItemTokens(items[..n]) + (if n == 0 then [] else [Delimiter]) + TokensOf(items[n])
  }

  function MemberTokens(members: seq<Member>): seq<Token>
    decreases members, 1
  {
    if members == [] then [] else
      var n := |members| - 1;
      MemberTokens(members[..n]) + (if n == 0 then [] else [Delimiter])
      + [Str(members[n].key), Separator] + TokensOf(members[n].value)
  }

  function Written(t: Token): string {
    match t
    case Open(b) => if b == Curly then "{" else "["
    case Shut(b) => if b == Curly then "}" else "]"
    case Separator => ":"
    case Delimiter => ","
    case Str(body) => "\"" + body + "\""
    case Number(digits, _) => digits
    case Name(name) => name
  }

  // The tokens written one after the other, `gaps[i]` before token `i` and the last gap after all of them.
  function Weave(gaps: seq<string>, tokens: seq<Token>): string
    requires |gaps| == |tokens| + 1
  {
    if tokens == [] then gaps[0]
    else gaps[0] + (Written(tokens[0]) + Weave(gaps[1..], tokens[1..]))
  }

  ghost predicate Blank(s: string) { forall i | 0 <= i < |s| :: IsBlank(s[i]) }

  ghost predicate AllBlank(gaps: seq<string>) { forall i | 0 <= i < |gaps| :: Blank(gaps[i]) }

  ghost predicate SpelledWith(s: string, j: Json, gaps: seq<string>) {
    && |gaps| == |TokensOf(j)| + 1
    && AllBlank(gaps)
    && s == Weave(gaps, TokensOf(j))
  }

  /** `s` is a JSON text and its value is `j`. */
  ghost predicate Spells(s: string, j: Json) {
    WellFormed(j) && exists gaps :: SpelledWith(s, j, gaps)
  }

  // ----- partial views -----

  /**
   `part` could be an earlier view of `full`: its entries are the first entries of `full`, all but the last
   are complete, and only an array or an object can be shown before it is complete.
   */
  ghost predicate PartialOf(part: Json, full: Json) {
    match (part, full)
    case (Arr(seen), Arr(all)) =>
      && |seen| <= |all|
      && forall i | 0 <= i < |seen| ::
        if i < |seen| - 1 then seen[i] == all[i] else PartialOf(seen[i], all[i])
    case (Obj(seen), Obj(all)) =>
      && |seen| <= |all|
      && forall i | 0 <= i < |seen| ::
        if i < |seen| - 1 then seen[i] == all[i]
        else seen[i].key == all[i].key && PartialOf(seen[i].value, all[i].value)
    case _ => part == full
  }

  lemma {:induction false} PartialOfReflexive(j: Json)
    ensures PartialOf(j, j)
  {
    match j
    case Arr(items) => if items != [] { PartialOfReflexive(items[|items| - 1]); }
    case Obj(members) => if members != [] { PartialOfReflexive(members[|members| - 1].value); }
    case _ =>
  }

  lemma {:induction false} PartialOfTransitive(a: Json, b: Json, c: Json)
    requires PartialOf(a, b) && PartialOf(b, c)
    ensures PartialOf(a, c)
    decreases a
  {
    match a
    case Arr(items) =>
      if |items| > 0 && |items| == |b.items| {
        var n := |items| - 1;
        PartialOfTransitive(items[n], b.items[n], c.items[n]);
      }
    case Obj(members) =>
      if |members| > 0 && |members| == |b.members| {
        var n := |members| - 1;
        PartialOfTransitive(members[n].value, b.members[n].value, c.members[n].value);
      }
    case _ =>
  }
}
