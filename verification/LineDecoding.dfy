/**
 The incremental line decoder, against splitting the whole text at once.

 A byte is a character here. The decoder looks for the bytes CR and LF only, which in UTF-8 are never part of
 another character, and the decoding of each finished line from UTF-8 to text is left out.
 */
module LineDecoding {

  predicate IsNewline(c: char) { c == '\n' || c == '\r' }

  // The first CR or LF from `from` on, or -1.
  function FirstNewline(s: string, from: nat): (at: int)
    requires from <= |s|
    ensures at == -1 || (from <= at < |s| && IsNewline(s[at]))
    ensures forall i | from <= i < (if at == -1 then |s| else at) :: !IsNewline(s[i])
    decreases |s| - from
  {
    if from == |s| then -1 else if IsNewline(s[from]) then from else FirstNewline(s, from + 1)
  }

  /** All the lines of a text: CRLF, LF and CR each end a line, and a non-empty unterminated tail is a line. */
  function Lines(s: string): seq<string> {
    var at := FirstNewline(s, 0);
    if at == -1 then (if s == "" then [] else [s])
    else if s[at] == '\r' && at + 1 < |s| && s[at + 1] == '\n' then [s[..at]] + Lines(s[at + 2..])
    else [s[..at]] + Lines(s[at + 1..])
  }

  /** A line ends at its first CRLF, LF or CR, and the text goes on behind it. */
  lemma LinesByEnd(line: string, end: string, rest: string)
    requires '\n' !in line && '\r' !in line
    requires end == "\r\n" || end == "\n" || (end == "\r" && (rest == "" || rest[0] != '\n'))
    ensures Lines(line + end + rest) == [line] + Lines(rest)
  {
    var s := line + end + rest;
    forall i | 0 <= i < |line| ensures !IsNewline(s[i]) { assert s[i] == line[i] && line[i] in line; }
    assert s[|line|] == end[0];
    FirstNewlineOf(s, 0, |line|);
    assert s[..|line|] == line && s[|line| + |end|..] == rest;
    if end == "\r" && rest != "" { assert s[|line| + 1] == rest[0]; }
    if end == "\r\n" { assert s[|line| + 1] == '\n'; }
  }

  lemma LastLine(line: string)
    requires '\n' !in line && '\r' !in line
    ensures Lines(line) == if line == "" then [] else [line]
  {
    assert forall i | 0 <= i < |line| :: line[i] in line;
  }

  datatype Split = Split(lines: seq<string>, rest: string)

  // The first line that can be released, as where it ends and where the text goes on; a line that ends in a CR
  // is released once another CR or LF is seen. (-1, 0) when there is none.
  function NextLine(s: string): (r: (int, nat))
    ensures r.0 == -1 || (0 <= r.0 < r.1 <= |s|)
  {
    var at := FirstNewline(s, 0);
    if at == -1 then (-1, 0)
    else if s[at] == '\n' then (at, at + 1)
    else
      var next := FirstNewline(s, at + 1);
      if next == -1 then (-1, 0)
      else if next == at + 1 && s[next] == '\n' then (at, at + 2)
      else (at, at + 1)
  }

  // The lines a decoder has released after reading `s`, and what it still holds.
  function Released(s: string): (r: Split)
    decreases |s|
  {
    var (at, resume) := NextLine(s);
    if at == -1 then Split([], s) else After(s[..at], Released(s[resume..]))
  }

  function After(line: string, r: Split): Split { Split([line] + r.lines, r.rest) }

  datatype Found = NotFound | Found(preceding: nat, index: nat, carriage: bool)

  method FindNewlineIndex(buffer: string, startIndex: nat) returns (r: Found)
    requires startIndex <= |buffer|
    ensures var at := FirstNewline(buffer, startIndex);
            r == if at == -1 then NotFound else Found(at, at + 1, buffer[at] == '\r')
  {
    for i := startIndex to |buffer|
      invariant FirstNewline(buffer, startIndex) == FirstNewline(buffer, i)
    {
      if buffer[i] == '\n' { return Found(i, i + 1, false); }
      if buffer[i] == '\r' { return Found(i, i + 1, true); }
    }
    r := NotFound;
  }

  class LineDecoder {
    var buffer: string
    var carriageReturnIndex: int  // one past the first CR of the buffer once it has been found, else -1

    ghost predicate Valid()
      reads this
    {
      KnowsCarriage(buffer, carriageReturnIndex) && Holds(buffer)
    }

    constructor ()
      ensures Valid() && buffer == ""
    {
      buffer, carriageReturnIndex := "", -1;
    }

    method Decode(chunk: string) returns (lines: seq<string>)
      requires Valid()
      modifies this
      ensures Valid()
      ensures Split(lines, buffer) == Released(old(buffer) + chunk)
    {
      hide Released, NextLine, FirstNewline;
      ghost var all := buffer + chunk;
      StillFirst(buffer, chunk);
      StillKnown(buffer, chunk, carriageReturnIndex);
      buffer := buffer + chunk;
      lines := [];
      assert Before([], Released(all)) == Released(all);
      while true
        invariant KnowsCarriage(buffer, carriageReturnIndex)
        invariant Released(all) == Before(lines, Released(buffer))
        decreases |buffer|, carriageReturnIndex == -1
      {
        ScanReleases(buffer, carriageReturnIndex);
        var found := FindNewlineIndex(buffer, if carriageReturnIndex == -1 then 0 else carriageReturnIndex);
        if found.NotFound? {
          NothingToRelease(buffer);
          assert Before(lines, Released(buffer)) == Split(lines, buffer);
          break;
        }
        if found.carriage && carriageReturnIndex == -1 {
          // skip until the matching LF, a new CR or nothing
          carriageReturnIndex := found.index;
          continue;
        }
        if carriageReturnIndex != -1 && (found.index != carriageReturnIndex + 1 || found.carriage) {
          ReleaseOne(lines, buffer, carriageReturnIndex - 1, carriageReturnIndex);
          lines := lines + [buffer[..carriageReturnIndex - 1]];
          buffer := buffer[carriageReturnIndex..];
          carriageReturnIndex := -1;
          continue;
        }
        var endIndex := if carriageReturnIndex != -1 then found.preceding - 1 else found.preceding;
        ReleaseOne(lines, buffer, endIndex, found.index);
        lines := lines + [buffer[..endIndex]];
        buffer := buffer[found.index..];
        carriageReturnIndex := -1;
      }
    }

    method Flush() returns (lines: seq<string>)
      requires Valid()
      modifies this
      ensures Valid() && buffer == ""
      ensures lines == Lines(old(buffer))
    {
      if |buffer| == 0 { return []; }
      FlushReleases(buffer);
      lines := Decode("\n");
    }
  }

  lemma {:induction false} FirstNewlineOf(s: string, from: nat, at: nat)
    requires from <= at < |s| && IsNewline(s[at])
    requires forall i | from <= i < at :: !IsNewline(s[i])
    ensures FirstNewline(s, from) == at
  {
  }

  // Text that follows does not move the first newline.
  lemma StillFirst(s: string, more: string)
    ensures FirstNewline(s, 0) != -1 ==> FirstNewline(s + more, 0) == FirstNewline(s, 0)
  {
    var at := FirstNewline(s, 0);
    if at != -1 { FirstNewlineOf(s + more, 0, at); }
  }

  // `carriage` is -1, or one past a CR that is the first newline of the buffer.
  ghost predicate KnowsCarriage(buffer: string, carriage: int) {
    carriage == -1 ||
    (0 < carriage <= |buffer| && buffer[carriage - 1] == '\r' && FirstNewline(buffer, 0) == carriage - 1)
  }

  // What the newline found next, past the known CR if there is one, lets go.
  lemma ScanReleases(buffer: string, carriage: int)
    requires KnowsCarriage(buffer, carriage)
    ensures var at := FirstNewline(buffer, if carriage == -1 then 0 else carriage);
            && (at == -1 ==> Holds(buffer))
            && (at != -1 && carriage == -1 && buffer[at] == '\n' ==> NextLine(buffer) == (at, at + 1))
            && (at != -1 && carriage == -1 && buffer[at] == '\r' ==> KnowsCarriage(buffer, at + 1))
            && (at != -1 && carriage != -1 ==>
                  NextLine(buffer) ==
                  if at == carriage && buffer[at] == '\n' then (carriage - 1, at + 1) else (carriage - 1, carriage))
  {
  }

  lemma StillKnown(buffer: string, chunk: string, carriage: int)
    requires KnowsCarriage(buffer, carriage)
    ensures KnowsCarriage(buffer + chunk, carriage)
  {
    StillFirst(buffer, chunk);
  }

  function Before(lines: seq<string>, r: Split): Split { Split(lines + r.lines, r.rest) }

  lemma ReleaseOne(lines: seq<string>, s: string, at: nat, resume: nat)
    requires NextLine(s) == (at, resume)
    ensures Before(lines, Released(s)) == Before(lines + [s[..at]], Released(s[resume..]))
  {
    OneLine(s, at, resume);
  }

  lemma OneLine(s: string, at: nat, resume: nat)
    requires NextLine(s) == (at, resume)
    ensures Released(s) == Split([s[..at]] + Released(s[resume..]).lines, Released(s[resume..]).rest)
  {
  }

  lemma NothingToRelease(s: string)
    requires Holds(s)
    ensures Released(s) == Split([], s)
  {
  }

  // What is held when nothing more can be released.
  predicate Holds(r: string) { NextLine(r).0 == -1 }

  lemma {:induction false} RestIsHeld(s: string)
    ensures Holds(Released(s).rest)
    decreases |s|
  {
    hide NextLine;
    var (at, resume) := NextLine(s);
    if at != -1 { RestIsHeld(s[resume..]); }
  }

  lemma HeldTail(r: string)
    requires FirstNewline(r, 0) == -1
    ensures Released(r + "\n") == Split([r], "") && Released("") == Split([], "")
  {
    FirstNewlineOf(r + "\n", 0, |r|);
    assert (r + "\n")[..|r|] == r && (r + "\n")[|r| + 1..] == "";
  }

  lemma {:induction false} NoNewline(s: string)
    requires forall i | 0 <= i < |s| :: !IsNewline(s[i])
    ensures FirstNewline(s, 0) == -1
  {
  }

  lemma FlushReleases(r: string)
    requires Holds(r) && r != ""
    ensures Released(r + "\n") == Split(Lines(r), "")
  {
    hide Released;
    var at := FirstNewline(r, 0);
    if at == -1 {
      HeldTail(r);
    } else {
      var s, t := r + "\n", r[at + 1..];
      NoNewline(t);
      HeldTail(t);
      FirstNewlineOf(s, 0, at);
      FirstNewlineOf(s, at + 1, |r|);
      assert s[..at] == r[..at];
      if t == "" {
        assert s[at + 2..] == "";
        OneLine(s, at, at + 2);
      } else {
        assert s[at + 1..] == t + "\n";
        OneLine(s, at, at + 1);
      }
    }
  }

  // A line that can be released stays the same when more text arrives.
  lemma NextLineStays(s: string, more: string)
    requires NextLine(s).0 != -1
    ensures NextLine(s + more) == NextLine(s)
  {
    var at := FirstNewline(s, 0);
    FirstNewlineOf(s + more, 0, at);
    if s[at] == '\r' { FirstNewlineOf(s + more, at + 1, FirstNewline(s, at + 1)); }
  }

  /** Reading in two steps releases the same lines as reading at once. */
  lemma {:induction false} ReleasedInSteps(s: string, more: string)
    ensures var first := Released(s);
            var second := Released(first.rest + more);
            Released(s + more) == Split(first.lines + second.lines, second.rest)
    decreases |s|
  {
    hide NextLine, Released;
    var (at, resume) := NextLine(s);
    if at == -1 {
      NothingToRelease(s);
    } else {
      NextLineStays(s, more);
      OneLine(s, at, resume);
      OneLine(s + more, at, resume);
      ReleasedInSteps(s[resume..], more);
      assert (s + more)[..at] == s[..at] && (s + more)[resume..] == s[resume..] + more;
    }
  }

  lemma OneOfLines(s: string, at: nat, resume: nat)
    requires NextLine(s) == (at, resume)
    ensures Lines(s) == [s[..at]] + Lines(s[resume..])
  {
  }

  // Releasing and then splitting what is held splits the whole text.
  lemma {:induction false} LinesByRelease(s: string)
    ensures Lines(s) == Released(s).lines + Lines(Released(s).rest)
    decreases |s|
  {
    hide NextLine, Lines, Released;
    var (at, resume) := NextLine(s);
    if at == -1 {
      NothingToRelease(s);
    } else {
      OneLine(s, at, resume);
      OneOfLines(s, at, resume);
      LinesByRelease(s[resume..]);
    }
  }

  function Joined(chunks: seq<string>): string {
    if chunks == [] then "" else Joined(chunks[..|chunks| - 1]) + chunks[|chunks| - 1]
  }

  /** However a text is cut into chunks, decoding them and flushing gives the lines of the text. */
  method DecodeChunks(chunks: seq<string>) returns (lines: seq<string>)
    ensures lines == Lines(Joined(chunks))
  {
    var decoder := new LineDecoder();
    lines := [];
    for i := 0 to |chunks|
      invariant decoder.Valid() && fresh(decoder)
      invariant Split(lines, decoder.buffer) == Released(Joined(chunks[..i]))
    {
      assert chunks[..i + 1][..i] == chunks[..i];
      ReleasedInSteps(Joined(chunks[..i]), chunks[i]);
      var more := decoder.Decode(chunks[i]);
      lines := lines + more;
    }
    assert chunks[..|chunks|] == chunks;
    LinesByRelease(Joined(chunks));
    var last := decoder.Flush();
    lines := lines + last;
  }
}
