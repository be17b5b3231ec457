/**
 The server-sent-event decoder and the two ways of writing an event back, on lines as the line decoder makes them.

 Each line is decoded from bytes to text on its own, and decoding drops one byte order mark at its start. A byte is a
 character here, as in the line decoder; what UTF-8 makes of a character is a function parameter.
 */
module EventStream {
  import opened LineDecoding

  datatype Option<T> = None | Some(value: T)

  datatype ServerSentEvent = ServerSentEvent(event: Option<string>, data: string, raw: seq<string>)

  // The fields of the decoder between two lines.
  datatype Pending = Pending(event: Option<string>, data: seq<string>, chunks: seq<string>)

  const NOTHING_PENDING := Pending(None, [], [])

  function IndexOf(s: string, c: char): (at: int)
    ensures at == -1 ==> c !in s
    ensures at != -1 ==> 0 <= at < |s| && s[at] == c && c !in s[..at]
  {
    if s == "" then -1
    else if s[0] == c then 0
    else
      var rest := IndexOf(s[1..], c);
      if rest == -1 then -1 else
        assert s[..rest + 1] == [s[0]] + s[1..][..rest];
        rest + 1
  }

  // The field name and value on either side of the first colon.
  function Partition(line: string): (r: (string, string)) {
    var at := IndexOf(line, ':');
    if at == -1 then (line, "") else (line[..at], line[at + 1..])
  }

  function Join(parts: seq<string>): string {
    if parts == [] then ""
    else if |parts| == 1 then parts[0]
    else parts[0] + "\n" + Join(parts[1..])
  }

  function SplitLF(s: string): (parts: seq<string>)
    ensures parts != []
  {
    var at := IndexOf(s, '\n');
    if at == -1 then [s] else [s[..at]] + SplitLF(s[at + 1..])
  }

  // A name that JavaScript takes for false.
  predicate NoName(event: Option<string>) { event == None || event == Some("") }

  function WithField(p: Pending, line: string): Pending {
    var (name, raw) := Partition(line);
    var value := if raw != "" && raw[0] == ' ' then raw[1..] else raw;
    if name == "event" then p.(event := Some(value))
    else if name == "data" then p.(data := p.data + [value])
    else p
  }

  // The decoder after one line, and the event that the line completes, if it completes one.
  function Fed(p: Pending, written: string): (Pending, seq<ServerSentEvent>) {
    var line := if written != "" && written[|written| - 1] == '\r' then written[..|written| - 1] else written;
    if line == "" then
      if NoName(p.event) && p.data == [] then (p, [])
      else (NOTHING_PENDING, [ServerSentEvent(p.event, Join(p.data), p.chunks)])
    else
      var q := p.(chunks := p.chunks + [line]);
      (if line[0] == ':' then q else WithField(q, line), [])
  }

  function FedAll(p: Pending, lines: seq<string>): (Pending, seq<ServerSentEvent>) {
    if lines == [] then (p, []) else
      var (q, sofar) := FedAll(p, lines[..|lines| - 1]);
      var (r, more) := Fed(q, lines[|lines| - 1]);
      (r, sofar + more)
  }

  const BYTE_ORDER_MARK := '\U{FEFF}'

  predicate Marked(line: string) { line != "" && line[0] == BYTE_ORDER_MARK }

  function DecodedLine(line: string): string { if Marked(line) then line[1..] else line }

  function Decoded(lines: seq<string>): (r: seq<string>)
    ensures |r| == |lines| && forall i | 0 <= i < |r| :: r[i] == DecodedLine(lines[i])
  {
    seq(|lines|, i requires 0 <= i < |lines| => DecodedLine(lines[i]))
  }

  function DecodedBy(decode: string -> string, lines: seq<string>): (r: seq<string>)
    ensures |r| == |lines| && forall i | 0 <= i < |r| :: r[i] == decode(lines[i])
  {
    seq(|lines|, i requires 0 <= i < |lines| => decode(lines[i]))
  }

  /** All the events of a body in bytes. */
  function EventsBy(decode: string -> string, body: string): seq<ServerSentEvent> {
    FedAll(NOTHING_PENDING, DecodedBy(decode, Lines(body))).1
  }

  /** All the events of a text. */
  function Events(text: string): seq<ServerSentEvent> { FedAll(NOTHING_PENDING, Decoded(Lines(text))).1 }

  class SSEDecoder {
    var data: seq<string>
    var event: Option<string>
    var chunks: seq<string>

    function State(): Pending
      reads this
    {
      Pending(event, data, chunks)
    }

    constructor ()
      ensures State() == NOTHING_PENDING
    {
      event, data, chunks := None, [], [];
    }

    method Decode(written: string) returns (events: seq<ServerSentEvent>)
      modifies this
      ensures (State(), events) == Fed(old(State()), written)
    {
      var line := written;
      if |line| > 0 && line[|line| - 1] == '\r' {
        line := line[..|line| - 1];
      }
      if |line| == 0 {
        if NoName(event) && |data| == 0 { return []; }
        events := [ServerSentEvent(event, Join(data), chunks)];
        event, data, chunks := None, [], [];
        return;
      }
      chunks := chunks + [line];
      events := [];
      if line[0] == ':' { return; }
      var (fieldname, value) := Partition(line);
      if |value| > 0 && value[0] == ' ' {
        value := value[1..];
      }
      if fieldname == "event" {
        event := Some(value);
      } else if fieldname == "data" {
        data := data + [value];
      }
    }
  }

  /** The events of a response body do not depend on how its bytes are cut into chunks, inside characters or not. */
  method IterMessages(chunks: seq<string>, decode: string -> string) returns (events: seq<ServerSentEvent>)
    ensures events == EventsBy(decode, Joined(chunks))
  {
    var sseDecoder := new SSEDecoder();
    var lineDecoder := new LineDecoder();
    events := [];
    ghost var seen: seq<string> := [];
    for i := 0 to |chunks|
      invariant lineDecoder.Valid() && fresh(lineDecoder) && fresh(sseDecoder)
      invariant Split(seen, lineDecoder.buffer) == Released(Joined(chunks[..i]))
      invariant (sseDecoder.State(), events) == FedAll(NOTHING_PENDING, DecodedBy(decode, seen))
    {
      assert chunks[..i + 1][..i] == chunks[..i];
      ReleasedInSteps(Joined(chunks[..i]), chunks[i]);
      var lines := lineDecoder.Decode(chunks[i]);
      events := FeedLines(sseDecoder, decode, seen, lines, events);
      seen := seen + lines;
    }
    assert chunks[..|chunks|] == chunks;
    LinesByRelease(Joined(chunks));
    var lines := lineDecoder.Flush();
    events := FeedLines(sseDecoder, decode, seen, lines, events);
  }

  method FeedLines(
      decoder: SSEDecoder, decode: string -> string, ghost seen: seq<string>, lines: seq<string>,
      before: seq<ServerSentEvent>)
    returns (events: seq<ServerSentEvent>)
    requires (decoder.State(), before) == FedAll(NOTHING_PENDING, DecodedBy(decode, seen))
    modifies decoder
    ensures (decoder.State(), events) == FedAll(NOTHING_PENDING, DecodedBy(decode, seen + lines))
  {
    hide Fed, FedAll, DecodedBy;
    events := before;
    assert seen + lines[..0] == seen;
    for k := 0 to |lines|
      invariant (decoder.State(), events) == FedAll(NOTHING_PENDING, DecodedBy(decode, seen + lines[..k]))
    {
      assert seen + lines[..k + 1] == (seen + lines[..k]) + [lines[k]];
      OneMoreLine(decode, seen + lines[..k], lines[k]);
      var more := decoder.Decode(decode(lines[k]));
      events := events + more;
    }
    assert lines[..|lines|] == lines;
  }

  lemma OneMoreLine(decode: string -> string, seen: seq<string>, line: string)
    ensures var (p, events) := FedAll(NOTHING_PENDING, DecodedBy(decode, seen));
            var (q, more) := Fed(p, decode(line));
            FedAll(NOTHING_PENDING, DecodedBy(decode, seen + [line])) == (q, events + more)
  {
    hide Fed;
    var lines := DecodedBy(decode, seen + [line]);
    assert lines[..|lines| - 1] == DecodedBy(decode, seen);
  }

  // ----- a text in bytes -----

  function Encoded(bytes: char -> string, s: string): string {
    if s == "" then "" else bytes(s[0]) + Encoded(bytes, s[1..])
  }

  // As in UTF-8, each newline is a byte of its own, and no byte of another character is one.
  ghost predicate KeepsNewlines(bytes: char -> string) {
    forall c :: if IsNewline(c) then bytes(c) == [c] else bytes(c) != "" && Clean(bytes(c))
  }

  // Decoding the bytes of a text gives the text, without one byte order mark at its start.
  ghost predicate Utf8(bytes: char -> string, decode: string -> string) {
    KeepsNewlines(bytes) && forall s :: decode(Encoded(bytes, s)) == DecodedLine(s)
  }

  lemma {:induction false} EncodedConcat(bytes: char -> string, a: string, b: string)
    ensures Encoded(bytes, a + b) == Encoded(bytes, a) + Encoded(bytes, b)
    decreases |a|
  {
    if a == "" {
      assert a + b == b;
    } else {
      EncodedConcat(bytes, a[1..], b);
      assert (a + b)[1..] == a[1..] + b;
    }
  }

  lemma {:induction false} EncodedIsClean(bytes: char -> string, s: string)
    requires KeepsNewlines(bytes) && Clean(s)
    ensures Clean(Encoded(bytes, s)) && (s != "" ==> Encoded(bytes, s) != "")
  {
    if s != "" {
      EncodedIsClean(bytes, s[1..]);
      assert !IsNewline(s[0]);
    }
  }

  // The first newline of the bytes is that of the text.
  lemma EncodedNewline(bytes: char -> string, s: string)
    requires KeepsNewlines(bytes)
    ensures var at := FirstNewline(s, 0);
            if at == -1 then FirstNewline(Encoded(bytes, s), 0) == -1
            else
              && Encoded(bytes, s) == Encoded(bytes, s[..at]) + [s[at]] + Encoded(bytes, s[at + 1..])
              && FirstNewline(Encoded(bytes, s), 0) == |Encoded(bytes, s[..at])|
  {
    hide KeepsNewlines, Encoded, FirstNewline;
    var at := FirstNewline(s, 0);
    if at == -1 {
      EncodedIsClean(bytes, s);
      NoNewline(Encoded(bytes, s));
    } else {
      var head, rest := s[..at], s[at + 1..];
      assert head + ([s[at]] + rest) == s;
      EncodedIsClean(bytes, head);
      EncodedConcat(bytes, head, [s[at]] + rest);
      NewlineEncoded(bytes, s[at], rest);
      EndsClean(Encoded(bytes, head), s[at], Encoded(bytes, rest));
    }
  }

  lemma NewlineEncoded(bytes: char -> string, c: char, rest: string)
    requires KeepsNewlines(bytes) && IsNewline(c)
    ensures Encoded(bytes, [c] + rest) == [c] + Encoded(bytes, rest)
  {
    assert ([c] + rest)[1..] == rest;
  }

  lemma EndsClean(head: string, c: char, rest: string)
    requires Clean(head) && IsNewline(c)
    ensures head + ([c] + rest) == head + [c] + rest && FirstNewline(head + [c] + rest, 0) == |head|
  {
    hide FirstNewline;
    var s := head + [c] + rest;
    forall i | 0 <= i < |head| ensures !IsNewline(s[i]) { assert s[i] == head[i]; }
    assert s[|head|] == c;
    FirstNewlineOf(s, 0, |head|);
  }

  // Where the text goes on after the newline at `at`.
  function Past(s: string, at: nat): string
    requires at < |s|
  {
    if s[at] == '\r' && at + 1 < |s| && s[at + 1] == '\n' then s[at + 2..] else s[at + 1..]
  }

  lemma LinesNext(s: string)
    ensures var at := FirstNewline(s, 0);
            Lines(s) == if at != -1 then [s[..at]] + Lines(Past(s, at)) else if s == "" then [] else [s]
  {
  }

  lemma PastEncoded(bytes: char -> string, s: string, at: nat)
    requires KeepsNewlines(bytes) && at < |s| && IsNewline(s[at])
    requires Encoded(bytes, s) == Encoded(bytes, s[..at]) + [s[at]] + Encoded(bytes, s[at + 1..])
    ensures var e, head := Encoded(bytes, s), Encoded(bytes, s[..at]);
            e[..|head|] == head && Past(e, |head|) == Encoded(bytes, Past(s, at))
  {
    hide KeepsNewlines, Encoded;
    var head, rest := Encoded(bytes, s[..at]), Encoded(bytes, s[at + 1..]);
    var e := head + [s[at]] + rest;
    EncodedNone(bytes);
    NextNewline(bytes, s[at + 1..]);
    assert e[|head|] == s[at] && e[|head| + 1..] == rest;
    if at + 1 < |s| {
      assert s[at + 1..][1..] == s[at + 2..] && e[|head| + 2..] == rest[1..] && e[|head| + 1] == rest[0];
    }
  }

  lemma EncodedNone(bytes: char -> string)
    ensures Encoded(bytes, "") == ""
  {
  }

  function EncodedEach(bytes: char -> string, lines: seq<string>): (r: seq<string>)
    ensures |r| == |lines| && forall i | 0 <= i < |r| :: r[i] == Encoded(bytes, lines[i])
  {
    seq(|lines|, i requires 0 <= i < |lines| => Encoded(bytes, lines[i]))
  }

  /** The lines of a text's bytes are the bytes of its lines. */
  lemma {:induction false} LinesOfEncoded(bytes: char -> string, s: string)
    requires KeepsNewlines(bytes)
    ensures Lines(Encoded(bytes, s)) == EncodedEach(bytes, Lines(s))
    decreases |s|
  {
    hide KeepsNewlines, Lines, Encoded, FirstNewline, Past;
    var at := FirstNewline(s, 0);
    LinesNext(s);
    LinesNext(Encoded(bytes, s));
    EncodedNewline(bytes, s);
    if at == -1 {
      EncodedNone(bytes);
      EncodedIsClean(bytes, s);
    } else {
      PastEncoded(bytes, s, at);
      PastIsShorter(s, at);
      LinesOfEncoded(bytes, Past(s, at));
    }
  }

  lemma PastIsShorter(s: string, at: nat)
    requires at < |s|
    ensures |Past(s, at)| < |s|
  {
  }

  lemma NextNewline(bytes: char -> string, s: string)
    requires KeepsNewlines(bytes)
    ensures s != "" ==> Encoded(bytes, s) != ""
    ensures s != "" ==> (s[0] == '\n' <==> Encoded(bytes, s)[0] == '\n')
    ensures s != "" && s[0] == '\n' ==> Encoded(bytes, s)[1..] == Encoded(bytes, s[1..])
  {
    if s != "" {
      assert if IsNewline(s[0]) then bytes(s[0]) == [s[0]] else bytes(s[0]) != "" && Clean(bytes(s[0]));
      if !IsNewline(s[0]) { assert !IsNewline(bytes(s[0])[0]); }
    }
  }

  /** The events of a text's bytes are those of the text. */
  lemma EventsOfEncoded(bytes: char -> string, decode: string -> string, text: string)
    requires Utf8(bytes, decode)
    ensures EventsBy(decode, Encoded(bytes, text)) == Events(text)
  {
    hide Fed, FedAll, Lines, Encoded, DecodedLine, KeepsNewlines;
    LinesOfEncoded(bytes, text);
    assert DecodedBy(decode, Lines(Encoded(bytes, text))) == Decoded(Lines(text));
  }

  // ----- what a line means -----

  lemma PartitionAtColon(name: string, rest: string)
    requires ':' !in name
    ensures Partition(name + ":" + rest) == (name, rest)
  {
    hide Partition;
    var line := name + ":" + rest;
    ColonAt(line, |name|);
    assert line[..|name|] == name && line[|name| + 1..] == rest;
    PartitionIs(line, |name|);
  }

  lemma {:induction false} ColonAt(line: string, at: nat)
    requires at < |line| && line[at] == ':' && ':' !in line[..at]
    ensures IndexOf(line, ':') == at
  {
    hide IndexOf;
    var found := IndexOf(line, ':');
    assert line[at] in line;
    assert forall i | 0 <= i < at :: line[i] in line[..at];
    assert forall n | at < n <= |line| :: line[at] in line[..n];
  }

  lemma PartitionIs(line: string, at: nat)
    requires IndexOf(line, ':') == at < |line|
    ensures Partition(line) == (line[..at], line[at + 1..])
  {
  }

  lemma PartitionWithout(line: string)
    requires ':' !in line
    ensures Partition(line) == (line, "")
  {
    assert forall i | 0 <= i < |line| :: line[i] in line;
  }

  /**
   A line with a field: `data` appends its value, `event` sets its own, and any other name changes neither. One blank
   after the colon is not part of the value. The line itself is kept.
   */
  lemma FieldMeans(p: Pending, name: string, value: string, blank: bool)
    requires Clean(name) && Clean(value) && name != "" && ':' !in name
    requires !blank ==> value == "" || value[0] != ' '
    ensures var line := name + ":" + (if blank then " " else "") + value;
            Fed(p, line) == (Pending(if name == "event" then Some(value) else p.event,
                                     if name == "data" then p.data + [value] else p.data,
                                     p.chunks + [line]), [])
  {
    hide Partition, Clean;
    var raw := (if blank then " " else "") + value;
    var line := name + ":" + raw;
    assert line == name + ":" + (if blank then " " else "") + value;
    PartitionAtColon(name, raw);
    EndsWithoutCR(name, raw, value, blank);
    assert line[0] == name[0] && name[0] in name;
    if blank { assert raw[1..] == value; } else { assert raw == value; }
  }

  lemma EndsWithoutCR(name: string, raw: string, value: string, blank: bool)
    requires Clean(name) && Clean(value) && raw == (if blank then " " else "") + value
    ensures var line := name + ":" + raw; line[|line| - 1] != '\r'
  {
    var line := name + ":" + raw;
    if value != "" {
      assert line[|line| - 1] == value[|value| - 1];
    } else if blank {
      assert line[|line| - 1] == ' ';
    } else {
      assert line[|line| - 1] == ':';
    }
  }

  /** A line without a colon is a field's name with an empty value. */
  lemma NameAloneMeans(p: Pending, name: string)
    requires Clean(name) && name != "" && ':' !in name
    ensures Fed(p, name) == (Pending(if name == "event" then Some("") else p.event,
                                     if name == "data" then p.data + [""] else p.data, p.chunks + [name]), [])
  {
    hide Partition;
    PartitionWithout(name);
    assert name[0] in name;
  }

  /** A line that starts with a colon is a comment, which is only kept. */
  lemma CommentMeans(p: Pending, rest: string)
    requires Clean(rest)
    ensures Fed(p, ":" + rest) == (p.(chunks := p.chunks + [":" + rest]), [])
  {
    var line := ":" + rest;
    assert line[|line| - 1] == if rest == "" then ':' else rest[|rest| - 1];
  }

  /**
   A blank line completes an event with the data lines joined by newlines, and forgets what was pending; but it does
   nothing when there are no data and no name but an empty one. A CR at the end of a line is not part of it.
   */
  lemma BlankMeans(p: Pending)
    ensures p.data == [] && (p.event == None || p.event == Some("")) ==> Fed(p, "") == (p, [])
    ensures p.data != [] || (p.event.Some? && p.event.value != "") ==>
              Fed(p, "") == (Pending(None, [], []), [ServerSentEvent(p.event, Join(p.data), p.chunks)])
    ensures Join([]) == ""
  {}

  lemma CRMeans(p: Pending, line: string)
    requires Clean(line)
    ensures Fed(p, line + "\r") == Fed(p, line)
  {
    hide WithField, Join;
    assert (line + "\r")[..|line|] == line;
  }

  // ----- writing events -----

  function DataLines(parts: seq<string>): seq<string> {
    if parts == [] then [] else DataLines(parts[..|parts| - 1]) + ["data: " + parts[|parts| - 1]]
  }

  function EventLines(sse: ServerSentEvent): seq<string> {
    (match sse.event case None => [] case Some(name) => ["event: " + name]) + DataLines(SplitLF(sse.data))
  }

  method SerializeSSE(sse: ServerSentEvent) returns (out: string)
    ensures out == Unlines(EventLines(sse) + [""])
  {
    hide Unlines, SplitLF, DataLines;
    NoLines();
    out := "";
    ghost var lines: seq<string> := [];
    match sse.event {
      case Some(name) =>
        out := out + ("event: " + name + "\n");
        lines := ["event: " + name];
        UnlinesSnoc([], "event: " + name);
        assert [] + lines == lines && "" + out == out;
      case None =>
    }
    ghost var head := lines;
    var parts := SplitLF(sse.data);
    DataLinesFrom(parts);
    for i := 0 to |parts|
      invariant lines == head + DataLines(parts[..i])
      invariant out == Unlines(lines)
    {
      DataLinesNext(parts, i);
      Regroup(head, DataLines(parts[..i]), ["data: " + parts[i]]);
      UnlinesSnoc(lines, "data: " + parts[i]);
      lines := lines + ["data: " + parts[i]];
      out := out + ("data: " + parts[i] + "\n");
    }
    assert parts[..|parts|] == parts;
    UnlinesSnoc(lines, "");
    out := out + "\n";
  }

  lemma DataLinesFrom(parts: seq<string>)
    ensures DataLines(parts[..0]) == []
  {
  }

  lemma DataLinesNext(parts: seq<string>, i: nat)
    requires i < |parts|
    ensures DataLines(parts[..i + 1]) == DataLines(parts[..i]) + ["data: " + parts[i]]
  {
    assert parts[..i + 1][..i] == parts[..i];
  }

  lemma Regroup(a: seq<string>, b: seq<string>, c: seq<string>)
    ensures (a + b) + c == a + (b + c)
  {
  }

  // The original lines of an event when it has them, its serialized form otherwise.
  method PassthroughSSE(sse: ServerSentEvent) returns (out: string)
    ensures out == PassedThrough(sse)
  {
    if |sse.raw| > 0 {
      JoinIsUnlines(sse.raw);
      UnlinesSnoc(sse.raw, "");
      out := Join(sse.raw) + "\n\n";
      assert out == Join(sse.raw) + "\n" + "\n";
    } else {
      out := SerializeSSE(sse);
    }
  }

  function Unlines(lines: seq<string>): string {
    if lines == [] then "" else lines[0] + "\n" + Unlines(lines[1..])
  }

  lemma {:induction false} UnlinesConcat(a: seq<string>, b: seq<string>)
    ensures Unlines(a + b) == Unlines(a) + Unlines(b)
    decreases |a|
  {
    if a == [] {
      assert a + b == b;
    } else {
      assert (a + b)[1..] == a[1..] + b;
      UnlinesConcat(a[1..], b);
    }
  }

  lemma UnlinesSnoc(lines: seq<string>, line: string)
    ensures Unlines(lines + [line]) == Unlines(lines) + (line + "\n")
  {
    UnlinesConcat(lines, [line]);
    assert [line][1..] == [];
    assert Unlines([line]) == line + "\n";
  }

  lemma {:induction false} JoinIsUnlines(lines: seq<string>)
    requires lines != []
    ensures Join(lines) + "\n" == Unlines(lines)
  {
    if |lines| > 1 {
      JoinIsUnlines(lines[1..]);
      assert Join(lines) + "\n" == lines[0] + "\n" + (Join(lines[1..]) + "\n");
    } else {
      assert Unlines(lines[1..]) == "";
    }
  }

  // ----- reading back what was written -----

  ghost predicate Clean(line: string) { forall i | 0 <= i < |line| :: !IsNewline(line[i]) }

  ghost predicate AllClean(lines: seq<string>) { forall i | 0 <= i < |lines| :: Clean(lines[i]) }

  lemma LinesOfOne(line: string, tail: string)
    requires Clean(line)
    ensures Lines(line + "\n" + tail) == [line] + Lines(tail)
  {
    var s := line + "\n" + tail;
    FirstNewlineOf(s, 0, |line|);
    assert s[..|line|] == line && s[|line| + 1..] == tail;
  }

  // Clean lines, each ended by an LF, are read back as they are.
  lemma {:induction false} LinesOfUnlines(lines: seq<string>, rest: string)
    requires AllClean(lines)
    ensures Lines(Unlines(lines) + rest) == lines + Lines(rest)
    decreases |lines|
  {
    hide Lines, Clean;
    if lines == [] {
      assert Unlines(lines) + rest == rest;
    } else {
      var tail := Unlines(lines[1..]) + rest;
      assert Unlines(lines) + rest == lines[0] + "\n" + tail;
      LinesOfOne(lines[0], tail);
      LinesOfUnlines(lines[1..], rest);
      assert lines == [lines[0]] + lines[1..];
    }
  }

  lemma {:induction false} LinesAreClean(s: string)
    ensures AllClean(Lines(s))
    decreases |s|
  {
    var at := FirstNewline(s, 0);
    if at != -1 {
      LinesAreClean(s[at + 1..]);
      if at + 1 < |s| { LinesAreClean(s[at + 2..]); }
    }
  }

  lemma {:induction false} FedAllConcat(p: Pending, a: seq<string>, b: seq<string>)
    ensures var (q, first) := FedAll(p, a);
            var (r, second) := FedAll(q, b);
            FedAll(p, a + b) == (r, first + second)
    decreases |b|
  {
    hide Fed;
    if b == [] {
      assert a + b == a;
      var first := FedAll(p, a).1;
      assert first + [] == first;
    } else {
      var n := |b| - 1;
      FedAllConcat(p, a, b[..n]);
      assert (a + b)[..|a| + n] == a + b[..n];
      var (q, first) := FedAll(p, a);
      var (r, second) := FedAll(q, b[..n]);
      var last := Fed(r, b[n]).1;
      assert first + second + last == first + (second + last);
    }
  }

  lemma FedAllOne(p: Pending, line: string)
    ensures FedAll(p, [line]) == Fed(p, line)
  {
    hide Fed;
    assert [line][..0] == [];
    assert FedAll(p, []) == (p, []);
    assert [] + Fed(p, line).1 == Fed(p, line).1;
  }

  lemma FedAllNone(p: Pending)
    ensures FedAll(p, []) == (p, [])
  {
  }

  lemma {:induction false} SplitLFKeeps(s: string)
    ensures Join(SplitLF(s)) == s
    ensures '\r' !in s ==> AllClean(SplitLF(s))
    decreases |s|
  {
    var at := IndexOf(s, '\n');
    if at != -1 {
      SplitLFKeeps(s[at + 1..]);
      assert s == s[..at] + "\n" + s[at + 1..];
      assert SplitLF(s)[1..] == SplitLF(s[at + 1..]);
    }
  }

  lemma PartitionField(name: string, value: string)
    requires ':' !in name
    ensures Partition(name + ": " + value) == (name, " " + value)
  {
    var line := name + ": " + value;
    assert line[..|name|] == name && line[|name| + 1..] == " " + value;
    IndexOfAt(line, ':', |name|);
  }

  lemma {:induction false} IndexOfAt(s: string, c: char, at: nat)
    requires at < |s| && s[at] == c && c !in s[..at]
    ensures IndexOf(s, c) == at
  {
  }

  lemma FedEventField(p: Pending, value: string)
    requires Clean(value)
    ensures Fed(p, "event: " + value) == (Pending(Some(value), p.data, p.chunks + ["event: " + value]), [])
  {
    hide Partition;
    var line := "event: " + value;
    assert line == "event" + ": " + value && line[|line| - 1] == if value == "" then ' ' else value[|value| - 1];
    PartitionField("event", value);
    assert (" " + value)[1..] == value;
  }

  lemma FedDataField(p: Pending, value: string)
    requires Clean(value)
    ensures Fed(p, "data: " + value) == (Pending(p.event, p.data + [value], p.chunks + ["data: " + value]), [])
  {
    hide Partition;
    var line := "data: " + value;
    assert line == "data" + ": " + value && line[|line| - 1] == if value == "" then ' ' else value[|value| - 1];
    PartitionField("data", value);
    assert (" " + value)[1..] == value;
  }

  lemma {:induction false} FedDataLines(p: Pending, parts: seq<string>)
    requires AllClean(parts)
    ensures FedAll(p, DataLines(parts)) == (Pending(p.event, p.data + parts, p.chunks + DataLines(parts)), [])
    decreases |parts|
  {
    hide Fed, FedAll, Clean;
    if parts == [] {
      FedAllNone(p);
      assert DataLines(parts) == [] && p.data + [] == p.data && p.chunks + [] == p.chunks;
      assert FedAll(p, DataLines(parts)) == (p, []);
    } else {
      var n := |parts| - 1;
      var front, line := DataLines(parts[..n]), "data: " + parts[n];
      FedDataLines(p, parts[..n]);
      var q := Pending(p.event, p.data + parts[..n], p.chunks + front);
      FedDataField(q, parts[n]);
      FedAllConcat(p, front, [line]);
      FedAllOne(q, line);
      assert DataLines(parts) == front + [line] && parts[..n] + [parts[n]] == parts;
      assert p.data + parts[..n] + [parts[n]] == p.data + parts;
      assert p.chunks + front + [line] == p.chunks + DataLines(parts);
      var r := Pending(p.event, p.data + parts, p.chunks + DataLines(parts));
      assert FedAll(q, [line]) == (r, []);
      var none: seq<ServerSentEvent> := [];
      assert none + none == none;
      assert FedAll(p, front + [line]) == (r, none + none);
      assert FedAll(p, DataLines(parts)) == (r, []);
    }
  }

  // What serializing can carry: names without newlines, data without CR.
  ghost predicate Writable(sse: ServerSentEvent) {
    && (sse.event.Some? ==> Clean(sse.event.value))
    && '\r' !in sse.data
  }

  lemma FedEvent(sse: ServerSentEvent)
    requires Writable(sse)
    ensures FedAll(NOTHING_PENDING, EventLines(sse) + [""]) == (NOTHING_PENDING, [sse.(raw := EventLines(sse))])
  {
    hide Fed, SplitLF, Join, DataLines, FedAll;
    SplitLFKeeps(sse.data);
    var head := match sse.event case None => [] case Some(name) => ["event: " + name];
    var p := Pending(sse.event, [], head);
    match sse.event {
      case Some(name) =>
        FedEventField(NOTHING_PENDING, name);
        FedAllOne(NOTHING_PENDING, "event: " + name);
        assert [] + head == head;
      case None => FedAllNone(NOTHING_PENDING);
    }
    assert FedAll(NOTHING_PENDING, head) == (p, []);
    var parts := SplitLF(sse.data);
    FedDataLines(p, parts);
    FedAllConcat(NOTHING_PENDING, head, DataLines(parts));
    var q := Pending(sse.event, parts, EventLines(sse));
    assert [] + parts == parts && EventLines(sse) == head + DataLines(parts);
    assert FedAll(NOTHING_PENDING, EventLines(sse)) == (q, [] + []);
    FedAllConcat(NOTHING_PENDING, EventLines(sse), [""]);
    FedAllOne(q, "");
    BlankDispatches(q);
    var sent := [ServerSentEvent(sse.event, sse.data, EventLines(sse))];
    assert Fed(q, "").1 == sent && [] + [] + sent == sent;
  }

  lemma BlankDispatches(q: Pending)
    requires q.data != []
    ensures Fed(q, "") == (NOTHING_PENDING, [ServerSentEvent(q.event, Join(q.data), q.chunks)])
  {
  }

  function SerializedAll(events: seq<ServerSentEvent>): string {
    if events == [] then "" else
      SerializedAll(events[..|events| - 1]) + Unlines(EventLines(events[|events| - 1]) + [""])
  }

  function WithLines(events: seq<ServerSentEvent>): (r: seq<ServerSentEvent>)
    ensures |r| == |events|
    ensures forall i | 0 <= i < |r| :: r[i] == events[i].(raw := EventLines(events[i]))
  {
    seq(|events|, i requires 0 <= i < |events| => events[i].(raw := EventLines(events[i])))
  }

  lemma WritableIsClean(sse: ServerSentEvent)
    requires Writable(sse)
    ensures AllClean(EventLines(sse) + [""])
  {
    SplitLFKeeps(sse.data);
    DataLinesAreClean(SplitLF(sse.data));
  }

  lemma {:induction false} DataLinesAreClean(parts: seq<string>)
    requires AllClean(parts)
    ensures AllClean(DataLines(parts))
  {
    if parts != [] { DataLinesAreClean(parts[..|parts| - 1]); }
  }

  lemma {:induction false} DataLinesUnmarked(parts: seq<string>)
    ensures forall l | l in DataLines(parts) :: !Marked(l)
  {
    if parts != [] { DataLinesUnmarked(parts[..|parts| - 1]); }
  }

  lemma EventLinesUnmarked(sse: ServerSentEvent)
    ensures forall l | l in EventLines(sse) + [""] :: !Marked(l)
  {
    hide SplitLF, DataLines;
    DataLinesUnmarked(SplitLF(sse.data));
  }

  // Reading the serialized events leaves nothing pending, so more text can follow.
  lemma {:induction false} SerializedLines(events: seq<ServerSentEvent>)
    returns (lines: seq<string>)
    requires forall i | 0 <= i < |events| :: Writable(events[i])
    ensures AllClean(lines) && (forall l | l in lines :: !Marked(l)) && SerializedAll(events) == Unlines(lines)
    ensures FedAll(NOTHING_PENDING, lines) == (NOTHING_PENDING, WithLines(events))
  {
    hide Fed, EventLines, Writable, Clean, Marked, Unlines, FedAll;
    NoLines();
    FedAllNone(NOTHING_PENDING);
    lines := [];
    if events != [] {
      var n := |events| - 1;
      var front := SerializedLines(events[..n]);
      var last := EventLines(events[n]) + [""];
      lines := front + last;
      WritableIsClean(events[n]);
      EventLinesUnmarked(events[n]);
      UnlinesConcat(front, last);
      FedEvent(events[n]);
      FedAllConcat(NOTHING_PENDING, front, last);
      assert WithLines(events) == WithLines(events[..n]) + [events[n].(raw := EventLines(events[n]))];
    }
  }

  /** Serialized events are read back in order, with the same names and data. */
  lemma SerializeRoundTrip(events: seq<ServerSentEvent>)
    requires forall i | 0 <= i < |events| :: Writable(events[i])
    ensures Events(SerializedAll(events)) == WithLines(events)
  {
    hide Fed, EventLines, Writable, FedAll, Unlines;
    var lines := SerializedLines(events);
    ReadBack(lines);
    assert Decoded(lines) == lines;
  }

  /** However the bytes of the serialized events are cut into chunks, the events are read back in order. */
  method ReadSerialized(
      events: seq<ServerSentEvent>, chunks: seq<string>, ghost bytes: char -> string, decode: string -> string)
    returns (read: seq<ServerSentEvent>)
    requires forall i | 0 <= i < |events| :: Writable(events[i])
    requires Utf8(bytes, decode) && Joined(chunks) == Encoded(bytes, SerializedAll(events))
    ensures |read| == |events|
    ensures forall i | 0 <= i < |read| :: read[i].event == events[i].event && read[i].data == events[i].data
    ensures read == WithLines(events)
  {
    hide Utf8, Encoded, Events, EventsBy, Writable, EventLines;
    SerializeRoundTrip(events);
    EventsOfEncoded(bytes, decode, SerializedAll(events));
    read := IterMessages(chunks, decode);
  }

  // ----- passing events through -----

  // The pending fields are those that the pending lines set.
  ghost predicate Traced(p: Pending) {
    AllClean(p.chunks) && FedAll(NOTHING_PENDING, p.chunks) == (p, [])
  }

  // An event that its own lines, and a blank line, bring about again.
  ghost predicate Replayable(sse: ServerSentEvent) {
    sse.raw != [] && AllClean(sse.raw) && FedAll(NOTHING_PENDING, sse.raw + [""]) == (NOTHING_PENDING, [sse])
  }

  lemma FedTraced(p: Pending, line: string)
    requires Traced(p) && Clean(line)
    ensures Traced(Fed(p, line).0)
    ensures forall e | e in Fed(p, line).1 :: Replayable(e)
  {
    hide Join, WithField;
    if line == "" {
      FedAllConcat(NOTHING_PENDING, p.chunks, [""]);
      FedAllOne(p, "");
      assert FedAll(NOTHING_PENDING, []) == (NOTHING_PENDING, []);
    } else {
      assert line[|line| - 1] != '\r';
      FedAllConcat(NOTHING_PENDING, p.chunks, [line]);
      FedAllOne(p, line);
      FedChunks(p, line);
    }
  }

  lemma FedChunks(p: Pending, line: string)
    requires line != "" && line[|line| - 1] != '\r'
    ensures Fed(p, line).0.chunks == p.chunks + [line] && Fed(p, line).1 == []
  {
    hide Partition;
  }

  lemma {:induction false} AllReplayable(lines: seq<string>)
    requires AllClean(lines)
    ensures Traced(FedAll(NOTHING_PENDING, lines).0)
    ensures forall e | e in FedAll(NOTHING_PENDING, lines).1 :: Replayable(e)
    decreases |lines|
  {
    hide Fed, Replayable, Traced;
    if lines == [] {
      assert Traced(NOTHING_PENDING) by { TracedNothing(); }
    } else {
      var n := |lines| - 1;
      AllReplayable(lines[..n]);
      FedTraced(FedAll(NOTHING_PENDING, lines[..n]).0, lines[n]);
    }
  }

  lemma TracedNothing()
    ensures Traced(NOTHING_PENDING)
  {
  }

  function PassedThrough(sse: ServerSentEvent): string {
    Unlines((if sse.raw != [] then sse.raw else EventLines(sse)) + [""])
  }

  function PassedAll(events: seq<ServerSentEvent>): string {
    if events == [] then "" else PassedAll(events[..|events| - 1]) + PassedThrough(events[|events| - 1])
  }

  // The lines of the events, with the blank line that ends each.
  function RawLines(events: seq<ServerSentEvent>): seq<string> {
    if events == [] then [] else
      var n := |events| - 1;
      RawLines(events[..n]) + (events[n].raw + [""])
  }

  lemma {:induction false} PassedLines(events: seq<ServerSentEvent>)
    requires forall e | e in events :: Replayable(e)
    ensures AllClean(RawLines(events)) && PassedAll(events) == Unlines(RawLines(events))
    ensures FedAll(NOTHING_PENDING, RawLines(events)) == (NOTHING_PENDING, events)
  {
    hide Fed, FedAll, EventLines, AllClean, Unlines;
    if events != [] {
      var n := |events| - 1;
      var front, last := RawLines(events[..n]), events[n].raw + [""];
      PassedLines(events[..n]);
      assert Replayable(events[n]);
      CleanEnded(front, events[n].raw);
      UnlinesConcat(front, last);
      FedAllConcat(NOTHING_PENDING, front, last);
      assert events[..n] + [events[n]] == events;
    } else {
      NoLines();
      FedAllNone(NOTHING_PENDING);
      assert AllClean([]) by { NoneUnclean(); }
    }
  }

  lemma NoLines()
    ensures Unlines([]) == ""
  {}

  lemma CleanEnded(front: seq<string>, raw: seq<string>)
    requires AllClean(front) && AllClean(raw)
    ensures AllClean(raw + [""]) && AllClean(front + (raw + [""]))
  {
    hide Clean;
    assert Clean("") by { BlankIsClean(); }
  }

  lemma NoneUnclean()
    ensures AllClean([])
  {
  }

  lemma BlankIsClean()
    ensures Clean("")
  {
  }

  // ----- how many characters the lines of events have -----

  function Total(lines: seq<string>): nat {
    if lines == [] then 0 else Total(lines[..|lines| - 1]) + |lines[|lines| - 1]|
  }

  function RawTotal(events: seq<ServerSentEvent>): nat {
    if events == [] then 0 else RawTotal(events[..|events| - 1]) + Total(events[|events| - 1].raw)
  }

  lemma {:induction false} TotalConcat(a: seq<string>, b: seq<string>)
    ensures Total(a + b) == Total(a) + Total(b)
    decreases |b|
  {
    if b == [] {
      assert a + b == a;
    } else {
      TotalConcat(a, b[..|b| - 1]);
      assert (a + b)[..|a| + |b| - 1] == a + b[..|b| - 1];
    }
  }

  lemma {:induction false} RawLinesTotal(events: seq<ServerSentEvent>)
    ensures Total(RawLines(events)) == RawTotal(events)
  {
    if events != [] {
      var n := |events| - 1;
      RawLinesTotal(events[..n]);
      TotalConcat(RawLines(events[..n]), events[n].raw + [""]);
      TotalConcat(events[n].raw, [""]);
      assert [""][..0] == [];
    }
  }

  // The events' lines come from the lines that were fed.
  lemma {:induction false} FedTotal(lines: seq<string>)
    ensures var (p, events) := FedAll(NOTHING_PENDING, lines);
            RawTotal(events) + Total(p.chunks) <= Total(lines)
    decreases |lines|
  {
    hide Fed;
    if lines != [] {
      var n := |lines| - 1;
      FedTotal(lines[..n]);
      var (p, events) := FedAll(NOTHING_PENDING, lines[..n]);
      var (q, more) := Fed(p, lines[n]);
      FedOneTotal(p, lines[n]);
      if more != [] {
        assert (events + more)[..|events|] == events;
      } else {
        assert events + more == events;
      }
    }
  }

  lemma FedOneTotal(p: Pending, line: string)
    ensures var (q, more) := Fed(p, line);
            && |more| <= 1
            && (if more == [] then 0 else Total(more[0].raw)) + Total(q.chunks) <= Total(p.chunks) + |line|
  {
    hide Join, WithField;
    var short := if line != "" && line[|line| - 1] == '\r' then line[..|line| - 1] else line;
    TotalConcat(p.chunks, [short]);
    assert [short][..0] == [];
    FieldKeepsChunks(p.(chunks := p.chunks + [short]), short);
  }

  lemma FieldKeepsChunks(p: Pending, line: string)
    ensures WithField(p, line).chunks == p.chunks
  {
    hide Partition;
  }

  lemma {:induction false} DecodedTotal(lines: seq<string>)
    ensures Total(Decoded(lines)) <= Total(lines)
    ensures Total(Decoded(lines)) == Total(lines) <==> forall l | l in lines :: !Marked(l)
  {
    hide Marked, DecodedLine, Decoded, Total;
    if lines == [] {
      assert |Decoded(lines)| == 0;
    } else {
      var n := |lines| - 1;
      var front, last := lines[..n], lines[n];
      DecodedTotal(front);
      assert lines == front + [last] && Decoded(lines) == Decoded(front) + [DecodedLine(last)];
      TotalSnoc(front, last);
      TotalSnoc(Decoded(front), DecodedLine(last));
      DecodedLength(last);
    }
  }

  lemma TotalSnoc(lines: seq<string>, line: string)
    ensures Total(lines + [line]) == Total(lines) + |line|
  {
    assert (lines + [line])[..|lines|] == lines;
  }

  lemma DecodedLength(line: string)
    ensures |DecodedLine(line)| <= |line| && (|DecodedLine(line)| == |line| <==> !Marked(line))
  {
  }

  lemma {:induction false} RawLinesMarked(events: seq<ServerSentEvent>)
    ensures (forall l | l in RawLines(events) :: !Marked(l)) <==> Unmarked(events)
  {
    if events != [] {
      var n := |events| - 1;
      RawLinesMarked(events[..n]);
      assert events == events[..n] + [events[n]];
    }
  }

  // No line of the events still starts with a byte order mark, which it does when it came with two.
  predicate Unmarked(events: seq<ServerSentEvent>) {
    forall e | e in events :: forall l | l in e.raw :: !Marked(l)
  }

  /**
   Passing the events of any text through gives a text with the same events exactly when none of their lines still
   starts with a byte order mark: names, data and raw lines, with the comment lines that earlier blank lines left
   behind.
   */
  lemma PassthroughKeepsEvents(text: string)
    ensures Events(PassedAll(Events(text))) == Events(text) <==> Unmarked(Events(text))
  {
    hide Fed, EventLines, FedAll, Unlines, Replayable, Lines, RawLines, Unmarked, Marked, RawTotal, Total;
    var events := Events(text);
    TextReplayable(text);
    PassedLines(events);
    var lines := RawLines(events);
    ReadBack(lines);
    RawLinesMarked(events);
    DecodedTotal(lines);
    if Unmarked(events) {
      assert Decoded(lines) == lines;
    } else {
      FedTotal(Decoded(lines));
      RawLinesTotal(events);
    }
  }

  lemma TextReplayable(text: string)
    ensures forall e | e in Events(text) :: Replayable(e)
  {
    hide Fed, FedAll, Replayable, Lines;
    LinesAreClean(text);
    DecodedIsClean(Lines(text));
    AllReplayable(Decoded(Lines(text)));
  }

  lemma DecodedIsClean(lines: seq<string>)
    requires AllClean(lines)
    ensures AllClean(Decoded(lines))
  {
    forall i | 0 <= i < |lines| ensures Clean(Decoded(lines)[i]) { assert Clean(lines[i]); }
  }

  /** The same for a single event. */
  lemma PassthroughKeepsEvent(text: string, e: ServerSentEvent)
    requires e in Events(text)
    ensures Events(PassedThrough(e)) == [e] <==> Unmarked([e])
  {
    hide Fed, EventLines, FedAll, Unlines, Replayable, Lines, RawLines, Unmarked, Marked, RawTotal, Total, Events;
    TextReplayable(text);
    OneEvent(e);
    PassedLines([e]);
    ReadBack(RawLines([e]));
    RawLinesMarked([e]);
    DecodedTotal(RawLines([e]));
    FedEvents(PassedThrough(e), RawLines([e]));
    if Unmarked([e]) {
      assert Decoded(RawLines([e])) == RawLines([e]);
    } else {
      FedTotal(Decoded(RawLines([e])));
      RawLinesTotal([e]);
    }
  }

  lemma FedEvents(text: string, lines: seq<string>)
    requires Lines(text) == lines
    ensures Events(text) == FedAll(NOTHING_PENDING, Decoded(lines)).1
  {}

  lemma OneEvent(e: ServerSentEvent)
    requires Replayable(e)
    ensures PassedAll([e]) == PassedThrough(e)
  {
    hide Unlines, EventLines;
    assert [e][..0] == [];
    assert "" + PassedThrough(e) == PassedThrough(e);
  }

  lemma ReadBack(lines: seq<string>)
    requires AllClean(lines)
    ensures Lines(Unlines(lines)) == lines
  {
    LinesOfUnlines(lines, "");
    assert Unlines(lines) + "" == Unlines(lines) && lines + Lines("") == lines;
  }
}
