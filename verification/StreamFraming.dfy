/**
 Newline-delimited JSON read in chunks (web/src/api/interview.ts).

 The decoded text arrives as a sequence of chunks and a final flush.  What JSON.parse
 makes of a line is a parameter; what the reader does with the value is modelled.
 */
module StreamFraming {
  import opened Prelude

  /** A frame's error field, when truthy, with the message it carries, if any. */
  datatype ErrorField = NoError | ErrorFrame(message: Option<string>)

  /** A parsed value; result is absent when null or undefined, and truthy says what `if` makes of a value. */
  datatype Json =
    | Null
    | Value(truthy: bool, text: string, error: ErrorField, result: Option<Event>)

  datatype Event = Event(truthy: bool, text: string)

  datatype Line = Skip | Yield(event: Event) | Throw(message: string)

  const DEFAULT_MESSAGE := "the interview stream reported an error"
  const TYPE_ERROR := "TypeError"

  predicate IsJsSpace(c: char) {
    var u := c as int;
    || 0x09 <= u <= 0x0D || u == 0x20 || u == 0xA0 || u == 0x1680 || 0x2000 <= u <= 0x200A
    || u == 0x2028 || u == 0x2029 || u == 0x202F || u == 0x205F || u == 0x3000 || u == 0xFEFF
  }

  function Trim(s: string): string {
    if s != "" && IsJsSpace(s[0]) then Trim(s[1..])
    else if s != "" && IsJsSpace(s[|s| - 1]) then Trim(s[..|s| - 1])
    else s
  }

  /** Blank and malformed lines are skipped; an error frame throws, and so does a JSON null. */
  function ParseEventLine(parse: string -> Option<Json>, line: string): Line {
    var trimmed := Trim(line);
    if trimmed == "" then Skip
    else match parse(trimmed)
      case None => Skip
      case Some(Null) => Throw(TYPE_ERROR)
      case Some(Value(truthy, text, error, result)) =>
        if error.ErrorFrame? then
          Throw(if error.message.Some? then error.message.value else DEFAULT_MESSAGE)
        else
          var event := if result.Some? then result.value else Event(truthy, text);
          if event.truthy then Yield(event) else Skip
  }

  /** What a consumer of the stream sees: events, and perhaps an exception that ends it. */
  datatype Outcome = Outcome(events: seq<Event>, thrown: Option<string>)

  // --------------------------------------------------------- the one-shot parse

  /** The pieces between newlines; there is always one more of them than there are newlines. */
  function Split(text: string): (lines: seq<string>)
    ensures |lines| >= 1
  {
    if text == "" then [""]
    else
      var rest := Split(text[1..]);
      if text[0] == '\n' then [""] + rest else [[text[0]] + rest[0]] + rest[1..]
  }

  function Join(lines: seq<string>): string
    requires |lines| >= 1
  {
    if |lines| == 1 then lines[0] else lines[0] + "\n" + Join(lines[1..])
  }

  lemma Associate(a: string, b: string, c: string)
    ensures a + b + c == a + (b + c)
  {
  }

  lemma JoinOfMore(head: string, rest: seq<string>)
    requires |rest| >= 1
    ensures Join([head] + rest) == head + ("\n" + Join(rest))
  {
    assert ([head] + rest)[1..] == rest;
    Associate(head, "\n", Join(rest));
  }

  lemma JoinAfterNewline(lines: seq<string>)
    requires |lines| >= 1
    ensures Join([""] + lines) == "\n" + Join(lines)
  {
    JoinOfMore("", lines);
    hide Join;
    assert "" + ("\n" + Join(lines)) == "\n" + Join(lines);
  }

  lemma Reassociate(c: char, head: string, tail: string)
    ensures ([c] + head) + tail == [c] + (head + tail)
  {
  }

  lemma JoinAfterChar(c: char, lines: seq<string>)
    requires |lines| >= 1
    ensures Join([[c] + lines[0]] + lines[1..]) == [c] + Join(lines)
  {
    var rest := lines[1..];
    assert lines == [lines[0]] + rest;
    if rest == [] {
    } else {
      hide *;
      JoinOfMore(lines[0], rest);
      JoinOfMore([c] + lines[0], rest);
      Reassociate(c, lines[0], "\n" + Join(rest));
    }
  }

  ghost predicate WithoutNewlines(lines: seq<string>) {
    forall i :: 0 <= i < |lines| ==> '\n' !in lines[i]
  }

  lemma {:induction false} SplitRejoins(text: string)
    ensures Join(Split(text)) == text
  {
    if text == "" {
    } else {
      SplitRejoins(text[1..]);
      JoinAfterNewline(Split(text[1..]));
      JoinAfterChar(text[0], Split(text[1..]));
      hide Join;
    }
  }

  lemma {:induction false} SplitHasNoNewlines(text: string)
    ensures WithoutNewlines(Split(text))
  {
    if text == "" {
    } else {
      SplitHasNoNewlines(text[1..]);
    }
  }

  /** Splitting loses nothing and no piece contains a newline. */
  lemma SplitIsExact(text: string)
    ensures Join(Split(text)) == text
    ensures forall i :: 0 <= i < |Split(text)| ==> '\n' !in Split(text)[i]
  {
    SplitRejoins(text);
    SplitHasNoNewlines(text);
    hide Split, Join;
  }

  /** The events of the lines in order, up to the first that throws. */
  function ParseLines(parse: string -> Option<Json>, lines: seq<string>): Outcome {
    if lines == [] then Outcome([], None)
    else match ParseEventLine(parse, lines[0])
      case Throw(message) => Outcome([], Some(message))
      case Skip => ParseLines(parse, lines[1..])
      case Yield(event) =>
        var rest := ParseLines(parse, lines[1..]);
        rest.(events := [event] + rest.events)
  }

  function ParseText(parse: string -> Option<Json>, text: string): Outcome {
    ParseLines(parse, Split(text))
  }

  function Concat(chunks: seq<string>): string {
    if chunks == [] then "" else chunks[0] + Concat(chunks[1..])
  }

  // ----------------------------------------------------------------- the reader

  function IndexOf(s: string, c: char): (i: int)
    ensures i == -1 <==> c !in s
    ensures i != -1 ==> 0 <= i < |s| && s[i] == c && c !in s[..i]
  {
    if s == "" then -1
    else if s[0] == c then 0
    else
      var i := IndexOf(s[1..], c);
      if i == -1 then -1
      else
        assert s[..i + 1] == [s[0]] + s[1..][..i];
        i + 1
  }

  /** What remains to be seen, given the buffer and everything still to arrive. */
  function Remaining(parse: string -> Option<Json>, seen: seq<Event>, text: string): Outcome {
    var rest := ParseText(parse, text);
    rest.(events := seen + rest.events)
  }

  lemma {:induction false} SplitAtNewline(line: string, rest: string)
    requires '\n' !in line
    ensures Split(line + "\n" + rest) == [line] + Split(rest)
  {
    if line == "" {
      assert line + "\n" + rest == "\n" + rest;
    } else {
      SplitAtNewline(line[1..], rest);
      assert (line + "\n" + rest)[1..] == line[1..] + "\n" + rest;
      assert [line[0]] + line[1..] == line;
    }
  }

  lemma {:induction false} SplitLast(line: string)
    requires '\n' !in line
    ensures Split(line) == [line]
  {
    if line == "" {
    } else {
      SplitLast(line[1..]);
      assert [line[0]] + line[1..] == line;
    }
  }

  /** What is left to be seen after the reader deals with one line. */
  function AfterLine(parse: string -> Option<Json>, seen: seq<Event>, line: string, rest: string): Outcome {
    match ParseEventLine(parse, line)
    case Throw(message) => Outcome(seen, Some(message))
    case Skip => Remaining(parse, seen, rest)
    case Yield(event) => Remaining(parse, seen + [event], rest)
  }

  lemma OneLine(parse: string -> Option<Json>, seen: seq<Event>, line: string, rest: string)
    requires '\n' !in line
    ensures Remaining(parse, seen, line + "\n" + rest) == AfterLine(parse, seen, line, rest)
  {
    SplitAtNewline(line, rest);
    assert ([line] + Split(rest))[1..] == Split(rest);
    var tail := ParseText(parse, rest);
    assert forall event :: seen + ([event] + tail.events) == (seen + [event]) + tail.events;
  }

  /** The same, for the first complete line of the buffer with more text ahead. */
  lemma BufferedLine(parse: string -> Option<Json>, seen: seq<Event>, buffer: string, i: nat, ahead: string)
    requires i < |buffer| && buffer[i] == '\n' && '\n' !in buffer[..i]
    ensures Remaining(parse, seen, buffer + ahead) == AfterLine(parse, seen, buffer[..i], buffer[i + 1..] + ahead)
  {
    OneLine(parse, seen, buffer[..i], buffer[i + 1..] + ahead);
    assert buffer + ahead == buffer[..i] + "\n" + (buffer[i + 1..] + ahead);
  }

  lemma LastLine(parse: string -> Option<Json>, seen: seq<Event>, line: string)
    requires '\n' !in line
    ensures Remaining(parse, seen, line) ==
            match ParseEventLine(parse, line)
            case Throw(message) => Outcome(seen, Some(message))
            case Skip => Outcome(seen, None)
            case Yield(event) => Outcome(seen + [event], None)
  {
    SplitLast(line);
    assert ParseLines(parse, [line][1..]) == Outcome([], None);
    assert seen + [] == seen;
  }

  // ------------------------------------------------------------ what lines yield

  /** Such white space as ends lines and parts words, and no other printing character below 0x80. */
  lemma SpacesAre(c: char)
    ensures c as int < 0x80 ==> (IsJsSpace(c) <==> c == ' ' || 9 <= c as int <= 13)
  {
  }

  predicate Blank(s: string) { forall i :: 0 <= i < |s| ==> IsJsSpace(s[i]) }

  /** From position i on the line holds the body, with nothing but white space around it. */
  ghost predicate HoldsAt(line: string, i: nat, body: string) {
    && i + |body| <= |line| && line[i..i + |body|] == body
    && Blank(line[..i]) && Blank(line[i + |body|..])
    && body != "" && !IsJsSpace(body[0]) && !IsJsSpace(body[|body| - 1])
  }

  lemma WithoutFirst(s: string, from: nat, to: nat)
    requires 1 <= from <= to <= |s|
    ensures s[1..][from - 1..to - 1] == s[from..to]
  {
  }

  lemma HoldsWithoutFirst(line: string, i: nat, body: string)
    requires HoldsAt(line, i, body) && i > 0
    ensures IsJsSpace(line[0]) && HoldsAt(line[1..], i - 1, body)
  {
    hide IsJsSpace;
    assert line[..i][0] == line[0];
    WithoutFirst(line, 1, i);
    WithoutFirst(line, i, i + |body|);
    WithoutFirst(line, i + |body|, |line|);
  }

  lemma HoldsWithoutLast(line: string, body: string)
    requires HoldsAt(line, 0, body) && |body| < |line|
    ensures IsJsSpace(line[|line| - 1]) && HoldsAt(line[..|line| - 1], 0, body)
  {
    hide IsJsSpace;
    var n := |line| - 1;
    assert line[|body|..][n - |body|] == line[n];
    assert line[0..|body|] == line[..n][0..|body|];
    assert line[..n][|body|..] == line[|body|..][..n - |body|];
  }

  lemma HoldsFirst(line: string, body: string)
    requires HoldsAt(line, 0, body)
    ensures line != "" && |body| <= |line| && !IsJsSpace(line[0])
    ensures |body| == |line| ==> line == body && !IsJsSpace(line[|line| - 1])
  {
    hide IsJsSpace;
    assert line[0..|body|][0] == line[0];
  }

  lemma {:induction false} TrimGivesBody(line: string, i: nat, body: string)
    requires HoldsAt(line, i, body)
    ensures Trim(line) == body
    decreases |line|
  {
    if i > 0 {
      HoldsWithoutFirst(line, i, body);
      TrimGivesBody(line[1..], i - 1, body);
    } else {
      HoldsFirst(line, body);
      if |body| < |line| {
        HoldsWithoutLast(line, body);
        TrimGivesBody(line[..|line| - 1], 0, body);
      }
    }
    hide HoldsAt, IsJsSpace;
  }

  lemma {:induction false} TrimOfBlank(line: string)
    requires Blank(line)
    ensures Trim(line) == ""
  {
    if line == "" {
    } else {
      TrimOfBlank(line[1..]);
    }
  }

  /** A blank line and one that is not JSON give nothing. */
  lemma SkippedLines(parse: string -> Option<Json>, line: string)
    ensures Blank(line) ==> ParseEventLine(parse, line) == Skip
    ensures forall i: nat, body | HoldsAt(line, i, body) && parse(body).None? :: ParseEventLine(parse, line) == Skip
  {
    if Blank(line) {
      TrimOfBlank(line);
    }
    forall i: nat, body | HoldsAt(line, i, body) && parse(body).None? ensures ParseEventLine(parse, line) == Skip {
      TrimGivesBody(line, i, body);
    }
  }

  /** A value without an error gives its result, or itself when it has none; what is falsy is passed over. */
  lemma GoodLine(parse: string -> Option<Json>, line: string, i: nat, body: string)
    requires HoldsAt(line, i, body) && parse(body).Some? && parse(body).value.Value? && parse(body).value.error.NoError?
    ensures var v := parse(body).value;
            ParseEventLine(parse, line) ==
              match v.result
              case Some(e) => (if e.truthy then Yield(e) else Skip)
              case None => (if v.truthy then Yield(Event(true, v.text)) else Skip)
  {
    TrimGivesBody(line, i, body);
  }

  lemma ErrorLine(parse: string -> Option<Json>, line: string, i: nat, body: string)
    requires HoldsAt(line, i, body) && parse(body).Some?
    ensures parse(body).value.Null? ==> ParseEventLine(parse, line) == Throw("TypeError")
    ensures parse(body).value.Value? && parse(body).value.error.ErrorFrame? ==>
              ParseEventLine(parse, line) ==
                match parse(body).value.error.message
                case Some(m) => Throw(m)
                case None => Throw("the interview stream reported an error")
  {
    TrimGivesBody(line, i, body);
  }

  /** The server's frame of an event: a line with a JSON value whose result is the event. */
  ghost predicate Frame(parse: string -> Option<Json>, frame: string, e: Event) {
    && frame != "" && frame[|frame| - 1] == '\n' && '\n' !in frame[..|frame| - 1] && e.truthy
    && Carries(parse, frame[..|frame| - 1], e)
  }

  ghost predicate Carries(parse: string -> Option<Json>, line: string, e: Event) {
    exists i: nat, body :: HoldsAt(line, i, body) && IsResult(parse, body, e)
  }

  ghost predicate IsResult(parse: string -> Option<Json>, body: string, e: Event) {
    parse(body).Some? && parse(body).value.Value? && parse(body).value.error.NoError?
    && parse(body).value.result == Some(e)
  }

  ghost predicate Framed(parse: string -> Option<Json>, frames: seq<string>, events: seq<Event>) {
    |frames| == |events| && forall i :: 0 <= i < |frames| ==> Frame(parse, frames[i], events[i])
  }

  lemma FrameLine(parse: string -> Option<Json>, frame: string, e: Event)
    requires Frame(parse, frame, e)
    ensures ParseEventLine(parse, frame[..|frame| - 1]) == Yield(e)
    ensures '\n' !in frame[..|frame| - 1] && frame[..|frame| - 1] + "\n" == frame
  {
    var line := frame[..|frame| - 1];
    var i: nat, body :| HoldsAt(line, i, body) && IsResult(parse, body, e);
    GoodLine(parse, line, i, body);
    hide HoldsAt, ParseEventLine;
  }

  lemma OneFrame(parse: string -> Option<Json>, seen: seq<Event>, frame: string, e: Event, rest: string)
    requires Frame(parse, frame, e)
    ensures Remaining(parse, seen, frame + rest) == Remaining(parse, seen + [e], rest)
  {
    FrameLine(parse, frame, e);
    OneLine(parse, seen, frame[..|frame| - 1], rest);
    hide Frame, ParseEventLine, Remaining;
  }

  lemma NothingLeft(parse: string -> Option<Json>, seen: seq<Event>)
    ensures Remaining(parse, seen, "") == Outcome(seen, None)
  {
    SkippedLines(parse, "");
    LastLine(parse, seen, "");
    hide ParseEventLine, Remaining;
  }

  lemma {:induction false} FramesFrom(
      parse: string -> Option<Json>, seen: seq<Event>, frames: seq<string>, events: seq<Event>)
    requires Framed(parse, frames, events)
    ensures Remaining(parse, seen, Concat(frames)) == Outcome(seen + events, None)
    decreases frames
  {
    hide Frame, Remaining;
    if frames == [] {
      NothingLeft(parse, seen);
      assert seen + events == seen;
    } else {
      OneFrame(parse, seen, frames[0], events[0], Concat(frames[1..]));
      FramesFrom(parse, seen + [events[0]], frames[1..], events[1..]);
      assert seen + events == (seen + [events[0]]) + events[1..];
    }
  }

  /** Frames give exactly their events, in order. */
  lemma FramesYield(parse: string -> Option<Json>, frames: seq<string>, events: seq<Event>)
    requires Framed(parse, frames, events)
    ensures ParseText(parse, Concat(frames)) == Outcome(events, None)
  {
    FramesFrom(parse, [], frames, events);
    hide Framed, ParseText, Concat;
    var all := ParseText(parse, Concat(frames));
    assert [] + all.events == all.events && [] + events == events;
  }

  lemma NextChunk(chunks: seq<string>, i: nat, buffer: string, flush: string)
    requires i < |chunks|
    ensures buffer + (Concat(chunks[i..]) + flush) == (buffer + chunks[i]) + (Concat(chunks[i + 1..]) + flush)
  {
    assert chunks[i..][1..] == chunks[i + 1..];
  }

  /**
   However the text is cut into chunks, the reader yields and throws as the one-shot parse
   does.  flush is what the decoder still held at the end of the stream: never a newline.
   A text that is a sequence of frames gives exactly their events.
   */
  method StreamInterview(parse: string -> Option<Json>, chunks: seq<string>, flush: string) returns (out: Outcome)
    requires '\n' !in flush
    ensures out == ParseText(parse, Concat(chunks) + flush)
    ensures forall frames, events | Framed(parse, frames, events) && Concat(chunks) + flush == Concat(frames) ::
              out == Outcome(events, None)
  {
    forall frames, events | Framed(parse, frames, events) && Concat(chunks) + flush == Concat(frames)
      ensures ParseText(parse, Concat(chunks) + flush) == Outcome(events, None)
    {
      FramesYield(parse, frames, events);
    }
    hide Framed;
    ghost var whole := ParseText(parse, Concat(chunks) + flush);
    var events: seq<Event> := [];
    var buffer := "";
    ghost var ahead := Concat(chunks) + flush;
    assert chunks[0..] == chunks && buffer + ahead == ahead && [] + whole.events == whole.events;
    for i := 0 to |chunks|
      invariant '\n' !in buffer
      invariant ahead == Concat(chunks[i..]) + flush
      invariant Remaining(parse, events, buffer + ahead) == whole
    {
      NextChunk(chunks, i, buffer, flush);
      ahead := Concat(chunks[i + 1..]) + flush;
      buffer := buffer + chunks[i];
      var newline := IndexOf(buffer, '\n');
      while newline >= 0
        invariant newline == IndexOf(buffer, '\n')
        invariant Remaining(parse, events, buffer + ahead) == whole
        decreases |buffer|
      {
        BufferedLine(parse, events, buffer, newline, ahead);
        var line := ParseEventLine(parse, buffer[..newline]);
        buffer := buffer[newline + 1..];
        newline := IndexOf(buffer, '\n');
        match line {
          case Throw(message) => return Outcome(events, Some(message));
          case Yield(event) => events := events + [event];
          case Skip =>
        }
      }
    }
    assert Concat(chunks[|chunks|..]) + flush == flush;
    buffer := buffer + flush;
    LastLine(parse, events, buffer);
    var tail := ParseEventLine(parse, buffer);
    match tail {
      case Throw(message) => return Outcome(events, Some(message));
      case Yield(event) => events := events + [event];
      case Skip =>
    }
    return Outcome(events, None);
  }

  /** A line that holds, between white space, a JSON null or a value with a truthy error field. */
  predicate BadLine(parse: string -> Option<Json>, line: string) {
    Trim(line) != "" && match parse(Trim(line))
      case None => false
      case Some(Null) => true
      case Some(Value(_, _, error, _)) => error.ErrorFrame?
  }

  /** What is thrown over a bad line: the error's own message, if it carries one. */
  function Complaint(parse: string -> Option<Json>, line: string): string
    requires BadLine(parse, line)
  {
    match parse(Trim(line)).value
    case Null => TYPE_ERROR
    case Value(_, _, error, _) => if error.message.Some? then error.message.value else DEFAULT_MESSAGE
  }

  lemma ThrowsIffBad(parse: string -> Option<Json>, line: string)
    ensures ParseEventLine(parse, line).Throw? <==> BadLine(parse, line)
    ensures BadLine(parse, line) ==> ParseEventLine(parse, line) == Throw(Complaint(parse, line))
  {
  }

  /** The events of lines of which none is bad. */
  function EventsOf(parse: string -> Option<Json>, lines: seq<string>): seq<Event> {
    if lines == [] then []
    else
      var line := ParseEventLine(parse, lines[0]);
      (if line.Yield? then [line.event] else []) + EventsOf(parse, lines[1..])
  }

  lemma {:induction false} StopsAtFirstBadLine(parse: string -> Option<Json>, lines: seq<string>, i: nat)
    requires i <= |lines| && forall j :: 0 <= j < i ==> !BadLine(parse, lines[j])
    ensures i == |lines| ==> ParseLines(parse, lines) == Outcome(EventsOf(parse, lines), None)
    ensures i < |lines| && BadLine(parse, lines[i]) ==>
              ParseLines(parse, lines) == Outcome(EventsOf(parse, lines[..i]), Some(Complaint(parse, lines[i])))
  {
    hide BadLine, ParseEventLine, Complaint;
    if lines == [] {
    } else {
      ThrowsIffBad(parse, lines[0]);
      if i > 0 {
        StopsAtFirstBadLine(parse, lines[1..], i - 1);
        assert lines[..i][1..] == lines[1..][..i - 1];
      }
    }
  }

  /** The first bad line, if there is one, else the number of lines. */
  lemma {:induction false} FirstBadLine(parse: string -> Option<Json>, lines: seq<string>) returns (i: nat)
    ensures i <= |lines| && (i < |lines| ==> BadLine(parse, lines[i]))
    ensures forall j :: 0 <= j < i ==> !BadLine(parse, lines[j])
  {
    if lines == [] || BadLine(parse, lines[0]) {
      i := 0;
    } else {
      var k := FirstBadLine(parse, lines[1..]);
      i := k + 1;
      assert forall j :: 0 < j < i ==> lines[j] == lines[1..][j - 1];
    }
  }

  /**
   The stream throws if and only if some line holds a JSON null or an error frame.  Then it
   yields the events before the first such line, throws what that line says, and nothing
   after that line matters; otherwise it yields the events of every line.
   */
  lemma ThrowsAtFirstBadLine(parse: string -> Option<Json>, lines: seq<string>)
    ensures ParseLines(parse, lines).thrown.Some? <==> exists i :: 0 <= i < |lines| && BadLine(parse, lines[i])
    ensures (forall i :: 0 <= i < |lines| ==> !BadLine(parse, lines[i])) ==>
              ParseLines(parse, lines).events == EventsOf(parse, lines)
    ensures forall i | 0 <= i < |lines| && BadLine(parse, lines[i]) ::
              (forall j :: 0 <= j < i ==> !BadLine(parse, lines[j])) ==>
                ParseLines(parse, lines) == Outcome(EventsOf(parse, lines[..i]), Some(Complaint(parse, lines[i])))
  {
    hide BadLine, ParseLines, EventsOf, Complaint;
    var first := FirstBadLine(parse, lines);
    StopsAtFirstBadLine(parse, lines, first);
  }

  /** A JSON null is well-formed, and so not passed over as a malformed line is: it ends the stream. */
  lemma NullEndsStream(parse: string -> Option<Json>, before: string, after: string)
    requires parse("null") == Some(Null) && '\n' !in before && ParseEventLine(parse, before) == Skip
    ensures ParseText(parse, before + "\n" + ("null" + "\n" + after)) == Outcome([], Some(TYPE_ERROR))
  {
    OneLine(parse, [], before, "null" + "\n" + after);
    OneLine(parse, [], "null", after);
    var all := ParseText(parse, before + "\n" + ("null" + "\n" + after));
    assert [] + all.events == all.events;
  }
}
