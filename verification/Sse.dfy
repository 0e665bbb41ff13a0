/**
  The text stream of a run: the printer shared by agent and API, the API's line scanner and the browser's
  frame parser. Payloads are opaque JSON text.
 */
module Sse {
  import opened Prelude

  datatype Frame = Frame(event: string, data: string)

  /** `_sse` in the agent and `writeSSE` in the API print the same shape. */
  function Print(f: Frame): string {
    "event: " + f.event + "\ndata: " + f.data + "\n\n"
  }

  function PrintAll(fs: seq<Frame>): string {
    if fs == [] then "" else Print(fs[0]) + PrintAll(fs[1..])
  }

  predicate OneLine(s: string) {
    '\n' !in s
  }

  predicate StartsWith(s: string, prefix: string) {
    prefix <= s
  }

  /*** The browser's parser ***/

  /** White space as `String.prototype.trim` removes it. */
  predicate IsSpace(c: char) {
    var n := c as int;
    0x9 <= n <= 0xD || n == 0x20 || n == 0xA0 || n == 0x1680 || 0x2000 <= n <= 0x200A
    || n == 0x2028 || n == 0x2029 || n == 0x202F || n == 0x205F || n == 0x3000 || n == 0xFEFF
  }

  function TrimStart(s: string): string {
    if s != "" && IsSpace(s[0]) then TrimStart(s[1..]) else s
  }

  function TrimEnd(s: string): string {
    if s != "" && IsSpace(s[|s| - 1]) then TrimEnd(s[..|s| - 1]) else s
  }

  function Trim(s: string): string {
    TrimEnd(TrimStart(s))
  }

  predicate Trimmed(s: string) {
    s == "" || (!IsSpace(s[0]) && !IsSpace(s[|s| - 1]))
  }

  predicate BlankAt(s: string, i: nat) {
    i + 2 <= |s| && s[i] == '\n' && s[i + 1] == '\n'
  }

  /** `indexOf('\n\n')`. */
  function FindBlank(s: string): (at: Option<nat>)
    ensures at.None? ==> forall i: nat :: !BlankAt(s, i)
    ensures at.Some? ==> BlankAt(s, at.value) && forall i: nat | i < at.value :: !BlankAt(s, i)
  {
    if |s| < 2 then None
    else if s[0] == '\n' && s[1] == '\n' then Some(0)
    else
      var later := FindBlank(s[1..]);
      assert forall i: nat | i > 0 :: BlankAt(s, i) == BlankAt(s[1..], i - 1);
      if later.None? then None else Some(later.value + 1)
  }

  /** `split('\n')`. */
  function SplitLines(s: string): (lines: seq<string>)
    ensures lines != []
  {
    if s == "" then [""]
    else
      var rest := SplitLines(s[1..]);
      if s[0] == '\n' then [""] + rest else [[s[0]] + rest[0]] + rest[1..]
  }

  /** What one line of a frame sets. */
  function Absorb(f: Frame, line: string): Frame {
    if StartsWith(line, "event:") then f.(event := Trim(line[6..]))
    else if StartsWith(line, "data:") then f.(data := Trim(line[5..]))
    else f
  }

  function AbsorbAll(f: Frame, lines: seq<string>): Frame
    decreases |lines|
  {
    if lines == [] then f else AbsorbAll(Absorb(f, lines[0]), lines[1..])
  }

  /** A frame's text to an event; frames without an event name are dropped. */
  function FrameOf(text: string): Option<Frame> {
    var f := AbsorbAll(Frame("", ""), SplitLines(text));
    if f.event == "" then None else Some(f)
  }

  function Events(f: Option<Frame>): seq<Frame> {
    if f.Some? then [f.value] else []
  }

  datatype Parsed = Parsed(events: seq<Frame>, rest: string) {
    /** These events, then the ones parsed here. */
    function After(earlier: seq<Frame>): Parsed {
      Parsed(earlier + events, rest)
    }
  }

  lemma AfterNothing(p: Parsed)
    ensures p.After([]) == p
  {
    assert [] + p.events == p.events;
  }

  lemma AfterAgain(whole: Parsed, later: Parsed, first: seq<Frame>, events: seq<Frame>)
    requires whole == later.After(first)
    ensures whole.After(events) == later.After(events + first)
  {
    AfterAfter(later, events, first);
  }

  lemma AfterAfter(p: Parsed, a: seq<Frame>, b: seq<Frame>)
    ensures p.After(b).After(a) == p.After(a + b)
  {
    assert a + (b + p.events) == (a + b) + p.events;
  }

  function Parse(buffer: string): Parsed
    decreases |buffer|
  {
    match FindBlank(buffer)
    case None => Parsed([], buffer)
    case Some(at) =>
      Parse(buffer[at + 2..]).After(Events(FrameOf(buffer[..at])))
  }

  method ParseFrame(text: string) returns (f: Option<Frame>)
    ensures f == FrameOf(text)
  {
    var event, data := "", "";
    var lines := SplitLines(text);
    for i := 0 to |lines|
      invariant AbsorbAll(Frame(event, data), lines[i..]) == AbsorbAll(Frame("", ""), lines)
    {
      var line := lines[i];
      assert lines[i..][1..] == lines[i + 1..];
      if StartsWith(line, "event:") {
        event := Trim(line[6..]);
      } else if StartsWith(line, "data:") {
        data := Trim(line[5..]);
      }
    }
    if event == "" {
      return None;
    }
    return Some(Frame(event, data));
  }

  lemma ParseStep(rest: string, events: seq<Frame>)
    requires FindBlank(rest).Some?
    ensures var at := FindBlank(rest).value;
            Parse(rest).After(events) == Parse(rest[at + 2..]).After(events + Events(FrameOf(rest[..at])))
  {
    var at := FindBlank(rest).value;
    AfterAgain(Parse(rest), Parse(rest[at + 2..]), Events(FrameOf(rest[..at])), events);
  }

  lemma ParseEnd(rest: string, events: seq<Frame>)
    requires FindBlank(rest).None?
    ensures Parse(rest).After(events) == Parsed(events, rest)
  {
    assert events + [] == events;
  }

  method ParseSSE(buffer: string) returns (events: seq<Frame>, rest: string)
    ensures Parsed(events, rest) == Parse(buffer)
    ensures FindBlank(rest).None?
  {
    events, rest := [], buffer;
    assert [] + Parse(buffer).events == Parse(buffer).events;
    while true
      invariant Parse(buffer) == Parse(rest).After(events)
      decreases |rest|
    {
      var idx := FindBlank(rest);
      if idx.None? {
        ParseEnd(rest, events);
        return;
      }
      ParseStep(rest, events);
      var ev := ParseFrame(rest[..idx.value]);
      rest := rest[idx.value + 2..];
      if ev.Some? {
        events := events + [ev.value];
      } else {
        assert events + [] == events;
      }
    }
  }

  function Join(chunks: seq<string>): string {
    if chunks == [] then "" else chunks[0] + Join(chunks[1..])
  }

  /** Feeding the pieces of a stream through the parser, carrying the unparsed rest. */
  function Feed(buffer: string, chunks: seq<string>): Parsed
    decreases |chunks|
  {
    if chunks == [] then Parsed([], buffer)
    else
      var p := Parse(buffer + chunks[0]);
      Feed(p.rest, chunks[1..]).After(p.events)
  }

  /** More text does not move the first delimiter. */
  lemma BlankStays(a: string, b: string)
    requires FindBlank(a).Some?
    ensures var at := FindBlank(a).value;
            FindBlank(a + b) == Some(at) && (a + b)[..at] == a[..at] && (a + b)[at + 2..] == a[at + 2..] + b
  {
    var ab, at := a + b, FindBlank(a).value;
    assert BlankAt(ab, at);
    assert forall i: nat | i < at :: BlankAt(ab, i) == BlankAt(a, i);
  }

  lemma ParseAppendStep(a: string, b: string)
    requires FindBlank(a).Some?
    requires var p := Parse(a[FindBlank(a).value + 2..]);
             Parse(a[FindBlank(a).value + 2..] + b) == Parse(p.rest + b).After(p.events)
    ensures var p := Parse(a);
            Parse(a + b) == Parse(p.rest + b).After(p.events)
  {
    var first := FirstStays(a, b);
    var p := Parse(a[FindBlank(a).value + 2..]);
    AfterAfter(Parse(p.rest + b), first, p.events);
  }

  /** What the first frame's text gives does not depend on the text after it. */
  lemma FirstStays(a: string, b: string) returns (first: seq<Frame>)
    requires FindBlank(a).Some?
    ensures var rest := a[FindBlank(a).value + 2..];
            Parse(a) == Parse(rest).After(first) && Parse(a + b) == Parse(rest + b).After(first)
  {
    BlankStays(a, b);
    first := Events(FrameOf(a[..FindBlank(a).value]));
  }

  lemma {:induction false} ParseAppend(a: string, b: string)
    ensures var p := Parse(a);
            Parse(a + b) == Parse(p.rest + b).After(p.events)
    decreases |a|
  {
    match FindBlank(a)
    case None => AfterNothing(Parse(a + b));
    case Some(at) =>
      ParseAppend(a[at + 2..], b);
      ParseAppendStep(a, b);
  }

  /** Parsing is idempotent on its rest. */
  lemma {:induction false} RestHasNoBlank(a: string)
    ensures FindBlank(Parse(a).rest).None?
    decreases |a|
  {
    if FindBlank(a).Some? {
      RestHasNoBlank(a[FindBlank(a).value + 2..]);
      SameRest(a);
    }
  }

  lemma SameRest(a: string)
    requires FindBlank(a).Some?
    ensures Parse(a).rest == Parse(a[FindBlank(a).value + 2..]).rest
  {
  }

  lemma FeedStep(buffer: string, chunks: seq<string>)
    requires chunks != []
    ensures var p := Parse(buffer + chunks[0]);
            FindBlank(p.rest).None?
            && Parse(buffer + Join(chunks)) == Parse(p.rest + Join(chunks[1..])).After(p.events)
  {
    var b := buffer + chunks[0];
    assert buffer + Join(chunks) == b + Join(chunks[1..]);
    RestHasNoBlank(b);
    ParseAppend(b, Join(chunks[1..]));
  }

  /**
    Chunk invariance: splitting the stream at any points, also inside a delimiter, gives the events and the
    final rest of parsing the whole text once.
   */
  lemma {:induction false} FeedIsParse(buffer: string, chunks: seq<string>)
    requires FindBlank(buffer).None?
    ensures Feed(buffer, chunks) == Parse(buffer + Join(chunks))
    decreases |chunks|
  {
    if chunks == [] {
      assert buffer + "" == buffer;
    } else {
      FeedStep(buffer, chunks);
      FeedIsParse(Parse(buffer + chunks[0]).rest, chunks[1..]);
    }
  }

  /** The read loop of `sendMessage`. */
  method ReadLoop(chunks: seq<string>) returns (events: seq<Frame>, buffer: string)
    ensures Parsed(events, buffer) == Parse(Join(chunks))
  {
    events, buffer := [], "";
    for i := 0 to |chunks|
      invariant FindBlank(buffer).None?
      invariant Feed("", chunks) == Feed(buffer, chunks[i..]).After(events)
    {
      assert chunks[i..][1..] == chunks[i + 1..];
      buffer := buffer + chunks[i];
      var evs, rest := ParseSSE(buffer);
      AfterAfter(Feed(rest, chunks[i + 1..]), events, evs);
      events := events + evs;
      buffer := rest;
    }
    FeedIsParse("", chunks);
    assert "" + Join(chunks) == Join(chunks);
  }

  /*** The API's scanner ***/

  datatype Outcome = Finished | RunError(data: string) | LineTooLong

  datatype Scanned = Scanned(frames: seq<Frame>, outcome: Outcome) {
    function After(earlier: seq<Frame>): Scanned {
      Scanned(earlier + frames, outcome)
    }
  }

  /** Position of the first newline, or the length when there is none. */
  function LineEnd(s: string): (n: nat)
    ensures n <= |s| && OneLine(s[..n]) && (n < |s| ==> s[n] == '\n')
  {
    if s == "" || s[0] == '\n' then 0
    else
      var n := 1 + LineEnd(s[1..]);
      assert s[..n] == [s[0]] + s[1..][..n - 1];
      n
  }

  /** `bufio.ScanLines` drops one trailing carriage return. */
  function DropCR(line: string): string {
    if line != "" && line[|line| - 1] == '\r' then line[..|line| - 1] else line
  }

  function AfterLine(s: string): string
    requires s != ""
  {
    if LineEnd(s) < |s| then s[LineEnd(s) + 1..] else ""
  }

  const EVENT_PREFIX := "event: "
  const DATA_PREFIX := "data: "

  /**
    The scan loop of `run`: remember the event name, dispatch on each data line, stop at an error event or at a
    line that does not fit the scanner's buffer of `limit`.
   */
  function Scan(s: string, limit: nat, event: string): Scanned
    decreases |s|
  {
    if s == "" then Scanned([], Finished)
    else if LineEnd(s) >= limit then Scanned([], LineTooLong)
    else
      var line := DropCR(s[..LineEnd(s)]);
      if StartsWith(line, EVENT_PREFIX) then Scan(AfterLine(s), limit, line[|EVENT_PREFIX|..])
      else if StartsWith(line, DATA_PREFIX) then
        var data := line[|DATA_PREFIX|..];
        if event == "error" then Scanned([], RunError(data))
        else Scan(AfterLine(s), limit, event).After([Frame(event, data)])
      else Scan(AfterLine(s), limit, event)
  }

  method Run(stream: string, limit: nat) returns (frames: seq<Frame>, outcome: Outcome)
    ensures Scanned(frames, outcome) == Scan(stream, limit, "")
  {
    frames := [];
    var event := "";
    var rest := stream;
    while rest != ""
      invariant Scan(stream, limit, "") == Scan(rest, limit, event).After(frames)
      decreases |rest|
    {
      var n := LineEnd(rest);
      if n >= limit {
        return frames, LineTooLong;
      }
      var line := DropCR(rest[..n]);
      if StartsWith(line, EVENT_PREFIX) {
        event := line[|EVENT_PREFIX|..];
      } else if StartsWith(line, DATA_PREFIX) {
        if event == "error" {
          return frames, RunError(line[|DATA_PREFIX|..]);
        }
        frames := frames + [Frame(event, line[|DATA_PREFIX|..])];
      }
      rest := AfterLine(rest);
    }
    return frames, Finished;
  }

  /*** Round trips ***/

  /** A frame the printers emit: single-line name and data without surrounding white space. */
  predicate Clean(f: Frame) {
    OneLine(f.event) && OneLine(f.data) && Trimmed(f.event) && Trimmed(f.data)
  }

  predicate FitsScanner(f: Frame, limit: nat) {
    |EVENT_PREFIX| + |f.event| < limit && |DATA_PREFIX| + |f.data| < limit
  }

  /** The frames before the first that is an error or has a line too long for the scanner. */
  function BeforeStop(fs: seq<Frame>, limit: nat): seq<Frame> {
    if fs == [] || !FitsScanner(fs[0], limit) || fs[0].event == "error" then []
    else [fs[0]] + BeforeStop(fs[1..], limit)
  }

  /** How reading these frames ends; an error frame that is too long is not read as one. */
  function StopOutcome(fs: seq<Frame>, limit: nat): Outcome {
    if fs == [] then Finished
    else if !FitsScanner(fs[0], limit) then LineTooLong
    else if fs[0].event == "error" then RunError(fs[0].data)
    else StopOutcome(fs[1..], limit)
  }

  lemma {:induction false} LineEndOf(line: string, rest: string)
    requires OneLine(line)
    ensures LineEnd(line + "\n" + rest) == |line|
  {
    var s := line + "\n" + rest;
    if line != "" {
      assert s[1..] == line[1..] + "\n" + rest;
      LineEndOf(line[1..], rest);
    }
  }

  lemma LineThenRest(line: string, rest: string)
    requires OneLine(line)
    ensures var s := line + "\n" + rest;
            s != "" && LineEnd(s) == |line| && s[..LineEnd(s)] == line && AfterLine(s) == rest
  {
    LineEndOf(line, rest);
  }

  lemma TrimmedKeepsCR(prefix: string, s: string)
    requires Trimmed(s) && (prefix == EVENT_PREFIX || prefix == DATA_PREFIX)
    ensures DropCR(prefix + s) == prefix + s
  {
    assert s == "" ==> prefix + s == prefix;
  }

  lemma ScanEventLine(name: string, rest: string, limit: nat, event: string)
    requires OneLine(name) && Trimmed(name)
    ensures Scan(EVENT_PREFIX + name + "\n" + rest, limit, event)
         == if |EVENT_PREFIX| + |name| < limit then Scan(rest, limit, name) else Scanned([], LineTooLong)
  {
    var line := EVENT_PREFIX + name;
    assert line[|EVENT_PREFIX|..] == name;
    LineThenRest(line, rest);
    TrimmedKeepsCR(EVENT_PREFIX, name);
  }

  lemma ScanDataLine(data: string, rest: string, limit: nat, event: string)
    requires OneLine(data) && Trimmed(data)
    ensures Scan(DATA_PREFIX + data + "\n" + rest, limit, event)
         == if |DATA_PREFIX| + |data| >= limit then Scanned([], LineTooLong)
            else if event == "error" then Scanned([], RunError(data))
            else Scan(rest, limit, event).After([Frame(event, data)])
  {
    var line := DATA_PREFIX + data;
    assert line[|DATA_PREFIX|..] == data;
    LineThenRest(line, rest);
    TrimmedKeepsCR(DATA_PREFIX, data);
    assert line[0] == 'd';
  }

  lemma ScanBlankLine(rest: string, limit: nat, event: string)
    requires limit > 0
    ensures Scan("\n" + rest, limit, event) == Scan(rest, limit, event)
  {
    LineThenRest("", rest);
    assert "" + "\n" + rest == "\n" + rest;
  }

  /** Any other line is passed over. */
  lemma ScanOtherLine(line: string, rest: string, limit: nat, event: string)
    requires OneLine(line) && |line| < limit && DropCR(line) == line
    requires !StartsWith(line, EVENT_PREFIX) && !StartsWith(line, DATA_PREFIX)
    ensures Scan(line + "\n" + rest, limit, event) == Scan(rest, limit, event)
  {
    LineThenRest(line, rest);
  }

  /** A carriage return before the newline makes no difference. */
  lemma ScanIgnoresCR(line: string, rest: string, limit: nat, event: string)
    requires OneLine(line) && |line| + 1 < limit && DropCR(line) == line
    ensures Scan(line + "\r" + "\n" + rest, limit, event) == Scan(line + "\n" + rest, limit, event)
  {
    LineThenRest(line, rest);
    assert OneLine(line + "\r");
    LineThenRest(line + "\r", rest);
    assert DropCR(line + "\r") == line;
  }

  lemma ScanFrame(f: Frame, rest: string, limit: nat, event: string)
    requires Clean(f)
    ensures Scan(Print(f) + rest, limit, event)
         == if !FitsScanner(f, limit) then Scanned([], LineTooLong)
            else if f.event == "error" then Scanned([], RunError(f.data))
            else Scan(rest, limit, f.event).After([f])
  {
    var tail2 := "\n" + rest;
    var tail1 := DATA_PREFIX + f.data + "\n" + tail2;
    assert Print(f) + rest == EVENT_PREFIX + f.event + "\n" + tail1;
    ScanEventLine(f.event, tail1, limit, event);
    ScanDataLine(f.data, tail2, limit, f.event);
    if limit > 0 {
      ScanBlankLine(rest, limit, f.event);
    }
  }

  /** The API's scanner inverts the agent's printer, up to the first error frame or line that is too long. */
  lemma {:induction false} ScanInvertsPrint(fs: seq<Frame>, limit: nat, event: string)
    requires forall i | 0 <= i < |fs| :: Clean(fs[i])
    ensures Scan(PrintAll(fs), limit, event) == Scanned(BeforeStop(fs, limit), StopOutcome(fs, limit))
    decreases |fs|
  {
    if fs != [] {
      ScanFrame(fs[0], PrintAll(fs[1..]), limit, event);
      if FitsScanner(fs[0], limit) && fs[0].event != "error" {
        ScanInvertsPrint(fs[1..], limit, fs[0].event);
      }
    }
  }

  lemma {:induction false} SplitOneLine(line: string)
    requires OneLine(line)
    ensures SplitLines(line) == [line]
  {
    if line != "" {
      SplitOneLine(line[1..]);
      assert [line[0]] + line[1..] == line;
    }
  }

  lemma {:induction false} SplitFirstLine(line: string, rest: string)
    requires OneLine(line)
    ensures SplitLines(line + "\n" + rest) == [line] + SplitLines(rest)
  {
    var s := line + "\n" + rest;
    if line == "" {
      assert s[1..] == rest;
    } else {
      assert s[1..] == line[1..] + "\n" + rest;
      SplitFirstLine(line[1..], rest);
      assert [line[0]] + line[1..] == line;
    }
  }

  lemma TrimAfterSpace(s: string)
    requires Trimmed(s)
    ensures Trim(" " + s) == s
  {
    assert (" " + s)[1..] == s;
    assert TrimStart(" " + s) == TrimStart(s) == s;
  }

  lemma FrameOfPrinted(f: Frame)
    requires Clean(f)
    ensures FrameOf("event: " + f.event + "\ndata: " + f.data) == if f.event == "" then None else Some(f)
  {
    var line1, line2 := "event: " + f.event, "data: " + f.data;
    assert "event: " + f.event + "\ndata: " + f.data == line1 + "\n" + line2;
    SplitFirstLine(line1, line2);
    SplitOneLine(line2);
    assert line1[6..] == " " + f.event && line2[5..] == " " + f.data;
    TrimAfterSpace(f.event);
    TrimAfterSpace(f.data);
    assert line2[0] == 'd';
    var lines := [line1, line2];
    assert SplitLines(line1 + "\n" + line2) == lines;
    assert lines[1..] == [line2] && [line2][1..] == [];
    assert Absorb(Frame("", ""), line1) == Frame(f.event, "");
    assert Absorb(Frame(f.event, ""), line2) == f;
    assert AbsorbAll(Frame(f.event, ""), [line2]) == f;
  }

  lemma ParseFrameThenRest(f: Frame, rest: string)
    requires Clean(f)
    ensures Parse(Print(f) + rest)
         == Parse(rest).After(Events(if f.event == "" then None else Some(f)))
  {
    var text := "event: " + f.event + "\ndata: " + f.data;
    var s := Print(f) + rest;
    var n := |text|;
    assert s == text + "\n\n" + rest;
    assert BlankAt(s, n);
    var k := |EVENT_PREFIX| + |f.event|;
    forall i: nat | i < n ensures !BlankAt(s, i) {
      assert s[k] == '\n' && s[k + 1] == 'd';
      if i < k {
        assert s[i] == (EVENT_PREFIX + f.event)[i];
        assert i >= |EVENT_PREFIX| ==> s[i] == f.event[i - |EVENT_PREFIX|];
      } else if i > k {
        assert s[i] == (DATA_PREFIX + f.data)[i - k - 1];
        assert i - k - 1 >= |DATA_PREFIX| ==> s[i] == f.data[i - k - 1 - |DATA_PREFIX|];
      }
    }
    assert FindBlank(s) == Some(n);
    assert s[..n] == text && s[n + 2..] == rest;
    FrameOfPrinted(f);
  }

  predicate IsNamed(f: Frame) {
    f.event != ""
  }

  /** The browser's parser inverts the printer, leaving nothing unparsed. */
  lemma {:induction false} ParseInvertsPrint(fs: seq<Frame>)
    requires forall i | 0 <= i < |fs| :: Clean(fs[i]) && IsNamed(fs[i])
    ensures Parse(PrintAll(fs)) == Parsed(fs, "")
  {
    if fs != [] {
      ParseFrameThenRest(fs[0], PrintAll(fs[1..]));
      ParseInvertsPrint(fs[1..]);
    }
  }

  /*** What parsing a frame's text means ***/

  predicate AllSpace(s: string) {
    forall i | 0 <= i < |s| :: IsSpace(s[i])
  }

  /** Trimming takes white space off both ends, all of it and nothing else. */
  lemma TrimIs(s: string) returns (a: string, b: string)
    ensures s == a + Trim(s) + b && AllSpace(a) && AllSpace(b) && Trimmed(Trim(s))
  {
    a := TrimStartIs(s);
    b := TrimEndIs(TrimStart(s));
    assert s == a + (Trim(s) + b);
  }

  lemma {:induction false} TrimStartIs(s: string) returns (a: string)
    ensures s == a + TrimStart(s) && AllSpace(a) && (TrimStart(s) != "" ==> !IsSpace(TrimStart(s)[0]))
  {
    a := "";
    if s != "" && IsSpace(s[0]) {
      a := TrimStartIs(s[1..]);
      a := [s[0]] + a;
      assert s == [s[0]] + s[1..];
    }
  }

  lemma {:induction false} TrimEndIs(s: string) returns (b: string)
    requires s != "" ==> !IsSpace(s[0])
    ensures s == TrimEnd(s) + b && AllSpace(b) && Trimmed(TrimEnd(s))
  {
    b := "";
    if s != "" && IsSpace(s[|s| - 1]) {
      assert |s| > 1;
      b := TrimEndIs(s[..|s| - 1]);
      b := b + [s[|s| - 1]];
      assert s == s[..|s| - 1] + [s[|s| - 1]];
    }
  }

  function Unlines(lines: seq<string>): string
    requires lines != []
  {
    if |lines| == 1 then lines[0] else lines[0] + "\n" + Unlines(lines[1..])
  }

  /** Splitting at newlines: single lines that joined with newlines give the text back. */
  lemma {:induction false} SplitLinesIs(s: string)
    ensures Unlines(SplitLines(s)) == s
    ensures forall i | 0 <= i < |SplitLines(s)| :: OneLine(SplitLines(s)[i])
  {
    if s != "" {
      SplitLinesIs(s[1..]);
      UnlinesCons(s[0], SplitLines(s[1..]));
      assert s == [s[0]] + s[1..];
    }
  }

  /** One more character in front either starts the first line or puts an empty line before it. */
  lemma UnlinesCons(c: char, lines: seq<string>)
    requires lines != []
    ensures Unlines(if c == '\n' then [""] + lines else [[c] + lines[0]] + lines[1..]) == [c] + Unlines(lines)
  {
    if c == '\n' {
      assert ([""] + lines)[1..] == lines;
    } else if |lines| > 1 {
      var longer := [[c] + lines[0]] + lines[1..];
      assert longer[0] == [c] + lines[0] && longer[1..] == lines[1..];
      assert ([c] + lines[0]) + "\n" + Unlines(lines[1..]) == [c] + (lines[0] + "\n" + Unlines(lines[1..]));
    }
  }

  /** Line `i` is the last that starts like this. */
  predicate IsLastOf(lines: seq<string>, i: nat, prefix: string) {
    i < |lines| && StartsWith(lines[i], prefix) && forall k | i < k < |lines| :: !StartsWith(lines[k], prefix)
  }

  /** The last line of a kind is the one that counts. */
  lemma {:induction false} LastLineCounts(f: Frame, lines: seq<string>, i: nat)
    ensures IsLastOf(lines, i, "event:") ==> AbsorbAll(f, lines).event == Trim(lines[i][6..])
    ensures IsLastOf(lines, i, "data:") ==> AbsorbAll(f, lines).data == Trim(lines[i][5..])
    decreases |lines|
  {
    if lines != [] {
      var rest, g := lines[1..], Absorb(f, lines[0]);
      assert forall k | 0 <= k < |rest| :: rest[k] == lines[k + 1];
      if i > 0 {
        LastLineCounts(g, rest, i - 1);
      } else {
        FirstLineCounts(f, lines);
      }
    }
  }

  lemma FirstLineCounts(f: Frame, lines: seq<string>)
    ensures IsLastOf(lines, 0, "event:") ==> AbsorbAll(f, lines).event == Trim(lines[0][6..])
    ensures IsLastOf(lines, 0, "data:") ==> AbsorbAll(f, lines).data == Trim(lines[0][5..])
  {
    if IsLastOf(lines, 0, "event:") {
      NoSuchLine(Absorb(f, lines[0]), lines[1..], "event:");
    }
    if IsLastOf(lines, 0, "data:") {
      assert lines[0][0] == 'd';
      NoSuchLine(Absorb(f, lines[0]), lines[1..], "data:");
    }
  }

  /** Lines of other kinds leave a field alone. */
  lemma {:induction false} NoSuchLine(f: Frame, lines: seq<string>, prefix: string)
    requires forall k | 0 <= k < |lines| :: !StartsWith(lines[k], prefix)
    ensures prefix == "event:" ==> AbsorbAll(f, lines).event == f.event
    ensures prefix == "data:" ==> AbsorbAll(f, lines).data == f.data
    decreases |lines|
  {
    if lines != [] {
      NoSuchLine(Absorb(f, lines[0]), lines[1..], prefix);
    }
  }

  /*** Agent to browser ***/

  /** The event kinds the API passes on while a run streams. */
  function Relayed(fs: seq<Frame>): seq<Frame> {
    if fs == [] then []
    else (if fs[0].event in {"node", "delta", "node_end"} then [fs[0]] else []) + Relayed(fs[1..])
  }

  lemma {:induction false} RelayedAreNamed(fs: seq<Frame>)
    requires forall i | 0 <= i < |fs| :: Clean(fs[i])
    ensures forall i | 0 <= i < |Relayed(fs)| :: Clean(Relayed(fs)[i]) && IsNamed(Relayed(fs)[i])
  {
    if fs != [] {
      RelayedAreNamed(fs[1..]);
    }
  }

  lemma {:induction false} BeforeStopIsClean(fs: seq<Frame>, limit: nat)
    requires forall i | 0 <= i < |fs| :: Clean(fs[i])
    ensures forall i | 0 <= i < |BeforeStop(fs, limit)| :: Clean(BeforeStop(fs, limit)[i])
  {
    if fs != [] {
      BeforeStopIsClean(fs[1..], limit);
    }
  }

  /** What became of the reply once the run was over; a first message also gets a title. */
  datatype Save = NotSaved | Saved(done: string, title: Option<string>)

  const STREAM_FAILED := "{\"error\":\"stream failed\"}"
  const SAVE_FAILED := "{\"error\":\"could not save reply\"}"

  /** The frames the API itself writes at the end. */
  function ClosingFrames(outcome: Outcome, save: Save): seq<Frame> {
    if outcome != Finished then [Frame("error", STREAM_FAILED)]
    else match save
      case NotSaved => [Frame("error", SAVE_FAILED)]
      case Saved(done, None) => [Frame("done", done)]
      case Saved(done, Some(title)) => [Frame("done", done), Frame("title", title)]
  }

  /** All that the API sends to the browser for what it scanned. */
  function Sent(scanned: Scanned, save: Save): seq<Frame> {
    Relayed(scanned.frames) + ClosingFrames(scanned.outcome, save)
  }

  predicate CleanSave(save: Save) {
    save.Saved? ==> Clean(Frame("done", save.done)) && (save.title.Some? ==> Clean(Frame("title", save.title.value)))
  }

  lemma ClosingIsClean(outcome: Outcome, save: Save)
    requires CleanSave(save)
    ensures var closing := ClosingFrames(outcome, save);
            forall i | 0 <= i < |closing| :: Clean(closing[i]) && IsNamed(closing[i])
  {
    PayloadsAreClean();
  }

  lemma PayloadsAreClean()
    ensures OneLine(STREAM_FAILED) && Trimmed(STREAM_FAILED) && OneLine(SAVE_FAILED) && Trimmed(SAVE_FAILED)
  {
  }

  /**
    Both hops together: whatever pieces the browser reads, it sees exactly the run's node, delta and node-end
    frames that precede the first error or overlong line, in order, and then the API's own closing: an error if the
    run failed, a line was too long or the reply could not be saved, else done and, for a first message, a title.
   */
  lemma PipelineDelivers(fs: seq<Frame>, limit: nat, save: Save, chunks: seq<string>)
    requires forall i | 0 <= i < |fs| :: Clean(fs[i])
    requires CleanSave(save)
    requires Join(chunks) == PrintAll(Sent(Scan(PrintAll(fs), limit, ""), save))
    ensures Feed("", chunks) == Parsed(Relayed(BeforeStop(fs, limit)) + ClosingFrames(StopOutcome(fs, limit), save), "")
  {
    ScanInvertsPrint(fs, limit, "");
    BeforeStopIsClean(fs, limit);
    RelayedAreNamed(BeforeStop(fs, limit));
    ClosingIsClean(StopOutcome(fs, limit), save);
    var relayed, closing := Relayed(BeforeStop(fs, limit)), ClosingFrames(StopOutcome(fs, limit), save);
    forall i | 0 <= i < |relayed + closing| ensures Clean((relayed + closing)[i]) && IsNamed((relayed + closing)[i]) {
      if i >= |relayed| {
        assert (relayed + closing)[i] == closing[i - |relayed|];
      }
    }
    ParseInvertsPrint(relayed + closing);
    FeedIsParse("", chunks);
    assert "" + Join(chunks) == Join(chunks);
  }

  /*** What the browser is sent, frame by frame ***/

  /** The kinds of frame the API passes on. */
  predicate IsRelayedKind(f: Frame) {
    f.event == "node" || f.event == "delta" || f.event == "node_end"
  }

  /** `sent` are the frames at these positions, in order, and these positions are all the passed-on frames. */
  predicate IsSelection(sent: seq<Frame>, fs: seq<Frame>, at: seq<nat>) {
    && |at| == |sent|
    && (forall k | 0 <= k < |at| :: at[k] < |fs| && sent[k] == fs[at[k]])
    && (forall k, m | 0 <= k < m < |at| :: at[k] < at[m])
    && (forall i | 0 <= i < |fs| :: IsRelayedKind(fs[i]) <==> i in at)
  }

  /** Frame `n` is the first that ends the reading: an error, or a line too long; or there is none. */
  predicate StopsAt(fs: seq<Frame>, limit: nat, n: nat) {
    && n <= |fs| && (forall i | 0 <= i < n :: FitsScanner(fs[i], limit) && fs[i].event != "error")
    && (n < |fs| ==> !FitsScanner(fs[n], limit) || fs[n].event == "error")
  }

  /** How the API ends its own stream: one error after a failure, else done, and a title where there is one. */
  predicate Closes(closing: seq<Frame>, failed: bool, save: Save) {
    if failed then closing == [Frame("error", "{\"error\":\"stream failed\"}")]
    else match save
      case NotSaved => closing == [Frame("error", "{\"error\":\"could not save reply\"}")]
      case Saved(done, None) => closing == [Frame("done", done)]
      case Saved(done, Some(title)) => closing == [Frame("done", done), Frame("title", title)]
  }

  lemma {:induction false} RelayedIsSelection(fs: seq<Frame>) returns (at: seq<nat>)
    ensures IsSelection(Relayed(fs), fs, at)
  {
    at := [];
    if fs != [] {
      var later := RelayedIsSelection(fs[1..]);
      at := SelectionInFront(fs[0], fs[1..], Relayed(fs[1..]), later);
      assert fs == [fs[0]] + fs[1..];
    }
  }

  lemma SelectionInFront(f: Frame, rest: seq<Frame>, sent: seq<Frame>, later: seq<nat>) returns (at: seq<nat>)
    requires IsSelection(sent, rest, later)
    ensures IsSelection((if IsRelayedKind(f) then [f] else []) + sent, [f] + rest, at)
  {
    var moved := SelectionMoves(f, rest, sent, later);
    if IsRelayedKind(f) {
      at := [0] + moved;
      FirstSelected([f] + rest, sent, moved);
    } else {
      at := moved;
      assert [] + sent == sent;
    }
  }

  /** The selection, all but the first frame. */
  predicate SelectsRest(sent: seq<Frame>, fs: seq<Frame>, at: seq<nat>) {
    && |at| == |sent|
    && (forall k | 0 <= k < |at| :: 0 < at[k] < |fs| && sent[k] == fs[at[k]])
    && (forall k, m | 0 <= k < m < |at| :: at[k] < at[m])
    && (forall i | 0 < i < |fs| :: IsRelayedKind(fs[i]) <==> i in at)
  }

  lemma SelectionMoves(f: Frame, rest: seq<Frame>, sent: seq<Frame>, later: seq<nat>) returns (moved: seq<nat>)
    requires IsSelection(sent, rest, later)
    ensures SelectsRest(sent, [f] + rest, moved) && 0 !in moved
  {
    var fs := [f] + rest;
    moved := seq(|later|, k requires 0 <= k < |later| => later[k] + 1);
    forall i | 0 < i < |fs| ensures IsRelayedKind(fs[i]) <==> i in moved {
      assert fs[i] == rest[i - 1];
      MovedOne(later, moved, i - 1);
    }
    MovedNotZero(later, moved);
  }

  lemma FirstSelected(fs: seq<Frame>, sent: seq<Frame>, moved: seq<nat>)
    requires fs != [] && IsRelayedKind(fs[0]) && SelectsRest(sent, fs, moved)
    ensures IsSelection([fs[0]] + sent, fs, [0] + moved)
  {
    var at, all := [0] + moved, [fs[0]] + sent;
    forall k | 0 <= k < |at| ensures at[k] < |fs| && all[k] == fs[at[k]] {
      if k > 0 {
        assert at[k] == moved[k - 1] && all[k] == sent[k - 1];
      }
    }
    forall i | 0 <= i < |fs| ensures IsRelayedKind(fs[i]) <==> i in at {
      ZeroInFront(moved, i);
    }
  }

  lemma ZeroInFront(moved: seq<nat>, i: nat)
    ensures i in [0] + moved <==> i == 0 || i in moved
  {
  }

  lemma MovedOne(later: seq<nat>, moved: seq<nat>, i: nat)
    requires |moved| == |later| && forall k | 0 <= k < |later| :: moved[k] == later[k] + 1
    ensures i in later <==> i + 1 in moved
  {
    if i in later {
      var k :| 0 <= k < |later| && later[k] == i;
      assert moved[k] == i + 1;
    }
    if i + 1 in moved {
      var k :| 0 <= k < |moved| && moved[k] == i + 1;
      assert later[k] == i;
    }
  }

  lemma MovedNotZero(later: seq<nat>, moved: seq<nat>)
    requires |moved| == |later| && forall k | 0 <= k < |later| :: moved[k] == later[k] + 1
    ensures 0 !in moved
  {
  }

  lemma {:induction false} BeforeStopIs(fs: seq<Frame>, limit: nat, n: nat)
    requires StopsAt(fs, limit, n)
    ensures BeforeStop(fs, limit) == fs[..n]
    ensures StopOutcome(fs, limit) == Finished <==> n == |fs|
    decreases |fs|
  {
    if n > 0 {
      assert forall i | 0 <= i < n - 1 :: fs[1..][i] == fs[i + 1];
      BeforeStopIs(fs[1..], limit, n - 1);
      assert fs[..n] == [fs[0]] + fs[1..][..n - 1];
    }
  }

  /**
    The whole way, frame by frame: whatever pieces the browser reads, what it sees first is every node, delta and
    node-end frame the agent sent before the first error or overlong line, each once and in order, and nothing else;
    then come the API's own closing frames.
   */
  lemma BrowserSeesEveryFrame(fs: seq<Frame>, limit: nat, n: nat, save: Save, chunks: seq<string>)
    returns (sent: seq<Frame>, at: seq<nat>, closing: seq<Frame>)
    requires (forall i | 0 <= i < |fs| :: Clean(fs[i])) && CleanSave(save) && StopsAt(fs, limit, n)
    requires Join(chunks) == PrintAll(Sent(Scan(PrintAll(fs), limit, ""), save))
    ensures Feed("", chunks) == Parsed(sent + closing, "")
    ensures IsSelection(sent, fs[..n], at) && Closes(closing, n < |fs|, save)
  {
    PipelineDelivers(fs, limit, save, chunks);
    BeforeStopIs(fs, limit, n);
    sent, closing := Relayed(fs[..n]), ClosingFrames(StopOutcome(fs, limit), save);
    at := RelayedIsSelection(fs[..n]);
  }
}
