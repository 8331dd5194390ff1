/**
 The incremental event-stream reader: text arrives in arbitrary chunks, is split on newlines with the unfinished tail
 carried over, and each `data: ` line is parsed and delivered. Parsing JSON is a parameter.
 */
module StreamParser {
  import opened Wrappers

  const DATA := "data: "

  /** A parsed event: the field that decides completion, and the rest. */
  datatype Event = Event(kind: string, payload: string)

  /** What ends a chat stream. */
  predicate IsTerminal(e: Event) {
    e.kind == "completed" || e.kind == "failed"
  }

  /** What ends a run stream. */
  predicate IsRunComplete(e: Event) {
    e.kind == "run_complete"
  }

  type Parser = string -> Option<Event>

  /** String.prototype.split('\n'). */
  function Split(text: string): (lines: seq<string>)
    ensures |lines| >= 1
  {
    if text == "" then [""]
    else
      var rest := Split(text[1..]);
      if text[0] == '\n' then [""] + rest else [[text[0]] + rest[0]] + rest[1..]
  }

  /** The complete lines of a text. */
  function Lines(text: string): seq<string> {
    Split(text)[..|Split(text)| - 1]
  }

  /** What follows the last newline. */
  function Tail(text: string): string {
    Split(text)[|Split(text)| - 1]
  }

  predicate IsSpace(c: char) {
    || c == ' ' || c == '\t' || c == '\n' || c == '\r' || c == '\U{000B}' || c == '\U{000C}' || c == '\U{00A0}'
    || c == '\U{1680}' || '\U{2000}' <= c <= '\U{200A}' || c == '\U{2028}' || c == '\U{2029}' || c == '\U{202F}'
    || c == '\U{205F}' || c == '\U{3000}' || c == '\U{FEFF}'
  }

  function Trim(s: string): string
    decreases |s|
  {
    if s == "" then ""
    else if IsSpace(s[0]) then Trim(s[1..])
    else if IsSpace(s[|s| - 1]) then Trim(s[..|s| - 1])
    else s
  }

  /** The event a line carries: other lines, empty payloads and malformed JSON carry none. */
  function EventOf(parse: Parser, line: string): seq<Event> {
    if !(DATA <= line) then []
    else
      var json := Trim(line[|DATA|..]);
      if json == "" then []
      else match parse(json) case Some(event) => [event] case None => []
  }

  function EventsOf(parse: Parser, lines: seq<string>): seq<Event> {
    if lines == [] then [] else EventOf(parse, lines[0]) + EventsOf(parse, lines[1..])
  }

  /** The reference: split the whole text at once, drop the unterminated tail, parse the lines in order. */
  function Batch(parse: Parser, text: string): seq<Event> {
    EventsOf(parse, Lines(text))
  }

  function Concat(chunks: seq<string>): string {
    if chunks == [] then "" else chunks[0] + Concat(chunks[1..])
  }

  /** Events up to and including the first that completes the run. */
  function UpToComplete(events: seq<Event>): seq<Event> {
    if events == [] then []
    else if IsRunComplete(events[0]) then [events[0]]
    else [events[0]] + UpToComplete(events[1..])
  }

  predicate HasTerminal(events: seq<Event>) {
    exists e :: e in events && (e.kind == "completed" || e.kind == "failed")
  }

  predicate HasComplete(events: seq<Event>) {
    exists e :: e in events && IsRunComplete(e)
  }

  // ---- Splitting ----

  function Join(lines: seq<string>): string {
    if lines == [] then "" else if |lines| == 1 then lines[0] else lines[0] + "\n" + Join(lines[1..])
  }

  /** Split is what undoes joining with newlines: its lines hold no newline and join back to the text. */
  lemma {:induction false} SplitInvertsJoin(text: string)
    ensures Join(Split(text)) == text
    ensures forall k :: 0 <= k < |Split(text)| ==> '\n' !in Split(text)[k]
  {
    if text != "" {
      SplitInvertsJoin(text[1..]);
      var rest := Split(text[1..]);
      var lines := Split(text);
      assert text == [text[0]] + text[1..];
      if text[0] == '\n' {
        assert lines[1..] == rest;
      } else {
        assert lines[1..] == rest[1..];
        if |rest| > 1 {
          assert Join(rest) == rest[0] + "\n" + Join(rest[1..]);
        }
      }
    }
  }

  lemma SplitCons(c: char, t: string)
    ensures c == '\n' ==> Lines([c] + t) == [""] + Lines(t) && Tail([c] + t) == Tail(t)
    ensures Lines(t) == [] ==> Tail(t) == t
    ensures c != '\n' && Lines(t) == [] ==> Lines([c] + t) == [] && Tail([c] + t) == [c] + t
    ensures c != '\n' && Lines(t) != [] ==>
      Lines([c] + t) == [[c] + Lines(t)[0]] + Lines(t)[1..] && Tail([c] + t) == Tail(t)
  {
    assert ([c] + t)[1..] == t;
    if Lines(t) == [] {
      SplitInvertsJoin(t);
    }
  }

  /** Appending text extends only the tail: the carry-over of the reader. */
  lemma {:induction false} LinesOfConcat(a: string, b: string)
    ensures Lines(a + b) == Lines(a) + Lines(Tail(a) + b)
    ensures Tail(a + b) == Tail(Tail(a) + b)
    decreases |a|
  {
    if a == "" {
      assert a + b == b && Tail(a) + b == b;
    } else {
      var c, t := a[0], a[1..];
      assert a == [c] + t && a + b == [c] + (t + b);
      SplitCons(c, t);
      SplitCons(c, t + b);
      if c == '\n' || Lines(t) != [] {
        LinesOfConcat(t, b);
      }
    }
  }

  lemma {:induction false} EventsOfConcat(parse: Parser, a: seq<string>, b: seq<string>)
    ensures EventsOf(parse, a + b) == EventsOf(parse, a) + EventsOf(parse, b)
  {
    if a == [] {
      assert a + b == b;
    } else {
      assert (a + b)[1..] == a[1..] + b;
      EventsOfConcat(parse, a[1..], b);
    }
  }

  lemma EventsOfSnoc(parse: Parser, lines: seq<string>, j: nat)
    requires j < |lines|
    ensures EventsOf(parse, lines[..j + 1]) == EventsOf(parse, lines[..j]) + EventOf(parse, lines[j])
  {
    assert lines[..j + 1] == lines[..j] + [lines[j]];
    EventsOfConcat(parse, lines[..j], [lines[j]]);
    assert EventsOf(parse, [lines[j]]) == EventOf(parse, lines[j]);
  }

  lemma {:induction false} ConcatSplit(chunks: seq<string>, k: nat)
    requires k <= |chunks|
    ensures Concat(chunks) == Concat(chunks[..k]) + Concat(chunks[k..])
  {
    if k == 0 {
      assert chunks[..0] == [] && chunks[0..] == chunks;
    } else {
      ConcatSplit(chunks[1..], k - 1);
      assert chunks[1..][..k - 1] == chunks[..k][1..] && chunks[1..][k - 1..] == chunks[k..];
    }
  }

  lemma ConcatSnoc(chunks: seq<string>, i: nat)
    requires i < |chunks|
    ensures Concat(chunks[..i + 1]) == Concat(chunks[..i]) + chunks[i]
  {
    var upTo := chunks[..i + 1];
    ConcatSplit(upTo, i);
    assert upTo[..i] == chunks[..i] && upTo[i..] == [chunks[i]];
    assert Concat([chunks[i]]) == chunks[i] + Concat([]);
  }

  /** One more chunk: the lines it completes follow the lines before it, and its tail is the new carry-over. */
  lemma ReadChunk(parse: Parser, text: string, chunk: string)
    ensures Batch(parse, text + chunk) == Batch(parse, text) + EventsOf(parse, Lines(Tail(text) + chunk))
    ensures Tail(text + chunk) == Tail(Tail(text) + chunk)
  {
    LinesOfConcat(text, chunk);
    EventsOfConcat(parse, Lines(text), Lines(Tail(text) + chunk));
  }

  lemma HasCompleteOfCons(events: seq<Event>)
    requires events != []
    ensures HasComplete(events) <==> IsRunComplete(events[0]) || HasComplete(events[1..])
  {
    assert forall e :: e in events <==> e == events[0] || e in events[1..];
  }

  lemma {:induction false} UpToCompleteOfConcat(a: seq<Event>, b: seq<Event>)
    ensures UpToComplete(a + b) == if HasComplete(a) then UpToComplete(a) else a + UpToComplete(b)
  {
    if a == [] {
      assert a + b == b;
    } else {
      assert (a + b)[0] == a[0] && (a + b)[1..] == a[1..] + b;
      HasCompleteOfCons(a);
      if !IsRunComplete(a[0]) {
        UpToCompleteOfConcat(a[1..], b);
        assert [a[0]] + (a[1..] + UpToComplete(b)) == a + UpToComplete(b);
      }
    }
  }

  // ---- Which lines carry an event ----

  predicate AllSpace(s: string) {
    forall c :: c in s ==> IsSpace(c)
  }

  /** Empty, or with no space at either end. */
  predicate Trimmed(s: string) {
    s != "" ==> !IsSpace(s[0]) && !IsSpace(s[|s| - 1])
  }

  /** Trimming takes away space at both ends and nothing else, and leaves none there. */
  lemma {:induction false} TrimSplits(s: string) returns (before: string, after: string)
    ensures s == before + Trim(s) + after && AllSpace(before) && AllSpace(after) && Trimmed(Trim(s))
    decreases |s|
  {
    if s == "" {
      before, after := "", "";
    } else if IsSpace(s[0]) {
      before, after := TrimSplits(s[1..]);
      before := [s[0]] + before;
      assert s == [s[0]] + s[1..];
    } else if IsSpace(s[|s| - 1]) {
      before, after := TrimSplits(s[..|s| - 1]);
      after := after + [s[|s| - 1]];
      assert s == s[..|s| - 1] + [s[|s| - 1]];
    } else {
      before, after := "", "";
    }
  }

  lemma {:induction false} TrimOfTrimmedEnd(core: string, after: string)
    requires core != "" && Trimmed(core) && AllSpace(after)
    ensures Trim(core + after) == core
    decreases |after|
  {
    var s := core + after;
    if after == "" {
      assert s == core;
    } else {
      assert s[|s| - 1] == after[|after| - 1] && after[|after| - 1] in after && forall c :: c in after[..|after| - 1] ==> c in after;
      assert s[..|s| - 1] == core + after[..|after| - 1];
      TrimOfTrimmedEnd(core, after[..|after| - 1]);
    }
  }

  lemma {:induction false} TrimOfPadded(before: string, core: string, after: string)
    requires core != "" && Trimmed(core) && AllSpace(before) && AllSpace(after)
    ensures Trim(before + core + after) == core
    decreases |before|
  {
    if before == "" {
      assert before + core + after == core + after;
      TrimOfTrimmedEnd(core, after);
    } else {
      assert before[0] in before && forall c :: c in before[1..] ==> c in before;
      assert (before + core + after)[1..] == before[1..] + core + after;
      TrimOfPadded(before[1..], core, after);
    }
  }

  predicate IsEventLine(line: string, before: string, json: string, after: string) {
    && line == "data: " + before + json + after
    && AllSpace(before) && AllSpace(after) && json != "" && Trimmed(json)
  }

  /**
   A line carries an event exactly when it is `data: `, space, a text without space at its ends that parses to the
   event, and space; every other line, also one with an empty payload or malformed JSON, carries none.
   */
  lemma EventOfIff(parse: Parser, line: string, event: Event)
    ensures |EventOf(parse, line)| <= 1
    ensures event in EventOf(parse, line) <==>
      exists before, json, after :: IsEventLine(line, before, json, after) && parse(json) == Some(event)
  {
    if before, json, after :| IsEventLine(line, before, json, after) && parse(json) == Some(event) {
      TrimOfPadded(before, json, after);
      assert line[6..] == before + json + after;
    }
    if event in EventOf(parse, line) {
      var before, after := TrimSplits(line[6..]);
      assert IsEventLine(line, before, Trim(line[6..]), after);
    }
  }

  /** One event as a server writes it: blanks around the JSON and a carriage return before the newline are harmless. */
  datatype Frame = Frame(before: string, json: string, after: string)

  predicate Blank(s: string) {
    forall c :: c in s ==> c in " \t\r"
  }

  predicate Sendable(parse: Parser, f: Frame) {
    && Blank(f.before) && Blank(f.after)
    && f.json != "" && Trimmed(f.json) && '\n' !in f.json && parse(f.json).Some?
  }

  function Wire(frames: seq<Frame>): string {
    if frames == [] then ""
    else "data: " + frames[0].before + frames[0].json + frames[0].after + "\n" + Wire(frames[1..])
  }

  function Sent(parse: Parser, frames: seq<Frame>): seq<Event>
    requires forall f :: f in frames ==> Sendable(parse, f)
  {
    if frames == [] then []
    else
      assert Sendable(parse, frames[0]);
      [parse(frames[0].json).value] + Sent(parse, frames[1..])
  }

  lemma {:induction false} LineOfNoNewline(line: string)
    requires '\n' !in line
    ensures Split(line) == [line]
  {
    if line != "" {
      assert line[0] in line && forall c :: c in line[1..] ==> c in line;
      LineOfNoNewline(line[1..]);
      assert line == [line[0]] + line[1..];
    }
  }

  lemma LinesOfLine(line: string, rest: string)
    requires '\n' !in line
    ensures Lines(line + "\n" + rest) == [line] + Lines(rest)
  {
    LineOfNoNewline(line);
    assert Lines(line) == [] && Tail(line) == line;
    assert line + "\n" + rest == line + ("\n" + rest);
    LineThenRest(line, rest);
  }

  lemma {:induction false} LineThenRest(line: string, rest: string)
    requires '\n' !in line
    ensures Lines(line + ("\n" + rest)) == [line] + Lines(rest)
  {
    if line == "" {
      assert line + ("\n" + rest) == ['\n'] + rest;
      SplitCons('\n', rest);
    } else {
      assert line[0] in line && forall c :: c in line[1..] ==> c in line;
      assert line + ("\n" + rest) == [line[0]] + (line[1..] + ("\n" + rest));
      LineThenRest(line[1..], rest);
      SplitCons(line[0], line[1..] + ("\n" + rest));
      assert [line[0]] + line[1..] == line;
    }
  }

  lemma BlankIsSpace(s: string)
    requires Blank(s)
    ensures AllSpace(s) && '\n' !in s
  {
  }

  lemma FrameIsDelivered(parse: Parser, f: Frame, rest: string)
    requires Sendable(parse, f)
    ensures Batch(parse, "data: " + f.before + f.json + f.after + "\n" + rest) == [parse(f.json).value] + Batch(parse, rest)
  {
    var line := "data: " + f.before + f.json + f.after;
    BlankIsSpace(f.before);
    BlankIsSpace(f.after);
    LinesOfLine(line, rest);
    TrimOfPadded(f.before, f.json, f.after);
    assert line[6..] == f.before + f.json + f.after;
    EventsOfConcat(parse, [line], Lines(rest));
    assert EventsOf(parse, [line]) == EventOf(parse, line);
  }

  /** Nothing sent is lost, invented, reordered or altered: reading what a server wrote gives back what it sent. */
  lemma {:induction false} SentIsDelivered(parse: Parser, frames: seq<Frame>)
    requires forall f :: f in frames ==> Sendable(parse, f)
    ensures Batch(parse, Wire(frames)) == Sent(parse, frames)
  {
    if frames != [] {
      assert Sendable(parse, frames[0]);
      assert forall f :: f in frames[1..] ==> f in frames;
      FrameIsDelivered(parse, frames[0], Wire(frames[1..]));
      SentIsDelivered(parse, frames[1..]);
    }
  }

  /** Cutting after the first completion keeps everything up to it, or everything when there is none. */
  lemma {:induction false} CutIsAtFirstComplete(events: seq<Event>)
    ensures var cut := UpToComplete(events);
      && cut <= events
      && (forall k :: 0 <= k < |cut| - 1 ==> cut[k].kind != "run_complete")
      && (cut == events || (cut != [] && cut[|cut| - 1].kind == "run_complete"))
  {
    if events != [] && !IsRunComplete(events[0]) {
      CutIsAtFirstComplete(events[1..]);
      assert events == [events[0]] + events[1..];
    }
  }

  lemma HasTerminalOfConcat(a: seq<Event>, b: seq<Event>)
    ensures HasTerminal(a + b) <==> HasTerminal(a) || HasTerminal(b)
  {
    assert forall e :: e in a + b <==> e in a || e in b;
  }

  // ---- The readers ----

  /** The line loop of `streamChat`. */
  method DeliverLines(parse: Parser, lines: seq<string>) returns (delivered: seq<Event>, sawCompletion: bool)
    ensures delivered == EventsOf(parse, lines)
    ensures sawCompletion <==> HasTerminal(delivered)
  {
    delivered, sawCompletion := [], false;
    for j := 0 to |lines|
      invariant delivered == EventsOf(parse, lines[..j])
      invariant sawCompletion <==> HasTerminal(delivered)
    {
      EventsOfSnoc(parse, lines, j);
      if DATA <= lines[j] {
        var json := Trim(lines[j][|DATA|..]);
        if json != "" {
          var parsed := parse(json);
          if parsed.Some? {
            delivered := delivered + [parsed.value];
            if IsTerminal(parsed.value) {
              sawCompletion := true;
            }
          }
        }
      }
    }
    assert lines[..|lines|] == lines;
  }

  /** The read loop of `streamChat`, with the events it delivers and whether a terminal one was among them. */
  method StreamChat(parse: Parser, chunks: seq<string>) returns (delivered: seq<Event>, sawCompletion: bool)
    ensures delivered == Batch(parse, Concat(chunks))
    ensures sawCompletion <==> HasTerminal(delivered)
  {
    var buffer := "";
    delivered, sawCompletion := [], false;
    for i := 0 to |chunks|
      invariant buffer == Tail(Concat(chunks[..i]))
      invariant delivered == Batch(parse, Concat(chunks[..i]))
      invariant sawCompletion <==> HasTerminal(delivered)
    {
      ConcatSnoc(chunks, i);
      ReadChunk(parse, Concat(chunks[..i]), chunks[i]);
      var lines := Split(buffer + chunks[i]);
      buffer := lines[|lines| - 1];
      var events, terminal := DeliverLines(parse, lines[..|lines| - 1]);
      HasTerminalOfConcat(delivered, events);
      delivered := delivered + events;
      sawCompletion := sawCompletion || terminal;
    }
    assert chunks[..|chunks|] == chunks;
  }

  /** The line loop of `streamRun`, which returns from the middle on completion. */
  method DeliverUntilComplete(parse: Parser, lines: seq<string>) returns (delivered: seq<Event>, complete: bool)
    ensures delivered == UpToComplete(EventsOf(parse, lines))
    ensures complete <==> HasComplete(EventsOf(parse, lines))
  {
    delivered, complete := [], false;
    for j := 0 to |lines|
      invariant delivered == EventsOf(parse, lines[..j])
      invariant !HasComplete(delivered)
    {
      EventsOfSnoc(parse, lines, j);
      if DATA <= lines[j] {
        var json := Trim(lines[j][|DATA|..]);
        if json != "" {
          var parsed := parse(json);
          if parsed.Some? {
            ghost var before := delivered;
            delivered := delivered + [parsed.value];
            if IsRunComplete(parsed.value) {
              complete := true;
              assert lines == lines[..j + 1] + lines[j + 1..];
              EventsOfConcat(parse, lines[..j + 1], lines[j + 1..]);
              UpToCompleteOfConcat(delivered, EventsOf(parse, lines[j + 1..]));
              UpToCompleteOfConcat(before, [parsed.value]);
              return;
            }
          }
        }
      }
    }
    assert lines[..|lines|] == lines;
    UpToCompleteOfConcat(delivered, []);
    assert delivered + [] == delivered;
  }

  /** The read loop of `streamRun`: it stops reading at the first event that completes the run. */
  method StreamRun(parse: Parser, chunks: seq<string>) returns (delivered: seq<Event>)
    ensures delivered == UpToComplete(Batch(parse, Concat(chunks)))
  {
    var buffer := "";
    delivered := [];
    for i := 0 to |chunks|
      invariant buffer == Tail(Concat(chunks[..i]))
      invariant delivered == Batch(parse, Concat(chunks[..i]))
      invariant !HasComplete(delivered)
    {
      ConcatSnoc(chunks, i);
      ReadChunk(parse, Concat(chunks[..i]), chunks[i]);
      var lines := Split(buffer + chunks[i]);
      buffer := lines[|lines| - 1];
      lines := lines[..|lines| - 1];
      var events, complete := DeliverUntilComplete(parse, lines);
      HasCompleteOfConcat(delivered, EventsOf(parse, lines));
      delivered := delivered + events;
      if complete {
        StopsWhereWholeTextStops(parse, chunks, i, lines);
        return;
      }
      AllDelivered(EventsOf(parse, lines));
    }
    assert chunks[..|chunks|] == chunks;
    AllDelivered(delivered);
  }

  lemma AllDelivered(events: seq<Event>)
    requires !HasComplete(events)
    ensures UpToComplete(events) == events
  {
    UpToCompleteOfConcat(events, []);
    assert events + [] == events;
  }

  lemma HasCompleteOfConcat(a: seq<Event>, b: seq<Event>)
    ensures HasComplete(a + b) <==> HasComplete(a) || HasComplete(b)
  {
    assert forall e :: e in a + b <==> e in a || e in b;
  }

  /** Once the text read so far completes the run, the rest of the text changes nothing. */
  lemma StopsWhereWholeTextStops(parse: Parser, chunks: seq<string>, i: nat, lines: seq<string>)
    requires i < |chunks| && lines == Lines(Tail(Concat(chunks[..i])) + chunks[i])
    requires !HasComplete(Batch(parse, Concat(chunks[..i]))) && HasComplete(EventsOf(parse, lines))
    ensures UpToComplete(Batch(parse, Concat(chunks)))
         == Batch(parse, Concat(chunks[..i])) + UpToComplete(EventsOf(parse, lines))
  {
    var rest := WholeTextInThree(parse, chunks, i, lines);
    CutInMiddle(Batch(parse, Concat(chunks[..i])), EventsOf(parse, lines), rest);
  }

  lemma WholeTextInThree(parse: Parser, chunks: seq<string>, i: nat, lines: seq<string>) returns (rest: seq<Event>)
    requires i < |chunks| && lines == Lines(Tail(Concat(chunks[..i])) + chunks[i])
    ensures Batch(parse, Concat(chunks)) == Batch(parse, Concat(chunks[..i])) + EventsOf(parse, lines) + rest
  {
    var seen, unseen := Concat(chunks[..i + 1]), Concat(chunks[i + 1..]);
    ConcatSnoc(chunks, i);
    ReadChunk(parse, Concat(chunks[..i]), chunks[i]);
    ConcatSplit(chunks, i + 1);
    ReadChunk(parse, seen, unseen);
    rest := EventsOf(parse, Lines(Tail(seen) + unseen));
  }

  lemma CutInMiddle(before: seq<Event>, events: seq<Event>, rest: seq<Event>)
    requires !HasComplete(before) && HasComplete(events)
    ensures UpToComplete(before + events + rest) == before + UpToComplete(events)
  {
    assert before + events + rest == before + (events + rest);
    UpToCompleteOfConcat(before, events + rest);
    UpToCompleteOfConcat(events, rest);
  }

  /** What was delivered at any moment is a prefix of what the whole text delivers: nothing is retracted or reordered. */
  lemma DeliveryOnlyGrows(parse: Parser, text: string, rest: string)
    ensures Batch(parse, text) <= Batch(parse, text + rest)
  {
    ReadChunk(parse, text, rest);
  }
}
