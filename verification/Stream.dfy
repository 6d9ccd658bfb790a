/** Streaming to the host: de-duplication of cumulative partial output, the terminal
    event, and the close that ends every accepted stream. */
module Stream {
  import opened Wrappers

  datatype Usage = Usage(input: int, output: int, total: int)

  /** One decoded line of stream-json output, with the text and the usage read from it. */
  datatype Line = Line(typ: string, hasResult: bool, text: string, usage: Usage)

  datatype Decoded = Value(line: Line) | Malformed

  datatype HostEvent = Delta(text: string) | Terminal(text: string, usage: Usage) | Closed(message: string)

  // ---------------------------------------------------------------- what the deltas add up to

  /** A text that extends what was sent replaces it; any other text is appended. */
  function Merge(sent: string, text: string): string { if sent <= text then text else sent + text }

  function Merged(texts: seq<string>): string {
    if texts == [] then "" else Merge(Merged(texts[..|texts| - 1]), texts[|texts| - 1])
  }

  function Concat(parts: seq<string>): string {
    if parts == [] then "" else Concat(parts[..|parts| - 1]) + parts[|parts| - 1]
  }

  /** The part of a text that has not been sent yet. */
  function Fresh(sent: string, text: string): string { if sent <= text then text[|sent|..] else text }

  function Deltas(texts: seq<string>): seq<string> {
    if texts == [] then []
    else
      var front := texts[..|texts| - 1];
      var delta := Fresh(Merged(front), texts[|texts| - 1]);
      Deltas(front) + if delta == "" then [] else [delta]
  }

  lemma ConcatSnoc(parts: seq<string>, p: string)
    ensures Concat(parts + [p]) == Concat(parts) + p
  {
    assert (parts + [p])[..|parts|] == parts;
  }

  lemma FreshCompletes(sent: string, text: string)
    ensures sent + Fresh(sent, text) == Merge(sent, text)
    ensures Fresh(sent, text) == "" ==> Merge(sent, text) == sent
  {}

  /** The deltas shown to the host concatenate to the merged text, and none is empty. */
  lemma {:induction false} DeltasRefineMerge(texts: seq<string>)
    ensures Concat(Deltas(texts)) == Merged(texts)
    ensures forall i :: 0 <= i < |Deltas(texts)| ==> Deltas(texts)[i] != ""
  {
    if texts != [] {
      var front, text := texts[..|texts| - 1], texts[|texts| - 1];
      DeltasRefineMerge(front);
      var delta := Fresh(Merged(front), text);
      FreshCompletes(Merged(front), text);
      if delta == "" {
        assert Deltas(texts) == Deltas(front);
      } else {
        ConcatSnoc(Deltas(front), delta);
      }
    }
  }

  ghost predicate Cumulative(texts: seq<string>) {
    forall i :: 0 <= i < |texts| - 1 ==> texts[i] <= texts[i + 1]
  }

  /** A cumulative stream, repeats included, arrives as exactly its last text. */
  lemma {:induction false} CumulativeIsLast(texts: seq<string>)
    requires texts != [] && Cumulative(texts)
    ensures Merged(texts) == texts[|texts| - 1]
  {
    var front := texts[..|texts| - 1];
    if front != [] {
      CumulativeIsLast(front);
      assert texts[|texts| - 2] <= texts[|texts| - 1];
    }
  }

  /** The texts at which an incremental stream is mistaken for a cumulative one. */
  ghost predicate NoOverlap(texts: seq<string>) {
    forall i :: 0 <= i < |texts| ==> Concat(texts[..i]) == "" || !(Concat(texts[..i]) <= texts[i])
  }

  lemma {:induction false} MergedIsShorter(texts: seq<string>)
    ensures |Merged(texts)| <= |Concat(texts)|
  {
    if texts != [] { MergedIsShorter(texts[..|texts| - 1]); }
  }

  /** An incremental stream arrives whole exactly when no piece starts with everything
      sent before it. */
  lemma {:induction false} IncrementalExactly(texts: seq<string>)
    ensures Merged(texts) == Concat(texts) <==> NoOverlap(texts)
  {
    if texts != [] {
      var front, text := texts[..|texts| - 1], texts[|texts| - 1];
      IncrementalExactly(front);
      MergedIsShorter(front);
      assert NoOverlap(texts) ==> NoOverlap(front) by {
        forall i | 0 <= i < |front| && NoOverlap(texts)
          ensures Concat(front[..i]) == "" || !(Concat(front[..i]) <= front[i])
        {
          assert front[..i] == texts[..i];
          assert Concat(texts[..i]) == "" || !(Concat(texts[..i]) <= texts[i]);
        }
      }
      assert NoOverlap(texts) ==> Concat(front) == "" || !(Concat(front) <= text);
      if NoOverlap(front) && (Concat(front) == "" || !(Concat(front) <= text)) {
        forall i | 0 <= i < |texts| ensures Concat(texts[..i]) == "" || !(Concat(texts[..i]) <= texts[i]) {
          if i < |front| { assert texts[..i] == front[..i]; }
        }
        assert Merged(texts) == Concat(texts);
      }
      if Merged(texts) == Concat(texts) {
        assert |Merged(texts)| <= |Merged(front)| + |text|;
        assert |Merged(front)| == |Concat(front)|;
        MergedSameLength(front);
      }
    }
  }

  /** Merging loses characters, never changes them: with nothing lost the texts agree. */
  lemma {:induction false} MergedSameLength(texts: seq<string>)
    requires |Merged(texts)| == |Concat(texts)|
    ensures Merged(texts) == Concat(texts)
  {
    if texts != [] {
      var front := texts[..|texts| - 1];
      MergedIsShorter(front);
      MergedSameLength(front);
    }
  }

  // ---------------------------------------------------------------- lines

  predicate IsResult(l: Line) { l.typ == "result" || l.hasResult }
  predicate IsPartial(l: Line) { !IsResult(l) && (l.typ == "assistant" || l.typ == "text") }

  function Partials(lines: seq<Line>): seq<string> {
    if lines == [] then []
    else
      var l := lines[|lines| - 1];
      Partials(lines[..|lines| - 1]) + if IsPartial(l) then [l.text] else []
  }

  /** The text and usage of the last result line. */
  function LastResult(lines: seq<Line>): (string, Usage) {
    if lines == [] then ("", Usage(0, 0, 0))
    else
      var l := lines[|lines| - 1];
      if IsResult(l) then (l.text, l.usage) else LastResult(lines[..|lines| - 1])
  }

  function AsDeltas(ds: seq<string>): (r: seq<HostEvent>)
    ensures |r| == |ds| && forall i :: 0 <= i < |r| ==> r[i] == Delta(ds[i])
  {
    seq(|ds|, i requires 0 <= i < |ds| => Delta(ds[i]))
  }

  // ---------------------------------------------------------------- the host and the worker

  /** The host of one stream. An emission may fail, with a text saying why. */
  class Host {
    var seen: seq<HostEvent>
    var refused: bool

    method Emit(e: HostEvent) returns (err: string)
      modifies this
      ensures err == "" ==> seen == old(seen) + [e] && refused == old(refused)
      ensures err != "" ==> seen == old(seen) && refused
    {
      var accepted: bool := *;
      if accepted {
        seen := seen + [e];
        err := "";
      } else {
        refused := true;
        err := "emit failed";
      }
    }

    method CloseOutput(message: string)
      modifies `seen
      ensures seen == old(seen) + [Closed(message)]
    {
      seen := seen + [Closed(message)];
    }
  }

  /** The lines before the first malformed one. */
  function Lines(input: seq<Decoded>): seq<Line> {
    if input == [] || input[0].Malformed? then [] else [input[0].line] + Lines(input[1..])
  }

  /** What a stream has shown when the reader of its output returns: all deltas and the
      terminal event, or an error and an initial part of the deltas. Unless the host
      refused an event, an error means malformed output or no result text, and all deltas
      up to there were shown. */
  ghost predicate Shown(events: seq<HostEvent>, input: seq<Decoded>, err: string, refused: bool) {
    var ds := AsDeltas(Deltas(Partials(Lines(input))));
    var last := LastResult(Lines(input));
    if err == "" then |Lines(input)| == |input| && last.0 != "" && events == ds + [Terminal(last.0, last.1)]
    else events <= ds && (!refused ==> events == ds && (|Lines(input)| < |input| || last.0 == ""))
  }

  // ---------------------------------------------------------------- the same, on the fields of the lines

  /** The lines whose text is streamed: of type assistant or text, and no result. */
  ghost predicate TextLines(lines: seq<Line>, at: seq<nat>) {
    && (forall a, b :: 0 <= a < b < |at| ==> at[a] < at[b])
    && forall i: nat :: i in at <==>
         && i < |lines| && (lines[i].typ == "assistant" || lines[i].typ == "text")
         && lines[i].typ != "result" && !lines[i].hasResult
  }

  ghost predicate Inside(lines: seq<Line>, at: seq<nat>) { forall k :: 0 <= k < |at| ==> at[k] < |lines| }

  ghost function TextsAt(lines: seq<Line>, at: seq<nat>): seq<string>
    requires Inside(lines, at)
  {
    seq(|at|, k requires 0 <= k < |at| => lines[at[k]].text)
  }

  /** The last line of type result or with a result field. */
  ghost predicate LastResultLine(lines: seq<Line>, k: int) {
    && 0 <= k < |lines|
    && forall i :: k <= i < |lines| ==> (i == k <==> lines[i].typ == "result" || lines[i].hasResult)
  }

  lemma InsideTextLines(lines: seq<Line>, at: seq<nat>)
    requires TextLines(lines, at)
    ensures Inside(lines, at)
  {
    forall k | 0 <= k < |at| ensures at[k] < |lines| { assert at[k] in at; }
  }

  lemma {:induction false} PartialsAre(lines: seq<Line>) returns (at: seq<nat>)
    ensures TextLines(lines, at) && Inside(lines, at) && Partials(lines) == TextsAt(lines, at)
  {
    if lines == [] {
      at := [];
    } else {
      var front, n := lines[..|lines| - 1], |lines| - 1;
      at := PartialsAre(front);
      ghost var was := at;
      var l := lines[n];
      if (l.typ == "assistant" || l.typ == "text") && !l.hasResult { at := at + [n]; }
      forall i: nat ensures i in at <==> i in was || (i == n && |at| > |was|) {}
      forall i: nat | i < n ensures lines[i] == front[i] {}
      InsideTextLines(lines, at);
      assert TextsAt(lines, at) == TextsAt(front, was) + if |at| > |was| then [l.text] else [];
    }
  }

  lemma {:induction false} LastResultIs(lines: seq<Line>)
    ensures forall k :: LastResultLine(lines, k) ==> LastResult(lines) == (lines[k].text, lines[k].usage)
    ensures LastResult(lines).0 != "" ==> exists k :: LastResultLine(lines, k)
  {
    if lines != [] {
      var front, n := lines[..|lines| - 1], |lines| - 1;
      LastResultIs(front);
      forall i | 0 <= i < n ensures front[i] == lines[i] {}
      if lines[n].typ == "result" || lines[n].hasResult {
        assert LastResultLine(lines, n);
      } else {
        forall k ensures LastResultLine(lines, k) <==> LastResultLine(front, k) {}
      }
    }
  }

  /** The lines read are those before the first malformed one. */
  lemma {:induction false} LinesAre(input: seq<Decoded>)
    ensures |Lines(input)| <= |input|
    ensures forall i :: 0 <= i < |Lines(input)| ==> input[i] == Value(Lines(input)[i])
    ensures |Lines(input)| < |input| ==> input[|Lines(input)|].Malformed?
  {
    if input != [] && input[0].Value? { LinesAre(input[1..]); }
  }

  ghost predicate Decodes(input: seq<Decoded>, lines: seq<Line>) {
    |lines| == |input| && forall i :: 0 <= i < |input| ==> input[i] == Value(lines[i])
  }

  function DeltaTexts(events: seq<HostEvent>): seq<string> {
    seq(|events|, i requires 0 <= i < |events| => if events[i].Delta? then events[i].text else "")
  }

  /** A stream without error: every line was well formed; the deltas add up to the texts of the
      text lines, merged; and then came the text and usage of the last result line. */
  ghost predicate Told(events: seq<HostEvent>, input: seq<Decoded>) {
    exists lines, at, k :: ToldBy(events, input, lines, at, k)
  }

  ghost predicate ToldBy(events: seq<HostEvent>, input: seq<Decoded>, lines: seq<Line>, at: seq<nat>, k: int) {
    && Decodes(input, lines) && TextLines(lines, at) && Inside(lines, at) && LastResultLine(lines, k)
    && events != [] && events[|events| - 1] == Terminal(lines[k].text, lines[k].usage)
    && (forall i :: 0 <= i < |events| - 1 ==> events[i].Delta? && events[i].text != "")
    && Concat(DeltaTexts(events[..|events| - 1])) == Merged(TextsAt(lines, at))
  }

  /** What is shown when nothing went wrong, told on the fields of the lines. */
  lemma ShownTells(events: seq<HostEvent>, input: seq<Decoded>, refused: bool)
    requires Shown(events, input, "", refused)
    ensures Told(events, input)
  {
    var lines := Lines(input);
    LinesAre(input);
    var at := PartialsAre(lines);
    LastResultIs(lines);
    var k :| LastResultLine(lines, k);
    DeltasRefineMerge(Partials(lines));
    assert events[..|events| - 1] == AsDeltas(Deltas(Partials(lines)));
    assert DeltaTexts(events[..|events| - 1]) == Deltas(Partials(lines));
    assert ToldBy(events, input, lines, at, k);
  }

  /** Well-formed lines the last result of which has a text leave only the host to object. */
  lemma WellFormedSucceeds(events: seq<HostEvent>, input: seq<Decoded>, err: string, refused: bool,
                           lines: seq<Line>, k: int)
    requires Shown(events, input, err, refused)
    requires Decodes(input, lines) && LastResultLine(lines, k) && lines[k].text != ""
    ensures refused || err == ""
  {
    LinesAre(input);
    assert Lines(input) == lines;
    LastResultIs(lines);
  }

  /** One assistant line before the result arrives as one delta. */
  lemma OneLineOneDelta(events: seq<HostEvent>, a: Line, r: Line, refused: bool)
    requires Shown(events, [Value(a), Value(r)], "", refused)
    requires a.typ == "assistant" && !a.hasResult && a.text != "" && r.typ == "result"
    ensures events == [Delta(a.text), Terminal(r.text, r.usage)]
  {
    LinesAre([Value(a), Value(r)]);
    assert Lines([Value(a), Value(r)]) == [] + [a] + [r];
    PartialsSnoc([], a);
    PartialsSnoc([] + [a], r);
    LastResultSnoc([] + [a], r);
    DeltasSnoc([], a.text);
    assert Partials([] + [a] + [r]) == [] + [a.text] && Deltas([] + [a.text]) == [a.text];
  }

  function FreshDelta(sent: string, text: string): seq<string> {
    var d := Fresh(sent, text);
    if d == "" then [] else [d]
  }

  /** Where the reader stands: the text sent, the events shown, the result to end with. */
  datatype Reader = Reader(sent: string, shown: seq<HostEvent>, terminal: string, usage: Usage)

  function ReadLine(r: Reader, l: Line): Reader {
    if IsResult(l) then r.(terminal := l.text, usage := l.usage)
    else if IsPartial(l) then r.(sent := Merge(r.sent, l.text), shown := r.shown + AsDeltas(FreshDelta(r.sent, l.text)))
    else r
  }

  function ReadFrom(r: Reader, lines: seq<Line>): Reader
    decreases |lines|
  {
    if lines == [] then r else ReadFrom(ReadLine(r, lines[0]), lines[1..])
  }

  const BEGIN: Reader := Reader("", [], "", Usage(0, 0, 0))

  /** Where a reader has to stand after some lines: the merged text, its deltas and the last
      result. */
  function ReaderAfter(lines: seq<Line>): Reader {
    var texts, last := Partials(lines), LastResult(lines);
    Reader(Merged(texts), AsDeltas(Deltas(texts)), last.0, last.1)
  }

  /** Line by line, the reader computes the deltas and the last result. */
  lemma {:induction false} ReaderRefines(done: seq<Line>, rest: seq<Line>, r: Reader)
    requires r == ReaderAfter(done)
    ensures ReadFrom(r, rest) == ReaderAfter(done + rest)
    decreases |rest|
  {
    if rest == [] {
      assert done + rest == done;
    } else {
      LineRefines(done, rest[0], r);
      ReaderRefines(done + [rest[0]], rest[1..], ReadLine(r, rest[0]));
      assert done + [rest[0]] + rest[1..] == done + rest;
    }
  }

  lemma LineRefines(done: seq<Line>, l: Line, r: Reader)
    requires r == ReaderAfter(done)
    ensures ReadLine(r, l) == ReaderAfter(done + [l])
  {
    var texts := Partials(done);
    PartialsSnoc(done, l);
    LastResultSnoc(done, l);
    if IsPartial(l) {
      DeltasSnoc(texts, l.text);
      var unsent := FreshDelta(Merged(texts), l.text);
      assert AsDeltas(Deltas(texts) + unsent) == AsDeltas(Deltas(texts)) + AsDeltas(unsent);
    }
  }

  lemma PartialsSnoc(lines: seq<Line>, l: Line)
    ensures Partials(lines + [l]) == if IsPartial(l) then Partials(lines) + [l.text] else Partials(lines)
  {
    assert (lines + [l])[..|lines|] == lines && Partials(lines) + [] == Partials(lines);
  }

  lemma LastResultSnoc(lines: seq<Line>, l: Line)
    ensures LastResult(lines + [l]) == if IsResult(l) then (l.text, l.usage) else LastResult(lines)
  {
    assert (lines + [l])[..|lines|] == lines;
  }

  lemma DeltasSnoc(texts: seq<string>, text: string)
    ensures Merged(texts + [text]) == Merge(Merged(texts), text)
    ensures Deltas(texts + [text]) == Deltas(texts) + FreshDelta(Merged(texts), text)
  {
    assert (texts + [text])[..|texts|] == texts;
  }

  /** Reading on only ever shows more. */
  lemma {:induction false} ShownGrows(r: Reader, lines: seq<Line>)
    ensures r.shown <= ReadFrom(r, lines).shown
    decreases |lines|
  {
    if lines != [] { ShownGrows(ReadLine(r, lines[0]), lines[1..]); }
  }

  /** Shows the host the part of a text it has not seen. */
  method EmitFresh(host: Host, emitted: string, text: string) returns (sent: string, err: string)
    modifies host
    ensures if err == ""
            then && sent == Merge(emitted, text) && host.refused == old(host.refused)
                 && host.seen == old(host.seen) + AsDeltas(FreshDelta(emitted, text))
            else host.seen == old(host.seen) && host.refused
  {
    if text == "" { return emitted, ""; }
    var delta := text;
    if emitted <= text { delta := text[|emitted|..]; }
    if delta == "" { return emitted, ""; }
    err := host.Emit(Delta(delta));
    sent := emitted + delta;
  }

  /** What the decoding loop has shown when it ends, and what it has to end with. */
  ghost predicate ReadOut(input: seq<Decoded>, was: seq<HostEvent>, seen: seq<HostEvent>, refused: bool,
    terminal: string, usage: Usage, err: string)
  {
    var final := ReadFrom(BEGIN, Lines(input));
    && was <= seen <= was + final.shown
    && (err == "" ==> |Lines(input)| == |input| && terminal == final.terminal && usage == final.usage)
    && (err == "" || !refused ==> seen == was + final.shown)
    && (err != "" && !refused ==> |Lines(input)| < |input|)
  }

  /** Where the decoding loop stands before a line. */
  ghost predicate ReadUpTo(input: seq<Decoded>, i: nat, r: Reader) {
    && i <= |input| && ReadFrom(r, Lines(input[i..])) == ReadFrom(BEGIN, Lines(input))
    && |Lines(input)| == i + |Lines(input[i..])|
  }

  lemma ReadMore(input: seq<Decoded>, i: nat, r: Reader)
    requires i < |input| && ReadUpTo(input, i, r)
    ensures r.shown <= ReadFrom(BEGIN, Lines(input)).shown
    ensures if input[i].Malformed? then |Lines(input)| < |input| && r.shown == ReadFrom(BEGIN, Lines(input)).shown
            else ReadUpTo(input, i + 1, ReadLine(r, input[i].line))
  {
    ShownGrows(r, Lines(input[i..]));
    assert input[i..][1..] == input[i + 1..];
  }

  /** The decoding loop. */
  method ReadAll(host: Host, input: seq<Decoded>) returns (terminal: string, usage: Usage, err: string)
    modifies host
    ensures ReadOut(input, old(host.seen), host.seen, host.refused, terminal, usage, err)
    ensures err == "" ==> host.refused == old(host.refused)
  {
    ghost var start := host.seen;
    var emitted := "";
    terminal, usage, err := "", Usage(0, 0, 0), "";
    ghost var r := BEGIN;
    var i := 0;
    while i < |input|
      invariant 0 <= i <= |input| && err == "" && host.refused == old(host.refused)
      invariant r == Reader(emitted, r.shown, terminal, usage) && host.seen == start + r.shown
      invariant ReadUpTo(input, i, r)
    {
      ReadMore(input, i, r);
      if input[i].Malformed? { err := "malformed JSON"; return; }
      var line := input[i].line;
      if line.typ == "result" || line.hasResult {
        terminal, usage := line.text, line.usage;
      } else if line.typ == "assistant" || line.typ == "text" {
        emitted, err := EmitFresh(host, emitted, line.text);
        if err != "" { return; }
      }
      r := ReadLine(r, line);
      i := i + 1;
    }
  }

  /** streamCursorJSON */
  method StreamCursorJSON(host: Host, input: seq<Decoded>) returns (err: string)
    modifies host
    ensures old(host.seen) <= host.seen
    ensures Shown(host.seen[|old(host.seen)|..], input, err, host.refused)
    ensures err == "" ==> Told(host.seen[|old(host.seen)|..], input)
  {
    ghost var start := host.seen;
    var terminal, usage;
    terminal, usage, err := ReadAll(host, input);
    ghost var final := ReadFrom(BEGIN, Lines(input));
    if err == "" {
      if terminal == "" {
        err := "missing result";
      } else {
        err := host.Emit(Terminal(terminal, usage));
      }
    }
    ghost var shown := host.seen[|start|..];
    assert shown <= final.shown || shown == final.shown + [Terminal(terminal, usage)];
    FinalMeans(input, shown, err, host.refused);
    if err == "" { ShownTells(shown, input, host.refused); }
  }

  lemma FinalMeans(input: seq<Decoded>, shown: seq<HostEvent>, err: string, refused: bool)
    requires var f := ReadFrom(BEGIN, Lines(input));
             if err == ""
             then && |Lines(input)| == |input| && f.terminal != ""
                  && shown == f.shown + [Terminal(f.terminal, f.usage)]
             else && shown <= f.shown
                  && (!refused ==> shown == f.shown && (|Lines(input)| < |input| || f.terminal == ""))
    ensures Shown(shown, input, err, refused)
  {
    ReaderRefines([], Lines(input), BEGIN);
    assert [] + Lines(input) == Lines(input);
  }

  /** The whole conversation of an accepted stream: deltas, at most one terminal event,
      exactly one close. */
  ghost predicate Conversation(events: seq<HostEvent>) {
    && events != [] && events[|events| - 1].Closed?
    && (forall i :: 0 <= i < |events| - 1 ==> !events[i].Closed?)
    && (forall i :: 0 <= i < |events| - 2 ==> events[i].Delta? && events[i].text != "")
    && (|events| >= 2 ==>
          events[|events| - 2].Terminal? || (events[|events| - 2].Delta? && events[|events| - 2].text != ""))
    && (events[|events| - 1].message == "" <==> |events| >= 2 && events[|events| - 2].Terminal?)
  }

  /** The goroutine of ExecuteStream. The agent either failed, with a text, or left its
      decoded output. */
  method StreamWorker(host: Host, agent: Result<seq<Decoded>, string>)
    requires agent.Err? ==> agent.error != ""
    modifies host
    ensures old(host.seen) <= host.seen && Whole(host.seen[|old(host.seen)|..], agent, host.refused)
  {
    ghost var start := host.seen;
    var message := Produce(host, agent);
    ghost var shown := host.seen[|start|..];
    host.CloseOutput(message);
    assert host.seen[|start|..] == shown + [Closed(message)];
    ClosedIsWhole(shown, agent, message, host.refused);
  }

  /** What the goroutine shows before it closes, and the message it will close with. */
  ghost predicate Produced(shown: seq<HostEvent>, agent: Result<seq<Decoded>, string>, message: string, refused: bool) {
    match agent
    case Err(e) => shown == [] && message == e
    case Ok(input) => Shown(shown, input, message, refused)
  }

  method Produce(host: Host, agent: Result<seq<Decoded>, string>) returns (message: string)
    modifies host
    ensures old(host.seen) <= host.seen
    ensures Produced(host.seen[|old(host.seen)|..], agent, message, host.refused)
  {
    match agent
    case Err(e) => message := e;
    case Ok(input) => message := StreamCursorJSON(host, input);
  }

  /** Every line is well formed and the last result has a text. */
  ghost predicate WellEnded(input: seq<Decoded>) {
    exists lines: seq<Line>, k: int :: Decodes(input, lines) && LastResultLine(lines, k) && lines[k].text != ""
  }

  /** All that the host sees of an accepted stream: a complete conversation. It closes without a
      message only after showing the texts of the agent's text lines and its last result, and
      does so whenever the output is well formed, ends in a result and all of it was taken. A
      failed agent shows nothing and closes with its error. */
  ghost predicate Whole(events: seq<HostEvent>, agent: Result<seq<Decoded>, string>, refused: bool) {
    && Conversation(events)
    && (agent.Err? ==> events == [Closed(agent.error)])
    && (agent.Ok? && events[|events| - 1].message == "" ==> Told(events[..|events| - 1], agent.value))
    && (agent.Ok? && WellEnded(agent.value) && !refused ==> events[|events| - 1].message == "")
  }

  lemma ClosedIsWhole(shown: seq<HostEvent>, agent: Result<seq<Decoded>, string>, message: string, refused: bool)
    requires Produced(shown, agent, message, refused) && (agent.Err? ==> agent.error != "")
    ensures Whole(shown + [Closed(message)], agent, refused)
  {
    var events := shown + [Closed(message)];
    assert events[..|events| - 1] == shown;
    if agent.Ok? {
      ShownConverses(shown, agent.value, message, refused);
      if message == "" { ShownTells(shown, agent.value, refused); }
      if WellEnded(agent.value) {
        var lines: seq<Line>, k: int :| Decodes(agent.value, lines) && LastResultLine(lines, k) && lines[k].text != "";
        WellFormedSucceeds(shown, agent.value, message, refused, lines, k);
      }
    }
  }

  lemma ShownConverses(shown: seq<HostEvent>, input: seq<Decoded>, err: string, refused: bool)
    requires Shown(shown, input, err, refused)
    ensures Conversation(shown + [Closed(err)])
  {
    DeltasRefineMerge(Partials(Lines(input)));
  }
}
