/** The batch extractor for a whole event-stream body, and its agreement with the incremental decoder. */
module CodexBatch {
  import opened Text
  import opened Sse
  import opened Responses
  import opened Decoder
  import opened Certified

  datatype TerminalText = Embedded(text: string) | StreamedOnly

  datatype BatchState = BatchState(deltas: string, doneText: Option<string>, terminal: Option<TerminalText>)

  const NO_EVENTS := BatchState("", None, None)

  const DATA := "data:"

  /** The text of a listed output, when it is complete and visible. */
  function TerminalOf(r: Response): Option<TerminalText> {
    if !r.output.Present? || r.status != Present("completed") then None
    else if r.output.value == [] then Some(StreamedOnly)
    else if HasText(OutputText(r.output.value)) then Some(Embedded(OutputText(r.output.value)))
    else None
  }

  function EventStep(env: Env, b: BatchState, v: Value): Option<BatchState> {
    match v.kind
    case Present(kind) =>
      (match kind
       case OutputTextDelta => if v.delta.Present? then Some(b.(deltas := b.deltas + v.delta.value)) else None
       case OutputTextDone => if v.text.Present? then Some(b.(doneText := Some(v.text.value))) else None
       case ResponseCompleted =>
         if b.terminal.Some? || !v.response.Present? then None
         else
           (match TerminalOf(v.response.value) case None => None case Some(t) => Some(b.(terminal := Some(t))))
       case ResponseFailed => None
       case ResponseIncomplete => None
       case ErrorEvent => None
       case Other(_) => Some(b))
    case _ => None
  }

  function DataStep(env: Env, b: BatchState, data: string): Option<BatchState> {
    if Trim(data) == "" || Trim(data) == "[DONE]" then Some(b)
    else match env.parse(Trim(data)) case None => None case Some(v) => EventStep(env, b, v)
  }

  function BatchLine(env: Env, b: BatchState, line: string): Option<BatchState> {
    if DATA <= line then DataStep(env, b, line[5..]) else Some(b)
  }

  function BatchLines(env: Env, b: BatchState, lines: seq<string>): Option<BatchState>
    decreases |lines|
  {
    if lines == [] then Some(b)
    else match BatchLine(env, b, lines[0]) case None => None case Some(b1) => BatchLines(env, b1, lines[1..])
  }

  /** The extractor's verdict on a body. */
  function Extract(utf8: Utf8, env: Env, body: seq<Byte>): Option<string>
    requires BodyLines(utf8, body).Some?
  {
    match BatchLines(env, NO_EVENTS, BodyLines(utf8, body).value)
    case None => None
    case Some(BatchState(deltas, doneText, terminal)) =>
      match terminal
      case None => None
      case Some(Embedded(text)) =>
        if (doneText.Some? && doneText.value != text) || (deltas != "" && deltas != text) then None else Some(text)
      case Some(StreamedOnly) =>
        match PushChunk(utf8, env, StreamState(FRESH, InitialState(true)), body)
        case None => None
        case Some((s, streamed)) =>
          match FinishCheck(s.sse, s.text)
          case None => None
          case Some(t) =>
            if t.fallbackText.Some? || !HasText(Concat(streamed)) then None else Some(Concat(streamed))
  }

  /** The body is text: every line of it decodes. */
  method ExtractCodexSseText(utf8: Utf8, env: Env, body: seq<Byte>) returns (r: Result<string, ()>)
    requires BodyLines(utf8, body).Some?
    ensures r == match Extract(utf8, env, body) case None => Err(()) case Some(text) => Ok(text)
  {
    hide TrimStart, HasText, PushChunk;
    var lines := BodyLines(utf8, body).value;
    var deltas: string, doneText: Option<string>, terminal: Option<TerminalText> := "", None, None;
    for i := 0 to |lines|
      invariant BatchLines(env, NO_EVENTS, lines) == BatchLines(env, BatchState(deltas, doneText, terminal), lines[i..])
    {
      assert lines[i..][0] == lines[i] && lines[i..][1..] == lines[i + 1..];
      var line := lines[i];
      if !(DATA <= line) { continue; }
      var data := Trim(line[5..]);
      if data == "" || data == "[DONE]" { continue; }
      var parsed := env.parse(data);
      if parsed.None? || !parsed.value.kind.Present? { return Err(()); }
      var value := parsed.value;
      match value.kind.value {
        case OutputTextDelta =>
          if !value.delta.Present? { return Err(()); }
          deltas := deltas + value.delta.value;
        case OutputTextDone =>
          if !value.text.Present? { return Err(()); }
          doneText := Some(value.text.value);
        case ResponseCompleted =>
          if terminal.Some? || !value.response.Present? { return Err(()); }
          var found := TerminalOf(value.response.value);
          if found.None? { return Err(()); }
          terminal := found;
        case ResponseFailed => return Err(());
        case ResponseIncomplete => return Err(());
        case ErrorEvent => return Err(());
        case Other(_) =>
      }
    }
    assert lines[|lines|..] == [];
    match terminal {
      case None => r := Err(());
      case Some(Embedded(text)) =>
        if (doneText.Some? && doneText.value != text) || (deltas != "" && deltas != text) { return Err(()); }
        r := Ok(text);
      case Some(StreamedOnly) =>
        var decoder := new ResponsesSseDecoder(utf8, env, true);
        var pushed := decoder.Push(body);
        if pushed.Err? { return Err(()); }
        var text := Concat(pushed.value);
        var finished := decoder.Finish();
        if finished.Err? || finished.value.fallbackText.Some? { return Err(()); }
        TrimShape(text);
        r := if Trim(text) == "" then Err(()) else Ok(text);
    }
  }

  // ---- Agreement ----

  /** What a JSON parser owes its callers here: surrounding white space never changes a value. */
  ghost predicate JsonLike(parse: string -> Option<Value>) {
    && parse("").None? && parse("[DONE]").None?
    && forall s {:trigger parse(Trim(s))} :: parse(s).Some? ==> parse(Trim(s)) == parse(s)
  }

  /** No message collects a second data line. */
  predicate SingleData(f: Fields, lines: seq<string>)
    decreases |lines|
  {
    |f.dataLines| <= 1 && (lines != [] ==> SingleData(LineStep(f, lines[0]).0, lines[1..]))
  }

  function BatchMessages(env: Env, b: BatchState, ms: seq<SseMessage>): Option<BatchState>
    decreases |ms|
  {
    if ms == [] then Some(b)
    else match DataStep(env, b, ms[0].data) case None => None case Some(b1) => BatchMessages(env, b1, ms[1..])
  }

  lemma TrimDropsLeadingSpace(s: string)
    requires s != "" && IsWhitespace(s[0])
    ensures Trim(s[1..]) == Trim(s)
  {}

  /** A `data` field of the parser is a `data:` line of the extractor, up to white space. */
  lemma DataLines(env: Env, b: BatchState, f: Fields, line: string)
    ensures var f' := LineStep(f, line).0;
            if f'.dataLines == f.dataLines + [FieldValue(line)]
            then BatchLine(env, b, line) == DataStep(env, b, FieldValue(line))
            else BatchLine(env, b, line) == Some(b)
    ensures LineStep(f, line).1 != [] ==> line == "" && LineStep(f, line).0 == NO_FIELDS && f.dataLines != []
    ensures line != "" ==> LineStep(f, line).0.dataLines in {f.dataLines, f.dataLines + [FieldValue(line)]}
    ensures line == "" ==> LineStep(f, line).0 == NO_FIELDS
  {
    hide DataStep, FieldName;
    DataPrefix(line);
    if DATA <= line {
      assert IndexOf(line, ':') == Some(4);
      DataStepIgnoresSpace(env, b, line[5..]);
    } else {
      EmptyData(env, b);
    }
  }

  lemma DataPrefix(line: string)
    ensures DATA <= line <==> IndexOf(line, ':') == Some(4) && FieldName(line) == "data"
    ensures FieldName(line) == "data" ==> DATA <= line || IndexOf(line, ':').None?
    ensures DATA <= line ==> line[0] != ':'
  {
    if DATA <= line {
      assert line[..4] == "data" && line[4] == ':';
      IndexAt(line, ':', 4);
    }
    if IndexOf(line, ':').Some? && FieldName(line) == "data" {
      assert line == line[..4] + [':'] + line[5..];
      assert "data" + [':'] == DATA;
    }
  }

  lemma EmptyData(env: Env, b: BatchState)
    ensures DataStep(env, b, "") == Some(b)
  {
    assert Trim("") == "";
  }

  lemma DataStepIgnoresSpace(env: Env, b: BatchState, raw: string)
    ensures raw != "" && raw[0] == ' ' ==> DataStep(env, b, raw[1..]) == DataStep(env, b, raw)
  {
    if raw != "" && raw[0] == ' ' { TrimDropsLeadingSpace(raw); }
  }

  /** Reading lines as the extractor does is reading messages, when each message has one data line. */
  lemma {:induction false} LinesAsMessages(env: Env, b: BatchState, f: Fields, lines: seq<string>)
    requires SingleData(f, lines) && FoldLines(f, lines).0 == NO_FIELDS
    ensures var ms := FoldLines(f, lines).1;
            if f.dataLines == [] then BatchLines(env, b, lines) == BatchMessages(env, b, ms)
            else ms != [] && ms[0].data == f.dataLines[0] && BatchLines(env, b, lines) == BatchMessages(env, b, ms[1..])
    decreases |lines|
  {
    hide DataStep, LineStep;
    if lines != [] {
      var line, rest := lines[0], lines[1..];
      var (f1, out) := LineStep(f, line);
      DataLines(env, b, f, line);
      var more := FoldLines(f1, rest).1;
      if line == "" {
        LinesAsMessages(env, b, f1, rest);
        BlankLine(f);
        assert out == [] ==> out + more == more;
        assert out != [] ==> (out + more)[1..] == more;
      } else {
        assert out + more == more;
        if f1.dataLines == f.dataLines {
          assert f1.dataLines != f.dataLines + [FieldValue(line)];
          LinesAsMessages(env, b, f1, rest);
        } else {
          assert f.dataLines == [] && f1.dataLines == [FieldValue(line)];
          var step := DataStep(env, b, FieldValue(line));
          if step.Some? { LinesAsMessages(env, step.value, f1, rest); } else { LinesAsMessages(env, b, f1, rest); }
        }
      }
    }
  }

  lemma BlankLine(f: Fields)
    requires |f.dataLines| <= 1
    ensures LineStep(f, "") == (NO_FIELDS, if f.dataLines == [] then [] else [SseMessage(f.event, f.dataLines[0])])
  {}

  function Latest(before: Option<string>, texts: seq<string>): Option<string> {
    if texts == [] then before else Some(texts[|texts| - 1])
  }

  function TerminalTextOf(env: Env, m: SseMessage): Option<TerminalText> {
    match TerminalResponse(env, m) case None => None case Some(r) => TerminalOf(r)
  }

  /** A response the decoder accepts is one the extractor accepts. */
  lemma TerminalAccepted(env: Env, s: DecoderState, r: Response)
    requires CheckCompleted(env, s, r).Some?
    ensures TerminalOf(r).Some?
  {
    hide FinalsAgree, EmptyOutputAllowed, HasText;
    if r.output.value != [] {
      FinalPartsOrdered(r.output.value, 0);
      assert r.output.value[0..] == r.output.value;
    }
  }

  /** On an accepted message the extractor makes the same move as the decoder. */
  lemma StepFollows(env: Env, s: DecoderState, m: SseMessage, b: BatchState)
    requires JsonLike(env.parse) && b.terminal.None? && s.completed.None? && MessageStep(env, s, m).Some?
    ensures var (s1, d) := MessageStep(env, s, m).value;
            && DataStep(env, b, m.data) == Some(BatchState(
                 b.deltas + Default(d), Latest(b.doneText, DoneText(env, m)),
                 if s1.completed.Some? then TerminalTextOf(env, m) else None))
            && (s1.completed.Some? ==> TerminalTextOf(env, m).Some?)
  {
    hide Address, NameMismatch, Trim, CheckCompleted, TerminalOf, Fingerprint, DeltaFingerprint, HasText;
    var v := env.parse(m.data).value;
    var s1 := MessageStep(env, s, m).value.0;
    assert env.parse(Trim(m.data)) == Some(v);
    StepCompletes(env, s, m);
    AddressKeeps(s, v);
    if s1.completed.Some? { TerminalAccepted(env, s, v.response.value); }
    assert b.deltas + "" == b.deltas;
  }

  lemma {:induction false} BatchFollows(env: Env, s: DecoderState, ms: seq<SseMessage>, b: BatchState)
    requires JsonLike(env.parse) && b.terminal.None? && s.completed.None? && RunMessages(env, s, ms).Some?
    ensures var (s', deltas) := RunMessages(env, s, ms).value;
            s'.completed.Some? ==>
              && ms != [] && TerminalTextOf(env, ms[|ms| - 1]).Some?
              && BatchMessages(env, b, ms) == Some(BatchState(
                   b.deltas + Concat(deltas), Latest(b.doneText, DoneTexts(env, ms)),
                       TerminalTextOf(env, ms[|ms| - 1])))
    decreases |ms|
  {
    hide MessageStep, DataStep, JsonLike, DoneText, TerminalTextOf;
    if ms != [] {
      var (s1, d) := MessageStep(env, s, ms[0]).value;
      StepFollows(env, s, ms[0], b);
      var b1 := DataStep(env, b, ms[0].data).value;
      var (s2, more) := RunMessages(env, s1, ms[1..]).value;
      var here := if d.Some? then [d.value] else [];
      ConcatAppend(here, more);
      if d.Some? { ConcatOne(d.value); }
      if s1.completed.Some? {
        NothingAfterTerminal(env, s1, ms[1..]);
        assert ms == [ms[0]] && more == [];
        assert DoneText(env, ms[0]) + [] == DoneText(env, ms[0]);
        assert Default(d) + "" == Default(d);
      } else if s2.completed.Some? {
        BatchFollows(env, s1, ms[1..], b1);
        assert b.deltas + (Default(d) + Concat(more)) == (b.deltas + Default(d)) + Concat(more);
      }
    }
  }

  /** The messages an accepted body dispatches. */
  function Messages(utf8: Utf8, body: seq<Byte>): seq<SseMessage> {
    var fed := Feed(utf8, FRESH, body);
    if fed.Some? then fed.value.1 else []
  }

  /** Whether the terminal message lists its output; None when there is no terminal message. */
  function TerminalListed(env: Env, ms: seq<SseMessage>): Option<bool> {
    if ms == [] then None
    else match TerminalResponse(env, ms[|ms| - 1]) case None => None case Some(r) => Some(r.output != Present([]))
  }

  /** The text the incremental Codex decoder delivers for a whole body, if it accepts the body. */
  function Streamed(utf8: Utf8, env: Env, body: seq<Byte>): Option<string> {
    match PushChunk(utf8, env, StreamState(FRESH, InitialState(true)), body)
    case None => None
    case Some((s, deltas)) =>
      match FinishCheck(s.sse, s.text) case None => None case Some(t) => Some(Delivered(deltas, t))
  }

  /** Whether a body's text is spread over several parts: some part before the last one has text. */
  predicate Spread(dones: seq<string>) {
    exists i :: 0 <= i < |dones| - 1 && dones[i] != ""
  }

  lemma {:induction false} LastIsAll(texts: seq<string>)
    requires texts != []
    ensures |Concat(texts)| >= |texts[|texts| - 1]|
    ensures texts[|texts| - 1] == Concat(texts) <==> !Spread(texts)
    decreases |texts|
  {
    if |texts| == 1 {
      ConcatOne(texts[0]);
    } else {
      LastIsAll(texts[1..]);
      assert Concat(texts) == texts[0] + Concat(texts[1..]);
      assert texts[0] == "" ==> texts[0] + Concat(texts[1..]) == Concat(texts[1..]);
      if Spread(texts[1..]) {
        var i :| 0 <= i < |texts[1..]| - 1 && texts[1..][i] != "";
        assert texts[i + 1] != "";
      }
      if Spread(texts) && texts[0] == "" {
        var i :| 0 <= i < |texts| - 1 && texts[i] != "";
        assert texts[1..][i - 1] != "";
      }
    }
  }

  /**
   * On a body the incremental decoder accepts, one data line per message, the extractor either
   * yields the very same text or rejects; it rejects exactly when the terminal output lists the
   * text and a part before the last one has text of its own.
   */
  lemma ExtractorAgrees(utf8: Utf8, env: Env, body: seq<Byte>)
    requires Injective(env.digest) && JsonLike(env.parse)
    requires Streamed(utf8, env, body).Some?
    requires BodyLines(utf8, body).Some? ==> SingleData(NO_FIELDS, BodyLines(utf8, body).value)
    ensures BodyLines(utf8, body).Some?
    ensures var ms := Messages(utf8, body);
            var text := Streamed(utf8, env, body).value;
            && TerminalListed(env, ms).Some?
            && Extract(utf8, env, body) == if TerminalListed(env, ms).value && Spread(DoneTexts(env, ms)) then None
                else Some(text)
  {
    hide MessageStep, JsonLike, DataStep, Injective, HasText, LineStep, Certifies, FoldLines, BatchLines, BatchMessages,
        DoneTexts, Spread;
    var (s, deltas) := PushChunk(utf8, env, StreamState(FRESH, InitialState(true)), body).value;
    var ms := Messages(utf8, body);
    FeedIsFoldOfLines(utf8, NO_FIELDS, body);
    DeliveredTextIsCertified(env, true, s.sse, ms);
    LinesAsMessages(env, NO_EVENTS, NO_FIELDS, BodyLines(utf8, body).value);
    BatchFollows(env, InitialState(true), ms, NO_EVENTS);
    var dones := DoneTexts(env, ms);
    assert "" + Concat(deltas) == Concat(deltas);
    TerminalDones(TerminalResponse(env, ms[|ms| - 1]).value, Streamed(utf8, env, body).value, dones);
    Verdict(utf8, env, body, TerminalTextOf(env, ms[|ms| - 1]).value, dones);
  }

  /** The extractor's verdict, from what it and the decoder each collected. */
  lemma Verdict(utf8: Utf8, env: Env, body: seq<Byte>, terminal: TerminalText, dones: seq<string>)
    requires Streamed(utf8, env, body).Some? && BodyLines(utf8, body).Some? && dones != []
    requires var (s, deltas) := PushChunk(utf8, env, StreamState(FRESH, InitialState(true)), body).value;
             var t := FinishCheck(s.sse, s.text).value;
             && BatchLines(env, NO_EVENTS, BodyLines(utf8, body).value)
                == Some(BatchState(Concat(deltas), Some(dones[|dones| - 1]), Some(terminal)))
             && HasText(Delivered(deltas, t))
             && (t.fallbackText.Some? ==> Concat(deltas) == "")
             && (match terminal
                 case StreamedOnly => t.fallbackText.None?
                 case Embedded(text) =>
                   text == Delivered(deltas, t) && (dones[|dones| - 1] == text <==> !Spread(dones)))
    ensures Extract(utf8, env, body) ==
            if terminal.Embedded? && Spread(dones) then None else Streamed(utf8, env, body)
  {
    hide PushChunk, FinishCheck, BatchLines, BodyLines, HasText, Concat, Spread;
    var deltas := PushChunk(utf8, env, StreamState(FRESH, InitialState(true)), body).value.1;
    assert Concat(deltas) + "" == Concat(deltas);
  }

  lemma TerminalDones(r: Response, text: string, dones: seq<string>)
    requires Certifies(r, text, dones)
    ensures dones != [] && r.output.Present? && HasText(text)
    ensures r.output.value != [] ==> (dones[|dones| - 1] == text <==> !Spread(dones))
    ensures TerminalOf(r) == Some(if r.output.value == [] then StreamedOnly else Embedded(text))
  {
    if r.output.value != [] {
      FinalPartsOrdered(r.output.value, 0);
      assert r.output.value[0..] == r.output.value;
      assert Concat([]) == "" && !HasText("");
      LastIsAll(dones);
    }
  }

  // ---- The extractor on its own terms ----

  /** The text of a data line that is not blank and not the end mark. */
  function Payload(line: string): Option<string> {
    if "data:" <= line && Trim(line[5..]) != "" && Trim(line[5..]) != "[DONE]" then Some(Trim(line[5..])) else None
  }

  /** The events on the data lines that can be parsed. */
  function EventsOf(env: Env, lines: seq<string>): seq<Value> {
    if lines == [] then []
    else
      (if Payload(lines[0]).Some? && env.parse(Payload(lines[0]).value).Some?
       then [env.parse(Payload(lines[0]).value).value] else [])
      + EventsOf(env, lines[1..])
  }

  /** An event the extractor can take: of a known shape, and no failure. */
  predicate Takes(v: Value) {
    && v.kind.Present? && v.kind.value !in {ResponseFailed, ResponseIncomplete, ErrorEvent}
    && (v.kind.value == OutputTextDelta ==> v.delta.Present?) && (v.kind.value == OutputTextDone ==> v.text.Present?)
    && (v.kind.value == ResponseCompleted ==> v.response.Present? && TerminalOf(v.response.value).Some?)
  }

  predicate AllTaken(env: Env, lines: seq<string>) {
    forall i :: 0 <= i < |lines| && Payload(lines[i]).Some? ==>
      env.parse(Payload(lines[i]).value).Some? && Takes(env.parse(Payload(lines[i]).value).value)
  }

  function DeltaTexts(events: seq<Value>): string {
    if events == [] then ""
    else
      (if events[0].kind == Present(OutputTextDelta) && events[0].delta.Present? then events[0].delta.value else "")
      + DeltaTexts(events[1..])
  }

  function LastDone(before: Option<string>, events: seq<Value>): Option<string>
    decreases |events|
  {
    if events == [] then before
    else
      LastDone(if events[0].kind == Present(OutputTextDone) && events[0].text.Present? then Some(events[0].text.value)
               else before, events[1..])
  }

  function Terminals(events: seq<Value>): seq<Response> {
    if events == [] then []
    else
      (if events[0].kind == Present(ResponseCompleted) && events[0].response.Present? then [events[0].response.value]
       else [])
      + Terminals(events[1..])
  }

  function FirstTerminal(before: Option<TerminalText>, rs: seq<Response>): Option<TerminalText> {
    if rs == [] then before else TerminalOf(rs[0])
  }

  lemma EventStepTakes(env: Env, b: BatchState, v: Value)
    ensures EventStep(env, b, v).Some? <==> Takes(v) && (v.kind == Present(ResponseCompleted) ==> b.terminal.None?)
    ensures EventStep(env, b, v).Some? ==>
              EventStep(env, b, v) == Some(BatchState(
                b.deltas + DeltaTexts([v]), LastDone(b.doneText, [v]), FirstTerminal(b.terminal, Terminals([v]))))
  {
    OneEvent(v, b.doneText);
    hide TerminalOf, DeltaTexts, LastDone, Terminals;
    assert b.deltas + "" == b.deltas;
  }

  lemma OneEvent(v: Value, before: Option<string>)
    ensures DeltaTexts([v]) == if v.kind == Present(OutputTextDelta) && v.delta.Present? then v.delta.value else ""
    ensures LastDone(before, [v]) ==
            if v.kind == Present(OutputTextDone) && v.text.Present? then Some(v.text.value) else before
    ensures Terminals([v]) ==
            if v.kind == Present(ResponseCompleted) && v.response.Present? then [v.response.value] else []
  {
    assert [v][1..] == [];
    assert DeltaTexts([]) == "" && Terminals([]) == [];
    assert forall x: string :: x + "" == x;
    assert forall x: Option<string> :: LastDone(x, []) == x;
  }

  lemma EventsFirst(v: Value, rest: seq<Value>)
    ensures DeltaTexts([v] + rest) == DeltaTexts([v]) + DeltaTexts(rest)
    ensures forall before :: LastDone(before, [v] + rest) == LastDone(LastDone(before, [v]), rest)
    ensures Terminals([v] + rest) == Terminals([v]) + Terminals(rest) && |Terminals([v])| <= 1
  {
    assert ([v] + rest)[1..] == rest && [v][1..] == [];
    assert DeltaTexts([]) == "" && Terminals([]) == [];
  }

  /** The extractor takes a list of lines exactly if it can take each event and at most one of them is terminal. */
  lemma {:induction false} LinesAreTaken(env: Env, b: BatchState, lines: seq<string>)
    ensures var events := EventsOf(env, lines);
            && (BatchLines(env, b, lines).Some? <==>
                  AllTaken(env, lines) && |Terminals(events)| + (if b.terminal.Some? then 1 else 0) <= 1)
            && (BatchLines(env, b, lines).Some? ==>
                  BatchLines(env, b, lines) == Some(BatchState(
                    b.deltas + DeltaTexts(events), LastDone(b.doneText, events),
                    FirstTerminal(b.terminal, Terminals(events)))))
    decreases |lines|
  {
    hide EventStep, Takes, TerminalOf, Trim;
    if lines == [] {
      assert b.deltas + "" == b.deltas;
    } else {
      var line, rest := lines[0], lines[1..];
      var payload := Payload(line);
      AllTakenFirst(env, lines);
      if payload.None? {
        LinesAreTaken(env, b, rest);
        assert [] + EventsOf(env, rest) == EventsOf(env, rest);
      } else if env.parse(payload.value).Some? {
        var v := env.parse(payload.value).value;
        EventStepTakes(env, b, v);
        EventsFirst(v, EventsOf(env, rest));
        TerminalOfOne(v);
        if EventStep(env, b, v).Some? {
          var b1 := EventStep(env, b, v).value;
          LinesAreTaken(env, b1, rest);
          Associate(b.deltas, DeltaTexts([v]), DeltaTexts(EventsOf(env, rest)));
        }
      }
    }
  }

  lemma Associate(a: string, b: string, c: string)
    ensures a + (b + c) == (a + b) + c
  {}

  lemma TerminalOfOne(v: Value)
    ensures |Terminals([v])| == (if v.kind == Present(ResponseCompleted) && v.response.Present? then 1 else 0)
    ensures Takes(v) && Terminals([v]) != [] ==> TerminalOf(Terminals([v])[0]).Some?
    ensures Takes(v) && v.kind == Present(ResponseCompleted) ==> Terminals([v]) != []
  {
    assert [v][1..] == [] && Terminals([]) == [];
  }

  lemma AllTakenFirst(env: Env, lines: seq<string>)
    requires lines != []
    ensures AllTaken(env, lines) <==>
            && (Payload(lines[0]).Some? ==>
                  env.parse(Payload(lines[0]).value).Some? && Takes(env.parse(Payload(lines[0]).value).value))
            && AllTaken(env, lines[1..])
  {
    hide Payload, Takes;
    assert forall i :: 1 <= i < |lines| ==> lines[i] == lines[1..][i - 1];
    assert forall i :: 0 <= i < |lines| - 1 ==> lines[1..][i] == lines[i + 1];
  }

  /**
   * On a body whose one terminal response lists its output the extractor yields that output's text, visible and
   * completed, exactly if every event can be taken, the last `done` text, if any, is it, and so are the deltas, if any.
   */
  lemma ListedTextExactly(utf8: Utf8, env: Env, body: seq<Byte>, r: Response)
    requires BodyLines(utf8, body).Some?
    requires Terminals(EventsOf(env, BodyLines(utf8, body).value)) == [r] && r.output.Present? && r.output.value != []
    ensures var lines := BodyLines(utf8, body).value;
            var events, text := EventsOf(env, lines), OutputText(r.output.value);
            Extract(utf8, env, body) ==
              if AllTaken(env, lines) && r.status == Present("completed") && HasText(text)
                 && LastDone(None, events) in {None, Some(text)} && DeltaTexts(events) in {"", text}
              then Some(text) else None
  {
    hide HasText, OutputText, EventsOf, AllTaken, DeltaTexts, LastDone, PushChunk, FinishCheck, BatchLines;
    var lines := BodyLines(utf8, body).value;
    LinesAreTaken(env, NO_EVENTS, lines);
    assert "" + DeltaTexts(EventsOf(env, lines)) == DeltaTexts(EventsOf(env, lines));
    if AllTaken(env, lines) { TerminalIsTaken(env, lines); }
  }

  lemma {:induction false} TerminalIsTaken(env: Env, lines: seq<string>)
    requires AllTaken(env, lines)
    ensures forall k :: 0 <= k < |Terminals(EventsOf(env, lines))| ==>
              TerminalOf(Terminals(EventsOf(env, lines))[k]).Some?
  {
    hide TerminalOf, Takes, Payload;
    if lines != [] {
      AllTakenFirst(env, lines);
      TerminalIsTaken(env, lines[1..]);
      if Payload(lines[0]).Some? {
        var v := env.parse(Payload(lines[0]).value).value;
        TerminalOfOne(v);
        EventsFirst(v, EventsOf(env, lines[1..]));
      } else {
        assert [] + EventsOf(env, lines[1..]) == EventsOf(env, lines[1..]);
      }
    }
  }

  /** Without a terminal event, or with two, the extractor rejects the body. */
  lemma OneTerminalIsNeeded(utf8: Utf8, env: Env, body: seq<Byte>)
    requires BodyLines(utf8, body).Some? && |Terminals(EventsOf(env, BodyLines(utf8, body).value))| != 1
    ensures Extract(utf8, env, body).None?
  {
    hide EventsOf, AllTaken, DeltaTexts, LastDone, PushChunk, FinishCheck, BatchLines, TerminalOf;
    LinesAreTaken(env, NO_EVENTS, BodyLines(utf8, body).value);
  }
}
