/** The body-owned text stream: a pull source over provider chunks, and the single-use wrapper its callers read. */
module Stream {
  import opened Basics
  import opened Text
  import opened Budget
  import opened Sse
  import opened Responses
  import opened Decoder
  import opened Certified

  datatype StreamEvent = Delta(text: string) | Completed(latencyMs: nat, usage: Option<TokenUsage>)

  datatype StreamError = InvalidOutput | SizeLimit | Refused(retryAfter: nat) | Upstream

  type Polled = Result<Option<StreamEvent>, StreamError>

  /** What the network hands over; running out is end of stream. */
  datatype Chunk = Bytes(bytes: seq<Byte>) | Broken

  /** The streaming redactor, left open: how it answers a piece of text, and what it holds back until the end. */
  datatype Redactor = Redactor(state: int, push: (int, string) -> (int, string), finish: int -> string)

  function Visible(text: string): seq<StreamEvent> {
    if text == "" then [] else [Delta(text)]
  }

  function Redact(r: Redactor, deltas: seq<string>): (Redactor, seq<StreamEvent>)
    decreases |deltas|
  {
    if deltas == [] then (r, [])
    else
      var (next, safe) := r.push(r.state, deltas[0]);
      var (r', more) := Redact(r.(state := next), deltas[1..]);
      (r', Visible(safe) + more)
  }

  // ---- The source, as a list ----

  /** Everything a source will yield, and the error it ends with, if any. */
  datatype Script = Script(events: seq<StreamEvent>, failure: Option<StreamError>)

  function Deltas(t: Terminal): seq<string> {
    if t.fallbackText.Some? then [t.fallbackText.value] else []
  }

  function EndEvents(r: Redactor, t: Terminal, latencyMs: nat): seq<StreamEvent> {
    var (r', events) := Redact(r, Deltas(t));
    events + Visible(r'.finish(r'.state)) + [Completed(latencyMs, t.usage)]
  }

  function Drained(utf8: Utf8, env: Env, r: Redactor, s: StreamState, chunks: seq<Chunk>, latencyMs: nat): Script
    decreases |chunks|
  {
    if chunks == [] then
      match FinishCheck(s.sse, s.text)
      case None => Script([], Some(InvalidOutput))
      case Some(t) => Script(EndEvents(r, t, latencyMs), None)
    else
      match chunks[0]
      case Broken => Script([], Some(Upstream))
      case Bytes(bytes) =>
        match PushChunk(utf8, env, s, bytes)
        case None => Script([], Some(InvalidOutput))
        case Some((s', deltas)) =>
          var (r', events) := Redact(r, deltas);
          var rest := Drained(utf8, env, r', s', chunks[1..], latencyMs);
          Script(events + rest.events, rest.failure)
  }

  // ---- The source, one poll at a time ----

  datatype SourceState = SourceState(
    response: Option<seq<Chunk>>, decoder: StreamState, redactor: Option<Redactor>, pending: seq<StreamEvent>,
        finished: bool)

  /** Between polls: still reading, or finished with its events queued, or done for. */
  predicate Coherent(s: SourceState) {
    s.finished || (s.response.Some? && s.redactor.Some?)
  }

  predicate Dead(s: SourceState) {
    s.response.None? && s.redactor.None? && s.pending == [] && s.finished
  }

  function Aborted(s: SourceState): SourceState {
    s.(response := None, redactor := None, pending := [], finished := true)
  }

  function Pop(s: SourceState): (SourceState, Polled)
    requires s.pending != []
  {
    (s.(pending := s.pending[1..]), Ok(Some(s.pending[0])))
  }

  function Pull(utf8: Utf8, env: Env, s: SourceState, chunks: seq<Chunk>, r: Redactor, latencyMs: nat)
    : (SourceState, Polled)
    requires s.pending == []
    decreases |chunks|
  {
    if chunks == [] then
      match FinishCheck(s.decoder.sse, s.decoder.text)
      case None => (Aborted(s), Err(InvalidOutput))
      case Some(t) =>
        var text := s.decoder.text.(completed := None);
        Pop(SourceState(None, s.decoder.(text := text), None, EndEvents(r, t, latencyMs), true))
    else
      match chunks[0]
      case Broken => (Aborted(s), Err(Upstream))
      case Bytes(bytes) =>
        match PushChunk(utf8, env, s.decoder, bytes)
        case None => (Aborted(s), Err(InvalidOutput))
        case Some((d, deltas)) =>
          var (r', events) := Redact(r, deltas);
          var s' := SourceState(Some(chunks[1..]), d, Some(r'), events, s.finished);
          if events != [] then Pop(s') else Pull(utf8, env, s', chunks[1..], r', latencyMs)
  }

  function Poll(utf8: Utf8, env: Env, s: SourceState, latencyMs: nat): (SourceState, Polled) {
    if s.pending != [] then Pop(s)
    else if s.finished then (s, Ok(None))
    else if s.response.None? || s.redactor.None? then (Aborted(s), Err(InvalidOutput))
    else Pull(utf8, env, s, s.response.value, s.redactor.value, latencyMs)
  }

  /** The list a source state stands for. */
  function Remaining(utf8: Utf8, env: Env, s: SourceState, latencyMs: nat): Script {
    if s.finished || s.response.None? || s.redactor.None? then Script(s.pending, None)
    else
      var rest := Drained(utf8, env, s.redactor.value, s.decoder, s.response.value, latencyMs);
      Script(s.pending + rest.events, rest.failure)
  }

  lemma {:induction false} PullIsHead(utf8: Utf8, env: Env, s: SourceState, chunks: seq<Chunk>, r: Redactor,
      latencyMs: nat)
    requires s.pending == [] && !s.finished
    ensures var script := Drained(utf8, env, r, s.decoder, chunks, latencyMs);
            var (s', polled) := Pull(utf8, env, s, chunks, r, latencyMs);
            && Coherent(s')
            && (if script.events == []
                then script.failure.Some? && polled == Err(script.failure.value) && Dead(s')
                else polled == Ok(Some(script.events[0]))
                     && Remaining(utf8, env, s', latencyMs) == Script(script.events[1..], script.failure))
    decreases |chunks|
  {
    hide PushChunk, FinishCheck, Redact;
    if chunks != [] && chunks[0].Bytes? {
      var pushed := PushChunk(utf8, env, s.decoder, chunks[0].bytes);
      if pushed.Some? {
        var (r', events) := Redact(r, pushed.value.1);
        var s1 := SourceState(Some(chunks[1..]), pushed.value.0, Some(r'), events, s.finished);
        var rest := Drained(utf8, env, r', pushed.value.0, chunks[1..], latencyMs);
        if events == [] {
          PullIsHead(utf8, env, s1, chunks[1..], r', latencyMs);
          assert events + rest.events == rest.events;
        } else {
          assert (events + rest.events)[1..] == events[1..] + rest.events;
        }
      }
    }
  }

  /** Polling walks down the list, one event a poll; its end is the failure once, or nothing. */
  lemma PollIsHead(utf8: Utf8, env: Env, s: SourceState, latencyMs: nat)
    requires Coherent(s)
    ensures var script := Remaining(utf8, env, s, latencyMs);
            var (s', polled) := Poll(utf8, env, s, latencyMs);
            && Coherent(s')
            && (if script.events == [] then
                  if script.failure.Some? then polled == Err(script.failure.value) && Dead(s')
                  else polled == Ok(None) && s' == s
                else polled == Ok(Some(script.events[0]))
                     && Remaining(utf8, env, s', latencyMs) == Script(script.events[1..], script.failure))
  {
    hide Drained, Pull;
    if s.pending != [] {
      var rest := if s.finished then []
                  else Drained(utf8, env, s.redactor.value, s.decoder, s.response.value, latencyMs).events;
      assert (s.pending + rest)[1..] == s.pending[1..] + rest;
    } else if !s.finished {
      PullIsHead(utf8, env, s, s.response.value, s.redactor.value, latencyMs);
      var rest := Drained(utf8, env, s.redactor.value, s.decoder, s.response.value, latencyMs).events;
      assert s.pending + rest == rest;
    }
  }

  // ---- What the list contains ----

  function TextOf(e: StreamEvent): string {
    match e case Delta(text) => text case Completed(_, _) => ""
  }

  function TextsOf(events: seq<StreamEvent>): string {
    if events == [] then "" else TextOf(events[0]) + TextsOf(events[1..])
  }

  predicate AllDeltas(events: seq<StreamEvent>) {
    forall i :: 0 <= i < |events| ==> events[i].Delta?
  }

  function BytesOf(chunks: seq<Chunk>): Option<seq<seq<Byte>>> {
    if chunks == [] then Some([])
    else
      match (chunks[0], BytesOf(chunks[1..]))
      case (Bytes(b), Some(rest)) => Some([b] + rest)
      case _ => None
  }

  /** The text a redactor lets through for a list of deltas, tail included. */
  function RedactedText(r: Redactor, deltas: seq<string>): string {
    var (r', events) := Redact(r, deltas);
    TextsOf(events) + r'.finish(r'.state)
  }

  /** The decoder's verdict on a whole response: its deltas and terminal, when every chunk arrived and was accepted. */
  function Accepted(utf8: Utf8, env: Env, s: StreamState, chunks: seq<Chunk>): Option<(seq<string>, Terminal)> {
    match BytesOf(chunks)
    case None => None
    case Some(bytes) =>
      match PushChunks(utf8, env, s, bytes)
      case None => None
      case Some((s', deltas)) =>
        match FinishCheck(s'.sse, s'.text)
        case None => None
        case Some(t) => Some((deltas, t))
  }

  lemma {:induction false} RedactConcat(r: Redactor, a: seq<string>, b: seq<string>)
    ensures var (r1, x) := Redact(r, a);
            var (r2, y) := Redact(r1, b);
            Redact(r, a + b) == (r2, x + y)
    decreases |a|
  {
    if a == [] {
      assert a + b == b;
      assert [] + Redact(r, b).1 == Redact(r, b).1;
    } else {
      assert (a + b)[0] == a[0] && (a + b)[1..] == a[1..] + b;
      var (next, safe) := r.push(r.state, a[0]);
      RedactConcat(r.(state := next), a[1..], b);
      var (r1, x) := Redact(r.(state := next), a[1..]);
      assert Visible(safe) + (x + Redact(r1, b).1) == (Visible(safe) + x) + Redact(r1, b).1;
    }
  }

  lemma {:induction false} RedactYieldsDeltas(r: Redactor, deltas: seq<string>)
    ensures AllDeltas(Redact(r, deltas).1)
    decreases |deltas|
  {
    if deltas != [] { RedactYieldsDeltas(r.(state := r.push(r.state, deltas[0]).0), deltas[1..]); }
  }

  lemma {:induction false} TextsOfConcat(a: seq<StreamEvent>, b: seq<StreamEvent>)
    ensures TextsOf(a + b) == TextsOf(a) + TextsOf(b)
  {
    if a == [] {
      assert a + b == b;
    } else {
      assert (a + b)[0] == a[0] && (a + b)[1..] == a[1..] + b;
      TextsOfConcat(a[1..], b);
      assert TextOf(a[0]) + (TextsOf(a[1..]) + TextsOf(b)) == (TextOf(a[0]) + TextsOf(a[1..])) + TextsOf(b);
    }
  }

  /** The deltas and end of a source that does not fail. */
  function Whole(r: Redactor, deltas: seq<string>, t: Terminal, latencyMs: nat): seq<StreamEvent> {
    Redact(r, deltas).1 + EndEvents(Redact(r, deltas).0, t, latencyMs)
  }

  lemma AcceptedStep(utf8: Utf8, env: Env, s: StreamState, chunks: seq<Chunk>)
    ensures Accepted(utf8, env, s, chunks) ==
            if chunks == [] then (match FinishCheck(s.sse, s.text) case None => None case Some(t) => Some(([], t)))
            else if chunks[0].Broken? then None
            else
              match PushChunk(utf8, env, s, chunks[0].bytes)
              case None => None
              case Some((s', deltas)) =>
                match Accepted(utf8, env, s', chunks[1..])
                case None => None
                case Some((more, t)) => Some((deltas + more, t))
  {
    hide PushChunk, FinishCheck;
    if chunks != [] && chunks[0].Bytes? {
      var rest := BytesOf(chunks[1..]);
      if rest.Some? { assert ([chunks[0].bytes] + rest.value)[1..] == rest.value; }
    }
  }

  /** The events of a first chunk in front of a whole rest. */
  lemma WholeStep(r: Redactor, deltas: seq<string>, more: seq<string>, t: Terminal, latencyMs: nat)
    ensures var (r', events) := Redact(r, deltas);
            events + Whole(r', more, t, latencyMs) == Whole(r, deltas + more, t, latencyMs)
  {
    hide EndEvents, Redact;
    RedactConcat(r, deltas, more);
    var first := Redact(r, deltas);
    var rest := Redact(first.0, more);
    Associative(first.1, rest.1, EndEvents(rest.0, t, latencyMs));
  }

  lemma WholeEnd(r: Redactor, t: Terminal, latencyMs: nat)
    ensures Whole(r, [], t, latencyMs) == EndEvents(r, t, latencyMs)
  {
    hide EndEvents;
    assert [] + EndEvents(r, t, latencyMs) == EndEvents(r, t, latencyMs);
  }

  /** A source fails unless the decoder accepts the whole response; then it yields all of it, and Completed last. */
  lemma {:induction false} DrainedIsWhole(
    utf8: Utf8, env: Env, r: Redactor, s: StreamState, chunks: seq<Chunk>, latencyMs: nat)
    ensures var script := Drained(utf8, env, r, s, chunks, latencyMs);
            match Accepted(utf8, env, s, chunks)
            case None => script.failure.Some? && AllDeltas(script.events)
            case Some((deltas, t)) => script == Script(Whole(r, deltas, t, latencyMs), None)
    decreases |chunks|
  {
    hide PushChunk, FinishCheck, EndEvents, Accepted, Whole, Redact;
    AcceptedStep(utf8, env, s, chunks);
    if chunks == [] {
      var t := FinishCheck(s.sse, s.text);
      if t.Some? { WholeEnd(r, t.value, latencyMs); }
    } else if chunks[0].Bytes? {
      var pushed := PushChunk(utf8, env, s, chunks[0].bytes);
      if pushed.Some? {
        var (s', deltas) := pushed.value;
        DrainedIsWhole(utf8, env, Redact(r, deltas).0, s', chunks[1..], latencyMs);
        RedactYieldsDeltas(r, deltas);
        var rest := Accepted(utf8, env, s', chunks[1..]);
        if rest.Some? { WholeStep(r, deltas, rest.value.0, rest.value.1, latencyMs); }
      }
    }
  }

  /** The texts an accepted response hands to the redactor: its deltas, and the fallback when there were none. */
  function Pieces(utf8: Utf8, env: Env, codex: bool, chunks: seq<Chunk>): seq<string> {
    match Accepted(utf8, env, StreamState(FRESH, InitialState(codex)), chunks)
    case None => []
    case Some((deltas, t)) => deltas + Deltas(t)
  }

  /** The redactor does not care where one piece of text ends and the next begins. */
  ghost predicate Seamless(r: Redactor) {
    && (forall s :: r.push(s, "") == (s, ""))
    && forall s, a, b ::
         var (s1, x) := r.push(s, a);
         var (s2, y) := r.push(s1, b);
         r.push(s, a + b) == (s2, x + y)
  }

  /** A push that takes its text a character at a time. */
  function PushEach(step: (int, char) -> (int, string), state: int, text: string): (int, string)
    decreases |text|
  {
    if text == "" then (state, "")
    else
      var (next, out) := step(state, text[0]);
      var (last, more) := PushEach(step, next, text[1..]);
      (last, out + more)
  }

  lemma {:induction false} PushEachSplits(step: (int, char) -> (int, string), state: int, a: string, b: string)
    ensures var (s1, x) := PushEach(step, state, a);
            var (s2, y) := PushEach(step, s1, b);
            PushEach(step, state, a + b) == (s2, x + y)
    decreases |a|
  {
    if a == "" {
      assert a + b == b;
      assert "" + PushEach(step, state, b).1 == PushEach(step, state, b).1;
    } else {
      var (next, out) := step(state, a[0]);
      assert (a + b)[0] == a[0] && (a + b)[1..] == a[1..] + b;
      PushEachSplits(step, next, a[1..], b);
      var (s1, x) := PushEach(step, next, a[1..]);
      Associative(out, x, PushEach(step, s1, b).1);
    }
  }

  /** Every redactor that works character by character is seamless. */
  lemma CharacterwiseIsSeamless(r: Redactor, step: (int, char) -> (int, string))
    requires forall s, text :: r.push(s, text) == PushEach(step, s, text)
    ensures Seamless(r)
  {
    forall s, a, b
      ensures var (s1, x) := r.push(s, a);
              var (s2, y) := r.push(s1, b);
              r.push(s, a + b) == (s2, x + y)
    {
      PushEachSplits(step, s, a, b);
    }
  }

  lemma {:induction false} SeamlessRedact(r: Redactor, deltas: seq<string>)
    requires Seamless(r)
    ensures var (r', events) := Redact(r, deltas);
            (r'.state, TextsOf(events)) == r.push(r.state, Concat(deltas)) && r' == r.(state := r'.state)
    decreases |deltas|
  {
    if deltas != [] {
      var (next, safe) := r.push(r.state, deltas[0]);
      SeamlessRedact(r.(state := next), deltas[1..]);
      VisibleText(safe);
      TextsOfConcat(Visible(safe), Redact(r.(state := next), deltas[1..]).1);
    }
  }

  /** What a seamless redactor lets through depends on the whole text only. */
  lemma SeamlessText(r: Redactor, pieces: seq<string>)
    requires Seamless(r)
    ensures RedactedText(r, pieces) == RedactedText(r, [Concat(pieces)])
  {
    hide Seamless, Redact;
    SeamlessRedact(r, pieces);
    SeamlessRedact(r, [Concat(pieces)]);
    ConcatOne(Concat(pieces));
  }

  /** A list of deltas closed by its one Completed. */
  predicate EndsCompleted(events: seq<StreamEvent>) {
    events != [] && AllDeltas(events[..|events| - 1]) && events[|events| - 1].Completed?
  }

  lemma VisibleText(text: string)
    ensures TextsOf(Visible(text)) == text && AllDeltas(Visible(text))
  {
    assert text != "" ==> Visible(text)[1..] == [];
    assert text + "" == text;
  }

  lemma EndText(r: Redactor, t: Terminal, latencyMs: nat)
    ensures TextsOf(EndEvents(r, t, latencyMs)) == RedactedText(r, Deltas(t))
    ensures EndsCompleted(EndEvents(r, t, latencyMs))
  {
    hide Redact, Visible, Deltas;
    var (r', events) := Redact(r, Deltas(t));
    var tail, done := Visible(r'.finish(r'.state)), [Completed(latencyMs, t.usage)];
    RedactYieldsDeltas(r, Deltas(t));
    VisibleText(r'.finish(r'.state));
    TextsOfConcat(events + tail, done);
    TextsOfConcat(events, tail);
    assert done[1..] == [] && TextsOf(done) == "" + TextsOf([]);
    assert TextsOf(events + tail) + "" == TextsOf(events + tail);
  }

  lemma WholeText(r: Redactor, deltas: seq<string>, t: Terminal, latencyMs: nat)
    ensures TextsOf(Whole(r, deltas, t, latencyMs)) == RedactedText(r, deltas + Deltas(t))
    ensures EndsCompleted(Whole(r, deltas, t, latencyMs))
  {
    hide Redact, Deltas, EndEvents, TextsOf;
    var (r1, x) := Redact(r, deltas);
    RedactConcat(r, deltas, Deltas(t));
    RedactYieldsDeltas(r, deltas);
    EndText(r1, t, latencyMs);
    var y, end := Redact(r1, Deltas(t)).1, EndEvents(r1, t, latencyMs);
    TextsOfConcat(x, end);
    TextsOfConcat(x, y);
    assert (x + end)[..|x + end| - 1] == x + end[..|end| - 1];
  }

  /** The text is what the terminal message of these bytes certifies. */
  predicate CertifiedText(utf8: Utf8, env: Env, bytes: seq<Byte>, text: string) {
    match Feed(utf8, FRESH, bytes)
    case None => false
    case Some((_, ms)) =>
      && ms != [] && TerminalResponse(env, ms[|ms| - 1]).Some?
      && Certifies(TerminalResponse(env, ms[|ms| - 1]).value, text, DoneTexts(env, ms))
  }

  lemma AcceptedIsCertified(utf8: Utf8, env: Env, codex: bool, chunks: seq<Chunk>)
    requires Injective(env.digest)
    requires Accepted(utf8, env, StreamState(FRESH, InitialState(codex)), chunks).Some?
    ensures var (deltas, t) := Accepted(utf8, env, StreamState(FRESH, InitialState(codex)), chunks).value;
            CertifiedText(utf8, env, Flatten(BytesOf(chunks).value), Concat(deltas + Deltas(t)))
  {
    hide RunMessages, FinishCheck, Certifies, DoneTexts, Feed, TerminalResponse, Injective, Flatten;
    var s := StreamState(FRESH, InitialState(codex));
    var bytes := BytesOf(chunks).value;
    ChunksAsOne(utf8, env, s, bytes);
    var (s', deltas) := PushChunk(utf8, env, s, Flatten(bytes)).value;
    var t := FinishCheck(s'.sse, s'.text).value;
    DeliveredTextIsCertified(env, codex, s'.sse, Feed(utf8, FRESH, Flatten(bytes)).value.1);
    ConcatAppend(deltas, Deltas(t));
    if t.fallbackText.Some? { ConcatOne(t.fallbackText.value); }
    assert Concat(deltas + Deltas(t)) == Delivered(deltas, t);
  }

  /**
   * End to end: a source that does not fail was accepted whole, whatever its chunking; its one
   * Completed comes last, and the text its deltas carry is the redaction of exactly the text the
   * terminal event certifies.
   */
  lemma CompletedStreamIsCertified(utf8: Utf8, env: Env, codex: bool, r: Redactor, chunks: seq<Chunk>, latencyMs: nat)
    requires Injective(env.digest)
    requires Drained(utf8, env, r, StreamState(FRESH, InitialState(codex)), chunks, latencyMs).failure.None?
    ensures BytesOf(chunks).Some?
    ensures var events := Drained(utf8, env, r, StreamState(FRESH, InitialState(codex)), chunks, latencyMs).events;
            var bytes := Flatten(BytesOf(chunks).value);
            && EndsCompleted(events)
            && TextsOf(events) == RedactedText(r, Pieces(utf8, env, codex, chunks))
            && CertifiedText(utf8, env, bytes, Concat(Pieces(utf8, env, codex, chunks)))
  {
    hide PushChunks, FinishCheck, CertifiedText, RedactedText, Injective, Whole, EndsCompleted, Drained, TextsOf,
      Accepted;
    ScriptIsRedaction(utf8, env, codex, r, chunks, latencyMs);
    AcceptedBytes(utf8, env, StreamState(FRESH, InitialState(codex)), chunks);
    AcceptedIsCertified(utf8, env, codex, chunks);
  }

  lemma AcceptedBytes(utf8: Utf8, env: Env, s: StreamState, chunks: seq<Chunk>)
    ensures Accepted(utf8, env, s, chunks).Some? ==> BytesOf(chunks).Some?
  {}

  /** The text of a source that does not fail is the redaction of the response's pieces. */
  lemma ScriptIsRedaction(utf8: Utf8, env: Env, codex: bool, r: Redactor, chunks: seq<Chunk>, latencyMs: nat)
    ensures var start := StreamState(FRESH, InitialState(codex));
            var script := Drained(utf8, env, r, start, chunks, latencyMs);
            && (script.failure.None? <==> Accepted(utf8, env, start, chunks).Some?)
            && (script.failure.None? ==>
                  EndsCompleted(script.events)
                  && TextsOf(script.events) == RedactedText(r, Pieces(utf8, env, codex, chunks)))
  {
    hide Accepted, Drained, RedactedText, Whole, EndsCompleted, TextsOf;
    var s := StreamState(FRESH, InitialState(codex));
    DrainedIsWhole(utf8, env, r, s, chunks, latencyMs);
    var accepted := Accepted(utf8, env, s, chunks);
    if accepted.Some? { WholeText(r, accepted.value.0, accepted.value.1, latencyMs); }
  }

  /** Any two cuts of the same bytes make the same source: accepted alike, and then the same events. */
  lemma CutsAreScriptedAlike(
    utf8: Utf8, env: Env, codex: bool, r: Redactor, xs: seq<Chunk>, ys: seq<Chunk>, latencyMs: nat)
    requires BytesOf(xs).Some? && BytesOf(ys).Some? && Flatten(BytesOf(xs).value) == Flatten(BytesOf(ys).value)
    ensures var start := StreamState(FRESH, InitialState(codex));
            && Accepted(utf8, env, start, xs) == Accepted(utf8, env, start, ys)
            && (Accepted(utf8, env, start, xs).Some? ==>
                  Drained(utf8, env, r, start, xs, latencyMs) == Drained(utf8, env, r, start, ys, latencyMs))
  {
    hide PushChunks, FinishCheck, Drained, Whole, Flatten;
    var s := StreamState(FRESH, InitialState(codex));
    ChunkingIndependence(utf8, env, s, BytesOf(xs).value, BytesOf(ys).value);
    DrainedIsWhole(utf8, env, r, s, xs, latencyMs);
    DrainedIsWhole(utf8, env, r, s, ys, latencyMs);
  }
}
