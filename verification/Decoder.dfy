/** The strict event state machine over provider messages, and the decoder object that runs it on bytes. */
module Decoder {
  import opened Text
  import opened Clock
  import opened Sse
  import opened Responses

  // ---- One event, on values ----

  /** Which part an event speaks about; fixes the stream's addressing mode and each output's item. */
  function Identify(s: DecoderState, v: Value): Option<(DecoderState, TextPartKey, Option<string>)> {
    match ItemId(v.itemId)
    case None => None
    case Some(id) =>
      match (v.outputIndex, v.contentIndex)
      case (Present(o), Present(c)) =>
        if s.mode.LegacySingle? || id.None? then None
        else if o in s.outputItemIds && s.outputItemIds[o] != id.value then None
        else Some((s.(mode := Indexed, outputItemIds := s.outputItemIds[o := id.value]), TextPartKey(o, c), id))
      case (Absent, Absent) =>
        if s.mode.Indexed? then None else Some((s.(mode := LegacySingle), LEGACY_KEY, id))
      case _ => None
  }

  /** Parts arrive in key order, each one done before the next begins. */
  function Order(s: DecoderState, key: TextPartKey): Option<DecoderState> {
    match s.last
    case None => Some(s.(last := Some(key)))
    case Some(previous) =>
      if Less(key, previous) then None
      else if Less(previous, key) && !(previous in s.parts && s.parts[previous].done.Some?) then None
      else Some(s.(last := Some(key)))
  }

  function Part(s: DecoderState, key: TextPartKey): StreamedTextPart {
    if key in s.parts then s.parts[key] else NEW_PART
  }

  function WithItem(p: StreamedTextPart, id: Option<string>): Option<StreamedTextPart> {
    match (p.itemId, id)
    case (Some(a), Some(b)) => if a != b then None else Some(p)
    case (None, Some(b)) => Some(p.(itemId := id))
    case _ => Some(p)
  }

  /** The part an event addresses, after its identity, order and item checks. */
  function Address(s: DecoderState, v: Value): Option<(DecoderState, TextPartKey, StreamedTextPart)> {
    match Identify(s, v)
    case None => None
    case Some((s1, key, id)) =>
      match Order(s1, key)
      case None => None
      case Some(s2) =>
        match WithItem(Part(s2, key), id)
        case None => None
        case Some(p) => Some((s2, key, p))
  }

  function DeltaEvent(s: DecoderState, v: Value): Option<(DecoderState, Option<string>)> {
    match (v.delta, Address(s, v))
    case (Present(delta), Some((s1, key, p))) =>
      if p.done.Some? || p.deltaBytes + ByteLen(delta) > U64_MAX then None
      else
        var p1 := p.(absorbed := p.absorbed + delta, deltaBytes := p.deltaBytes + ByteLen(delta), sawDelta := true);
        Some((s1.(parts := s1.parts[key := p1], sawDelta := true,
                  sawNonWhitespace := s1.sawNonWhitespace || HasText(delta)),
              if delta == "" then None else Some(delta)))
    case _ => None
  }

  function DoneEvent(env: Env, s: DecoderState, v: Value): Option<DecoderState> {
    match (v.text, Address(s, v))
    case (Present(text), Some((s1, key, p))) =>
      if p.done.Some? || (p.sawDelta && DeltaFingerprint(env, p) != Fingerprint(env, text)) then None
      else Some(s1.(parts := s1.parts[key := p.(done := Some(Fingerprint(env, text)))]))
    case _ => None
  }

  /** A terminal part agrees with what was streamed for it. */
  predicate PartAgrees(env: Env, s: DecoderState, p: StreamedTextPart, final: FinalTextPart) {
    && p.done == Some(Fingerprint(env, final.text))
    && (p.sawDelta ==> DeltaFingerprint(env, p) == Fingerprint(env, final.text))
    && (s.sawDelta && !p.sawDelta ==> final.text == "")
    && (match s.mode
        case Indexed => p.itemId == final.itemId
        case LegacySingle => p.itemId.Some? && final.itemId.Some? ==> p.itemId == final.itemId
        case Unknown => false)
  }

  predicate PartsAgree(env: Env, s: DecoderState, finals: seq<FinalTextPart>) {
    forall i :: 0 <= i < |finals| ==> finals[i].key in s.parts && PartAgrees(env, s, s.parts[finals[i].key], finals[i])
  }

  predicate EmptyOutputAllowed(s: DecoderState) {
    && s.allowEmptyOutput && s.mode.Indexed? && |s.parts| == 1 && s.sawDelta && s.sawNonWhitespace
    && forall k :: k in s.parts ==> s.parts[k].sawDelta && s.parts[k].done.Some?
  }

  predicate FinalsAgree(env: Env, s: DecoderState, finals: seq<FinalTextPart>) {
    match s.mode
    case Unknown => false
    case LegacySingle =>
      && |s.parts| == 1 && |finals| == 1
      && forall k :: k in s.parts ==> PartAgrees(env, s, s.parts[k], finals[0])
    case Indexed =>
      |finals| == |s.parts| && finals != [] && PartsAgree(env, s, finals)
  }

  /** Some(None): accepted without terminal text. Some(Some(t)): accepted, the terminal text is t. */
  function CheckCompleted(env: Env, s: DecoderState, r: Response): Option<Option<string>> {
    if r.status != Present("completed") || !r.output.Present? then None
    else if r.output.value == [] then (if EmptyOutputAllowed(s) then Some(None) else None)
    else
      match FinalParts(r.output.value, 0)
      case None => None
      case Some(finals) =>
        if FinalsAgree(env, s, finals) && HasText(Concat(Texts(finals))) then Some(Some(Concat(Texts(finals))))
            else None
  }

  function CompletedEvent(env: Env, s: DecoderState, v: Value): Option<DecoderState> {
    match v.response
    case Present(r) =>
      (match CheckCompleted(env, s, r)
       case None => None
       case Some(text) =>
         if s.sawDelta then Some(s.(completed := Some(Terminal(None, r.usage))))
         else if text.None? then None
         else Some(s.(completed := Some(Terminal(text, r.usage)))))
    case _ => None
  }

  /** A named SSE event must match the type inside the message. */
  predicate NameMismatch(event: Option<string>, kind: EventType) {
    event.Some? && event.value != "" && event.value != "message" && event.value != TypeName(kind)
  }

  function MessageStep(env: Env, s: DecoderState, m: SseMessage): Option<(DecoderState, Option<string>)> {
    if m.data == "[DONE]" || s.completed.Some? then None
    else
      match env.parse(m.data)
      case None => None
      case Some(v) =>
        if !v.kind.Present? || NameMismatch(m.event, v.kind.value) then None
        else
          match v.kind.value
          case OutputTextDelta => DeltaEvent(s, v)
          case OutputTextDone =>
            (match DoneEvent(env, s, v) case None => None case Some(s') => Some((s', None)))
          case ResponseCompleted =>
            (match CompletedEvent(env, s, v) case None => None case Some(s') => Some((s', None)))
          case ResponseFailed => None
          case ResponseIncomplete => None
          case ErrorEvent => None
          case Other(_) => Some((s, None))
  }

  /** A run over messages: the final state and the deltas delivered, in arrival order. */
  function RunMessages(env: Env, s: DecoderState, ms: seq<SseMessage>): Option<(DecoderState, seq<string>)>
    decreases |ms|
  {
    if ms == [] then Some((s, []))
    else
      match MessageStep(env, s, ms[0])
      case None => None
      case Some((s1, delta)) =>
        match RunMessages(env, s1, ms[1..])
        case None => None
        case Some((s2, more)) => Some((s2, (if delta.Some? then [delta.value] else []) + more))
  }

  /** What the decoder holds at end of stream. */
  function FinishCheck(sse: SseState, s: DecoderState): Option<Terminal> {
    if sse == FRESH && s.completed.Some? && s.parts != map[] && forall k :: k in s.parts ==> s.parts[k].done.Some?
    then s.completed else None
  }

  // ---- Bytes ----

  datatype StreamState = StreamState(sse: SseState, text: DecoderState)

  function PushChunk(utf8: Utf8, env: Env, s: StreamState, chunk: seq<Byte>): Option<(StreamState, seq<string>)> {
    match Feed(utf8, s.sse, chunk)
    case None => None
    case Some((sse, ms)) =>
      match RunMessages(env, s.text, ms)
      case None => None
      case Some((text, deltas)) => Some((StreamState(sse, text), deltas))
  }

  function PushChunks(utf8: Utf8, env: Env, s: StreamState, chunks: seq<seq<Byte>>): Option<(StreamState, seq<string>)>
    decreases |chunks|
  {
    if chunks == [] then Some((s, []))
    else
      match PushChunk(utf8, env, s, chunks[0])
      case None => None
      case Some((s1, deltas)) =>
        match PushChunks(utf8, env, s1, chunks[1..])
        case None => None
        case Some((s2, more)) => Some((s2, deltas + more))
  }

  function Flatten(chunks: seq<seq<Byte>>): seq<Byte> {
    if chunks == [] then [] else chunks[0] + Flatten(chunks[1..])
  }

  lemma {:induction false} RunMessagesConcat(env: Env, s: DecoderState, a: seq<SseMessage>, b: seq<SseMessage>)
    ensures RunMessages(env, s, a + b) ==
            match RunMessages(env, s, a)
            case None => None
            case Some((s1, x)) =>
              match RunMessages(env, s1, b)
              case None => None
              case Some((s2, y)) => Some((s2, x + y))
    decreases |a|
  {
    if a == [] {
      assert a + b == b;
      var r := RunMessages(env, s, b);
      assert r.Some? ==> [] + r.value.1 == r.value.1;
    } else {
      assert (a + b)[0] == a[0] && (a + b)[1..] == a[1..] + b;
      var step := MessageStep(env, s, a[0]);
      if step.Some? {
        RunMessagesConcat(env, step.value.0, a[1..], b);
        var d := if step.value.1.Some? then [step.value.1.value] else [];
        var ra := RunMessages(env, step.value.0, a[1..]);
        if ra.Some? && RunMessages(env, ra.value.0, b).Some? {
          var y := RunMessages(env, ra.value.0, b).value.1;
          assert d + (ra.value.1 + y) == (d + ra.value.1) + y;
        }
      }
    }
  }

  lemma RunMessagesSnoc(env: Env, s: DecoderState, ms: seq<SseMessage>, i: nat)
    requires i < |ms| && RunMessages(env, s, ms[..i]).Some?
    ensures var (s1, x) := RunMessages(env, s, ms[..i]).value;
            match MessageStep(env, s1, ms[i])
            case None => RunMessages(env, s, ms).None?
            case Some((s2, d)) =>
              RunMessages(env, s, ms[..i + 1]) == Some((s2, x + if d.Some? then [d.value] else []))
  {
    var (s1, x) := RunMessages(env, s, ms[..i]).value;
    var step := MessageStep(env, s1, ms[i]);
    if step.None? {
      assert ms == ms[..i] + ms[i..] && ms[i..][0] == ms[i];
      RunMessagesConcat(env, s, ms[..i], ms[i..]);
    } else {
      assert ms[..i + 1] == ms[..i] + [ms[i]];
      RunMessagesConcat(env, s, ms[..i], [ms[i]]);
      var d := if step.value.1.Some? then [step.value.1.value] else [];
      assert [ms[i]][1..] == [];
      assert RunMessages(env, step.value.0, []) == Some((step.value.0, []));
      assert d + [] == d;
    }
  }

  lemma PushConcat(utf8: Utf8, env: Env, s: StreamState, a: seq<Byte>, b: seq<Byte>)
    ensures PushChunk(utf8, env, s, a + b) ==
            match PushChunk(utf8, env, s, a)
            case None => None
            case Some((s1, x)) =>
              match PushChunk(utf8, env, s1, b)
              case None => None
              case Some((s2, y)) => Some((s2, x + y))
  {
    FeedConcat(utf8, s.sse, a, b);
    var fa := Feed(utf8, s.sse, a);
    if fa.Some? && Feed(utf8, fa.value.0, b).Some? {
      RunMessagesConcat(env, s.text, fa.value.1, Feed(utf8, fa.value.0, b).value.1);
    }
  }

  /** Delivering a stream in chunks is delivering it whole: same verdict, same deltas, same final state. */
  lemma {:induction false} ChunksAsOne(utf8: Utf8, env: Env, s: StreamState, chunks: seq<seq<Byte>>)
    ensures PushChunks(utf8, env, s, chunks) == PushChunk(utf8, env, s, Flatten(chunks))
    decreases |chunks|
  {
    if chunks != [] {
      var rest := Flatten(chunks[1..]);
      PushConcat(utf8, env, s, chunks[0], rest);
      var first := PushChunk(utf8, env, s, chunks[0]);
      if first.Some? { ChunksAsOne(utf8, env, first.value.0, chunks[1..]); }
    }
  }

  lemma ChunkingIndependence(utf8: Utf8, env: Env, s: StreamState, xs: seq<seq<Byte>>, ys: seq<seq<Byte>>)
    requires Flatten(xs) == Flatten(ys)
    ensures PushChunks(utf8, env, s, xs) == PushChunks(utf8, env, s, ys)
  {
    ChunksAsOne(utf8, env, s, xs);
    ChunksAsOne(utf8, env, s, ys);
  }

  // ---- The decoder object ----

  class ResponsesSseDecoder {
    const env: Env
    const sse: IncrementalSseDecoder
    const allowEmptyOutput: bool
    var mode: TextPartMode
    var parts: map<TextPartKey, StreamedTextPart>
    var outputItemIds: map<nat, string>
    var last: Option<TextPartKey>
    var sawDelta: bool
    var sawNonWhitespace: bool
    var completed: Option<Terminal>

    function State(): DecoderState reads this {
      DecoderState(mode, parts, outputItemIds, last, sawDelta, sawNonWhitespace, allowEmptyOutput, completed)
    }

    function Stream(): StreamState reads this, sse { StreamState(sse.State(), State()) }

    constructor (utf8: Utf8, env: Env, allowEmptyOutput: bool)
      ensures this.env == env && sse.utf8 == utf8 && fresh(sse) && sse.Valid()
      ensures Stream() == StreamState(FRESH, InitialState(allowEmptyOutput))
    {
      this.env, this.allowEmptyOutput := env, allowEmptyOutput;
      sse := new IncrementalSseDecoder(utf8);
      mode, parts, outputItemIds, last := Unknown, map[], map[], None;
      sawDelta, sawNonWhitespace, completed := false, false, None;
    }

    /** Decode one chunk; on an error the caller discards the decoder. */
    method Push(chunk: seq<Byte>) returns (r: Result<seq<string>, ()>)
      requires sse.Valid()
      modifies this, sse
      ensures r.Ok? <==> PushChunk(sse.utf8, env, old(Stream()), chunk).Some?
      ensures r.Ok? ==> sse.Valid() && PushChunk(sse.utf8, env, old(Stream()), chunk) == Some((Stream(), r.value))
    {
      var pushed := sse.Push(chunk);
      if pushed.Err? { return Err(()); }
      var messages := pushed.value;
      ghost var start := State();
      var events: seq<string> := [];
      for i := 0 to |messages|
        invariant sse.Valid() && sse.State() == Feed(sse.utf8, old(sse.State()), chunk).value.0
        invariant RunMessages(env, start, messages[..i]) == Some((State(), events))
      {
        RunMessagesSnoc(env, start, messages, i);
        var step := ProcessMessage(messages[i]);
        if step.Err? { return Err(()); }
        assert events + [] == events;
        if step.value.Some? { events := events + [step.value.value]; }
      }
      assert messages[..|messages|] == messages;
      r := Ok(events);
    }

    method ProcessMessage(message: SseMessage) returns (r: Result<Option<string>, ()>)
      modifies this
      ensures r.Ok? <==> MessageStep(env, old(State()), message).Some?
      ensures r.Ok? ==> MessageStep(env, old(State()), message) == Some((State(), r.value))
    {
      if message.data == "[DONE]" || completed.Some? { return Err(()); }
      var parsed := env.parse(message.data);
      if parsed.None? || !parsed.value.kind.Present? { return Err(()); }
      var value := parsed.value;
      if NameMismatch(message.event, value.kind.value) { return Err(()); }
      match value.kind.value {
        case OutputTextDelta => r := ObserveDelta(value);
        case OutputTextDone =>
          var ok := ObserveDone(value);
          r := if ok then Ok(None) else Err(());
        case ResponseCompleted =>
          if !value.response.Present? { return Err(()); }
          var response := value.response.value;
          var text := ValidateCompletedParts(response);
          if text.Err? { return Err(()); }
          var fallback := None;
          if !sawDelta {
            if text.value.None? { return Err(()); }
            fallback := text.value;
          }
          completed := Some(Terminal(fallback, response.usage));
          r := Ok(None);
        case ResponseFailed => r := Err(());
        case ResponseIncomplete => r := Err(());
        case ErrorEvent => r := Err(());
        case Other(_) => r := Ok(None);
      }
    }

    method TextPartIdentity(value: Value) returns (r: Result<(TextPartKey, Option<string>), ()>)
      modifies this`mode, this`outputItemIds
      ensures r.Ok? <==> Identify(old(State()), value).Some?
      ensures r.Ok? ==> Identify(old(State()), value) == Some((State(), r.value.0, r.value.1))
    {
      var id := ItemId(value.itemId);
      if id.None? { return Err(()); }
      match (value.outputIndex, value.contentIndex) {
        case (Present(o), Present(c)) =>
          if mode.LegacySingle? || id.value.None? { return Err(()); }
          mode := Indexed;
          if o in outputItemIds {
            if outputItemIds[o] != id.value.value { return Err(()); }
            assert outputItemIds == outputItemIds[o := id.value.value];
          } else {
            outputItemIds := outputItemIds[o := id.value.value];
          }
          r := Ok((TextPartKey(o, c), id.value));
        case (Absent, Absent) =>
          if mode.Indexed? { return Err(()); }
          mode := LegacySingle;
          r := Ok((LEGACY_KEY, id.value));
        case _ => r := Err(());
      }
    }

    method ObservePartOrder(key: TextPartKey) returns (ok: bool)
      modifies this`last
      ensures ok <==> Order(old(State()), key).Some?
      ensures ok ==> Order(old(State()), key) == Some(State())
    {
      if last.None? {
        last := Some(key);
        return true;
      }
      var previous := last.value;
      if Less(key, previous) { return false; }
      if Less(previous, key) {
        if previous !in parts || parts[previous].done.None? { return false; }
        last := Some(key);
      }
      return true;
    }

    method ObserveDelta(value: Value) returns (r: Result<Option<string>, ()>)
      modifies this
      ensures r.Ok? <==> DeltaEvent(old(State()), value).Some?
      ensures r.Ok? ==> DeltaEvent(old(State()), value) == Some((State(), r.value))
    {
      var identity := TextPartIdentity(value);
      if identity.Err? { return Err(()); }
      var (key, id) := identity.value;
      var ordered := ObservePartOrder(key);
      if !ordered || !value.delta.Present? { return Err(()); }
      var delta := value.delta.value;
      var part := WithItem(Part(State(), key), id);
      if part.None? || part.value.done.Some? { return Err(()); }
      var p := part.value;
      if p.deltaBytes + ByteLen(delta) > U64_MAX { return Err(()); }
      p := p.(absorbed := p.absorbed + delta, deltaBytes := p.deltaBytes + ByteLen(delta), sawDelta := true);
      parts := parts[key := p];
      sawDelta := true;
      sawNonWhitespace := sawNonWhitespace || HasText(delta);
      r := Ok(if delta == "" then None else Some(delta));
    }

    method ObserveDone(value: Value) returns (ok: bool)
      modifies this
      ensures ok <==> DoneEvent(env, old(State()), value).Some?
      ensures ok ==> DoneEvent(env, old(State()), value) == Some(State())
    {
      var identity := TextPartIdentity(value);
      if identity.Err? { return false; }
      var (key, id) := identity.value;
      var ordered := ObservePartOrder(key);
      if !ordered || !value.text.Present? { return false; }
      var fingerprint := Fingerprint(env, value.text.value);
      var part := WithItem(Part(State(), key), id);
      if part.None? { return false; }
      var p := part.value;
      if p.done.Some? || (p.sawDelta && DeltaFingerprint(env, p) != fingerprint) { return false; }
      parts := parts[key := p.(done := Some(fingerprint))];
      return true;
    }

    method FinalResponseTextParts(output: seq<OutputItem>) returns (r: Result<seq<FinalTextPart>, ()>)
      ensures r.Ok? <==> FinalParts(output, 0).Some?
      ensures r.Ok? ==> FinalParts(output, 0) == Some(r.value)
    {
      var found: seq<FinalTextPart> := [];
      ghost var all := FinalParts(output, 0);
      assert all.Some? ==> [] + all.value == all.value;
      for o := 0 to |output|
        invariant all.Some? <==> FinalParts(output, o).Some?
        invariant all.Some? ==> all.value == found + FinalParts(output, o).value
      {
        if output[o].content.Absent? { continue; }
        if output[o].content.Malformed? { return Err(()); }
        var content := output[o].content.value;
        var id := ItemId(output[o].id);
        if id.None? { return Err(()); }
        ghost var before := found;
        ghost var here := ContentParts(content, o, 0, id.value);
        assert here.Some? ==> before + here.value == before + ([] + here.value);
        for c := 0 to |content|
          invariant here.Some? <==> ContentParts(content, o, c, id.value).Some?
          invariant here.Some? ==> before + here.value == found + ContentParts(content, o, c, id.value).value
        {
          if content[c].kind != Present("output_text") { continue; }
          if !content[c].text.Present? { return Err(()); }
          found := found + [FinalTextPart(TextPartKey(o, c), id.value, content[c].text.value)];
        }
        if all.Some? {
          assert before + (here.value + FinalParts(output, o + 1).value) == (before + here.value)
              + FinalParts(output, o + 1).value;
        }
      }
      assert found + [] == found;
      r := Ok(found);
    }

    method ValidateCompletedParts(response: Response) returns (r: Result<Option<string>, ()>)
      ensures r.Ok? <==> CheckCompleted(env, State(), response).Some?
      ensures r.Ok? ==> CheckCompleted(env, State(), response) == Some(r.value)
    {
      hide PartAgrees, FinalParts, HasText, EmptyOutputAllowed;
      if response.status != Present("completed") || !response.output.Present? { return Err(()); }
      var output := response.output.value;
      if output == [] {
        return if EmptyOutputAllowed(State()) then Ok(None) else Err(());
      }
      var listed := FinalResponseTextParts(output);
      if listed.Err? { return Err(()); }
      var finals := listed.value;
      var text := "";
      match mode {
        case Unknown => return Err(());
        case LegacySingle =>
          if |parts| != 1 || |finals| != 1 { return Err(()); }
          if !(forall k :: k in parts ==> PartAgrees(env, State(), parts[k], finals[0])) { return Err(()); }
          text := finals[0].text;
          assert Texts(finals) == [text];
          assert Concat([text]) == text + "" == text;
        case Indexed =>
          if |finals| != |parts| || finals == [] { return Err(()); }
          for i := 0 to |finals|
            invariant text == Concat(Texts(finals)[..i])
            invariant PartsAgree(env, State(), finals[..i])
          {
            if finals[i].key !in parts || !PartAgrees(env, State(), parts[finals[i].key], finals[i]) { return Err(()); }
            assert Texts(finals)[..i + 1] == Texts(finals)[..i] + [finals[i].text];
            ConcatAppend(Texts(finals)[..i], [finals[i].text]);
            text := text + finals[i].text;
          }
          assert finals[..|finals|] == finals && Texts(finals)[..|finals|] == Texts(finals);
      }
      assert FinalsAgree(env, State(), finals) && text == Concat(Texts(finals));
      TrimShape(text);
      return if Trim(text) == "" then Err(()) else Ok(Some(text));
    }

    /** End of stream. */
    method Finish() returns (r: Result<Terminal, ()>)
      modifies this`completed
      ensures r.Ok? <==> FinishCheck(sse.State(), old(State())).Some?
      ensures r.Ok? ==>
                FinishCheck(sse.State(), old(State())) == Some(r.value) && State() == old(State()).(completed := None)
    {
      var clean := sse.Finish();
      if !clean || completed.None? { return Err(()); }
      var terminal := completed.value;
      completed := None;
      if parts == map[] || exists k :: k in parts && parts[k].done.None? { return Err(()); }
      r := Ok(terminal);
    }
  }
}
