/** The batch extractor on well-behaved streams: what it yields, and which of them it rejects. */
module CodexHonest {
  import opened Text
  import opened Sse
  import opened SseEncoding
  import opened Responses
  import opened Decoder
  import opened Certified
  import opened CodexBatch
  import opened Honest

  predicate OneLineEach(sent: seq<Outgoing>) {
    forall i :: 0 <= i < |sent| ==> Sendable(sent[i]) && |sent[i].lines| == 1
  }

  // ---- The body of a sender, read as lines ----

  lemma BodyLine(utf8: Utf8, line: seq<Byte>, rest: seq<Byte>)
    requires LF !in line
    ensures BodyLines(utf8, line + [LF] + rest) ==
            match (utf8(DropCr(line)), BodyLines(utf8, rest))
            case (Some(t), Some(more)) => Some([t] + more)
            case _ => None
  {
    hide DropCr;
    var body := line + [LF] + rest;
    assert body[..|line|] == line && body[|line|] == LF && body[|line| + 1..] == rest;
    FirstLineFeed(body, |line|);
  }

  lemma EncodedLine(utf8: Utf8, enc: Encoder, line: string)
    requires Encodes(utf8, enc) && Plain(line)
    ensures utf8(enc(line)) == Some(line) && LF !in enc(line) && DropCr(enc(line)) == enc(line)
  {}

  lemma NoBody(utf8: Utf8)
    ensures BodyLines(utf8, []) == Some([])
  {}

  lemma {:induction false} LinesOfBytes(utf8: Utf8, enc: Encoder, lines: seq<string>)
    requires Encodes(utf8, enc) && forall i :: 0 <= i < |lines| ==> Plain(lines[i])
    ensures BodyLines(utf8, Bytes(enc, lines)) == Some(lines)
    decreases |lines|
  {
    hide BodyLines, Encodes, Plain, DropCr;
    if lines == [] {
      NoBody(utf8);
    } else {
      EncodedLine(utf8, enc, lines[0]);
      BodyLine(utf8, enc(lines[0]), Bytes(enc, lines[1..]));
      LinesOfBytes(utf8, enc, lines[1..]);
      assert lines == [lines[0]] + lines[1..];
    }
  }

  lemma FirstLineFeed(body: seq<Byte>, n: nat)
    requires n < |body| && body[n] == LF && LF !in body[..n]
    ensures IndexOf(body, LF) == Some(n)
  {
    assert forall j :: 0 <= j < n ==> body[..n][j] == body[j];
    var k := IndexOf(body, LF);
    assert k.Some?;
    assert forall j :: 0 <= j < k.value ==> body[..k.value][j] == body[j];
  }

  lemma BodyOfSent(utf8: Utf8, enc: Encoder, sent: seq<Outgoing>)
    requires Encodes(utf8, enc) && OneLineEach(sent)
    ensures BodyLines(utf8, Encode(enc, sent)) == Some(AllLines(sent))
  {
    LinesArePlain(sent);
    LinesOfBytes(utf8, enc, AllLines(sent));
  }

  /** A name and a data line before a blank line leave a single data line. */
  lemma SingleDataMessage(o: Outgoing, rest: seq<string>)
    requires |o.lines| == 1 && SingleData(NO_FIELDS, rest)
    ensures SingleData(NO_FIELDS, FieldLines(o) + rest)
  {
    hide LineStep, SingleData;
    var data, named := "data: " + o.lines[0], Fields(o.event, []);
    var tail := [data] + ([""] + rest);
    DataLine(named, o.lines[0]);
    BlankStep(Fields(o.event, o.lines));
    assert [] + [o.lines[0]] == o.lines;
    SingleStep(Fields(o.event, o.lines), "", rest);
    SingleStep(named, data, [""] + rest);
    assert DataFields(o.lines) == [data];
    if o.event.Some? {
      EventLine(NO_FIELDS, o.event.value);
      SingleStep(NO_FIELDS, "event: " + o.event.value, tail);
      assert FieldLines(o) + rest == ["event: " + o.event.value] + tail;
    } else {
      assert FieldLines(o) + rest == tail;
    }
  }

  lemma {:induction false} SingleDataSent(sent: seq<Outgoing>)
    requires OneLineEach(sent)
    ensures SingleData(NO_FIELDS, AllLines(sent))
  {
    hide LineStep, FieldLines;
    if sent != [] {
      SingleDataSent(sent[1..]);
      SingleDataMessage(sent[0], AllLines(sent[1..]));
    }
  }

  lemma BlankStep(f: Fields)
    ensures LineStep(f, "").0 == NO_FIELDS
  {}

  lemma SingleStep(f: Fields, line: string, rest: seq<string>)
    requires |f.dataLines| <= 1 && SingleData(LineStep(f, line).0, rest)
    ensures SingleData(f, [line] + rest)
  {
    hide LineStep;
    assert ([line] + rest)[1..] == rest;
  }

  // ---- What the extractor makes of it ----

  /** The messages of a well-behaved Codex stream, with one data line each. */
  predicate SendsHonestly(env: Env, parts: seq<SentPart>, r: Response, sent: seq<Outgoing>) {
    && sent != [] && OneLineEach(sent) && Orderly(parts) && Concludes(true, parts, r)
    && var ms := AllReceived(sent);
    Speaks(env, Spoken(env, ms[..|ms| - 1]), parts) && SaysCompleted(env, ms[|ms| - 1], r)
  }

  predicate ListsOutput(r: Response) { r.output.Present? && r.output.value != [] }

  lemma HonestIsStreamed(
    utf8: Utf8, enc: Encoder, env: Env, parts: seq<SentPart>, r: Response, sent: seq<Outgoing>)
    requires Encodes(utf8, enc) && SendsHonestly(env, parts, r, sent)
    ensures Streamed(utf8, env, Encode(enc, sent)) == Some(FinalText(parts))
    ensures Messages(utf8, Encode(enc, sent)) == AllReceived(sent)
    ensures var run := RunMessages(env, InitialState(true), AllReceived(sent));
            run.Some? && FinishCheck(FRESH, run.value.0).Some?
  {
    hide Feed, RunMessages, FinishCheck, Speaks, SaysCompleted, Orderly, Concludes, FinalText, Encode, Sendable,
      Encodes, Spoken, Received, Delivered;
    var ms := AllReceived(sent);
    SentIsReceived(utf8, enc, sent);
    assert ms == ms[..|ms| - 1] + [ms[|ms| - 1]];
    HonestMessagesAreAccepted(env, true, parts, r, ms[..|ms| - 1], ms[|ms| - 1]);
  }

  /**
   * On a well-behaved Codex stream the incremental decoder delivers the terminal text; the extractor yields the same,
   * except that it rejects every stream whose terminal output lists a part with text before the last one.
   */
  lemma HonestExtraction(
    utf8: Utf8, enc: Encoder, env: Env, parts: seq<SentPart>, r: Response, sent: seq<Outgoing>)
    requires Encodes(utf8, enc) && Injective(env.digest) && JsonLike(env.parse) && SendsHonestly(env, parts, r, sent)
    ensures BodyLines(utf8, Encode(enc, sent)) == Some(AllLines(sent))
    ensures Streamed(utf8, env, Encode(enc, sent)) == Some(FinalText(parts))
    ensures Extract(utf8, env, Encode(enc, sent)) ==
            if ListsOutput(r) && Spread(Texts(Finals(parts))) then None else Some(FinalText(parts))
  {
    hide Encodes, Injective, JsonLike, Speaks, Orderly, FinalText, Encode, Streamed, Extract, Spread, RunMessages,
      FinishCheck, Delivered, Spoken, FinalParts, HasText, DoneTexts, Received, Matching, Texts, Finals;
    var body, ms := Encode(enc, sent), AllReceived(sent);
    HonestIsStreamed(utf8, enc, env, parts, r, sent);
    BodyOfSent(utf8, enc, sent);
    SingleDataSent(sent);
    DeliveredTextIsCertified(env, true, FRESH, ms);
    ExtractorAgrees(utf8, env, body);
    if ListsOutput(r) { MatchingText(parts, FinalParts(r.output.value, 0).value); }
    assert TerminalResponse(env, ms[|ms| - 1]) == Some(r);
  }

  // ---- A rejected body ----

  /** The two `done` events and the terminal event of the example, each behind a one-character text. */
  function ExampleDone(part: nat, text: string): Value {
    Value(Present(OutputTextDone), Present(0), Present(part), Present("i"), Absent, Present(text), Absent)
  }

  const EXAMPLE_RESPONSE := Response(
    Present("completed"),
    Present([OutputItem(
               Present([ContentPart(Present("output_text"), Present("a")),
                        ContentPart(Present("output_text"), Present("b"))]),
               Present("i"))]),
    None)

  function ExampleParse(s: string): Option<Value> {
    if Trim(s) == "1" then Some(ExampleDone(0, "a"))
    else if Trim(s) == "2" then Some(ExampleDone(1, "b"))
    else if Trim(s) == "3" then
      Some(Value(Present(ResponseCompleted), Absent, Absent, Absent, Absent, Absent, Present(EXAMPLE_RESPONSE)))
    else None
  }

  function ExamplePart(part: nat, text: string): SentPart {
    SentPart(Label(TextPartKey(0, part), Some("i"), false), text, [])
  }

  function ExampleParts(): seq<SentPart> { [ExamplePart(0, "a"), ExamplePart(1, "b")] }

  function ExampleSent(): seq<Outgoing> { [Outgoing(None, ["1"]), Outgoing(None, ["2"]), Outgoing(None, ["3"])] }

  lemma ExampleIsJsonLike()
    ensures JsonLike(ExampleParse)
  {
    hide Trim;
    forall s ensures ExampleParse(Trim(s)) == ExampleParse(s) { TrimIsIdempotent(s); }
    TrimPlain("");
    TrimPlain("[DONE]");
  }

  lemma TrimPlain(s: string)
    requires forall c :: c in s ==> !IsWhitespace(c)
    ensures Trim(s) == s
  {
    assert s != "" ==> !IsWhitespace(s[0]) && !IsWhitespace(s[|s| - 1]);
    var a := TrimStartIsSuffix(s);
    assert a == 0;
    var b := TrimEndIsPrefix(s);
    assert b == |s|;
  }

  lemma ExampleParses()
    ensures ExampleParse("1") == Some(ExampleDone(0, "a")) && ExampleParse("2") == Some(ExampleDone(1, "b"))
    ensures ExampleParse("3").Some? && ExampleParse("3").value.kind == Present(ResponseCompleted)
    ensures ExampleParse("3").value.response == Present(EXAMPLE_RESPONSE)
  {
    hide Trim;
    TrimPlain("1");
    TrimPlain("2");
    TrimPlain("3");
  }

  lemma ExampleIsOrderly()
    ensures Orderly(ExampleParts()) && Texts(Finals(ExampleParts())) == ["a", "b"]
  {
    var finals := Finals(ExampleParts());
    assert Keys(finals) == [TextPartKey(0, 0), TextPartKey(0, 1)];
    assert ByteLen("a") == 1 && ByteLen("b") == 1;
  }

  lemma ExampleConcludes()
    ensures Concludes(true, ExampleParts(), EXAMPLE_RESPONSE) && Spread(["a", "b"]) && ListsOutput(EXAMPLE_RESPONSE)
  {
    ExampleIsOrderly();
    hide Orderly;
    ExampleFinals();
    hide FinalParts;
    assert ["a", "b"][1..] == ["b"];
    ConcatOne("b");
    var text := Concat(["a", "b"]);
    assert text[0] == 'a' && HasText(text);
    assert ["a", "b"][0] != "";
  }

  lemma ExampleFinals()
    ensures FinalParts(EXAMPLE_RESPONSE.output.value, 0) == Some(Finals(ExampleParts()))
  {
    var content := EXAMPLE_RESPONSE.output.value[0].content.value;
    var a := FinalTextPart(TextPartKey(0, 0), Some("i"), "a");
    var b := FinalTextPart(TextPartKey(0, 1), Some("i"), "b");
    assert ContentParts(content, 0, 2, Some("i")) == Some([]);
    assert ContentParts(content, 0, 1, Some("i")) == Some([b] + []);
    assert ContentParts(content, 0, 0, Some("i")) == Some([a] + ([b] + []));
    assert FinalParts(EXAMPLE_RESPONSE.output.value, 1) == Some([]);
    assert Finals(ExampleParts()) == [a] + ([b] + []) + [];
  }

  lemma ExampleSpeaks(env: Env)
    requires env.parse == ExampleParse
    ensures var ms := AllReceived(ExampleSent());
            && |ms| == 3 && Speaks(env, Spoken(env, ms[..2]), ExampleParts())
            && SaysCompleted(env, ms[2], EXAMPLE_RESPONSE)
  {
    ExampleParses();
    hide ExampleParse;
    var m1, m2 := SseMessage(None, "1"), SseMessage(None, "2");
    var ms := AllReceived(ExampleSent());
    assert ms == [m1, m2, SseMessage(None, "3")];
    assert ms[..2] == [m1, m2] && [m1, m2][1..] == [m2] && [m2][1..] == [];
    assert !IsNoise(env, m1) && !IsNoise(env, m2);
    assert Spoken(env, [m2]) == [m2] + [];
    assert Spoken(env, [m1, m2]) == [m1] + ([m2] + []);
    assert [m1] + ([m2] + []) == [m1, m2];
    assert ExampleParts()[1..] == [ExamplePart(1, "b")] && [ExamplePart(1, "b")][1..] == [];
    assert Speaks(env, [], []);
    assert SaysDone(env, m2, ExamplePart(1, "b").tag, "b") && SaysDone(env, m1, ExamplePart(0, "a").tag, "a");
    assert Speaks(env, [m2], [ExamplePart(1, "b")]);
  }

  /** The two disagree on a body: the decoder accepts it, the extractor does not. */
  predicate OnlyStreamed(utf8: Utf8, env: Env, body: seq<Byte>) {
    BodyLines(utf8, body).Some? && Streamed(utf8, env, body).Some? && Extract(utf8, env, body).None?
  }

  lemma ExampleIsSendable()
    ensures ExampleSent() != [] && OneLineEach(ExampleSent())
  {}

  lemma ExampleIsHonest(env: Env)
    requires env.parse == ExampleParse
    ensures SendsHonestly(env, ExampleParts(), EXAMPLE_RESPONSE, ExampleSent())
    ensures ListsOutput(EXAMPLE_RESPONSE) && Spread(Texts(Finals(ExampleParts())))
  {
    hide Orderly, Concludes, Speaks, SaysCompleted, Spoken, ExampleParse, ExampleSent, ExampleParts, OneLineEach,
        Spread;
    ExampleIsSendable();
    ExampleIsOrderly();
    ExampleConcludes();
    ExampleSpeaks(env);
  }

  /** Whatever the encoding and the digest, such a body exists. */
  lemma RejectionExists(utf8: Utf8, enc: Encoder, digest: string -> int)
    requires Encodes(utf8, enc) && Injective(digest)
    ensures JsonLike(ExampleParse) && OnlyStreamed(utf8, Env(ExampleParse, digest), Encode(enc, ExampleSent()))
  {
    hide Encodes, Injective, Streamed, Extract, Encode, SendsHonestly, JsonLike, ExampleParse, ExampleSent,
        ExampleParts,
      FinalText, BodyLines, AllLines, Spread;
    var env := Env(ExampleParse, digest);
    ExampleIsJsonLike();
    ExampleIsHonest(env);
    HonestExtraction(utf8, enc, env, ExampleParts(), EXAMPLE_RESPONSE, ExampleSent());
  }
}
