/** Provider events as the decoder reads them out of a message's JSON, and the decoder's state. */
module Responses {
  import opened Text
  import opened Clock
  import opened Budget

  /** A JSON member: missing, present with the wrong shape, or well typed. */
  datatype Field<+T> = Absent | Malformed | Present(value: T)

  datatype ContentPart = ContentPart(kind: Field<string>, text: Field<string>)

  datatype OutputItem = OutputItem(content: Field<seq<ContentPart>>, id: Field<string>)

  datatype Response = Response(status: Field<string>, output: Field<seq<OutputItem>>, usage: Option<TokenUsage>)

  /** The `type` member: the names the decoder acts on, and all others. */
  datatype EventType =
    OutputTextDelta | OutputTextDone | ResponseCompleted | ResponseFailed | ResponseIncomplete | ErrorEvent
    | Other(name: string)

  function TypeName(t: EventType): string {
    match t
    case OutputTextDelta => "response.output_text.delta"
    case OutputTextDone => "response.output_text.done"
    case ResponseCompleted => "response.completed"
    case ResponseFailed => "response.failed"
    case ResponseIncomplete => "response.incomplete"
    case ErrorEvent => "error"
    case Other(name) => name
  }

  datatype Value = Value(
    kind: Field<EventType>, outputIndex: Field<nat>, contentIndex: Field<nat>, itemId: Field<string>,
    delta: Field<string>, text: Field<string>, response: Field<Response>)

  /** What the model leaves open: the JSON parser and the digest of a text. */
  datatype Env = Env(parse: string -> Option<Value>, digest: string -> int)

  ghost predicate Injective(digest: string -> int) {
    forall a, b :: digest(a) == digest(b) ==> a == b
  }

  datatype TextFingerprint = TextFingerprint(bytes: nat, digest: int)

  function Fingerprint(env: Env, text: string): TextFingerprint {
    TextFingerprint(if ByteLen(text) < U64_MAX then ByteLen(text) else U64_MAX, env.digest(text))
  }

  datatype TextPartKey = TextPartKey(outputIndex: nat, contentIndex: nat)

  const LEGACY_KEY := TextPartKey(0, 0)

  predicate Less(a: TextPartKey, b: TextPartKey) {
    a.outputIndex < b.outputIndex || (a.outputIndex == b.outputIndex && a.contentIndex < b.contentIndex)
  }

  datatype TextPartMode = Unknown | LegacySingle | Indexed

  /** `absorbed` is the input of the running delta hasher. */
  datatype StreamedTextPart = StreamedTextPart(
    itemId: Option<string>, absorbed: string, deltaBytes: nat, sawDelta: bool, done: Option<TextFingerprint>)

  const NEW_PART := StreamedTextPart(None, "", 0, false, None)

  function DeltaFingerprint(env: Env, p: StreamedTextPart): TextFingerprint {
    TextFingerprint(p.deltaBytes, env.digest(p.absorbed))
  }

  datatype FinalTextPart = FinalTextPart(key: TextPartKey, itemId: Option<string>, text: string)

  datatype Terminal = Terminal(fallbackText: Option<string>, usage: Option<TokenUsage>)

  datatype DecoderState = DecoderState(
    mode: TextPartMode, parts: map<TextPartKey, StreamedTextPart>, outputItemIds: map<nat, string>,
    last: Option<TextPartKey>, sawDelta: bool, sawNonWhitespace: bool, allowEmptyOutput: bool,
    completed: Option<Terminal>)

  function InitialState(allowEmptyOutput: bool): DecoderState {
    DecoderState(Unknown, map[], map[], None, false, false, allowEmptyOutput, None)
  }

  // ---- The terminal response ----

  function ContentParts(content: seq<ContentPart>, o: nat, c: nat, id: Option<string>): Option<seq<FinalTextPart>>
    requires c <= |content|
    decreases |content| - c
  {
    if c == |content| then Some([])
    else if content[c].kind != Present("output_text") then ContentParts(content, o, c + 1, id)
    else
      match (content[c].text, ContentParts(content, o, c + 1, id))
      case (Present(text), Some(rest)) => Some([FinalTextPart(TextPartKey(o, c), id, text)] + rest)
      case _ => None
  }

  /** An optional non-empty identifier; None when the member has the wrong shape or is empty. */
  function ItemId(id: Field<string>): Option<Option<string>> {
    match id
    case Absent => Some(None)
    case Present(x) => if x == "" then None else Some(Some(x))
    case Malformed => None
  }

  function FinalParts(output: seq<OutputItem>, o: nat): Option<seq<FinalTextPart>>
    requires o <= |output|
    decreases |output| - o
  {
    if o == |output| then Some([])
    else
      match output[o].content
      case Absent => FinalParts(output, o + 1)
      case Malformed => None
      case Present(content) =>
        match ItemId(output[o].id)
        case None => None
        case Some(id) =>
          match (ContentParts(content, o, 0, id), FinalParts(output, o + 1))
          case (Some(here), Some(rest)) => Some(here + rest)
          case _ => None
  }

  /** The text a terminal output certifies: every output_text part, in document order. */
  function ContentText(content: seq<ContentPart>): string {
    if content == [] then ""
    else
      (if content[0].kind == Present("output_text") && content[0].text.Present? then content[0].text.value else "")
      + ContentText(content[1..])
  }

  function OutputText(output: seq<OutputItem>): string {
    if output == [] then ""
    else (if output[0].content.Present? then ContentText(output[0].content.value) else "") + OutputText(output[1..])
  }

  function Texts(parts: seq<FinalTextPart>): seq<string> {
    seq(|parts|, i requires 0 <= i < |parts| => parts[i].text)
  }

  function Keys(parts: seq<FinalTextPart>): seq<TextPartKey> {
    seq(|parts|, i requires 0 <= i < |parts| => parts[i].key)
  }

  predicate Ascending(keys: seq<TextPartKey>) {
    forall i, j :: 0 <= i < j < |keys| ==> Less(keys[i], keys[j])
  }

  lemma {:induction false} ContentPartsOrdered(content: seq<ContentPart>, o: nat, c: nat, id: Option<string>)
    requires c <= |content| && ContentParts(content, o, c, id).Some?
    ensures var ps := ContentParts(content, o, c, id).value;
            && Ascending(Keys(ps))
            && (forall p :: p in ps ==> p.key.outputIndex == o && p.key.contentIndex >= c)
            && Concat(Texts(ps)) == ContentText(content[c..])
    decreases |content| - c
  {
    if c < |content| {
      ContentPartsOrdered(content, o, c + 1, id);
      var rest := ContentParts(content, o, c + 1, id).value;
      assert content[c..][1..] == content[c + 1..];
      if content[c].kind == Present("output_text") {
        var first := ContentParts(content, o, c, id).value[0];
        PrependOrdered(first, rest);
      }
    }
  }

  lemma PrependOrdered(first: FinalTextPart, rest: seq<FinalTextPart>)
    requires Ascending(Keys(rest)) && forall p :: p in rest ==> Less(first.key, p.key)
    ensures Ascending(Keys([first] + rest))
    ensures Concat(Texts([first] + rest)) == first.text + Concat(Texts(rest))
  {
    assert Texts([first] + rest) == [first.text] + Texts(rest);
    assert Keys([first] + rest) == [first.key] + Keys(rest);
    assert forall i :: 0 <= i < |rest| ==> rest[i] in rest;
  }

  /** Enumeration lists the parts in strictly ascending key order and loses no text. */
  lemma {:induction false} FinalPartsOrdered(output: seq<OutputItem>, o: nat)
    requires o <= |output| && FinalParts(output, o).Some?
    ensures var ps := FinalParts(output, o).value;
            && Ascending(Keys(ps))
            && (forall p :: p in ps ==> p.key.outputIndex >= o)
            && Concat(Texts(ps)) == OutputText(output[o..])
    decreases |output| - o
  {
    if o < |output| {
      FinalPartsOrdered(output, o + 1);
      assert output[o..][1..] == output[o + 1..];
      if output[o].content.Present? {
        var content, id := output[o].content.value, ItemId(output[o].id).value;
        ContentPartsOrdered(content, o, 0, id);
        assert content[0..] == content;
        JoinOrdered(ContentParts(content, o, 0, id).value, FinalParts(output, o + 1).value, o);
      }
    }
  }

  lemma JoinOrdered(here: seq<FinalTextPart>, rest: seq<FinalTextPart>, o: nat)
    requires Ascending(Keys(here)) && Ascending(Keys(rest))
    requires forall p :: p in here ==> p.key.outputIndex == o
    requires forall p :: p in rest ==> p.key.outputIndex > o
    ensures Ascending(Keys(here + rest))
    ensures Concat(Texts(here + rest)) == Concat(Texts(here)) + Concat(Texts(rest))
  {
    assert Texts(here + rest) == Texts(here) + Texts(rest);
    ConcatAppend(Texts(here), Texts(rest));
    assert Keys(here + rest) == Keys(here) + Keys(rest);
    assert forall i :: 0 <= i < |here| ==> here[i] in here;
    assert forall i :: 0 <= i < |rest| ==> rest[i] in rest;
  }

  /** A key set has one ascending enumeration. */
  lemma {:induction false} AscendingUnique(a: seq<TextPartKey>, b: seq<TextPartKey>)
    requires Ascending(a) && Ascending(b)
    requires forall k :: k in a <==> k in b
    ensures a == b
  {
    assert forall i :: 0 <= i < |b| ==> b[i] in a;
    assert forall i :: 0 <= i < |a| ==> a[i] in b;
    if a != [] && b != [] {
      assert a[0] == b[0];
      forall k ensures k in a[1..] <==> k in b[1..] {
        assert k in a[1..] <==> k in a && k != a[0];
        assert k in b[1..] <==> k in b && k != b[0];
      }
      AscendingUnique(a[1..], b[1..]);
      assert a == [a[0]] + a[1..] && b == [b[0]] + b[1..];
    }
  }

  function KeySet(keys: seq<TextPartKey>): set<TextPartKey> {
    set k | k in keys
  }

  lemma {:induction false} AscendingSize(keys: seq<TextPartKey>)
    requires Ascending(keys)
    ensures |KeySet(keys)| == |keys|
  {
    if keys != [] {
      var front, k := keys[..|keys| - 1], keys[|keys| - 1];
      AscendingSize(front);
      assert KeySet(keys) == KeySet(front) + {k};
      assert k !in front;
    }
  }

  /** As many distinct keys as the map has entries are all of them. */
  lemma KeysExhaust(keys: seq<TextPartKey>, order: seq<TextPartKey>)
    requires Ascending(keys) && Ascending(order)
    requires |keys| == |order| && forall k :: k in keys ==> k in order
    ensures keys == order
  {
    AscendingSize(keys);
    AscendingSize(order);
    SubsetOfSameSize(KeySet(keys), KeySet(order));
    assert forall k :: k in keys <==> k in KeySet(keys);
    assert forall k :: k in order <==> k in KeySet(order);
    AscendingUnique(keys, order);
  }

  lemma SubsetOfSameSize<T>(a: set<T>, b: set<T>)
    requires a <= b && |a| == |b|
    ensures a == b
  {
    assert |b - a| == |b| - |a|;
  }
}
