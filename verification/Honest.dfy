/** Completeness: whatever a well-behaved provider streams, in whatever chunks, is accepted and delivered whole. */
module Honest {
  import opened Text
  import opened Clock
  import opened Sse
  import opened SseEncoding
  import opened Responses
  import opened Decoder
  import opened Certified
  import opened Stream

  /** How a part's events address it: by indices and an item, or in the legacy form without indices. */
  datatype Label = Label(key: TextPartKey, itemId: Option<string>, legacy: bool)

  predicate Proper(f: Label) {
    if f.legacy then f.key == LEGACY_KEY else f.itemId.Some?
  }

  /** A part, its text, and the deltas that streamed it. */
  datatype SentPart = SentPart(tag: Label, text: string, pieces: seq<string>)

  function Finals(parts: seq<SentPart>): seq<FinalTextPart> {
    seq(|parts|, i requires 0 <= i < |parts| => FinalTextPart(parts[i].tag.key, parts[i].tag.itemId, parts[i].text))
  }

  // ---- What the provider says ----

  /** An SSE event goes without a name, under a neutral one, or under the type it carries. */
  predicate Named(event: Option<string>, wire: string) {
    event.None? || event.value in {"", "message", wire}
  }

  predicate WellNamed(event: Option<string>, kind: EventType) {
    match kind
    case OutputTextDelta => Named(event, "response.output_text.delta")
    case OutputTextDone => Named(event, "response.output_text.done")
    case ResponseCompleted => Named(event, "response.completed")
    case ResponseFailed => Named(event, "response.failed")
    case ResponseIncomplete => Named(event, "response.incomplete")
    case ErrorEvent => Named(event, "error")
    case Other(name) => Named(event, name)
  }

  /** The decoder's check of the name, in these terms. */
  lemma NamesAreChecked(event: Option<string>, kind: EventType)
    ensures WellNamed(event, kind) <==> !NameMismatch(event, kind)
  {}

  /** In every state, a message under any other name is rejected. */
  lemma MisnamedIsRejected(env: Env, s: DecoderState, m: SseMessage)
    requires env.parse(m.data).Some? && env.parse(m.data).value.kind.Present?
    requires !WellNamed(m.event, env.parse(m.data).value.kind.value)
    ensures MessageStep(env, s, m).None?
  {
    hide NameMismatch, WellNamed, DeltaEvent, DoneEvent, CompletedEvent;
    NamesAreChecked(m.event, env.parse(m.data).value.kind.value);
  }

  predicate Says(env: Env, m: SseMessage, kind: EventType) {
    m.data != "[DONE]" && env.parse(m.data).Some? && env.parse(m.data).value.kind == Present(kind)
        && WellNamed(m.event, kind)
  }

  predicate Names(v: Value, f: Label) {
    if f.legacy then v.outputIndex.Absent? && v.contentIndex.Absent? && ItemId(v.itemId) == Some(f.itemId)
    else
    && v.outputIndex == Present(f.key.outputIndex) && v.contentIndex == Present(f.key.contentIndex)
    && v.itemId.Present? && v.itemId.value != "" && f.itemId == Some(v.itemId.value)
  }

  predicate SaysDelta(env: Env, m: SseMessage, f: Label, piece: string) {
    Says(env, m, OutputTextDelta) && Names(env.parse(m.data).value, f) && env.parse(m.data).value.delta ==
        Present(piece)
  }

  predicate SaysDone(env: Env, m: SseMessage, f: Label, text: string) {
    Says(env, m, OutputTextDone) && Names(env.parse(m.data).value, f) && env.parse(m.data).value.text == Present(text)
  }

  predicate SaysCompleted(env: Env, m: SseMessage, r: Response) {
    Says(env, m, ResponseCompleted) && env.parse(m.data).value.response == Present(r)
  }

  /** Events the decoder has no use for. */
  predicate IsNoise(env: Env, m: SseMessage) {
    && m.data != "[DONE]" && env.parse(m.data).Some? && env.parse(m.data).value.kind.Present?
    && env.parse(m.data).value.kind.value.Other? && WellNamed(m.event, env.parse(m.data).value.kind.value)
  }

  function Spoken(env: Env, ms: seq<SseMessage>): seq<SseMessage> {
    if ms == [] then [] else (if IsNoise(env, ms[0]) then [] else [ms[0]]) + Spoken(env, ms[1..])
  }

  predicate SpeaksPieces(env: Env, ms: seq<SseMessage>, p: SentPart) {
    |ms| == |p.pieces| && forall i :: 0 <= i < |ms| ==> SaysDelta(env, ms[i], p.tag, p.pieces[i])
  }

  /** The deltas of each part in turn, each part closed by its `done`. */
  predicate Speaks(env: Env, ms: seq<SseMessage>, parts: seq<SentPart>)
    decreases |parts|
  {
    if parts == [] then ms == []
    else
      var n := |parts[0].pieces|;
      n < |ms| && SpeaksPieces(env, ms[..n], parts[0]) && SaysDone(env, ms[n], parts[0].tag, parts[0].text)
          && Speaks(env, ms[n + 1..], parts[1..])
  }

  /** The deltas, if there are any, spell the text. */
  predicate Fitting(p: SentPart) {
    Proper(p.tag) && ByteLen(p.text) <= U64_MAX && (p.pieces != [] ==> Concat(p.pieces) == p.text)
  }

  /** One legacy part, or indexed parts in key order, each output with one item. */
  predicate Orderly(parts: seq<SentPart>) {
    && Ascending(Keys(Finals(parts)))
    && (forall i :: 0 <= i < |parts| ==> Fitting(parts[i]) && (parts[i].tag.legacy ==> |parts| == 1))
    && (forall i, j :: 0 <= i < |parts| && 0 <= j < |parts| ==> SameItem(parts[i].tag, parts[j].tag))
  }

  predicate SameItem(f: Label, g: Label) {
    f.key.outputIndex == g.key.outputIndex ==> f.itemId == g.itemId
  }

  /** Nothing was streamed in deltas, or everything was. */
  predicate AllOrNothing(parts: seq<SentPart>) {
    || (forall i :: 0 <= i < |parts| ==> parts[i].pieces == [])
    || (forall i :: 0 <= i < |parts| && parts[i].pieces == [] ==> parts[i].text == "")
  }

  /** What the terminal response lists: the very parts, or the one text of a legacy stream under a matching item. */
  predicate Matching(parts: seq<SentPart>, finals: seq<FinalTextPart>)
    requires parts != []
  {
    if parts[0].tag.legacy then
      && |parts| == 1 && |finals| == 1 && finals[0].text == parts[0].text
      && (finals[0].itemId.Some? && parts[0].tag.itemId.Some? ==> finals[0].itemId == parts[0].tag.itemId)
    else finals == Finals(parts)
  }

  /** The terminal response lists the parts; or it is empty, in the dialect with one indexed part. */
  predicate Concludes(codex: bool, parts: seq<SentPart>, r: Response) {
    && r.status == Present("completed") && r.output.Present? && parts != []
    && HasText(Concat(Texts(Finals(parts))))
    && (if r.output.value == [] then codex && |parts| == 1 && parts[0].pieces != [] && !parts[0].tag.legacy
        else
          && FinalParts(r.output.value, 0).Some? && Matching(parts, FinalParts(r.output.value, 0).value)
          && AllOrNothing(parts))
  }

  // ---- One event ----

  /** The part is next, or open. */
  predicate Reachable(s: DecoderState, f: Label) {
    && Proper(f) && s.completed.None? && (if f.legacy then !s.mode.Indexed? else !s.mode.LegacySingle?)
    && (!f.legacy && f.key.outputIndex in s.outputItemIds ==> Some(s.outputItemIds[f.key.outputIndex]) == f.itemId)
    && Part(s, f.key).itemId in {None, f.itemId} && Part(s, f.key).done.None?
    && (s.last.Some? ==>
          s.last.value == f.key
          || (Less(s.last.value, f.key) && s.last.value in s.parts && s.parts[s.last.value].done.Some?))
  }

  function Touched(s: DecoderState, f: Label): DecoderState
    requires Proper(f)
  {
    if f.legacy then s.(mode := LegacySingle, last := Some(f.key))
    else s.(mode := Indexed, outputItemIds := s.outputItemIds[f.key.outputIndex := f.itemId.value], last := Some(f.key))
  }

  lemma OrderAdmits(s: DecoderState, f: Label)
    requires Reachable(s, f)
    ensures Order(Touched(s, f).(last := s.last), f.key) == Some(Touched(s, f))
  {
    assert forall k: TextPartKey :: !Less(k, k);
    assert s.last.Some? ==> !Less(f.key, s.last.value);
  }

  lemma Identified(s: DecoderState, v: Value, f: Label)
    requires Reachable(s, f) && Names(v, f)
    ensures Identify(s, v) == Some((Touched(s, f).(last := s.last), f.key, f.itemId))
  {
    assert f.key == TextPartKey(f.key.outputIndex, f.key.contentIndex);
  }

  lemma Addressed(s: DecoderState, v: Value, f: Label)
    requires Reachable(s, f) && Names(v, f)
    ensures Address(s, v) == Some((Touched(s, f), f.key, Part(s, f.key).(itemId := f.itemId)))
  {
    hide Identify, Order, Names, Less;
    Identified(s, v, f);
    OrderAdmits(s, f);
    assert Part(Touched(s, f), f.key) == Part(s, f.key);
  }

  /** The state after some deltas of a part, which together spell `text`. */
  function FedText(s: DecoderState, f: Label, text: string): DecoderState
    requires Proper(f)
  {
    var p := Part(s, f.key);
    Touched(s, f).(parts :=
        s.parts[f.key := StreamedTextPart(f.itemId, p.absorbed + text, p.deltaBytes + ByteLen(text), true, None)],
                   sawDelta := true, sawNonWhitespace := s.sawNonWhitespace || HasText(text))
  }

  function Fed(s: DecoderState, f: Label, pieces: seq<string>): DecoderState
    requires Proper(f)
  {
    if pieces == [] then s else FedText(s, f, Concat(pieces))
  }

  lemma FedTwice(s: DecoderState, f: Label, a: string, b: string)
    requires Proper(f)
    ensures FedText(FedText(s, f, a), f, b) == FedText(s, f, a + b)
  {
    hide HasText, ByteLen;
    ByteLenAppend(a, b);
    HasTextAppend(a, b);
    var p, s1 := Part(s, f.key), FedText(s, f, a);
    assert p.absorbed + (a + b) == (p.absorbed + a) + b;
    var p2 := StreamedTextPart(f.itemId, p.absorbed + (a + b), p.deltaBytes + ByteLen(a + b), true, None);
    assert s1.parts[f.key := p2] == s.parts[f.key := p2];
    assert Touched(s1, f).outputItemIds == Touched(s, f).outputItemIds;
  }

  lemma StaysReachable(s: DecoderState, f: Label, text: string)
    requires Reachable(s, f)
    ensures Reachable(FedText(s, f, text), f)
    ensures Part(FedText(s, f, text), f.key).deltaBytes == Part(s, f.key).deltaBytes + ByteLen(text)
  {
    hide HasText, ByteLen, Less;
  }

  lemma DeltaFeeds(env: Env, s: DecoderState, f: Label, piece: string, m: SseMessage)
    requires Reachable(s, f) && SaysDelta(env, m, f, piece) && Part(s, f.key).deltaBytes + ByteLen(piece) <= U64_MAX
    ensures MessageStep(env, s, m) == Some((FedText(s, f, piece), if piece == "" then None else Some(piece)))
  {
    hide Address, NameMismatch, WellNamed, HasText, ByteLen, Reachable, Names;
    NamesAreChecked(m.event, OutputTextDelta);
    Addressed(s, env.parse(m.data).value, f);
    IsOpen(s, f);
  }

  lemma IsOpen(s: DecoderState, f: Label)
    requires Reachable(s, f)
    ensures Proper(f) && s.completed.None? && Part(s, f.key).done.None? && Touched(s, f).completed.None?
  {}

  lemma FedOnce(s: DecoderState, f: Label, piece: string, rest: seq<string>)
    requires Reachable(s, f)
    ensures Fed(s, f, [piece]) == FedText(s, f, piece)
    ensures Fed(FedText(s, f, piece), f, rest) == Fed(s, f, [piece] + rest)
  {
    hide FedText, Reachable;
    IsOpen(s, f);
    ConcatOne(piece);
    ConcatAppend([piece], rest);
    FedTwice(s, f, piece, Concat(rest));
    assert rest == [] ==> [piece] + rest == [piece];
  }

  lemma {:induction false} PiecesFeed(env: Env, s: DecoderState, f: Label, pieces: seq<string>, ms: seq<SseMessage>)
    requires Reachable(s, f) && SpeaksPieces(env, ms, SentPart(f, "", pieces))
    requires Part(s, f.key).deltaBytes + ByteLen(Concat(pieces)) <= U64_MAX
    ensures Proper(f) && RunMessages(env, s, ms).Some? && RunMessages(env, s, ms).value.0 == Fed(s, f, pieces)
    ensures Concat(RunMessages(env, s, ms).value.1) == Concat(pieces)
    decreases |pieces|
  {
    hide MessageStep, Reachable, SaysDelta, ByteLen, FedText;
    IsOpen(s, f);
    if pieces != [] {
      var piece, rest := pieces[0], pieces[1..];
      assert pieces == [piece] + rest;
      ByteLenAppend(piece, Concat(rest));
      DeltaFeeds(env, s, f, piece, ms[0]);
      FedOnce(s, f, piece, rest);
      StaysReachable(s, f, piece);
      PiecesFeed(env, FedText(s, f, piece), f, rest, ms[1..]);
      var more := RunMessages(env, FedText(s, f, piece), ms[1..]).value.1;
      var here := if piece == "" then [] else [piece];
      ConcatAppend(here, more);
      ConcatOne(piece);
    }
  }

  // ---- One part ----

  /** What the decoder keeps of a part that was streamed and closed. */
  function Closed(env: Env, p: SentPart): StreamedTextPart {
    var text := Concat(p.pieces);
    StreamedTextPart(p.tag.itemId, text, ByteLen(text), p.pieces != [], Some(Fingerprint(env, p.text)))
  }

  function AfterPart(env: Env, s: DecoderState, p: SentPart): DecoderState
    requires Proper(p.tag)
  {
    Touched(s, p.tag).(parts := s.parts[p.tag.key := Closed(env, p)],
                         sawDelta := s.sawDelta || p.pieces != [],
                         sawNonWhitespace := s.sawNonWhitespace || HasText(Concat(p.pieces)))
  }

  /** The part the `done` event finds: all deltas in, still open. */
  lemma FedIsOpen(env: Env, s: DecoderState, p: SentPart)
    requires Reachable(s, p.tag) && p.tag.key !in s.parts && Fitting(p)
    ensures var s1 := Fed(s, p.tag, p.pieces);
            && Reachable(s1, p.tag)
            && Part(s1, p.tag.key).(itemId := p.tag.itemId) == Closed(env, p).(done := None)
  {
    hide HasText, ByteLen, Reachable, Less;
    IsOpen(s, p.tag);
    StaysReachable(s, p.tag, Concat(p.pieces));
    NoText(p);
    assert "" + Concat(p.pieces) == Concat(p.pieces);
  }

  lemma FedThenClosed(env: Env, s: DecoderState, p: SentPart)
    requires Proper(p.tag) && p.tag.key !in s.parts
    ensures var s1 := Fed(s, p.tag, p.pieces);
            Touched(s1, p.tag).(parts := s1.parts[p.tag.key := Closed(env, p)]) == AfterPart(env, s, p)
  {
    hide HasText, ByteLen, Closed;
    NoText(p);
    var s1 := Fed(s, p.tag, p.pieces);
    assert s1.parts[p.tag.key := Closed(env, p)] == s.parts[p.tag.key := Closed(env, p)];
    assert Touched(s1, p.tag).outputItemIds == Touched(s, p.tag).outputItemIds;
  }

  lemma DoneCloses(env: Env, s: DecoderState, p: SentPart, m: SseMessage)
    requires Reachable(s, p.tag) && p.tag.key !in s.parts && Fitting(p) && SaysDone(env, m, p.tag, p.text)
    ensures MessageStep(env, Fed(s, p.tag, p.pieces), m) == Some((AfterPart(env, s, p), None))
  {
    hide Address, NameMismatch, WellNamed, HasText, ByteLen, Reachable, Names, Less, Fed, AfterPart, Closed;
    NamesAreChecked(m.event, OutputTextDone);
    var s1 := Fed(s, p.tag, p.pieces);
    FedIsOpen(env, s, p);
    FedThenClosed(env, s, p);
    ClosedAgrees(env, p);
    Addressed(s1, env.parse(m.data).value, p.tag);
    IsOpen(s1, p.tag);
    var open := Closed(env, p).(done := None);
    assert open.(done := Some(Fingerprint(env, p.text))) == Closed(env, p);
    assert open.sawDelta ==> DeltaFingerprint(env, open) == Fingerprint(env, p.text);
    assert DoneEvent(env, s1, env.parse(m.data).value) == Some(AfterPart(env, s, p));
  }

  lemma NoText(p: SentPart)
    ensures p.pieces == [] ==> Concat(p.pieces) == "" && !HasText(Concat(p.pieces)) && ByteLen(Concat(p.pieces)) == 0
  {}

  lemma PartIsTaken(env: Env, s: DecoderState, p: SentPart, ms: seq<SseMessage>)
    requires Reachable(s, p.tag) && p.tag.key !in s.parts && Fitting(p)
    requires |ms| == |p.pieces| + 1 && SpeaksPieces(env, ms[..|p.pieces|], p)
        && SaysDone(env, ms[|p.pieces|], p.tag, p.text)
    ensures RunMessages(env, s, ms).Some? && RunMessages(env, s, ms).value.0 == AfterPart(env, s, p)
    ensures Concat(RunMessages(env, s, ms).value.1) == Concat(p.pieces)
  {
    hide MessageStep, Reachable, SaysDelta, SaysDone, ByteLen, FedText, AfterPart, RunMessages;
    var n := |p.pieces|;
    NewHasNothing(s, p);
    PiecesFeed(env, s, p.tag, p.pieces, ms[..n]);
    DoneCloses(env, s, p, ms[n]);
    RunMessagesSnoc(env, s, ms, n);
    assert ms[..n + 1] == ms;
    var deltas := RunMessages(env, s, ms[..n]).value.1;
    assert deltas + [] == deltas;
  }

  lemma NewHasNothing(s: DecoderState, p: SentPart)
    requires Fitting(p) && p.tag.key !in s.parts
    ensures Part(s, p.tag.key).deltaBytes + ByteLen(Concat(p.pieces)) <= U64_MAX
  {
    NoText(p);
    hide Concat, ByteLen;
  }

  // ---- All parts ----

  /** The state between parts: all of `done` closed, nothing open. */
  ghost predicate Between(env: Env, codex: bool, s: DecoderState, done: seq<SentPart>) {
    && s.completed.None? && s.allowEmptyOutput == codex
    && s.mode == (if done == [] then Unknown else if done[0].tag.legacy then LegacySingle else Indexed)
    && s.last == (if done == [] then None else Some(done[|done| - 1].tag.key))
    && s.parts.Keys == KeySet(Keys(Finals(done)))
    && (forall i :: 0 <= i < |done| ==> done[i].tag.key in s.parts && s.parts[done[i].tag.key] == Closed(env, done[i]))
    && (forall o :: o in s.outputItemIds ==> OutputHas(done, o, s.outputItemIds[o]))
    && (s.sawDelta <==> exists i :: 0 <= i < |done| && done[i].pieces != [])
    && (s.sawNonWhitespace <==> exists i :: 0 <= i < |done| && HasText(Concat(done[i].pieces)))
  }

  predicate OutputHas(done: seq<SentPart>, o: nat, id: string) {
    exists i :: 0 <= i < |done| && done[i].tag.key.outputIndex == o && done[i].tag.itemId == Some(id)
  }

  lemma OrderlyLast(done: seq<SentPart>, p: SentPart)
    requires Orderly(done + [p])
    ensures Fitting(p) && p.tag.key !in KeySet(Keys(Finals(done)))
    ensures done != [] ==> Less(done[|done| - 1].tag.key, p.tag.key) && !done[0].tag.legacy && !p.tag.legacy
    ensures forall id :: OutputHas(done, p.tag.key.outputIndex, id) ==> p.tag.itemId == Some(id)
  {
    hide ByteLen, Concat;
    var all := done + [p];
    assert all[|done|] == p && (done != [] ==> all[0] == done[0]);
    assert forall i :: 0 <= i < |done| ==> all[i] == done[i];
    var keys := Keys(Finals(all));
    assert forall i :: 0 <= i < |all| ==> keys[i] == all[i].tag.key;
    assert forall i :: 0 <= i < |done| ==> Keys(Finals(done))[i] == keys[i] && Less(keys[i], keys[|done|]);
  }

  /** The next part of an orderly stream can be addressed. */
  lemma NextIsReachable(env: Env, codex: bool, s: DecoderState, done: seq<SentPart>, p: SentPart)
    requires Between(env, codex, s, done) && Orderly(done + [p])
    ensures Reachable(s, p.tag) && p.tag.key !in s.parts && Fitting(p)
  {
    hide HasText, ByteLen, Concat, Orderly, OutputHas, KeySet, Less;
    OrderlyLast(done, p);
  }

  lemma OutputsGrow(done: seq<SentPart>, p: SentPart, o: nat, id: string)
    ensures OutputHas(done, o, id) || (o == p.tag.key.outputIndex && p.tag.itemId == Some(id)) ==>
        OutputHas(done + [p], o, id)
  {
    var all := done + [p];
    assert all[|done|] == p;
    assert forall i :: 0 <= i < |done| ==> all[i] == done[i];
  }

  lemma KeysGrow(done: seq<SentPart>, p: SentPart)
    ensures KeySet(Keys(Finals(done + [p]))) == KeySet(Keys(Finals(done))) + {p.tag.key}
    ensures forall i :: 0 <= i < |done| ==> done[i].tag.key in KeySet(Keys(Finals(done)))
  {
    assert Keys(Finals(done + [p])) == Keys(Finals(done)) + [p.tag.key];
    assert forall i :: 0 <= i < |done| ==> Keys(Finals(done))[i] == done[i].tag.key;
  }

  lemma BetweenGrows(env: Env, codex: bool, s: DecoderState, done: seq<SentPart>, p: SentPart)
    requires Between(env, codex, s, done) && Orderly(done + [p])
    ensures Proper(p.tag) && Between(env, codex, AfterPart(env, s, p), done + [p])
  {
    hide HasText, ByteLen, Concat, Closed, Orderly, Less, OutputHas, KeySet, Finals, Keys;
    OrderlyLast(done, p);
    KeysGrow(done, p);
    SomeGrows(done, p);
    var all, s1 := done + [p], AfterPart(env, s, p);
    assert all[0] == if done == [] then p else done[0];
    forall i | 0 <= i < |all| ensures all[i].tag.key in s1.parts && s1.parts[all[i].tag.key] == Closed(env, all[i]) {
      assert all[i] == if i < |done| then done[i] else p;
    }
    forall o | o in s1.outputItemIds ensures OutputHas(all, o, s1.outputItemIds[o]) {
      OutputsGrow(done, p, o, s1.outputItemIds[o]);
    }
  }

  /** Whether some part has deltas, or visible deltas, when one is added. */
  lemma SomeGrows(done: seq<SentPart>, p: SentPart)
    ensures (exists i :: 0 <= i < |done + [p]| && (done + [p])[i].pieces != [])
            <==> p.pieces != [] || exists i :: 0 <= i < |done| && done[i].pieces != []
    ensures (exists i :: 0 <= i < |done + [p]| && HasText(Concat((done + [p])[i].pieces)))
            <==> HasText(Concat(p.pieces)) || exists i :: 0 <= i < |done| && HasText(Concat(done[i].pieces))
  {
    hide HasText, Concat;
    var all := done + [p];
    assert all[|done|] == p;
    assert forall i :: 0 <= i < |done| ==> done[i] == all[i];
  }

  function Spelled(parts: seq<SentPart>): string {
    if parts == [] then "" else Concat(parts[0].pieces) + Spelled(parts[1..])
  }

  lemma OrderlyPrefix(a: seq<SentPart>, b: seq<SentPart>)
    requires Orderly(a + b)
    ensures Orderly(a)
  {
    hide ByteLen, Concat;
    assert forall i :: 0 <= i < |a| ==> (a + b)[i] == a[i];
    assert forall i :: 0 <= i < |a| ==> Keys(Finals(a))[i] == Keys(Finals(a + b))[i];
  }

  lemma {:induction false} PartsAreTaken(env: Env, codex: bool, s: DecoderState, done: seq<SentPart>,
      parts: seq<SentPart>, ms: seq<SseMessage>)
    requires Between(env, codex, s, done) && Orderly(done + parts) && Speaks(env, ms, parts)
    ensures RunMessages(env, s, ms).Some?
    ensures Between(env, codex, RunMessages(env, s, ms).value.0, done + parts)
    ensures Concat(RunMessages(env, s, ms).value.1) == Spelled(parts)
    decreases |parts|
  {
    hide MessageStep, Between, Orderly, Reachable, SpeaksPieces, SaysDone, AfterPart, Fitting, RunMessages;
    if parts == [] {
      assert done + parts == done;
      NothingRuns(env, s);
    } else {
      var p, n := parts[0], |parts[0].pieces|;
      var here := ms[..n + 1];
      assert here[..n] == ms[..n] && ms == here + ms[n + 1..];
      assert done + parts == (done + [p]) + parts[1..];
      OrderlyPrefix(done + [p], parts[1..]);
      NextIsReachable(env, codex, s, done, p);
      PartIsTaken(env, s, p, here);
      BetweenGrows(env, codex, s, done, p);
      PartsAreTaken(env, codex, AfterPart(env, s, p), done + [p], parts[1..], ms[n + 1..]);
      RunMessagesConcat(env, s, here, ms[n + 1..]);
      ConcatAppend(RunMessages(env, s, here).value.1, RunMessages(env, AfterPart(env, s, p), ms[n + 1..]).value.1);
    }
  }

  lemma NothingRuns(env: Env, s: DecoderState)
    ensures RunMessages(env, s, []) == Some((s, [])) && Concat([]) == ""
  {}

  // ---- The terminal event ----

  lemma PartsAgreeWithFinals(env: Env, codex: bool, s: DecoderState, parts: seq<SentPart>)
    requires Between(env, codex, s, parts) && Orderly(parts) && AllOrNothing(parts)
    requires parts != [] && !parts[0].tag.legacy
    ensures PartsAgree(env, s, Finals(parts))
  {
    hide HasText, Concat, ByteLen, KeySet, OutputHas, Less, SameItem;
    forall i | 0 <= i < |parts| ensures PartAgrees(env, s, Closed(env, parts[i]), Finals(parts)[i]) {
      ClosedAgrees(env, parts[i]);
      assert s.sawDelta && parts[i].pieces == [] ==> parts[i].text == "";
    }
  }

  /** A closed part has the fingerprint of its text, and so have its deltas, if any. */
  lemma ClosedAgrees(env: Env, p: SentPart)
    requires Fitting(p)
    ensures var c := Closed(env, p);
            && c.done == Some(Fingerprint(env, p.text))
            && (c.sawDelta ==> DeltaFingerprint(env, c) == Fingerprint(env, p.text))
            && (c.sawDelta <==> p.pieces != []) && c.itemId == p.tag.itemId
  {
    hide ByteLen, Concat;
  }

  lemma FinalsAreComplete(env: Env, codex: bool, s: DecoderState, parts: seq<SentPart>)
    requires Between(env, codex, s, parts) && Orderly(parts)
    ensures |s.parts| == |parts|
  {
    AscendingSize(Keys(Finals(parts)));
    hide HasText, Concat, ByteLen, FinalParts;
    assert |s.parts.Keys| == |s.parts|;
  }

  /** The only part of a one-part stream. */
  lemma OnlyPart(env: Env, codex: bool, s: DecoderState, parts: seq<SentPart>)
    requires Between(env, codex, s, parts) && |parts| == 1
    ensures s.parts == map[parts[0].tag.key := Closed(env, parts[0])]
    ensures s.sawDelta <==> parts[0].pieces != []
    ensures s.sawNonWhitespace <==> HasText(Concat(parts[0].pieces))
  {
    hide HasText, ByteLen, Concat, OutputHas, Less, Closed;
    assert Keys(Finals(parts)) == [parts[0].tag.key];
    assert s.parts.Keys == {parts[0].tag.key};
  }

  lemma LegacyIsAccepted(env: Env, codex: bool, s: DecoderState, parts: seq<SentPart>, finals: seq<FinalTextPart>)
    requires Between(env, codex, s, parts) && Orderly(parts) && AllOrNothing(parts)
    requires parts != [] && parts[0].tag.legacy && Matching(parts, finals)
    ensures FinalsAgree(env, s, finals)
  {
    OnlyPart(env, codex, s, parts);
    ClosedAgrees(env, parts[0]);
    hide HasText, ByteLen, Concat, Closed, KeySet, Keys, OutputHas;
    assert s.mode == LegacySingle;
  }

  lemma ListedIsAccepted(env: Env, codex: bool, s: DecoderState, parts: seq<SentPart>, finals: seq<FinalTextPart>)
    requires Between(env, codex, s, parts) && Orderly(parts) && AllOrNothing(parts)
    requires parts != [] && Matching(parts, finals)
    ensures FinalsAgree(env, s, finals)
  {
    if parts[0].tag.legacy {
      LegacyIsAccepted(env, codex, s, parts, finals);
    } else {
      FinalsAreComplete(env, codex, s, parts);
      PartsAgreeWithFinals(env, codex, s, parts);
      hide HasText, PartsAgree, ByteLen, Concat, KeySet, Keys, OutputHas, Closed, Orderly, AllOrNothing;
      assert |Finals(parts)| == |parts| && s.mode == Indexed;
    }
  }

  lemma EmptyIsAccepted(env: Env, codex: bool, s: DecoderState, parts: seq<SentPart>, r: Response)
    requires Between(env, codex, s, parts) && Orderly(parts) && Concludes(codex, parts, r) && r.output.value == []
    ensures EmptyOutputAllowed(s) && s.sawDelta
  {
    OnlyPart(env, codex, s, parts);
    SingleText(parts);
    hide HasText, ByteLen, Concat, Texts, Keys, Finals, KeySet, OutputHas;
    assert s.mode == Indexed;
  }

  lemma SingleText(parts: seq<SentPart>)
    requires |parts| == 1
    ensures Concat(Texts(Finals(parts))) == parts[0].text
  {
    assert Texts(Finals(parts)) == [parts[0].text];
    ConcatOne(parts[0].text);
  }

  function FinalText(parts: seq<SentPart>): string { Concat(Texts(Finals(parts))) }

  lemma MatchingText(parts: seq<SentPart>, finals: seq<FinalTextPart>)
    requires parts != [] && Matching(parts, finals)
    ensures Texts(finals) == Texts(Finals(parts))
  {}

  lemma TerminalIsAccepted(env: Env, codex: bool, s: DecoderState, parts: seq<SentPart>, r: Response)
    requires Between(env, codex, s, parts) && Orderly(parts) && Concludes(codex, parts, r)
    ensures CheckCompleted(env, s, r) == Some(if r.output.value == [] then None else Some(FinalText(parts)))
    ensures r.output.value == [] ==> s.sawDelta
  {
    hide HasText, FinalParts, FinalsAgree, EmptyOutputAllowed, ByteLen, Concat, Texts, Orderly, Between, AllOrNothing,
      Matching, Finals;
    if r.output.value == [] {
      EmptyIsAccepted(env, codex, s, parts, r);
    } else {
      var finals := FinalParts(r.output.value, 0).value;
      ListedIsAccepted(env, codex, s, parts, finals);
      MatchingText(parts, finals);
    }
  }

  lemma CompletedStep(env: Env, codex: bool, s: DecoderState, parts: seq<SentPart>, r: Response, m: SseMessage)
    requires Between(env, codex, s, parts) && Orderly(parts) && Concludes(codex, parts, r) && SaysCompleted(env, m, r)
    ensures MessageStep(env, s, m) ==
            Some((s.(completed := Some(Terminal(if s.sawDelta then None else Some(FinalText(parts)), r.usage))), None))
  {
    hide CheckCompleted, FinalText, NameMismatch, WellNamed, Orderly, Concludes;
    NamesAreChecked(m.event, ResponseCompleted);
    TerminalIsAccepted(env, codex, s, parts, r);
  }

  lemma EndIsAccepted(env: Env, codex: bool, s: DecoderState, parts: seq<SentPart>, t: Terminal)
    requires Between(env, codex, s, parts) && parts != []
    ensures FinishCheck(FRESH, s.(completed := Some(t))) == Some(t)
  {
    hide HasText, ByteLen, Concat;
    assert Keys(Finals(parts))[0] == parts[0].tag.key;
    forall k | k in s.parts ensures s.parts[k].done.Some? {
      var i :| 0 <= i < |Keys(Finals(parts))| && Keys(Finals(parts))[i] == k;
      assert s.parts[parts[i].tag.key] == Closed(env, parts[i]);
    }
  }

  /** What was streamed, or else the fallback, is the terminal text. */
  lemma {:induction false} StreamedIsFinal(parts: seq<SentPart>)
    requires forall i :: 0 <= i < |parts| ==> Concat(parts[i].pieces) == parts[i].text
    ensures Spelled(parts) == FinalText(parts)
  {
    if parts == [] {
      assert Texts(Finals(parts)) == [];
    } else {
      StreamedIsFinal(parts[1..]);
      assert Texts(Finals(parts)) == [parts[0].text] + Texts(Finals(parts[1..]));
    }
  }

  lemma {:induction false} NothingStreamed(parts: seq<SentPart>)
    requires forall i :: 0 <= i < |parts| ==> parts[i].pieces == []
    ensures Spelled(parts) == ""
  {
    if parts != [] { NothingStreamed(parts[1..]); }
  }

  lemma WholeTextArrives(env: Env, codex: bool, s: DecoderState, parts: seq<SentPart>, r: Response)
    requires Between(env, codex, s, parts) && Orderly(parts) && Concludes(codex, parts, r)
    ensures Spelled(parts) + (if s.sawDelta then "" else FinalText(parts)) == FinalText(parts)
  {
    hide HasText, ByteLen, FinalText, FinalParts, KeySet, OutputHas, Less;
    if s.sawDelta {
      forall i | 0 <= i < |parts| ensures Concat(parts[i].pieces) == parts[i].text {
        assert parts[i].pieces == [] ==> parts[i].text == "";
      }
      StreamedIsFinal(parts);
    } else {
      NothingStreamed(parts);
    }
  }

  // ---- Noise ----

  lemma NoiseStep(env: Env, s: DecoderState, m: SseMessage)
    requires s.completed.None? && IsNoise(env, m)
    ensures MessageStep(env, s, m) == Some((s, None))
  {
    NamesAreChecked(m.event, env.parse(m.data).value.kind.value);
    hide WellNamed, NameMismatch;
  }

  /** Events of other kinds, anywhere before the end, change nothing. */
  lemma {:induction false} NoiseIsIgnored(env: Env, s: DecoderState, ms: seq<SseMessage>)
    requires s.completed.None? && RunMessages(env, s, Spoken(env, ms)).Some?
    requires RunMessages(env, s, Spoken(env, ms)).value.0.completed.None?
    ensures RunMessages(env, s, ms) == RunMessages(env, s, Spoken(env, ms))
    decreases |ms|
  {
    hide MessageStep, IsNoise;
    if ms != [] {
      var spoken := Spoken(env, ms[1..]);
      if IsNoise(env, ms[0]) {
        NoiseStep(env, s, ms[0]);
        assert [] + spoken == spoken;
        NoiseIsIgnored(env, s, ms[1..]);
        var r := RunMessages(env, s, spoken);
        assert [] + r.value.1 == r.value.1;
      } else {
        assert ([ms[0]] + spoken)[1..] == spoken;
        var s1 := MessageStep(env, s, ms[0]).value.0;
        if s1.completed.Some? { NothingAfterTerminal(env, s1, spoken); }
        NoiseIsIgnored(env, s1, ms[1..]);
      }
    }
  }

  // ---- The theorems ----

  lemma StartIsBetween(env: Env, codex: bool)
    ensures Between(env, codex, InitialState(codex), [])
  {
    assert KeySet(Keys(Finals([]))) == {};
  }

  /**
   * A well-behaved stream, with any other events strewn in, is accepted through end of stream and delivers the
   * terminal text, in both dialects, streamed or not.
   */
  lemma HonestMessagesAreAccepted(env: Env, codex: bool, parts: seq<SentPart>, r: Response, body: seq<SseMessage>,
      last: SseMessage)
    requires Orderly(parts) && Concludes(codex, parts, r)
    requires Speaks(env, Spoken(env, body), parts) && SaysCompleted(env, last, r)
    ensures var run := RunMessages(env, InitialState(codex), body + [last]);
            && run.Some?
            && var end := FinishCheck(FRESH, run.value.0);
            && end.Some? && end.value.usage == r.usage
            && Delivered(run.value.1, end.value) == FinalText(parts)
  {
    hide MessageStep, Between, Orderly, Speaks, SaysCompleted, FinalText, FinishCheck, IsNoise, Spelled, CheckCompleted;
    var init := InitialState(codex);
    StartIsBetween(env, codex);
    assert [] + parts == parts;
    PartsAreTaken(env, codex, init, [], parts, Spoken(env, body));
    var (s, deltas) := RunMessages(env, init, Spoken(env, body)).value;
    assert s.completed.None? by { Quiet(env, codex, s, parts); }
    NoiseIsIgnored(env, init, body);
    CompletedStep(env, codex, s, parts, r, last);
    var all := body + [last];
    assert all[..|body|] == body && all[..|body| + 1] == all;
    RunMessagesSnoc(env, init, all, |body|);
    EndIsAccepted(env, codex, s, parts, Terminal(if s.sawDelta then None else Some(FinalText(parts)), r.usage));
    WholeTextArrives(env, codex, s, parts, r);
    assert deltas + [] == deltas;
  }

  lemma Quiet(env: Env, codex: bool, s: DecoderState, parts: seq<SentPart>)
    requires Between(env, codex, s, parts)
    ensures s.completed.None?
  {}

  /** The chunks are some cut of the encoded messages of a well-behaved stream. */
  ghost predicate HonestBytes(
    utf8: Utf8, enc: Encoder, env: Env, codex: bool, parts: seq<SentPart>, r: Response, sent: seq<Outgoing>,
    chunks: seq<Chunk>)
  {
    && Encodes(utf8, enc) && sent != [] && (forall i :: 0 <= i < |sent| ==> Sendable(sent[i]))
    && Orderly(parts) && Concludes(codex, parts, r)
    && Speaks(env, Spoken(env, AllReceived(sent)[..|sent| - 1]), parts)
    && SaysCompleted(env, AllReceived(sent)[|sent| - 1], r)
    && BytesOf(chunks).Some? && Flatten(BytesOf(chunks).value) == Encode(enc, sent)
  }

  /**
   * From bytes: however a well-behaved provider's encoded stream is cut into chunks, the response is accepted and its
   * source completes.
   */
  lemma HonestStreamCompletes(
    utf8: Utf8, enc: Encoder, env: Env, codex: bool, parts: seq<SentPart>, r: Response, sent: seq<Outgoing>,
    chunks: seq<Chunk>, redactor: Redactor, latencyMs: nat)
    requires HonestBytes(utf8, enc, env, codex, parts, r, sent, chunks)
    ensures var start := StreamState(FRESH, InitialState(codex));
            && Accepted(utf8, env, start, chunks).Some?
            && Drained(utf8, env, redactor, start, chunks, latencyMs).failure.None?
            && var (deltas, t) := Accepted(utf8, env, start, chunks).value;
            Delivered(deltas, t) == FinalText(parts) && t.usage == r.usage
  {
    hide Feed, RunMessages, FinishCheck, Speaks, SaysCompleted, Orderly, Concludes, FinalText, Encode, Sendable,
      Encodes, Spoken, Received, Drained, Delivered;
    var start := StreamState(FRESH, InitialState(codex));
    var ms := AllReceived(sent);
    SentIsReceived(utf8, enc, sent);
    assert ms == ms[..|sent| - 1] + [ms[|sent| - 1]];
    HonestMessagesAreAccepted(env, codex, parts, r, ms[..|sent| - 1], ms[|sent| - 1]);
    ChunksAsOne(utf8, env, start, BytesOf(chunks).value);
    DrainedIsWhole(utf8, env, redactor, start, chunks, latencyMs);
  }
}
