/** What an accepted stream delivers is what its terminal event certifies. */
module Certified {
  import opened Text
  import opened Sse
  import opened Responses
  import opened Decoder

  function Absorbed(parts: map<TextPartKey, StreamedTextPart>, order: seq<TextPartKey>): seq<string>
    requires forall i :: 0 <= i < |order| ==> order[i] in parts
  {
    seq(|order|, i requires 0 <= i < |order| => parts[order[i]].absorbed)
  }

  /** The texts of the `done` events among the messages. */
  function DoneText(env: Env, m: SseMessage): seq<string> {
    match env.parse(m.data)
    case Some(v) => if v.kind == Present(OutputTextDone) && v.text.Present? then [v.text.value] else []
    case None => []
  }

  function DoneTexts(env: Env, ms: seq<SseMessage>): seq<string> {
    if ms == [] then [] else DoneText(env, ms[0]) + DoneTexts(env, ms[1..])
  }

  /** The response carried by a terminal message. */
  function TerminalResponse(env: Env, m: SseMessage): Option<Response> {
    match env.parse(m.data)
    case Some(v) => if v.kind == Present(ResponseCompleted) && v.response.Present? then Some(v.response.value) else None
    case None => None
  }

  function Default(text: Option<string>): string {
    if text.Some? then text.value else ""
  }

  // ---- The invariant of a run ----

  /** `order` enumerates the parts. */
  ghost predicate Lists(order: seq<TextPartKey>, parts: map<TextPartKey, StreamedTextPart>) {
    (forall i :: 0 <= i < |order| ==> order[i] in parts) && KeySet(order) == parts.Keys
  }

  /** `order` lists the parts as they appeared. */
  ghost predicate InOrder(s: DecoderState, order: seq<TextPartKey>) {
    && Ascending(order) && Lists(order, s.parts)
    && s.last == (if order == [] then None else Some(order[|order| - 1]))
    && (order != [] ==> !s.mode.Unknown?)
    && (s.mode.LegacySingle? ==> forall i :: 0 <= i < |order| ==> order[i] == LEGACY_KEY)
  }

  /** `dones` are the texts of the done parts: all parts but possibly the newest. */
  ghost predicate Marked(env: Env, parts: map<TextPartKey, StreamedTextPart>, order: seq<TextPartKey>,
      dones: seq<string>)
    requires forall i :: 0 <= i < |order| ==> order[i] in parts
  {
    && |dones| <= |order| <= |dones| + 1
    && (forall i :: 0 <= i < |dones| ==> parts[order[i]].done == Some(Fingerprint(env, dones[i])))
    && (forall i :: |dones| <= i < |order| ==> parts[order[i]].done.None?)
  }

  lemma MarkedGrows(env: Env, parts: map<TextPartKey, StreamedTextPart>, order: seq<TextPartKey>, p: StreamedTextPart,
                    dones: seq<string>, done: seq<string>)
    requires |order| == |dones| + 1
    requires forall i :: 0 <= i < |dones| ==> order[i] in parts && order[i] != order[|dones|]
    requires forall i :: 0 <= i < |dones| ==> parts[order[i]].done == Some(Fingerprint(env, dones[i]))
    requires if done == [] then p.done.None? else |done| == 1 && p.done == Some(Fingerprint(env, done[0]))
    ensures Marked(env, parts[order[|dones|] := p], order, dones + done)
  {
    hide Fingerprint;
  }

  /** A part's record is consistent: deltas imply the stream flag, and its done mark fits its deltas. */
  ghost predicate Consistent(env: Env, s: DecoderState, p: StreamedTextPart) {
    && (p.sawDelta ==> s.sawDelta) && (!p.sawDelta ==> p.absorbed == "")
    && (p.done.Some? && p.sawDelta ==> p.done.value == DeltaFingerprint(env, p))
  }

  /** Everything known after a prefix of a run that delivered `text`. */
  ghost predicate Tracks(env: Env, s: DecoderState, order: seq<TextPartKey>, text: string, dones: seq<string>) {
    && InOrder(s, order) && Marked(env, s.parts, order, dones)
    && text == Concat(Absorbed(s.parts, order))
    && (s.sawNonWhitespace <==> HasText(text))
    && (forall k :: k in s.parts ==> Consistent(env, s, s.parts[k]))
  }

  /** Where an addressed part stands in the order of appearance. */
  function Placed(order: seq<TextPartKey>, key: TextPartKey): seq<TextPartKey> {
    if order != [] && order[|order| - 1] == key then order else order + [key]
  }

  /** The order check admits only the newest part or a later one. */
  lemma OrderAdmitsLast(s: DecoderState, order: seq<TextPartKey>, key: TextPartKey)
    requires InOrder(s, order) && Order(s, key).Some?
    ensures Order(s, key).value == s.(last := Some(key))
    ensures Ascending(Placed(order, key))
    ensures key in s.parts <==> Placed(order, key) == order
    ensures key !in s.parts && order != [] ==> s.parts[order[|order| - 1]].done.Some?
  {
    if order != [] {
      var previous := order[|order| - 1];
      assert forall i :: 0 <= i < |order| - 1 ==> Less(order[i], previous);
    }
  }

  /** An accepted address is either the newest part or a later one, with every earlier part done. */
  lemma AddressIsLast(env: Env, s: DecoderState, v: Value, order: seq<TextPartKey>, dones: seq<string>)
    requires InOrder(s, order) && Marked(env, s.parts, order, dones) && Address(s, v).Some?
    ensures var (s1, key, p) := Address(s, v).value;
            && s1 == s.(mode := s1.mode, outputItemIds := s1.outputItemIds, last := Some(key))
            && !s1.mode.Unknown? && (s1.mode.LegacySingle? ==> key == LEGACY_KEY && !s.mode.Indexed?)
            && Ascending(Placed(order, key))
            && p == Part(s, key).(itemId := p.itemId)
            && (key in s.parts <==> Placed(order, key) == order)
            && (key !in s.parts ==> |dones| == |order|)
  {
    hide Identify, Less, Ascending;
    var (s1, key, p) := Address(s, v).value;
    IdentifyKeeps(s, v);
    OrderAdmitsLast(s, order, key);
  }

  lemma IdentifyKeeps(s: DecoderState, v: Value)
    requires Identify(s, v).Some?
    ensures var (s0, key, id) := Identify(s, v).value;
            && s0 == s.(mode := s0.mode, outputItemIds := s0.outputItemIds)
            && !s0.mode.Unknown? && (s0.mode.LegacySingle? ==> key == LEGACY_KEY && !s.mode.Indexed?)
  {}

  lemma AbsorbedGrows(parts: map<TextPartKey, StreamedTextPart>, order: seq<TextPartKey>, key: TextPartKey,
                      p: StreamedTextPart, more: string)
    requires Ascending(order) && Lists(order, parts)
    requires key in parts ==> order != [] && order[|order| - 1] == key
    requires p.absorbed == (if key in parts then parts[key].absorbed else "") + more
    ensures Lists(Placed(order, key), parts[key := p])
    ensures Concat(Absorbed(parts[key := p], Placed(order, key))) == Concat(Absorbed(parts, order)) + more
  {
    hide Concat, Ascending;
    var parts', order' := parts[key := p], Placed(order, key);
    assert KeySet(order') == KeySet(order) + {key};
    if key in parts {
      var front := order[..|order| - 1];
      FrontHasNoLast(order);
      assert forall i :: 0 <= i < |front| ==> front[i] == order[i] && front[i] in front;
      assert Absorbed(parts, order) == Absorbed(parts, front) + [parts[key].absorbed];
      assert Absorbed(parts', order) == Absorbed(parts, front) + [p.absorbed];
      ConcatAppend(Absorbed(parts, front), [parts[key].absorbed]);
      ConcatAppend(Absorbed(parts, front), [p.absorbed]);
      ConcatOne(parts[key].absorbed);
      ConcatOne(p.absorbed);
    } else {
      assert p.absorbed == more;
      assert Absorbed(parts', order') == Absorbed(parts, order) + [more];
      ConcatAppend(Absorbed(parts, order), [more]);
      ConcatOne(more);
    }
  }

  lemma FrontHasNoLast(order: seq<TextPartKey>)
    requires order != [] && Ascending(order)
    ensures order[|order| - 1] !in order[..|order| - 1]
  {}

  lemma ConcatOne(s: string)
    ensures Concat([s]) == s
  {
    assert s + "" == s;
  }

  /** The invariant after the addressed part was replaced. */
  lemma ReplacedTracks(env: Env, s: DecoderState, v: Value, order: seq<TextPartKey>, text: string, dones: seq<string>,
                       s2: DecoderState, p2: StreamedTextPart, more: string, done: seq<string>)
    requires Tracks(env, s, order, text, dones) && Address(s, v).Some?
    requires var (s1, key, p) := Address(s, v).value;
             && s2 == s1.(parts := s1.parts[key := p2], sawDelta := s2.sawDelta,
                          sawNonWhitespace := s2.sawNonWhitespace)
             && p2.absorbed == p.absorbed + more && p.done.None?
             && (if done == [] then p2.done.None? else |done| == 1 && p2.done == Some(Fingerprint(env, done[0])))
             && (s2.sawNonWhitespace <==> s1.sawNonWhitespace || HasText(more))
             && (s1.sawDelta ==> s2.sawDelta)
             && Consistent(env, s2, p2)
    ensures Tracks(env, s2, Placed(order, Address(s, v).value.1), text + more, dones + done)
  {
    hide Address, HasText, Concat, Fingerprint, DeltaFingerprint, Ascending, Marked, Absorbed;
    var (s1, key, p) := Address(s, v).value;
    var order' := Placed(order, key);
    AddressIsLast(env, s, v, order, dones);
    AbsorbedGrows(s.parts, order, key, p2, more);
    HasTextAppend(text, more);
    assert InOrder(s2, order');
    PlacedMarks(env, s, order, key, dones);
    MarkedGrows(env, s.parts, order', p2, dones, done);
    assert Consistent(env, s2, s2.parts[key]);
    forall k | k in s2.parts ensures Consistent(env, s2, s2.parts[k]) {
      if k != key { assert Consistent(env, s, s.parts[k]); }
    }
  }

  lemma PlacedMarks(env: Env, s: DecoderState, order: seq<TextPartKey>, key: TextPartKey, dones: seq<string>)
    requires InOrder(s, order) && Marked(env, s.parts, order, dones) && Ascending(Placed(order, key))
    requires key in s.parts ==> Placed(order, key) == order && s.parts[key].done.None?
    requires key !in s.parts ==> |dones| == |order|
    ensures var order' := Placed(order, key);
            && |order'| == |dones| + 1 && order'[|dones|] == key
            && (forall i :: 0 <= i < |dones| ==> order'[i] in s.parts && order'[i] != key)
            && (forall i :: 0 <= i < |dones| ==> s.parts[order'[i]].done == Some(Fingerprint(env, dones[i])))
  {
    hide Fingerprint, KeySet;
    var order' := Placed(order, key);
    assert order'[|order'| - 1] == key;
    assert forall i :: 0 <= i < |order'| - 1 ==> Less(order'[i], order'[|order'| - 1]) && order'[i] == order[i];
  }

  lemma DeltaTracks(env: Env, s: DecoderState, v: Value, order: seq<TextPartKey>, text: string, dones: seq<string>)
    requires Tracks(env, s, order, text, dones) && DeltaEvent(s, v).Some?
    ensures Address(s, v).Some?
    ensures var (s2, d) := DeltaEvent(s, v).value;
            Tracks(env, s2, Placed(order, Address(s, v).value.1), text + Default(d), dones)
  {
    var (s2, d) := DeltaEvent(s, v).value;
    var key := Address(s, v).value.1;
    assert Default(d) == v.delta.value;
    ReplacedTracks(env, s, v, order, text, dones, s2, s2.parts[key], v.delta.value, []);
    assert dones + [] == dones;
  }

  lemma DoneTracks(env: Env, s: DecoderState, v: Value, order: seq<TextPartKey>, text: string, dones: seq<string>)
    requires Tracks(env, s, order, text, dones) && DoneEvent(env, s, v).Some?
    ensures Address(s, v).Some? && v.text.Present?
    ensures Tracks(env, DoneEvent(env, s, v).value, Placed(order, Address(s, v).value.1), text, dones + [v.text.value])
  {
    var s2 := DoneEvent(env, s, v).value;
    AddressIsLast(env, s, v, order, dones);
    var (s1, key, p) := Address(s, v).value;
    assert p.absorbed + "" == p.absorbed && text + "" == text;
    assert Consistent(env, s, NEW_PART);
    ReplacedTracks(env, s, v, order, text, dones, s2, s2.parts[key], "", [v.text.value]);
  }

  lemma TerminalTracks(env: Env, s: DecoderState, s2: DecoderState, order: seq<TextPartKey>, text: string,
      dones: seq<string>)
    requires Tracks(env, s, order, text, dones) && s2 == s.(completed := s2.completed)
    ensures Tracks(env, s2, order, text, dones)
  {
    assert forall k :: k in s.parts ==> Consistent(env, s, s.parts[k]);
    assert Marked(env, s2.parts, order, dones);
  }

  lemma StepTracks(env: Env, s: DecoderState, m: SseMessage, order: seq<TextPartKey>, text: string, dones: seq<string>)
    returns (order': seq<TextPartKey>)
    requires Tracks(env, s, order, text, dones) && MessageStep(env, s, m).Some?
    ensures Tracks(env, MessageStep(env, s, m).value.0, order',
                   text + Default(MessageStep(env, s, m).value.1), dones + DoneText(env, m))
  {
    hide Tracks, DeltaEvent, DoneEvent, CheckCompleted, NameMismatch, Address;
    var v := env.parse(m.data).value;
    assert text + "" == text && dones + [] == dones;
    if v.kind == Present(OutputTextDelta) {
      DeltaTracks(env, s, v, order, text, dones);
      order' := Placed(order, Address(s, v).value.1);
    } else if v.kind == Present(OutputTextDone) {
      DoneTracks(env, s, v, order, text, dones);
      order' := Placed(order, Address(s, v).value.1);
    } else {
      order' := order;
      TerminalTracks(env, s, MessageStep(env, s, m).value.0, order, text, dones);
    }
  }

  lemma {:induction false} RunTracks(env: Env, s: DecoderState, ms: seq<SseMessage>, order: seq<TextPartKey>,
      text: string, dones: seq<string>)
    returns (order': seq<TextPartKey>)
    requires Tracks(env, s, order, text, dones) && RunMessages(env, s, ms).Some?
    ensures var (s', deltas) := RunMessages(env, s, ms).value;
            Tracks(env, s', order', text + Concat(deltas), dones + DoneTexts(env, ms))
    decreases |ms|
  {
    hide MessageStep, Tracks, DoneText;
    if ms == [] {
      order' := order;
      assert text + "" == text && dones + [] == dones;
    } else {
      var (s1, d) := MessageStep(env, s, ms[0]).value;
      order' := StepTracks(env, s, ms[0], order, text, dones);
      order' := RunTracks(env, s1, ms[1..], order', text + Default(d), dones + DoneText(env, ms[0]));
      var (s2, more) := RunMessages(env, s1, ms[1..]).value;
      var here := if d.Some? then [d.value] else [];
      ConcatAppend(here, more);
      if d.Some? { ConcatOne(d.value); }
      assert text + (Default(d) + Concat(more)) == (text + Default(d)) + Concat(more);
      assert dones + (DoneText(env, ms[0]) + DoneTexts(env, ms[1..])) == (dones + DoneText(env, ms[0]))
          + DoneTexts(env, ms[1..]);
    }
  }

  /** A completed run ends with the terminal message, which was checked against the run's own state. */
  lemma {:induction false} CompletedIsLast(env: Env, s: DecoderState, ms: seq<SseMessage>)
    requires s.completed.None? && RunMessages(env, s, ms).Some? && RunMessages(env, s, ms).value.0.completed.Some?
    ensures ms != []
    ensures var s' := RunMessages(env, s, ms).value.0;
            var before := s'.(completed := None);
            var r := TerminalResponse(env, ms[|ms| - 1]);
            && r.Some? && CheckCompleted(env, before, r.value).Some?
            && s'.completed == Some(Terminal(
                 if s'.sawDelta then None else CheckCompleted(env, before, r.value).value, r.value.usage))
            && (!s'.sawDelta ==> CheckCompleted(env, before, r.value).value.Some?)
    decreases |ms|
  {
    var s1 := MessageStep(env, s, ms[0]).value.0;
    StepCompletes(env, s, ms[0]);
    hide MessageStep, CheckCompleted, TerminalResponse;
    if s1.completed.None? {
      CompletedIsLast(env, s1, ms[1..]);
    } else {
      NothingAfterTerminal(env, s1, ms[1..]);
      assert ms == [ms[0]];
    }
  }

  lemma NothingAfterTerminal(env: Env, s: DecoderState, ms: seq<SseMessage>)
    requires s.completed.Some? && RunMessages(env, s, ms).Some?
    ensures ms == [] && RunMessages(env, s, ms).value.0 == s
  {}

  lemma StepCompletes(env: Env, s: DecoderState, m: SseMessage)
    requires s.completed.None? && MessageStep(env, s, m).Some?
    ensures var s1 := MessageStep(env, s, m).value.0;
            var r := TerminalResponse(env, m);
            s1.completed.Some? ==>
              && s == s1.(completed := None)
              && r.Some? && CheckCompleted(env, s, r.value).Some?
              && s1.completed == Some(Terminal(
                   if s.sawDelta then None else CheckCompleted(env, s, r.value).value, r.value.usage))
              && (!s.sawDelta ==> CheckCompleted(env, s, r.value).value.Some?)
  {
    hide CheckCompleted, Address;
    AddressKeeps(s, env.parse(m.data).value);
  }

  lemma AddressKeeps(s: DecoderState, v: Value)
    ensures Address(s, v).Some? ==>
              var s1 := Address(s, v).value.0;
              s1 == s.(mode := s1.mode, outputItemIds := s1.outputItemIds, last := s1.last)
  {}

  lemma SameText(env: Env, a: string, b: string)
    requires Injective(env.digest) && Fingerprint(env, a) == Fingerprint(env, b)
    ensures a == b
  {}

  lemma SameDeltas(env: Env, p: StreamedTextPart, text: string)
    requires Injective(env.digest) && DeltaFingerprint(env, p) == Fingerprint(env, text)
    ensures p.absorbed == text
  {}

  /** Certified parts, in key order, are the streamed parts, in order of appearance. */
  lemma FinalsAreStreamed(env: Env, s: DecoderState, finals: seq<FinalTextPart>, order: seq<TextPartKey>, text: string,
      dones: seq<string>)
    requires Injective(env.digest)
    requires Tracks(env, s, order, text, dones) && FinalsAgree(env, s, finals) && Ascending(Keys(finals))
    ensures dones == Texts(finals)
    ensures s.sawDelta ==> text == Concat(Texts(finals))
    ensures !s.sawDelta ==> text == ""
  {
    hide Injective, Fingerprint, DeltaFingerprint, Concat, FinalsAgree;
    OrderMatchesFinals(env, s, finals, order);
    assert forall i :: 0 <= i < |order| ==> s.parts[order[i]].done == Some(Fingerprint(env, finals[i].text));
    assert |dones| == |order|;
    forall i | 0 <= i < |finals| ensures dones[i] == Texts(finals)[i] {
      assert s.parts[order[i]].done == Some(Fingerprint(env, finals[i].text));
      SameText(env, dones[i], finals[i].text);
    }
    forall i | 0 <= i < |order| ensures Absorbed(s.parts, order)[i] == if s.sawDelta then Texts(finals)[i] else "" {
      assert Consistent(env, s, s.parts[order[i]]);
      assert PartAgrees(env, s, s.parts[order[i]], finals[i]);
      if s.parts[order[i]].sawDelta { SameDeltas(env, s.parts[order[i]], finals[i].text); }
    }
    if s.sawDelta {
      assert Absorbed(s.parts, order) == Texts(finals);
    } else {
      ConcatOfEmpty(Absorbed(s.parts, order));
    }
  }

  lemma OrderCounts(s: DecoderState, order: seq<TextPartKey>)
    requires InOrder(s, order)
    ensures |order| == |s.parts|
  {
    AscendingSize(order);
  }

  lemma OrderMatchesFinals(env: Env, s: DecoderState, finals: seq<FinalTextPart>, order: seq<TextPartKey>)
    requires InOrder(s, order) && FinalsAgree(env, s, finals) && Ascending(Keys(finals))
    ensures |order| == |finals|
    ensures forall i :: 0 <= i < |order| ==> order[i] in s.parts && PartAgrees(env, s, s.parts[order[i]], finals[i])
  {
    hide PartAgrees;
    OrderCounts(s, order);
    if s.mode.Indexed? {
      forall k | k in Keys(finals) ensures k in order {
        var i :| 0 <= i < |finals| && Keys(finals)[i] == k;
        assert finals[i].key in KeySet(order);
      }
      KeysExhaust(Keys(finals), order);
      assert forall i :: 0 <= i < |finals| ==> Keys(finals)[i] == order[i];
    }
  }

  lemma {:induction false} ConcatOfEmpty(parts: seq<string>)
    requires forall i :: 0 <= i < |parts| ==> parts[i] == ""
    ensures Concat(parts) == ""
  {
    if parts != [] { ConcatOfEmpty(parts[1..]); }
  }

  // ---- The theorem ----

  /** All deltas in arrival order, then the fallback when no delta arrived. */
  function Delivered(deltas: seq<string>, t: Terminal): string {
    Concat(deltas) + Default(t.fallbackText)
  }

  /**
   * The response certifies a delivered text and the `done` texts: a listed output by its own text,
   * part by part; an empty output (one streamed part) by that part's `done` text.
   */
  predicate Certifies(r: Response, delivered: string, dones: seq<string>) {
    && r.status == Present("completed") && r.output.Present?
    && HasText(delivered)
    && (if r.output.value == [] then dones == [delivered]
        else
          && delivered == OutputText(r.output.value)
          && FinalParts(r.output.value, 0).Some?
          && dones == Texts(FinalParts(r.output.value, 0).value))
  }

  /**
   * Every message sequence accepted through end of stream delivers exactly the text its last message
   * certifies: the terminal response's own text, or, in the dialect whose terminal output is empty,
   * the text of the one `done` event. The `done` texts are the certified parts, in order.
   */
  lemma DeliveredTextIsCertified(env: Env, codex: bool, sse: SseState, ms: seq<SseMessage>)
    requires Injective(env.digest)
    requires RunMessages(env, InitialState(codex), ms).Some?
    requires FinishCheck(sse, RunMessages(env, InitialState(codex), ms).value.0).Some?
    ensures ms != [] && TerminalResponse(env, ms[|ms| - 1]).Some?
    ensures var (s, deltas) := RunMessages(env, InitialState(codex), ms).value;
            var t := FinishCheck(sse, s).value;
            var r := TerminalResponse(env, ms[|ms| - 1]).value;
            && Certifies(r, Delivered(deltas, t), DoneTexts(env, ms))
            && (t.fallbackText.Some? ==> Concat(deltas) == "")
            && (r.output.value == [] ==> codex && |s.parts| == 1 && t.fallbackText.None?)
  {
    hide MessageStep, Tracks, Certifies, CheckCompleted, DoneTexts, TerminalResponse;
    var init := InitialState(codex);
    var (s, deltas) := RunMessages(env, init, ms).value;
    var text, dones := Concat(deltas), DoneTexts(env, ms);
    InitialTracks(env, codex);
    var order := RunTracks(env, init, ms, [], "", []);
    assert "" + text == text && [] + dones == dones;
    CompletedIsLast(env, init, ms);
    AllowanceIsKept(env, init, ms);
    TerminalTracks(env, s, s.(completed := None), order, text, dones);
    CertifiedByResponse(env, s.(completed := None), TerminalResponse(env, ms[|ms| - 1]).value, order, text, dones);
  }

  lemma InitialTracks(env: Env, codex: bool)
    ensures Tracks(env, InitialState(codex), [], "", [])
  {}

  /** The terminal check, against everything the run established. */
  lemma CertifiedByResponse(env: Env, s: DecoderState, r: Response, order: seq<TextPartKey>, text: string,
      dones: seq<string>)
    requires Injective(env.digest)
    requires Tracks(env, s, order, text, dones) && CheckCompleted(env, s, r).Some?
    requires !s.sawDelta ==> CheckCompleted(env, s, r).value.Some?
    ensures Certifies(r, text + if s.sawDelta then "" else CheckCompleted(env, s, r).value.value, dones)
    ensures !s.sawDelta ==> text == ""
    ensures r.output.value == [] ==> s.allowEmptyOutput && s.sawDelta && |s.parts| == 1
  {
    hide FinalsAgree, Tracks;
    assert text + "" == text;
    if r.output.value == [] {
      SinglePart(env, s, order, text, dones);
    } else {
      var finals := FinalParts(r.output.value, 0).value;
      FinalPartsOrdered(r.output.value, 0);
      assert r.output.value[0..] == r.output.value;
      FinalsAreStreamed(env, s, finals, order, text, dones);
      assert "" + Concat(Texts(finals)) == Concat(Texts(finals));
    }
  }

  lemma SinglePart(env: Env, s: DecoderState, order: seq<TextPartKey>, text: string, dones: seq<string>)
    requires Injective(env.digest)
    requires Tracks(env, s, order, text, dones) && EmptyOutputAllowed(s)
    ensures dones == [text] && HasText(text)
  {
    OrderCounts(s, order);
    assert order == [order[0]];
    assert Absorbed(s.parts, order) == [s.parts[order[0]].absorbed];
    ConcatOne(s.parts[order[0]].absorbed);
  }

  lemma {:induction false} AllowanceIsKept(env: Env, s: DecoderState, ms: seq<SseMessage>)
    requires RunMessages(env, s, ms).Some?
    ensures RunMessages(env, s, ms).value.0.allowEmptyOutput == s.allowEmptyOutput
    decreases |ms|
  {
    if ms != [] {
      StepKeepsAllowance(env, s, ms[0]);
      hide MessageStep;
      AllowanceIsKept(env, MessageStep(env, s, ms[0]).value.0, ms[1..]);
    }
  }

  lemma StepKeepsAllowance(env: Env, s: DecoderState, m: SseMessage)
    requires MessageStep(env, s, m).Some?
    ensures MessageStep(env, s, m).value.0.allowEmptyOutput == s.allowEmptyOutput
  {
    AddressKeeps(s, env.parse(m.data).value);
    hide Address, CheckCompleted, NameMismatch;
  }
}
