/** What an accepted run looks like from outside: the order its events must have come in, event against event. */
module DecoderTraces {
  import opened Text
  import opened Sse
  import opened Responses
  import opened Decoder
  import opened Certified
  import opened Honest

  // ---- Text events ----

  function ValueOf(env: Env, m: SseMessage): Value
    requires env.parse(m.data).Some?
  {
    env.parse(m.data).value
  }

  predicate IsDeltaOf(v: Value) { v.kind == Present(OutputTextDelta) && v.delta.Present? }

  predicate IsDoneOf(v: Value) { v.kind == Present(OutputTextDone) && v.text.Present? }

  predicate IsText(v: Value) { IsDeltaOf(v) || IsDoneOf(v) }

  /** Addressed by both indices, under a named item. */
  predicate ByIndex(v: Value) {
    v.outputIndex.Present? && v.contentIndex.Present? && v.itemId.Present? && v.itemId.value != ""
  }

  /** Addressed by no index; it may name an item. */
  predicate Unindexed(v: Value) {
    v.outputIndex.Absent? && v.contentIndex.Absent? && (v.itemId.Present? ==> v.itemId.value != "")
  }

  function KeyOf(v: Value): TextPartKey
    requires ByIndex(v)
  {
    TextPartKey(v.outputIndex.value, v.contentIndex.value)
  }

  predicate SamePart(a: Value, b: Value) {
    (ByIndex(a) && ByIndex(b) && KeyOf(a) == KeyOf(b)) || (Unindexed(a) && Unindexed(b))
  }

  /** What an earlier text event demands of a later one. */
  predicate Compatible(earlier: Value, later: Value) {
    && (ByIndex(earlier) <==> ByIndex(later)) && (Unindexed(earlier) <==> Unindexed(later))
    && (ByIndex(earlier) && ByIndex(later) ==>
          && !Less(KeyOf(later), KeyOf(earlier))
          && (KeyOf(earlier).outputIndex == KeyOf(later).outputIndex ==> earlier.itemId == later.itemId))
    && (SamePart(earlier, later) ==>
          && !IsDoneOf(earlier)
          && (earlier.itemId.Present? && later.itemId.Present? ==> earlier.itemId == later.itemId))
  }

  // ---- What the state keeps of a text event ----

  function PartKey(v: Value): TextPartKey { if ByIndex(v) then KeyOf(v) else LEGACY_KEY }

  predicate Remembers(s: DecoderState, v: Value) {
    && (ByIndex(v) || Unindexed(v)) && PartKey(v) in s.parts
    && s.last.Some? && !Less(s.last.value, PartKey(v))
    && (if ByIndex(v)
        then s.mode == Indexed && v.outputIndex.value in s.outputItemIds
             && s.outputItemIds[v.outputIndex.value] == v.itemId.value
        else s.mode == LegacySingle)
    && (v.itemId.Present? ==> s.parts[PartKey(v)].itemId == Some(v.itemId.value))
    && (IsDoneOf(v) ==> s.parts[PartKey(v)].done.Some?)
  }

  function IdOf(v: Value): Option<string> { if v.itemId.Present? then Some(v.itemId.value) else None }

  lemma IdentityFacts(s: DecoderState, v: Value)
    requires Identify(s, v).Some?
    ensures var (s1, key, id) := Identify(s, v).value;
            && (ByIndex(v) || Unindexed(v)) && key == PartKey(v) && id == IdOf(v)
            && s1 == s.(mode := s1.mode, outputItemIds := s1.outputItemIds)
            && (ByIndex(v) ==>
                  && s.mode != LegacySingle && s1.mode == Indexed
                  && s1.outputItemIds == s.outputItemIds[v.outputIndex.value := v.itemId.value]
                  && (v.outputIndex.value in s.outputItemIds ==>
                        s.outputItemIds[v.outputIndex.value] == v.itemId.value))
            && (!ByIndex(v) ==> s.mode != Indexed && s1.mode == LegacySingle && s1.outputItemIds == s.outputItemIds)
  {}

  lemma OrderFacts(s: DecoderState, key: TextPartKey)
    requires Order(s, key).Some?
    ensures Order(s, key).value == s.(last := Some(key))
    ensures s.last.Some? ==> !Less(key, s.last.value)
    ensures s.last.Some? && Less(s.last.value, key) ==> s.last.value in s.parts && s.parts[s.last.value].done.Some?
  {}

  lemma ItemFacts(p: StreamedTextPart, id: Option<string>)
    requires WithItem(p, id).Some?
    ensures var q := WithItem(p, id).value;
            && q == p.(itemId := q.itemId) && (p.itemId.Some? ==> q.itemId == p.itemId)
            && (id.Some? ==> q.itemId == id)
  {}

  /** An accepted address, in these terms. */
  lemma AddressFacts(s: DecoderState, v: Value)
    requires Address(s, v).Some?
    ensures var (s1, key, p) := Address(s, v).value;
            && (ByIndex(v) || Unindexed(v)) && key == PartKey(v) && s1.last == Some(key)
            && s1 == s.(mode := s1.mode, outputItemIds := s1.outputItemIds, last := s1.last)
            && (s.last.Some? ==> !Less(key, s.last.value))
            && (s.last.Some? && Less(s.last.value, key) ==>
                  s.last.value in s.parts && s.parts[s.last.value].done.Some?)
            && p == Part(s, key).(itemId := p.itemId)
            && (Part(s, key).itemId.Some? ==> p.itemId == Part(s, key).itemId)
            && (v.itemId.Present? ==> p.itemId == Some(v.itemId.value))
            && (ByIndex(v) ==>
                  && s.mode != LegacySingle && s1.mode == Indexed
                  && s1.outputItemIds == s.outputItemIds[v.outputIndex.value := v.itemId.value]
                  && (v.outputIndex.value in s.outputItemIds ==>
                        s.outputItemIds[v.outputIndex.value] == v.itemId.value))
            && (!ByIndex(v) ==> s.mode != Indexed && s1.mode == LegacySingle && s1.outputItemIds == s.outputItemIds)
  {
    hide Identify, Order, WithItem, Less, ByIndex, Unindexed, PartKey;
    IdentityFacts(s, v);
    var (s0, key, id) := Identify(s, v).value;
    OrderFacts(s0, key);
    ItemFacts(Part(Order(s0, key).value, key), id);
  }

  /** What an accepted text event does. */
  lemma TextStep(env: Env, s: DecoderState, m: SseMessage)
    requires MessageStep(env, s, m).Some? && env.parse(m.data).Some?
    requires ValueOf(env, m).kind in {Present(OutputTextDelta), Present(OutputTextDone)}
    ensures var v, s' := ValueOf(env, m), MessageStep(env, s, m).value.0;
            && IsText(v) && Address(s, v).Some?
            && var (s1, key, p) := Address(s, v).value;
            && p.done.None? && key in s'.parts
            && s' == s1.(parts := s1.parts[key := s'.parts[key]], sawDelta := s'.sawDelta,
                         sawNonWhitespace := s'.sawNonWhitespace)
            && s'.parts[key].itemId == p.itemId && (s'.parts[key].done.Some? <==> IsDoneOf(v))
  {
    hide Address, NameMismatch, HasText, ByteLen, Fingerprint, DeltaFingerprint;
  }

  /** Other accepted messages leave the parts alone. */
  lemma OtherStep(env: Env, s: DecoderState, m: SseMessage)
    requires MessageStep(env, s, m).Some?
    ensures env.parse(m.data).Some? && m.data != "[DONE]" && s.completed.None?
    ensures var kind := ValueOf(env, m).kind;
            && kind.Present? && kind.value !in {ResponseFailed, ResponseIncomplete, ErrorEvent}
            && WellNamed(m.event, kind.value)
            && (kind.value !in {OutputTextDelta, OutputTextDone} ==>
                  var s' := MessageStep(env, s, m).value.0; s' == s.(completed := s'.completed))
  {
    NamesAreChecked(m.event, ValueOf(env, m).kind.value);
    hide DeltaEvent, DoneEvent, CheckCompleted, NameMismatch, WellNamed;
  }

  lemma StepRemembersItself(env: Env, s: DecoderState, m: SseMessage)
    requires MessageStep(env, s, m).Some? && env.parse(m.data).Some? && IsText(ValueOf(env, m))
    ensures Remembers(MessageStep(env, s, m).value.0, ValueOf(env, m))
  {
    hide MessageStep, Address;
    TextStep(env, s, m);
    AddressFacts(s, ValueOf(env, m));
  }

  lemma StepRemembers(env: Env, s: DecoderState, m: SseMessage, v: Value)
    requires Remembers(s, v) && MessageStep(env, s, m).Some?
    ensures Remembers(MessageStep(env, s, m).value.0, v)
  {
    hide MessageStep, Address;
    OtherStep(env, s, m);
    var now := ValueOf(env, m);
    if now.kind in {Present(OutputTextDelta), Present(OutputTextDone)} {
      TextStep(env, s, m);
      AddressFacts(s, now);
    }
  }

  lemma StepIsCompatible(env: Env, s: DecoderState, m: SseMessage, v: Value)
    requires Remembers(s, v) && MessageStep(env, s, m).Some? && env.parse(m.data).Some? && IsText(ValueOf(env, m))
    ensures Compatible(v, ValueOf(env, m))
  {
    hide MessageStep, Address;
    TextStep(env, s, m);
    AddressFacts(s, ValueOf(env, m));
  }

  // ---- Runs ----

  predicate Reads(env: Env, m: SseMessage) { env.parse(m.data).Some? && IsText(ValueOf(env, m)) }

  lemma {:induction false} RunRemembers(env: Env, s: DecoderState, ms: seq<SseMessage>, v: Value)
    requires Remembers(s, v) && RunMessages(env, s, ms).Some?
    ensures Remembers(RunMessages(env, s, ms).value.0, v)
    ensures forall j :: 0 <= j < |ms| && Reads(env, ms[j]) ==> Compatible(v, ValueOf(env, ms[j]))
    decreases |ms|
  {
    hide MessageStep, Remembers, Compatible;
    if ms != [] {
      StepRemembers(env, s, ms[0], v);
      if Reads(env, ms[0]) { StepIsCompatible(env, s, ms[0], v); }
      RunRemembers(env, MessageStep(env, s, ms[0]).value.0, ms[1..], v);
      assert forall j :: 1 <= j < |ms| ==> ms[j] == ms[1..][j - 1];
    }
  }

  /**
   * In an accepted run any two text events agree: addressed alike, in key order, one item per output, and none follows
   * its own part's `done`.
   */
  lemma {:induction false} EventsAgree(env: Env, s: DecoderState, ms: seq<SseMessage>, i: nat, j: nat)
    requires RunMessages(env, s, ms).Some? && i < j < |ms| && Reads(env, ms[i]) && Reads(env, ms[j])
    ensures Compatible(ValueOf(env, ms[i]), ValueOf(env, ms[j]))
    decreases i
  {
    hide MessageStep, Remembers, Compatible;
    var s1 := MessageStep(env, s, ms[0]).value.0;
    if i == 0 {
      StepRemembersItself(env, s, ms[0]);
      RunRemembers(env, s1, ms[1..], ValueOf(env, ms[0]));
      assert ms[j] == ms[1..][j - 1];
    } else {
      EventsAgree(env, s1, ms[1..], i - 1, j - 1);
    }
  }

  /** Every message of an accepted run is one the decoder can read, rightly named, and no failure. */
  predicate Welcome(env: Env, m: SseMessage) {
    && m.data != "[DONE]" && env.parse(m.data).Some? && ValueOf(env, m).kind.Present?
    && ValueOf(env, m).kind.value !in {ResponseFailed, ResponseIncomplete, ErrorEvent}
    && WellNamed(m.event, ValueOf(env, m).kind.value)
  }

  lemma {:induction false} EveryMessageIsWelcome(env: Env, s: DecoderState, ms: seq<SseMessage>, i: nat)
    requires RunMessages(env, s, ms).Some? && i < |ms|
    ensures Welcome(env, ms[i])
    decreases i
  {
    hide MessageStep, WellNamed;
    OtherStep(env, s, ms[0]);
    if i > 0 { EveryMessageIsWelcome(env, MessageStep(env, s, ms[0]).value.0, ms[1..], i - 1); }
  }

  // ---- A part is done before the next one begins ----

  /** Every part but the newest is done, and every done part was said to be. */
  ghost predicate DonesSaid(env: Env, s: DecoderState, said: seq<SseMessage>) {
    && (forall k :: k in s.parts ==> s.last.Some? && (k != s.last.value ==> s.parts[k].done.Some?))
    && (forall k :: k in s.parts && s.parts[k].done.Some? ==> DoneSaid(env, k, said))
  }

  predicate DoneSaid(env: Env, key: TextPartKey, said: seq<SseMessage>) {
    exists i :: 0 <= i < |said| && SaysDone(env, key, said[i])
  }

  predicate SaysDone(env: Env, key: TextPartKey, m: SseMessage) {
    Reads(env, m) && IsDoneOf(ValueOf(env, m)) && PartKey(ValueOf(env, m)) == key
  }

  lemma DoneStaysSaid(env: Env, key: TextPartKey, said: seq<SseMessage>, m: SseMessage)
    ensures DoneSaid(env, key, said) ==> DoneSaid(env, key, said + [m])
    ensures SaysDone(env, key, m) ==> DoneSaid(env, key, said + [m])
  {
    hide Reads, IsDoneOf;
    var all := said + [m];
    assert all[|said|] == m;
    assert forall i :: 0 <= i < |said| ==> all[i] == said[i];
  }

  lemma StepSaysDones(env: Env, s: DecoderState, said: seq<SseMessage>, m: SseMessage)
    requires DonesSaid(env, s, said) && MessageStep(env, s, m).Some?
    ensures DonesSaid(env, MessageStep(env, s, m).value.0, said + [m])
  {
    hide MessageStep, Address, DoneSaid, IsText, ByIndex, Unindexed, Less;
    OtherStep(env, s, m);
    var v, s' := ValueOf(env, m), MessageStep(env, s, m).value.0;
    forall k ensures DoneSaid(env, k, said) ==> DoneSaid(env, k, said + [m]) { DoneStaysSaid(env, k, said, m); }
    if v.kind in {Present(OutputTextDelta), Present(OutputTextDone)} {
      TextStep(env, s, m);
      AddressFacts(s, v);
      DoneStaysSaid(env, PartKey(v), said, m);
      LessIsTotal(PartKey(v), if s.last.Some? then s.last.value else PartKey(v));
    }
  }

  lemma LessIsTotal(a: TextPartKey, b: TextPartKey)
    ensures a == b || Less(a, b) || Less(b, a)
  {}

  lemma {:induction false} RunSaysDones(
    env: Env, s: DecoderState, said: seq<SseMessage>, ms: seq<SseMessage>)
    requires DonesSaid(env, s, said) && RunMessages(env, s, ms).Some?
    ensures DonesSaid(env, RunMessages(env, s, ms).value.0, said + ms)
    decreases |ms|
  {
    hide MessageStep, DonesSaid;
    if ms == [] {
      assert said + ms == said;
    } else {
      StepSaysDones(env, s, said, ms[0]);
      RunSaysDones(env, MessageStep(env, s, ms[0]).value.0, said + [ms[0]], ms[1..]);
      assert (said + [ms[0]]) + ms[1..] == said + ms;
    }
  }

  lemma {:induction false} PrefixRuns(env: Env, s: DecoderState, ms: seq<SseMessage>, n: nat)
    requires RunMessages(env, s, ms).Some? && n <= |ms|
    ensures RunMessages(env, s, ms[..n]).Some?
    ensures n < |ms| ==> MessageStep(env, RunMessages(env, s, ms[..n]).value.0, ms[n]).Some?
  {
    hide MessageStep;
    RunMessagesConcat(env, s, ms[..n], ms[n..]);
    assert ms[..n] + ms[n..] == ms;
    if n < |ms| { assert ms[n..][0] == ms[n]; }
  }

  /** Before a text event of one part, every part with an earlier event was said to be done. */
  lemma PartsCloseInTurn(env: Env, codex: bool, ms: seq<SseMessage>, i: nat, j: nat)
    requires RunMessages(env, InitialState(codex), ms).Some? && i < j < |ms|
    requires Reads(env, ms[i]) && Reads(env, ms[j]) && !SamePart(ValueOf(env, ms[i]), ValueOf(env, ms[j]))
    ensures DoneSaid(env, PartKey(ValueOf(env, ms[i])), ms[..j])
  {
    hide MessageStep, Address, RunMessages, DoneSaid;
    var init, vi, vj := InitialState(codex), ValueOf(env, ms[i]), ValueOf(env, ms[j]);
    PrefixRuns(env, init, ms, j);
    EventsAgree(env, init, ms, i, j);
    var s := RunMessages(env, init, ms[..j]).value.0;
    EventIsRemembered(env, init, ms[..j], i);
    assert [] + ms[..j] == ms[..j];
    RunSaysDones(env, init, [], ms[..j]);
    TextStep(env, s, ms[j]);
    AddressFacts(s, vj);
  }

  lemma EventIsRemembered(env: Env, s: DecoderState, ms: seq<SseMessage>, i: nat)
    requires RunMessages(env, s, ms).Some? && i < |ms| && Reads(env, ms[i])
    ensures Remembers(RunMessages(env, s, ms).value.0, ValueOf(env, ms[i]))
  {
    hide MessageStep, Remembers;
    PrefixRuns(env, s, ms, i);
    var before := RunMessages(env, s, ms[..i]).value.0;
    RunMessagesConcat(env, s, ms[..i], ms[i..]);
    assert ms[..i] + ms[i..] == ms && ms[i..][0] == ms[i];
    StepRemembersItself(env, before, ms[i]);
    RunRemembers(env, MessageStep(env, before, ms[i]).value.0, ms[i..][1..], ValueOf(env, ms[i]));
  }

  // ---- The terminal response against the stream ----

  /** A listed part under the event's indices and item. */
  predicate ListedAs(finals: seq<FinalTextPart>, v: Value) {
    ByIndex(v) && exists k :: 0 <= k < |finals| && finals[k].key == KeyOf(v) && finals[k].itemId == Some(v.itemId.value)
  }

  /** The terminal response of an accepted run lists every part an indexed event was about, under that event's item. */
  lemma StreamedPartsAreListed(env: Env, codex: bool, ms: seq<SseMessage>, i: nat)
    requires RunMessages(env, InitialState(codex), ms).Some?
    requires RunMessages(env, InitialState(codex), ms).value.0.completed.Some?
    requires i < |ms| && Reads(env, ms[i]) && ByIndex(ValueOf(env, ms[i]))
    ensures var r := TerminalResponse(env, ms[|ms| - 1]);
            && r.Some? && r.value.output.Present?
            && (r.value.output.value != [] ==>
                  && FinalParts(r.value.output.value, 0).Some?
                  && ListedAs(FinalParts(r.value.output.value, 0).value, ValueOf(env, ms[i])))
  {
    hide MessageStep, RunMessages, TerminalResponse, FinalParts, PartAgrees, HasText;
    var init, v := InitialState(codex), ValueOf(env, ms[i]);
    CompletedIsLast(env, init, ms);
    EventIsRemembered(env, init, ms, i);
    var s := RunMessages(env, init, ms).value.0.(completed := None);
    var r := TerminalResponse(env, ms[|ms| - 1]).value;
    if r.output.value != [] {
      AllPartsListed(env, s, FinalParts(r.output.value, 0).value, r.output.value, KeyOf(v));
    }
  }

  lemma AllPartsListed(
    env: Env, s: DecoderState, finals: seq<FinalTextPart>, output: seq<OutputItem>, key: TextPartKey)
    requires s.mode == Indexed && FinalsAgree(env, s, finals) && FinalParts(output, 0) == Some(finals) && key in s.parts
    ensures exists k :: 0 <= k < |finals| && finals[k].key == key && finals[k].itemId == s.parts[key].itemId
  {
    hide FinalParts, Fingerprint, DeltaFingerprint;
    FinalPartsOrdered(output, 0);
    AscendingSize(Keys(finals));
    assert forall k :: 0 <= k < |finals| ==> Keys(finals)[k] == finals[k].key && finals[k].key in s.parts;
    assert KeySet(Keys(finals)) <= s.parts.Keys && |s.parts.Keys| == |s.parts|;
    SubsetOfSameSize(KeySet(Keys(finals)), s.parts.Keys);
    assert key in KeySet(Keys(finals));
    var k :| 0 <= k < |Keys(finals)| && Keys(finals)[k] == key;
    assert PartAgrees(env, s, s.parts[finals[k].key], finals[k]);
  }

  /** In a stream without indices the one listed part names no other item than the events did. */
  lemma LegacyItemIsListed(env: Env, codex: bool, ms: seq<SseMessage>, i: nat)
    requires RunMessages(env, InitialState(codex), ms).Some?
    requires RunMessages(env, InitialState(codex), ms).value.0.completed.Some?
    requires i < |ms| && Reads(env, ms[i]) && Unindexed(ValueOf(env, ms[i]))
    ensures var r := TerminalResponse(env, ms[|ms| - 1]);
            && r.Some? && r.value.output.Present? && r.value.output.value != []
            && FinalParts(r.value.output.value, 0).Some?
            && var finals, v := FinalParts(r.value.output.value, 0).value, ValueOf(env, ms[i]);
            && |finals| == 1
            && (finals[0].itemId.Some? && v.itemId.Present? ==> finals[0].itemId == Some(v.itemId.value))
  {
    hide MessageStep, RunMessages, TerminalResponse, FinalParts, HasText, Fingerprint, DeltaFingerprint;
    var init, v := InitialState(codex), ValueOf(env, ms[i]);
    CompletedIsLast(env, init, ms);
    EventIsRemembered(env, init, ms, i);
    var s := RunMessages(env, init, ms).value.0.(completed := None);
    var r := TerminalResponse(env, ms[|ms| - 1]).value;
    assert s.mode == LegacySingle && LEGACY_KEY in s.parts;
    assert r.output.value != [];
    assert PartAgrees(env, s, s.parts[LEGACY_KEY], FinalParts(r.output.value, 0).value[0]);
  }
}
