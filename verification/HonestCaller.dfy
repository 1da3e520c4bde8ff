/** The caller's side of completeness: with room, a settling budget and enough reads, a good stream completes. */
module HonestCaller {
  import opened Text
  import opened Budget
  import opened Sse
  import opened SseEncoding
  import opened Responses
  import opened Decoder
  import opened Certified
  import opened Stream
  import opened TextStream
  import opened Honest

  function TextSize(events: seq<StreamEvent>): nat {
    if events == [] then 0 else ByteLen(TextOf(events[0])) + TextSize(events[1..])
  }

  lemma {:induction false} SizeOfTexts(events: seq<StreamEvent>)
    ensures TextSize(events) == ByteLen(TextsOf(events))
  {
    if events != [] {
      SizeOfTexts(events[1..]);
      ByteLenAppend(TextOf(events[0]), TextsOf(events[1..]));
    }
  }

  /** Nothing stands in the way of this script: room for its text, and a budget that settles at its last event. */
  predicate Unhindered(c: Context, w: WrapperState, ticks: seq<Tick>, script: Script) {
    && script.failure.None? && EndsCompleted(script.events) && |script.events| <= |ticks|
    && w.emitted + TextSize(script.events) <= w.maxBytes
    && Settles(c, w.reconciliation, script.events[|script.events| - 1].usage, ticks[|script.events| - 1])
  }

  /** The next event of an unhindered script is read as it is. */
  lemma NextDelivers(c: Context, w: WrapperState, ticks: seq<Tick>, script: Script)
    requires !w.finished && Coherent(w.source) && script == Remaining(c.utf8, c.env, w.source, c.latencyMs)
    requires Unhindered(c, w, ticks, script)
    ensures var (w1, ws, p) := Next(c, w, ticks[0]);
            && p == Ok(Some(script.events[0]))
            && (script.events[0].Delta? ==>
                  && !w1.finished && Coherent(w1.source)
                  && Remaining(c.utf8, c.env, w1.source, c.latencyMs) == Script(script.events[1..], None)
                  && Unhindered(c, w1, ticks[1..], Script(script.events[1..], None)))
            && (script.events[0].Completed? ==> |script.events| == 1)
  {
    hide Poll, Remaining, ReconcileUsage, ByteLen;
    PollIsHead(c.utf8, c.env, w.source, c.latencyMs);
    WellEndedHead(script);
    var rest := script.events[1..];
    assert script.events[0].Delta? ==> rest != [] && rest[|rest| - 1] == script.events[|script.events| - 1];
    assert script.events[0].Delta? ==> ticks[1..][|rest| - 1] == ticks[|script.events| - 1];
  }

  lemma {:induction false} ReadsWhole(c: Context, w: WrapperState, ticks: seq<Tick>, script: Script)
    requires !w.finished && Coherent(w.source) && script == Remaining(c.utf8, c.env, w.source, c.latencyMs)
    requires Unhindered(c, w, ticks, script)
    ensures var outs := Read(c, w, ticks).1;
            |outs| >= |script.events| && forall i :: 0 <= i < |script.events| ==> outs[i] == Ok(Some(script.events[i]))
    decreases |ticks|
  {
    hide Next, Remaining, Unhindered;
    EnoughTicks(c, w, ticks, script);
    NextDelivers(c, w, ticks, script);
    var (w1, ws, p) := Next(c, w, ticks[0]);
    var outs, more := Read(c, w, ticks).1, Read(c, w1, ticks[1..]).1;
    assert outs == [p] + more;
    if script.events[0].Delta? {
      var rest := Script(script.events[1..], None);
      ReadsWhole(c, w1, ticks[1..], rest);
      forall i | 0 <= i < |script.events| ensures outs[i] == Ok(Some(script.events[i])) {
        if i > 0 { assert outs[i] == more[i - 1] && script.events[i] == rest.events[i - 1]; }
      }
    }
  }

  lemma EnoughTicks(c: Context, w: WrapperState, ticks: seq<Tick>, script: Script)
    requires Unhindered(c, w, ticks, script)
    ensures script.events != [] && ticks != [] && script.failure.None?
  {}

  /** What the honest stream's script is, from the caller's point of view. */
  function ScriptOf(c: Context, codex: bool, chunks: seq<Chunk>, r: Redactor): Script {
    Drained(c.utf8, c.env, r, StreamState(FRESH, InitialState(codex)), chunks, c.latencyMs)
  }

  predicate SettlesAlways(c: Context, reconciliation: Option<Reservation>, usage: Option<TokenUsage>,
      ticks: seq<Tick>) {
    forall i :: 0 <= i < |ticks| ==> Settles(c, reconciliation, usage, ticks[i])
  }

  /** The script of an accepted response: the redaction of its pieces, then Completed with the response's usage. */
  lemma AcceptedScript(c: Context, codex: bool, chunks: seq<Chunk>, r: Redactor, deltas: seq<string>, t: Terminal)
    requires Accepted(c.utf8, c.env, StreamState(FRESH, InitialState(codex)), chunks) == Some((deltas, t))
    ensures var script, pieces := ScriptOf(c, codex, chunks, r), Pieces(c.utf8, c.env, codex, chunks);
            && script.failure.None? && EndsCompleted(script.events)
            && script.events[|script.events| - 1] == Completed(c.latencyMs, t.usage)
            && TextsOf(script.events) == RedactedText(r, pieces) && Concat(pieces) == Delivered(deltas, t)
  {
    hide Accepted, Redact, Drained;
    DrainedIsWhole(c.utf8, c.env, r, StreamState(FRESH, InitialState(codex)), chunks, c.latencyMs);
    WholeText(r, deltas, t, c.latencyMs);
    ConcatAppend(deltas, Deltas(t));
    DeltasText(t);
  }

  lemma DeltasText(t: Terminal)
    ensures Concat(Deltas(t)) == Default(t.fallbackText)
  {
    if t.fallbackText.Some? { ConcatOne(t.fallbackText.value); }
  }

  /** A well-behaved stream hands the redactor the terminal text, in pieces. */
  lemma HonestPieces(
    c: Context, enc: Encoder, codex: bool, parts: seq<SentPart>, response: Response, sent: seq<Outgoing>,
    chunks: seq<Chunk>, r: Redactor)
    requires HonestBytes(c.utf8, enc, c.env, codex, parts, response, sent, chunks)
    ensures var script, pieces := ScriptOf(c, codex, chunks, r), Pieces(c.utf8, c.env, codex, chunks);
            && script.failure.None? && EndsCompleted(script.events)
            && script.events[|script.events| - 1] == Completed(c.latencyMs, response.usage)
            && TextsOf(script.events) == RedactedText(r, pieces) && Concat(pieces) == FinalText(parts)
  {
    hide Accepted, Drained, FinalText, HonestBytes, Delivered, TextsOf, RedactedText, Pieces, EndsCompleted;
    HonestStreamCompletes(c.utf8, enc, c.env, codex, parts, response, sent, chunks, r, c.latencyMs);
    var (deltas, t) := Accepted(c.utf8, c.env, StreamState(FRESH, InitialState(codex)), chunks).value;
    AcceptedScript(c, codex, chunks, r, deltas, t);
  }

  /** The caller has read `text` in deltas, then Completed at k and nothing more; one success is on record. */
  predicate ReadToTheEnd(w': WrapperState, outs: seq<Polled>, k: int, completed: StreamEvent, text: string) {
    && 0 <= k < |outs| && outs[k] == Ok(Some(completed))
    && (forall i :: 0 <= i < k ==> IsDelta(outs[i])) && (forall i :: k < i < |outs| ==> outs[i] == Ok(None))
    && DeltaText(outs) == text && Dropped(w').recorded == [Succeeded]
  }

  /**
   * A caller of a well-behaved provider's stream, however its bytes are cut and whatever its redactor does, whose byte
   * limit covers what the redactor lets through and whose budget settles, reads exactly that redaction of the terminal
   * text and then Completed, once it has read often enough; the stream then records one success.
   */
  lemma HonestCallerCompletes(
    c: Context, enc: Encoder, codex: bool, parts: seq<SentPart>, response: Response, sent: seq<Outgoing>,
    chunks: seq<Chunk>, r: Redactor, maxBytes: nat, reconciliation: Option<Reservation>, ticks: seq<Tick>)
    requires HonestBytes(c.utf8, enc, c.env, codex, parts, response, sent, chunks)
    requires ByteLen(RedactedText(r, Pieces(c.utf8, c.env, codex, chunks))) <= maxBytes
    requires SettlesAlways(c, reconciliation, response.usage, ticks)
    requires |ScriptOf(c, codex, chunks, r).events| <= |ticks|
    ensures var (w', outs) := Read(c, Opened(codex, chunks, r, maxBytes, reconciliation), ticks);
            var pieces := Pieces(c.utf8, c.env, codex, chunks);
            && Concat(pieces) == FinalText(parts)
            && ReadToTheEnd(w', outs, |ScriptOf(c, codex, chunks, r).events| - 1,
                            Completed(c.latencyMs, response.usage), RedactedText(r, pieces))
  {
    hide Drained, Read, Remaining, Settles, DeltaText, FinalText, HonestBytes, ByteLen, TextsOf, Size, TextSize, Pieces,
      RedactedText;
    var w, script := Opened(codex, chunks, r, maxBytes, reconciliation), ScriptOf(c, codex, chunks, r);
    HonestPieces(c, enc, codex, parts, response, sent, chunks, r);
    SizeOfTexts(script.events);
    OpenedScript(c, codex, chunks, r, maxBytes, reconciliation);
    ReadsWhole(c, w, ticks, script);
    var k := StreamFollowsProtocol(c, w, ticks);
    var (w', outs) := Read(c, w, ticks);
    EndsThere(outs, script.events, k);
    DeltaTextOfScript(outs, script.events);
  }

  /** Where the redactor finds nothing to change in this stream, the caller reads the terminal text itself. */
  lemma UnredactedCallerCompletes(
    c: Context, enc: Encoder, codex: bool, parts: seq<SentPart>, response: Response, sent: seq<Outgoing>,
    chunks: seq<Chunk>, r: Redactor, maxBytes: nat, reconciliation: Option<Reservation>, ticks: seq<Tick>)
    requires HonestBytes(c.utf8, enc, c.env, codex, parts, response, sent, chunks)
    requires var pieces := Pieces(c.utf8, c.env, codex, chunks); RedactedText(r, pieces) == Concat(pieces)
    requires ByteLen(FinalText(parts)) <= maxBytes && SettlesAlways(c, reconciliation, response.usage, ticks)
    requires |ScriptOf(c, codex, chunks, r).events| <= |ticks|
    ensures var (w', outs) := Read(c, Opened(codex, chunks, r, maxBytes, reconciliation), ticks);
            ReadToTheEnd(w', outs, |ScriptOf(c, codex, chunks, r).events| - 1,
                         Completed(c.latencyMs, response.usage), FinalText(parts))
  {
    hide Drained, Read, Settles, FinalText, HonestBytes, ByteLen, Pieces, RedactedText, ReadToTheEnd;
    HonestPieces(c, enc, codex, parts, response, sent, chunks, r);
    HonestCallerCompletes(c, enc, codex, parts, response, sent, chunks, r, maxBytes, reconciliation, ticks);
  }

  /**
   * Where the redactor works on the text alone, however it is cut, so does the caller's reading: it is the redaction of
   * the terminal text, the same for every way to stream that text in parts, deltas and bytes.
   */
  lemma SeamlessCallerCompletes(
    c: Context, enc: Encoder, codex: bool, parts: seq<SentPart>, response: Response, sent: seq<Outgoing>,
    chunks: seq<Chunk>, r: Redactor, maxBytes: nat, reconciliation: Option<Reservation>, ticks: seq<Tick>)
    requires HonestBytes(c.utf8, enc, c.env, codex, parts, response, sent, chunks) && Seamless(r)
    requires ByteLen(RedactedText(r, [FinalText(parts)])) <= maxBytes
    requires SettlesAlways(c, reconciliation, response.usage, ticks)
    requires |ScriptOf(c, codex, chunks, r).events| <= |ticks|
    ensures var (w', outs) := Read(c, Opened(codex, chunks, r, maxBytes, reconciliation), ticks);
            ReadToTheEnd(w', outs, |ScriptOf(c, codex, chunks, r).events| - 1,
                         Completed(c.latencyMs, response.usage), RedactedText(r, [FinalText(parts)]))
  {
    hide Drained, Read, Settles, FinalText, HonestBytes, ByteLen, Pieces, RedactedText, ReadToTheEnd, Seamless;
    HonestPieces(c, enc, codex, parts, response, sent, chunks, r);
    SeamlessText(r, Pieces(c.utf8, c.env, codex, chunks));
    HonestCallerCompletes(c, enc, codex, parts, response, sent, chunks, r, maxBytes, reconciliation, ticks);
  }

  /** The protocol's end is where the script's Completed was read. */
  lemma EndsThere(outs: seq<Polled>, events: seq<StreamEvent>, k: nat)
    requires EndsCompleted(events) && |events| <= |outs| && k <= |outs|
    requires forall i :: 0 <= i < |events| ==> outs[i] == Ok(Some(events[i]))
    requires forall i :: 0 <= i < k ==> IsDelta(outs[i])
    requires forall i :: k < i < |outs| ==> outs[i] == Ok(None)
    requires k < |outs| ==> IsCompleted(outs[k]) || outs[k].Err?
    ensures k == |events| - 1 && IsCompleted(outs[k])
  {
    var n := |events| - 1;
    assert outs[n] == Ok(Some(events[n]));
    assert forall i :: 0 <= i < n ==> events[..n][i] == events[i];
  }
}
