/** The objects of the text stream, and the protocol their callers observe. */
module TextStream {
  import opened Text
  import opened Budget
  import opened Settlement
  import opened Sse
  import opened Responses
  import opened Decoder
  import opened Stream

  /** The source a provider response feeds. The chunks and the latency are what the network will produce. */
  class ProviderSource {
    const decoder: ResponsesSseDecoder
    const latencyMs: nat
    var response: Option<seq<Chunk>>
    var redactor: Option<Redactor>
    var pending: seq<StreamEvent>
    var finished: bool

    function State(): SourceState reads this, decoder, decoder.sse {
      SourceState(response, decoder.Stream(), redactor, pending, finished)
    }

    ghost predicate Valid() reads this, decoder, decoder.sse {
      Coherent(State()) && (!finished ==> decoder.sse.Valid())
    }

    constructor (utf8: Utf8, env: Env, codex: bool, chunks: seq<Chunk>, redactor: Redactor, latencyMs: nat)
      ensures Valid() && fresh(decoder) && fresh(decoder.sse)
      ensures decoder.sse.utf8 == utf8 && decoder.env == env && this.latencyMs == latencyMs
      ensures State() == SourceState(Some(chunks), StreamState(FRESH, InitialState(codex)), Some(redactor), [], false)
    {
      decoder := new ResponsesSseDecoder(utf8, env, codex);
      this.latencyMs := latencyMs;
      response, this.redactor, pending, finished := Some(chunks), Some(redactor), [], false;
    }

    method Abort()
      modifies this
      ensures State() == Aborted(old(State())) && Valid()
    {
      pending, redactor, response, finished := [], None, None, true;
    }

    method QueueDeltas(deltas: seq<string>)
      requires redactor.Some?
      modifies this`redactor, this`pending
      ensures var (r, events) := Redact(old(redactor.value), deltas);
              redactor == Some(r) && pending == old(pending) + events
    {
      ghost var all := Redact(redactor.value, deltas);
      assert old(pending) + ([] + all.1) == old(pending) + all.1;
      for i := 0 to |deltas|
        invariant redactor.Some?
        invariant var rest := Redact(redactor.value, deltas[i..]);
                  all.0 == rest.0 && old(pending) + all.1 == pending + rest.1
      {
        assert deltas[i..][0] == deltas[i] && deltas[i..][1..] == deltas[i + 1..];
        ghost var before, rest := pending, Redact(redactor.value, deltas[i..]).1;
        var (next, safe) := redactor.value.push(redactor.value.state, deltas[i]);
        redactor := Some(redactor.value.(state := next));
        if safe != "" { pending := pending + [Delta(safe)]; }
        assert before + rest == pending + Redact(redactor.value, deltas[i + 1..]).1;
      }
      assert deltas[|deltas|..] == [];
      assert pending + [] == pending;
    }

    /** Clean end of the body: validate, release what the redactor held back, and queue Completed. */
    method FinishResponse() returns (polled: Polled)
      requires Valid() && pending == [] && !finished && response == Some([])
      modifies this, decoder
      ensures Valid()
      ensures var (s, expected) := Pull(decoder.sse.utf8, decoder.env, old(State()), [], old(redactor.value),
          latencyMs);
              polled == expected && if polled.Ok? then State() == s else Dead(State())
    {
      hide Redact, FinishCheck;
      response := None;
      var terminal := decoder.Finish();
      if terminal.Err? {
        Abort();
        return Err(InvalidOutput);
      }
      ghost var r := redactor.value;
      QueueDeltas(Deltas(terminal.value));
      var tail := redactor.value.finish(redactor.value.state);
      redactor := None;
      assert pending == Redact(r, Deltas(terminal.value)).1;
      if tail != "" { pending := pending + [Delta(tail)]; }
      pending := pending + [Completed(latencyMs, terminal.value.usage)];
      assert pending == EndEvents(r, terminal.value, latencyMs);
      finished := true;
      polled := Ok(Some(pending[0]));
      pending := pending[1..];
    }

    /** One network chunk: decode it and queue what its deltas release. */
    method Receive(bytes: seq<Byte>) returns (ok: bool)
      requires decoder.sse.Valid() && redactor.Some? && pending == []
      modifies this`redactor, this`pending, decoder, decoder.sse
      ensures match PushChunk(decoder.sse.utf8, decoder.env, old(decoder.Stream()), bytes)
              case None => !ok
              case Some((d, deltas)) =>
                var (r, events) := Redact(old(redactor.value), deltas);
                ok && decoder.Stream() == d && decoder.sse.Valid() && redactor == Some(r) && pending == events
    {
      hide PushChunk, Redact, Feed;
      var decoded := decoder.Push(bytes);
      if decoded.Err? { return false; }
      QueueDeltas(decoded.value);
      assert [] + pending == pending;
      ok := true;
    }

    method NextEvent() returns (polled: Polled)
      requires Valid()
      modifies this, decoder, decoder.sse
      ensures Valid()
      ensures var (s, expected) := Poll(decoder.sse.utf8, decoder.env, old(State()), latencyMs);
              polled == expected && if polled.Ok? then State() == s else Dead(State())
    {
      hide PushChunk, Redact, Feed, FinishCheck, EndEvents, Deltas;
      if pending != [] {
        polled := Ok(Some(pending[0]));
        pending := pending[1..];
        return;
      }
      if finished { return Ok(None); }
      ghost var utf8, env := decoder.sse.utf8, decoder.env;
      ghost var answer := Poll(utf8, env, State(), latencyMs);
      while true
        invariant pending == [] && !finished && Valid()
        invariant answer == Pull(utf8, env, State(), response.value, redactor.value, latencyMs)
        decreases |response.value|
      {
        var chunks := response.value;
        if chunks == [] {
          polled := FinishResponse();
          return;
        }
        response := Some(chunks[1..]);
        if chunks[0].Broken? {
          Abort();
          return Err(Upstream);
        }
        var received := Receive(chunks[0].bytes);
        if !received {
          Abort();
          return Err(InvalidOutput);
        }
        if pending != [] {
          polled := Ok(Some(pending[0]));
          pending := pending[1..];
          return;
        }
      }
    }
  }

  // ---- The wrapper, on values ----

  datatype Observation = Succeeded | Failed

  datatype WrapperState = WrapperState(
    source: SourceState, reconciliation: Option<Reservation>, maxBytes: nat, emitted: nat, finished: bool,
    observing: bool, recorded: seq<Observation>)

  function Record(w: WrapperState, o: Observation): WrapperState {
    if w.observing then w.(observing := false, recorded := w.recorded + [o]) else w
  }

  function Fail(w: WrapperState): WrapperState {
    Record(w.(source := Aborted(w.source), finished := true), Failed)
  }

  /** What a reader's environment supplies: the clock, and the budget as others left it. */
  datatype Tick = Tick(now: nat, windows: Windows)

  datatype Context = Context(utf8: Utf8, env: Env, limits: Limits, latencyMs: nat)

  function Settle(c: Context, w: WrapperState, latencyMs: nat, usage: Option<TokenUsage>, t: Tick)
    : (WrapperState, Windows, Polled)
  {
    var (ws, o) := if w.reconciliation.None? then (t.windows, Ok(()))
                   else ReconcileUsage(c.limits, t.windows, w.reconciliation.value, usage, t.now);
    var w1 := w.(reconciliation := None);
    match o
    case Err(retry) => (Fail(w1), ws, Err(Refused(retry)))
    case Ok(_) => (Record(w1.(finished := true), Succeeded), ws, Ok(Some(Completed(latencyMs, usage))))
  }

  function Next(c: Context, w: WrapperState, t: Tick): (WrapperState, Windows, Polled) {
    if w.finished then (w, t.windows, Ok(None))
    else
      var (source, polled) := Poll(c.utf8, c.env, w.source, c.latencyMs);
      var w1 := w.(source := source);
      match polled
      case Err(e) => (Fail(w1), t.windows, Err(e))
      case Ok(None) => (Fail(w1), t.windows, Err(InvalidOutput))
      case Ok(Some(Delta(text))) =>
        if w.emitted + ByteLen(text) > w.maxBytes then (Fail(w1), t.windows, Err(SizeLimit))
        else (w1.(emitted := w.emitted + ByteLen(text)), t.windows, Ok(Some(Delta(text))))
      case Ok(Some(Completed(latencyMs, usage))) => Settle(c, w1, latencyMs, usage, t)
  }

  // ---- The budget's books after a read ----

  /** Only a Completed charges, and only its excess; a refusal moves no total; any other read leaves the books alone. */
  ghost predicate ReadBooks(
    l: Limits, before: Windows, after: Windows, r: Option<Reservation>, now: nat, polled: Polled)
  {
    match polled
    case Ok(Some(Completed(_, usage))) =>
      if r.None? then after == before else Booked(l, before, after, r.value, usage, now)
    case Err(Refused(retry)) => r.Some? && exists usage :: Declined(l, before, after, r.value, usage, now, retry)
    case _ => after == before
  }

  lemma {:induction false} PullNeverRefuses(
    utf8: Utf8, env: Env, s: SourceState, chunks: seq<Chunk>, r: Redactor, latencyMs: nat)
    requires s.pending == []
    ensures var polled := Pull(utf8, env, s, chunks, r, latencyMs).1;
            polled.Ok? || polled.error in {InvalidOutput, Upstream}
    decreases |chunks|
  {
    hide PushChunk, FinishCheck, Redact, EndEvents;
    if chunks != [] && chunks[0].Bytes? {
      var pushed := PushChunk(utf8, env, s.decoder, chunks[0].bytes);
      if pushed.Some? {
        var (r', events) := Redact(r, pushed.value.1);
        if events == [] {
          var s' := SourceState(Some(chunks[1..]), pushed.value.0, Some(r'), events, s.finished);
          PullNeverRefuses(utf8, env, s', chunks[1..], r', latencyMs);
        }
      }
    }
  }

  /** A source reports its own errors only. */
  lemma PollNeverRefuses(utf8: Utf8, env: Env, s: SourceState, latencyMs: nat)
    ensures var polled := Poll(utf8, env, s, latencyMs).1; polled.Ok? || polled.error in {InvalidOutput, Upstream}
  {
    hide Pull;
    if s.pending == [] && s.response.Some? && s.redactor.Some? {
      PullNeverRefuses(utf8, env, s, s.response.value, s.redactor.value, latencyMs);
    }
  }

  /** One read of the stream, in the budget's books. */
  lemma NextKeepsBooks(c: Context, w: WrapperState, t: Tick)
    ensures var (w1, ws, polled) := Next(c, w, t);
            && ReadBooks(c.limits, t.windows, ws, if w.finished then None else w.reconciliation, t.now, polled)
            && (polled.Ok? && polled.value.Some? && polled.value.value.Completed? ==> w1.reconciliation.None?)
  {
    hide Poll, ReconcileUsage, Booked, Declined, ByteLen;
    PollNeverRefuses(c.utf8, c.env, w.source, c.latencyMs);
    var polled := Poll(c.utf8, c.env, w.source, c.latencyMs).1;
    if polled.Ok? && polled.value.Some? && polled.value.value.Completed? && w.reconciliation.Some? {
      UsageIsBooked(c.limits, t.windows, w.reconciliation.value, polled.value.value.usage, t.now);
    }
  }

  /** Dropping the stream: an attached observation that is still open is recorded as a failure. */
  function Dropped(w: WrapperState): WrapperState { Record(w, Failed) }

  /** Equal, except for what a finished stream no longer looks at. */
  ghost predicate Matches(a: WrapperState, b: WrapperState) {
    a == b.(source := a.source) && (a.finished || a.source == b.source)
  }

  class LlmTextStream {
    const source: ProviderSource
    const budget: ProviderBudget
    var reconciliation: Option<Reservation>
    var maxBytes: nat
    var emitted: nat
    var finished: bool
    var observing: bool
    var recorded: seq<Observation>

    function State(): WrapperState reads this, source, source.decoder, source.decoder.sse {
      WrapperState(source.State(), reconciliation, maxBytes, emitted, finished, observing, recorded)
    }

    function Environment(): Context {
      Context(source.decoder.sse.utf8, source.decoder.env, budget.limits, source.latencyMs)
    }

    ghost predicate Valid() reads this, source, source.decoder, source.decoder.sse {
      !finished ==> source.Valid()
    }

    /** A stream constrained by a size limit and a reservation, its metrics attached. */
    constructor (source: ProviderSource, budget: ProviderBudget, maxBytes: nat, reconciliation: Option<Reservation>)
      requires source.Valid()
      ensures Valid() && this.source == source && this.budget == budget
      ensures State() == WrapperState(source.State(), reconciliation, maxBytes, 0, false, true, [])
    {
      this.source, this.budget, this.maxBytes, this.reconciliation := source, budget, maxBytes, reconciliation;
      emitted, finished, observing, recorded := 0, false, true, [];
    }

    method Observe(o: Observation)
      modifies this`observing, this`recorded
      ensures State() == Record(old(State()), o)
    {
      if !observing { return; }
      observing, recorded := false, recorded + [o];
    }

    /** A read that fails: the source is dropped and the failure recorded. */
    method GiveUp()
      modifies this, source
      ensures State() == Fail(old(State())) && Valid()
    {
      source.Abort();
      finished := true;
      Observe(Failed);
    }

    /** The end of the response: settle the budget first, then let Completed through. */
    method Complete(latencyMs: nat, usage: Option<TokenUsage>, now: nat) returns (r: Polled)
      modifies this, source, budget
      ensures var (w, ws, expected) := Settle(
                Environment(), old(State()), latencyMs, usage, Tick(now, old(budget.windows)));
              r == expected && budget.windows == ws && State() == w && finished
    {
      hide ReconcileUsage;
      var taken := reconciliation;
      reconciliation := None;
      if taken.Some? {
        var settled := budget.ReconcileStream(taken.value, usage, now);
        if settled.Err? {
          GiveUp();
          return Err(Refused(settled.error));
        }
      }
      finished := true;
      Observe(Succeeded);
      r := Ok(Some(Completed(latencyMs, usage)));
    }

    method NextEvent(now: nat) returns (r: Polled)
      requires Valid()
      modifies this, source, source.decoder, source.decoder.sse, budget
      ensures Valid()
      ensures var (w, ws, expected) := Next(Environment(), old(State()), Tick(now, old(budget.windows)));
              r == expected && budget.windows == ws && Matches(State(), w)
      ensures var open := if old(finished) then None else old(reconciliation);
              ReadBooks(budget.limits, old(budget.windows), budget.windows, open, now, r)
    {
      hide Poll, Settle, ByteLen, ReadBooks;
      NextKeepsBooks(Environment(), State(), Tick(now, budget.windows));
      if finished { return Ok(None); }
      var polled := source.NextEvent();
      if polled.Err? || polled.value.None? {
        GiveUp();
        return if polled.Err? then polled else Err(InvalidOutput);
      }
      match polled.value.value {
        case Delta(text) =>
          if emitted + ByteLen(text) > maxBytes {
            GiveUp();
            return Err(SizeLimit);
          }
          emitted := emitted + ByteLen(text);
          r := polled;
        case Completed(latencyMs, usage) =>
          r := Complete(latencyMs, usage, now);
      }
    }

    method Drop()
      modifies this`observing, this`recorded
      ensures State() == Dropped(old(State()))
    {
      Observe(Failed);
    }
  }

  // ---- The protocol a caller observes ----

  function Read(c: Context, w: WrapperState, ticks: seq<Tick>): (WrapperState, seq<Polled>)
    decreases |ticks|
  {
    if ticks == [] then (w, [])
    else
      var (w1, ws, polled) := Next(c, w, ticks[0]);
      var (w2, more) := Read(c, w1, ticks[1..]);
      (w2, [polled] + more)
  }

  predicate IsDelta(p: Polled) { p.Ok? && p.value.Some? && p.value.value.Delta? }

  predicate IsCompleted(p: Polled) { p.Ok? && p.value.Some? && p.value.value.Completed? }

  function Size(outs: seq<Polled>): nat {
    if outs == [] then 0
    else (if IsDelta(outs[0]) then ByteLen(outs[0].value.value.text) else 0) + Size(outs[1..])
  }

  /** A source that fails yields only deltas first; one that does not ends with its one Completed. */
  predicate WellEnded(s: Script) {
    if s.failure.Some? then AllDeltas(s.events) else EndsCompleted(s.events)
  }

  lemma {:induction false} NothingAfterEnd(c: Context, w: WrapperState, ticks: seq<Tick>)
    requires w.finished
    ensures Read(c, w, ticks).0 == w && |Read(c, w, ticks).1| == |ticks|
    ensures forall i :: 0 <= i < |ticks| ==> Read(c, w, ticks).1[i] == Ok(None)
    decreases |ticks|
  {
    if ticks != [] { NothingAfterEnd(c, w, ticks[1..]); }
  }

  /** The outcome a run has recorded after delivering `k` deltas. */
  function Recorded(w: WrapperState, outs: seq<Polled>, k: nat): seq<Observation> {
    if !w.observing || k >= |outs| then w.recorded
    else w.recorded + [if IsCompleted(outs[k]) then Succeeded else Failed]
  }

  /** The budget lets a completed response through. */
  predicate Settles(c: Context, r: Option<Reservation>, usage: Option<TokenUsage>, t: Tick) {
    r.None? || ReconcileUsage(c.limits, t.windows, r.value, usage, t.now).1.Ok?
  }

  /** `k` deltas of the script, then at most one Completed or error, then nothing. */
  ghost predicate Follows(c: Context, w: WrapperState, ticks: seq<Tick>, w': WrapperState, outs: seq<Polled>,
      script: Script, k: nat) {
    && |outs| == |ticks| && k <= |outs| && k <= |script.events|
    && (forall i :: 0 <= i < k ==> IsDelta(outs[i]) && outs[i] == Ok(Some(script.events[i])))
    && (k < |outs| ==> IsCompleted(outs[k]) || outs[k].Err?)
    && (forall i :: k < i < |outs| ==> outs[i] == Ok(None))
    && (k < |outs| && IsCompleted(outs[k]) ==>
          && script.failure.None? && k == |script.events| - 1 && outs[k] == Ok(Some(script.events[k]))
          && Settles(c, w.reconciliation, script.events[k].usage, ticks[k]))
    && w'.emitted == w.emitted + Size(outs) <= w.maxBytes
    && w'.recorded == Recorded(w, outs, k) && (w'.observing <==> w.observing && k == |outs|)
    && (w'.finished <==> k < |outs|)
  }

  lemma SizeOfNothing(outs: seq<Polled>)
    requires forall i :: 0 <= i < |outs| ==> outs[i] == Ok(None)
    ensures Size(outs) == 0
  {}

  lemma NextFollows(c: Context, w: WrapperState, t: Tick)
    requires !w.finished && Coherent(w.source) && w.emitted <= w.maxBytes
    requires WellEnded(Remaining(c.utf8, c.env, w.source, c.latencyMs))
    ensures var script := Remaining(c.utf8, c.env, w.source, c.latencyMs);
            var (w1, ws, p) := Next(c, w, t);
            if IsDelta(p) then
              && script.events != [] && p == Ok(Some(script.events[0]))
              && Coherent(w1.source) && WellEnded(Remaining(c.utf8, c.env, w1.source, c.latencyMs))
              && Remaining(c.utf8, c.env, w1.source, c.latencyMs) == Script(script.events[1..], script.failure)
              && w1 == w.(source := w1.source, emitted := w.emitted + ByteLen(p.value.value.text))
                  && w1.emitted <= w1.maxBytes
            else Follows(c, w, [t], w1, [p], script, 0)
  {
    hide Poll, Remaining, ReconcileUsage, ByteLen, WellEnded;
    PollIsHead(c.utf8, c.env, w.source, c.latencyMs);
    assert [Next(c, w, t).2][1..] == [];
    WellEndedHead(Remaining(c.utf8, c.env, w.source, c.latencyMs));
    var (w1, ws, p) := Next(c, w, t);
    if !IsDelta(p) {
      assert p.Err? || IsCompleted(p);
      assert w1.finished;
      assert Size([p]) == 0;
      assert w1.emitted == w.emitted;
      assert w1.recorded == Recorded(w, [p], 0);
      assert !w1.observing;
      assert IsCompleted(p) ==> Settles(c, w.reconciliation, p.value.value.usage, t);
      assert IsCompleted(p) ==> Remaining(c.utf8, c.env, w.source, c.latencyMs).events == [p.value.value];
    }
  }

  /** The read is the stream's last: the source is dropped and the outcome recorded, once. */
  predicate EndedWith(w: WrapperState, w1: WrapperState, o: Observation) {
    && w1.finished && !w1.observing
    && w1.recorded == (if w.observing then w.recorded + [o] else w.recorded)
    && (o.Failed? ==> Dead(w1.source))
  }

  /**
   * Each read answers for the source's next event: the delta if it fits, the limit if it does not, Completed if the
   * settlement has room, its refusal if not, the source's own failure at its end, and nothing once the stream ended.
   */
  lemma NextIsDue(c: Context, w: WrapperState, t: Tick)
    requires Coherent(w.source) && WellEnded(Remaining(c.utf8, c.env, w.source, c.latencyMs))
    ensures var script := Remaining(c.utf8, c.env, w.source, c.latencyMs);
            var (w1, ws, p) := Next(c, w, t);
            if w.finished then p == Ok(None) && w1 == w
            else if script.events == [] then
              script.failure.Some? && p == Err(script.failure.value) && EndedWith(w, w1, Failed)
            else
              match script.events[0]
              case Delta(text) =>
                if w.emitted + ByteLen(text) <= w.maxBytes
                then p == Ok(Some(Delta(text))) && w1.emitted == w.emitted + ByteLen(text) && !w1.finished
                else p == Err(SizeLimit) && EndedWith(w, w1, Failed)
              case Completed(latencyMs, usage) =>
                if w.reconciliation.None? || exists n ::
                     Adds(w.reconciliation.value, usage, n)
                     && HasRoom(c.limits, t.windows, w.reconciliation.value.key, t.now, n)
                then p == Ok(Some(Completed(latencyMs, usage))) && EndedWith(w, w1, Succeeded)
                else p.Err? && p.error.Refused? && EndedWith(w, w1, Failed)
  {
    hide Poll, Remaining, ReconcileUsage, ByteLen, Adds, HasRoom, WellEnded;
    var script := Remaining(c.utf8, c.env, w.source, c.latencyMs);
    PollIsHead(c.utf8, c.env, w.source, c.latencyMs);
    WellEndedHead(script);
    if !w.finished && script.events != [] && script.events[0].Completed? && w.reconciliation.Some? {
      RoomDecides(c.limits, t.windows, w.reconciliation.value, script.events[0].usage, t.now);
    }
  }

  lemma RoomDecides(l: Limits, ws: Windows, r: Reservation, usage: Option<TokenUsage>, now: nat)
    ensures ReconcileUsage(l, ws, r, usage, now).1.Ok? <==>
            exists n :: Adds(r, usage, n) && HasRoom(l, ws, r.key, now, n)
  {
    hide ReconcileUsage, HasRoom, SameBooks, SameTotals, Waits, TotalForBudget, ConservativeActual, Reserved;
    UsageIsBooked(l, ws, r, usage, now);
    forall m, n | Adds(r, usage, m) && Adds(r, usage, n) ensures m == n {
      AddsExactly(r, usage, m);
      AddsExactly(r, usage, n);
    }
  }

  lemma WellEndedHead(s: Script)
    requires WellEnded(s)
    ensures s.events == [] ==> s.failure.Some?
    ensures s.events != [] && s.events[0].Completed? ==> s.failure.None? && |s.events| == 1
    ensures s.events != [] && s.events[0].Delta? ==> WellEnded(Script(s.events[1..], s.failure))
  {
    if s.events != [] {
      var front, tail := s.events[..|s.events| - 1], s.events[1..];
      assert |s.events| > 1 ==> front[0] == s.events[0];
      assert s.events[0].Delta? && s.failure.None? ==> tail != [];
      assert forall i :: 0 <= i < |tail| - 1 ==> tail[i] == front[i + 1];
      assert tail != [] ==> tail[|tail| - 1] == s.events[|s.events| - 1];
    }
  }

  /** One more delta in front of a run. */
  lemma DeltaFirst(c: Context, w: WrapperState, w1: WrapperState, t: Tick, p: Polled,
                   ticks: seq<Tick>, w': WrapperState, outs: seq<Polled>, script: Script, k: nat)
    requires script.events != [] && IsDelta(p) && p == Ok(Some(script.events[0]))
    requires w1 == w.(source := w1.source, emitted := w.emitted + ByteLen(p.value.value.text))
    requires Follows(c, w1, ticks, w', outs, Script(script.events[1..], script.failure), k)
    ensures Follows(c, w, [t] + ticks, w', [p] + outs, script, k + 1)
  {
    hide ByteLen, Settles;
    var outs' := [p] + outs;
    assert outs'[1..] == outs;
    assert forall i :: 0 <= i < |outs| ==> outs'[i + 1] == outs[i];
    forall i | 0 <= i < k + 1 ensures IsDelta(outs'[i]) && outs'[i] == Ok(Some(script.events[i])) {
      if i > 0 { assert outs'[i] == outs[i - 1] && script.events[i] == script.events[1..][i - 1]; }
    }
    forall i | k + 1 < i < |outs'| ensures outs'[i] == Ok(None) {
      assert outs'[i] == outs[i - 1];
    }
  }

  /** Nothing follows the end of a run. */
  lemma EndFirst(c: Context, w: WrapperState, t: Tick, w1: WrapperState, p: Polled, ticks: seq<Tick>, outs: seq<Polled>,
      script: Script)
    requires !IsDelta(p) && Follows(c, w, [t], w1, [p], script, 0)
    requires |outs| == |ticks| && forall i :: 0 <= i < |outs| ==> outs[i] == Ok(None)
    ensures Follows(c, w, [t] + ticks, w1, [p] + outs, script, 0)
  {
    hide Settles;
    var outs' := [p] + outs;
    assert outs'[1..] == outs && [p][1..] == [] && [p][0] == p && outs'[0] == p && ([t] + ticks)[0] == [t][0];
    SizeOfNothing(outs);
    assert Size(outs') == Size([p]);
    assert Recorded(w, outs', 0) == Recorded(w, [p], 0);
    assert forall i :: 0 < i < |outs'| ==> outs'[i] == outs[i - 1];
  }

  /** Every run of a stream obeys the protocol, whatever its source, budget and clock do. */
  lemma {:induction false} StreamFollowsProtocol(c: Context, w: WrapperState, ticks: seq<Tick>) returns (k: nat)
    requires !w.finished && Coherent(w.source) && w.emitted <= w.maxBytes
    requires WellEnded(Remaining(c.utf8, c.env, w.source, c.latencyMs))
    ensures var (w', outs) := Read(c, w, ticks);
            Follows(c, w, ticks, w', outs, Remaining(c.utf8, c.env, w.source, c.latencyMs), k)
    decreases |ticks|
  {
    hide Next, Remaining, WellEnded, Follows;
    k := 0;
    if ticks == [] {
      EmptyRun(c, w, Remaining(c.utf8, c.env, w.source, c.latencyMs));
    } else {
      NextFollows(c, w, ticks[0]);
      var script := Remaining(c.utf8, c.env, w.source, c.latencyMs);
      var (w1, ws, p) := Next(c, w, ticks[0]);
      var (w', more) := Read(c, w1, ticks[1..]);
      assert ticks == [ticks[0]] + ticks[1..];
      if IsDelta(p) {
        k := StreamFollowsProtocol(c, w1, ticks[1..]);
        DeltaFirst(c, w, w1, ticks[0], p, ticks[1..], w', more, script, k);
        k := k + 1;
      } else {
        EndsFinished(c, w, ticks[0], w1, p, script);
        NothingAfterEnd(c, w1, ticks[1..]);
        EndFirst(c, w, ticks[0], w1, p, ticks[1..], more, script);
      }
    }
  }

  lemma EmptyRun(c: Context, w: WrapperState, script: Script)
    requires !w.finished && w.emitted <= w.maxBytes
    ensures Follows(c, w, [], w, [], script, 0)
  {}

  lemma EndsFinished(c: Context, w: WrapperState, t: Tick, w1: WrapperState, p: Polled, script: Script)
    requires Follows(c, w, [t], w1, [p], script, 0)
    ensures w1.finished
  {}

  // ---- The whole stream ----

  function DeltaText(outs: seq<Polled>): string {
    if outs == [] then "" else (if IsDelta(outs[0]) then outs[0].value.value.text else "") + DeltaText(outs[1..])
  }

  lemma {:induction false} DeltaTextOfScript(outs: seq<Polled>, events: seq<StreamEvent>)
    requires |events| <= |outs|
    requires forall i :: 0 <= i < |events| ==> outs[i] == Ok(Some(events[i]))
    requires forall i :: |events| <= i < |outs| ==> outs[i] == Ok(None)
    ensures DeltaText(outs) == TextsOf(events)
    decreases |outs|
  {
    if outs != [] {
      if events == [] {
        assert outs[0] == Ok(None);
        DeltaTextOfScript(outs[1..], []);
      } else {
        assert outs[0] == Ok(Some(events[0]));
        DeltaTextOfScript(outs[1..], events[1..]);
      }
    }
  }

  /** A stream as it is handed to its caller. */
  function Opened(codex: bool, chunks: seq<Chunk>, r: Redactor, maxBytes: nat,
      reconciliation: Option<Reservation>): WrapperState {
    WrapperState(SourceState(Some(chunks), StreamState(FRESH, InitialState(codex)), Some(r), [], false),
                 reconciliation, maxBytes, 0, false, true, [])
  }

  /**
   * A caller of an opened stream reads deltas, then at most one Completed or error, then nothing; never more bytes
   * than the limit; and exactly one outcome is on record once the stream is dropped. If it reads Completed, the budget
   * was settled, the whole body was accepted, and the deltas it read spell what the redactor makes of the response's
   * pieces, which concatenate to the certified text: the certified text itself where the redactor finds nothing to
   * change, and the redaction of the whole text where it does not care how the text is cut.
   */
  lemma CallerReadsCertifiedText(
    c: Context, codex: bool, chunks: seq<Chunk>, r: Redactor, maxBytes: nat, reconciliation: Option<Reservation>,
    ticks: seq<Tick>)
    requires Injective(c.env.digest)
    ensures var w := Opened(codex, chunks, r, maxBytes, reconciliation);
            var (w', outs) := Read(c, w, ticks);
            var k := LeadingDeltas(outs);
            && |outs| == |ticks|
            && (k < |outs| ==> IsCompleted(outs[k]) || outs[k].Err?)
            && (forall i :: k < i < |outs| ==> outs[i] == Ok(None))
            && Size(outs) <= maxBytes
            && Dropped(w').recorded == [if k < |outs| && IsCompleted(outs[k]) then Succeeded else Failed]
            && (k < |outs| && IsCompleted(outs[k]) ==>
                  && Settles(c, reconciliation, outs[k].value.value.usage, ticks[k])
                  && CertifiedReading(c, codex, chunks, r, DeltaText(outs)))
  {
    hide Drained, Settles, Injective, Remaining, CertifiedText, DeltaText, Size, Flatten, RedactedText, Read, WellEnded,
      Pieces, Seamless;
    var script := Drained(c.utf8, c.env, r, StreamState(FRESH, InitialState(codex)), chunks, c.latencyMs);
    var k := ReadingEnds(c, codex, chunks, r, maxBytes, reconciliation, ticks);
    var (w', outs) := Read(c, Opened(codex, chunks, r, maxBytes, reconciliation), ticks);
    assert k == LeadingDeltas(outs);
    if k < |outs| && IsCompleted(outs[k]) {
      CompletedStreamIsCertified(c.utf8, c.env, codex, r, chunks, c.latencyMs);
      if Seamless(r) { SeamlessText(r, Pieces(c.utf8, c.env, codex, chunks)); }
    }
  }

  /** The deltas read before anything else. */
  function LeadingDeltas(outs: seq<Polled>): (k: nat)
    ensures k <= |outs| && (forall i :: 0 <= i < k ==> IsDelta(outs[i])) && (k < |outs| ==> !IsDelta(outs[k]))
  {
    if outs == [] || !IsDelta(outs[0]) then 0 else 1 + LeadingDeltas(outs[1..])
  }

  /** What reading Completed says of the text read before it. */
  ghost predicate CertifiedReading(c: Context, codex: bool, chunks: seq<Chunk>, r: Redactor, text: string) {
    && BytesOf(chunks).Some?
    && var bytes, pieces := Flatten(BytesOf(chunks).value), Pieces(c.utf8, c.env, codex, chunks);
    && CertifiedText(c.utf8, c.env, bytes, Concat(pieces))
    && text == RedactedText(r, pieces)
    && (RedactedText(r, pieces) == Concat(pieces) ==> CertifiedText(c.utf8, c.env, bytes, text))
    && (Seamless(r) ==> text == RedactedText(r, [Concat(pieces)]))
  }

  /** The protocol of a reading, and the script it follows to its Completed. */
  lemma ReadingEnds(
    c: Context, codex: bool, chunks: seq<Chunk>, r: Redactor, maxBytes: nat, reconciliation: Option<Reservation>,
    ticks: seq<Tick>)
    returns (k: nat)
    ensures var w := Opened(codex, chunks, r, maxBytes, reconciliation);
            var (w', outs) := Read(c, w, ticks);
            && |outs| == |ticks| && k <= |outs|
            && (forall i :: 0 <= i < k ==> IsDelta(outs[i]))
            && (k < |outs| ==> IsCompleted(outs[k]) || outs[k].Err?)
            && (forall i :: k < i < |outs| ==> outs[i] == Ok(None))
            && Size(outs) <= maxBytes
            && Dropped(w').recorded == [if k < |outs| && IsCompleted(outs[k]) then Succeeded else Failed]
            && (k < |outs| && IsCompleted(outs[k]) ==>
                  var script := Drained(c.utf8, c.env, r, w.source.decoder, chunks, c.latencyMs);
                  && Settles(c, reconciliation, outs[k].value.value.usage, ticks[k])
                  && script.failure.None? && |script.events| == k + 1
                  && (forall i :: 0 <= i <= k ==> outs[i] == Ok(Some(script.events[i])))
                  && DeltaText(outs) == TextsOf(script.events))
  {
    hide Drained, Settles, Remaining, DeltaText, Size, Read, WellEnded, TextsOf;
    var w := Opened(codex, chunks, r, maxBytes, reconciliation);
    OpenedScript(c, codex, chunks, r, maxBytes, reconciliation);
    k := StreamFollowsProtocol(c, w, ticks);
    var (w', outs) := Read(c, w, ticks);
    if k < |outs| && IsCompleted(outs[k]) {
      DeltaTextOfScript(outs, Drained(c.utf8, c.env, r, w.source.decoder, chunks, c.latencyMs).events);
    }
  }

  predicate ReadsCompleted(outs: seq<Polled>) { exists i :: 0 <= i < |outs| && IsCompleted(outs[i]) }

  /**
   * Two callers that read Completed over two cuts of the same bytes have read the same events, whatever the redactor,
   * and whatever their limits, budgets and clocks.
   */
  lemma CutsReadAlike(
    c: Context, codex: bool, xs: seq<Chunk>, ys: seq<Chunk>, r: Redactor, maxX: nat, maxY: nat,
    reservedX: Option<Reservation>, reservedY: Option<Reservation>, ticksX: seq<Tick>, ticksY: seq<Tick>)
    returns (n: nat)
    requires BytesOf(xs).Some? && BytesOf(ys).Some? && Flatten(BytesOf(xs).value) == Flatten(BytesOf(ys).value)
    requires ReadsCompleted(Read(c, Opened(codex, xs, r, maxX, reservedX), ticksX).1)
    requires ReadsCompleted(Read(c, Opened(codex, ys, r, maxY, reservedY), ticksY).1)
    ensures var outsX := Read(c, Opened(codex, xs, r, maxX, reservedX), ticksX).1;
            var outsY := Read(c, Opened(codex, ys, r, maxY, reservedY), ticksY).1;
            && 0 < n <= |outsX| && n <= |outsY| && outsX[..n] == outsY[..n] && IsCompleted(outsX[n - 1])
            && DeltaText(outsX) == DeltaText(outsY)
  {
    hide Drained, Settles, DeltaText, Size, Read, TextsOf, Accepted, Pieces, RedactedText, Flatten, BytesOf;
    var kx := ReadingEnds(c, codex, xs, r, maxX, reservedX, ticksX);
    var ky := ReadingEnds(c, codex, ys, r, maxY, reservedY, ticksY);
    ScriptIsRedaction(c.utf8, c.env, codex, r, xs, c.latencyMs);
    CutsAreScriptedAlike(c.utf8, c.env, codex, r, xs, ys, c.latencyMs);
    n := kx + 1;
  }

  lemma OpenedScript(c: Context, codex: bool, chunks: seq<Chunk>, r: Redactor, maxBytes: nat,
      reconciliation: Option<Reservation>)
    ensures var w := Opened(codex, chunks, r, maxBytes, reconciliation);
            && Remaining(c.utf8, c.env, w.source, c.latencyMs) == Drained(c.utf8, c.env, r, w.source.decoder, chunks,
                c.latencyMs)
            && WellEnded(Remaining(c.utf8, c.env, w.source, c.latencyMs))
  {
    hide Drained;
    var w := Opened(codex, chunks, r, maxBytes, reconciliation);
    var script := Drained(c.utf8, c.env, r, w.source.decoder, chunks, c.latencyMs);
    DrainedIsWhole(c.utf8, c.env, r, w.source.decoder, chunks, c.latencyMs);
    assert [] + script.events == script.events;
    var accepted := Accepted(c.utf8, c.env, w.source.decoder, chunks);
    if accepted.Some? { WholeText(r, accepted.value.0, accepted.value.1, c.latencyMs); }
  }
}
