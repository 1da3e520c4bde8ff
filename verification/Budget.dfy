/**
 * The provider budget: requests and tokens per principal and minute, reserved before a call and only ever topped up
 * after it.
 */
module Budget {
  import opened Basics
  import opened Text
  import opened Clock

  const WINDOW := MINUTE

  datatype Limits = Limits(maxRequests: u64, maxTokens: u64)

  datatype BudgetWindow = BudgetWindow(startedAt: nat, requests: u64, tokens: u64)

  type Windows = map<string, BudgetWindow>

  /** A reservation or a top-up; the Retry-After seconds when it is refused. */
  type Outcome = Result<(), nat>

  // ---- One charge, on values ----

  function Retain(ws: Windows, now: nat): Windows {
    map k | k in ws && Elapsed(now, ws[k].startedAt) < WINDOW :: ws[k]
  }

  /** A principal's window that still counts at `now`. */
  function Live(ws: Windows, key: string, now: nat): Option<BudgetWindow> {
    if key in ws && Elapsed(now, ws[key].startedAt) < WINDOW then Some(ws[key]) else None
  }

  function Current(ws: Windows, key: string, now: nat): BudgetWindow {
    match Live(ws, key, now)
    case Some(w) => w
    case None => BudgetWindow(now, 0, 0)
  }

  predicate Fits(l: Limits, w: BudgetWindow, requests: u64, tokens: u64) {
    SatAdd(w.requests, requests) <= l.maxRequests && SatAdd(w.tokens, tokens) <= l.maxTokens
  }

  function Spend(w: BudgetWindow, requests: u64, tokens: u64): BudgetWindow {
    w.(requests := SatAdd(w.requests, requests), tokens := SatAdd(w.tokens, tokens))
  }

  function Charge(l: Limits, ws: Windows, key: string, requests: u64, tokens: u64, now: nat): (Windows, Outcome) {
    var w := Current(ws, key, now);
    if Fits(l, w, requests, tokens) then (Retain(ws, now)[key := Spend(w, requests, tokens)], Ok(()))
    else (Retain(ws, now)[key := w], Err(CeilSeconds(SatSub(WINDOW, Elapsed(now, w.startedAt)))))
  }

  /** Actual usage above the reservation is charged; a lower one is never refunded. */
  function Reconcile(l: Limits, ws: Windows, key: string, reserved: u64, actual: u64, now: nat): (Windows, Outcome) {
    if actual <= reserved then (ws, Ok(())) else Charge(l, ws, key, 0, SatSub(actual, reserved), now)
  }

  datatype TokenUsage = TokenUsage(
    inputTokens: Option<u64>, outputTokens: Option<u64>, reasoningTokens: Option<u64>, totalTokens: Option<u64>)

  /** The tokens a response reports, if it reports any. */
  function TotalForBudget(u: TokenUsage): Option<u64> {
    if u.totalTokens.Some? then u.totalTokens
    else
      var output := if u.outputTokens.Some? then u.outputTokens else u.reasoningTokens;
      if u.inputTokens.None? && output.None? then None
      else Some(SatAdd(if u.inputTokens.Some? then u.inputTokens.value else 0, if output.Some? then output.value
          else 0))
  }

  /** What one call reserved: `attempts` times the estimate of one attempt. */
  datatype Reservation = Reservation(key: string, attempts: u64, estimate: u64)

  function Reserved(r: Reservation): u64 { SatMul(r.estimate, r.attempts) }

  /** Earlier attempts at their estimate, the terminal attempt at its reported usage. */
  function ConservativeActual(r: Reservation, actual: u64): u64 {
    SatAdd(SatMul(r.estimate, SatSub(r.attempts, 1)), actual)
  }

  function ReconcileUsage(l: Limits, ws: Windows, r: Reservation, usage: Option<TokenUsage>, now: nat)
    : (Windows, Outcome)
  {
    match usage
    case None => (ws, Ok(()))
    case Some(u) =>
      match TotalForBudget(u)
      case None => (ws, Ok(()))
      case Some(actual) => Reconcile(l, ws, r.key, Reserved(r), ConservativeActual(r, actual), now)
  }

  class ProviderBudget {
    const limits: Limits
    var windows: Windows

    constructor (limits: Limits)
      ensures this.limits == limits && windows == map[]
    {
      this.limits, windows := limits, map[];
    }

    method ChargeAt(key: string, requests: u64, tokens: u64, now: nat) returns (r: Outcome)
      modifies this
      ensures (windows, r) == Charge(limits, old(windows), key, requests, tokens, now)
    {
      windows := map k | k in windows && Elapsed(now, windows[k].startedAt) < WINDOW :: windows[k];
      ghost var kept := windows;
      if key !in windows { windows := windows[key := BudgetWindow(now, 0, 0)]; }
      var window := windows[key];
      // The source tests the window's age once more here; the retained windows are all younger.
      assert Elapsed(now, window.startedAt) < WINDOW && windows == kept[key := window];
      if SatAdd(window.requests, requests) > limits.maxRequests || SatAdd(window.tokens, tokens) > limits.maxTokens {
        return Err(CeilSeconds(SatSub(WINDOW, Elapsed(now, window.startedAt))));
      }
      window := window.(requests := SatAdd(window.requests, requests));
      window := window.(tokens := SatAdd(window.tokens, tokens));
      windows := windows[key := window];
      assert windows == kept[key := window];
      return Ok(());
    }

    method ReconcileActualTokens(key: string, reserved: u64, actual: u64, now: nat) returns (r: Outcome)
      modifies this
      ensures (windows, r) == Reconcile(limits, old(windows), key, reserved, actual, now)
    {
      if actual <= reserved { return Ok(()); }
      r := ChargeAt(key, 0, SatSub(actual, reserved), now);
    }

    method ReconcileStream(reservation: Reservation, usage: Option<TokenUsage>, now: nat) returns (r: Outcome)
      modifies this
      ensures (windows, r) == ReconcileUsage(limits, old(windows), reservation, usage, now)
    {
      if usage.None? || TotalForBudget(usage.value).None? { return Ok(()); }
      var actual := ConservativeActual(reservation, TotalForBudget(usage.value).value);
      r := ReconcileActualTokens(reservation.key, Reserved(reservation), actual, now);
    }
  }

  // ---- Runs of charges ----

  datatype Call = Call(key: string, requests: u64, tokens: u64, now: nat)

  function Step(l: Limits, ws: Windows, c: Call): (Windows, Outcome) {
    Charge(l, ws, c.key, c.requests, c.tokens, c.now)
  }

  predicate Nondecreasing(from: nat, calls: seq<Call>)
    decreases |calls|
  {
    calls != [] ==> from <= calls[0].now && Nondecreasing(calls[0].now, calls[1..])
  }

  function CallsOf(calls: seq<Call>, key: string): seq<Call> {
    if calls == [] then []
    else (if calls[0].key == key then [calls[0]] else []) + CallsOf(calls[1..], key)
  }

  function OutcomesOf(l: Limits, ws: Windows, calls: seq<Call>, key: string): seq<Outcome>
    decreases |calls|
  {
    if calls == [] then []
    else
      (if calls[0].key == key then [Step(l, ws, calls[0]).1] else [])
          + OutcomesOf(l, Step(l, ws, calls[0]).0, calls[1..], key)
  }

  function After(l: Limits, ws: Windows, calls: seq<Call>): Windows
    decreases |calls|
  {
    if calls == [] then ws else After(l, Step(l, ws, calls[0]).0, calls[1..])
  }

  predicate WithinLimits(l: Limits, ws: Windows) {
    forall k :: k in ws ==> ws[k].requests <= l.maxRequests && ws[k].tokens <= l.maxTokens
  }

  /** No window ever exceeds either limit, in whatever order charges arrive. */
  lemma {:induction false} EveryWindowWithinLimits(l: Limits, ws: Windows, calls: seq<Call>)
    requires WithinLimits(l, ws)
    ensures WithinLimits(l, After(l, ws, calls))
    decreases |calls|
  {
    if calls != [] { EveryWindowWithinLimits(l, Step(l, ws, calls[0]).0, calls[1..]); }
  }

  /** A refused charge leaves every principal's totals as they were, now and later. */
  lemma RefusalChangesNoTotals(l: Limits, ws: Windows, c: Call, key: string, later: nat)
    requires Step(l, ws, c).1.Err? && c.now <= later
    ensures var w, w' := Live(ws, key, later), Live(Step(l, ws, c).0, key, later);
            w' == w || (key == c.key && w.None? && w' == Some(BudgetWindow(c.now, 0, 0)))
  {}

  /** The two budgets hold the same live window for a key. */
  predicate SameFor(a: Windows, b: Windows, key: string, now: nat) {
    Live(a, key, now) == Live(b, key, now)
  }

  lemma SameForLater(a: Windows, b: Windows, key: string, now: nat, later: nat)
    requires SameFor(a, b, key, now) && now <= later
    ensures SameFor(a, b, key, later)
  {}

  lemma StepKeepsSame(l: Limits, a: Windows, b: Windows, c: Call, key: string)
    requires SameFor(a, b, key, c.now)
    ensures if c.key == key
            then Step(l, a, c).1 == Step(l, b, c).1 && SameFor(Step(l, a, c).0, Step(l, b, c).0, key, c.now)
            else SameFor(Step(l, a, c).0, b, key, c.now)
  {}

  /** A principal's decisions are those of a budget fed only its own calls. */
  lemma {:induction false} PrincipalsAreIsolated(l: Limits, a: Windows, b: Windows, calls: seq<Call>, key: string,
      from: nat)
    requires SameFor(a, b, key, from) && Nondecreasing(from, calls)
    ensures OutcomesOf(l, a, calls, key) == OutcomesOf(l, b, CallsOf(calls, key), key)
    decreases |calls|
  {
    if calls != [] {
      var c := calls[0];
      SameForLater(a, b, key, from, c.now);
      StepKeepsSame(l, a, b, c, key);
      if c.key == key {
        PrincipalsAreIsolated(l, Step(l, a, c).0, Step(l, b, c).0, calls[1..], key, c.now);
        assert CallsOf(calls, key)[1..] == CallsOf(calls[1..], key);
      } else {
        PrincipalsAreIsolated(l, Step(l, a, c).0, b, calls[1..], key, c.now);
        assert CallsOf(calls, key) == CallsOf(calls[1..], key);
      }
    }
  }

  // ---- What a principal can spend in a minute ----

  datatype Spent = Spent(requests: nat, tokens: nat)

  /** Requests and tokens a principal was granted at times in [a, a + WINDOW). */
  function Granted(l: Limits, ws: Windows, calls: seq<Call>, key: string, a: nat): Spent
    decreases |calls|
  {
    if calls == [] then Spent(0, 0)
    else
      var c := calls[0];
      var rest := Granted(l, Step(l, ws, c).0, calls[1..], key, a);
      if c.key == key && Step(l, ws, c).1.Ok? && a <= c.now < a + WINDOW
      then Spent(rest.requests + c.requests, rest.tokens + c.tokens)
      else rest
  }

  /** What can still be granted inside the interval, given the principal's live window at `now`. */
  function Allowance(l: Limits, w: Option<BudgetWindow>, a: nat, now: nat): (int, int) {
    match w
    case None => if now < a then (2 * l.maxRequests, 2 * l.maxTokens) else (l.maxRequests, l.maxTokens)
    case Some(w) =>
      if w.startedAt + WINDOW <= a then (2 * l.maxRequests, 2 * l.maxTokens)
      else if w.startedAt < a then (2 * l.maxRequests - w.requests, 2 * l.maxTokens - w.tokens)
      else (l.maxRequests - w.requests, l.maxTokens - w.tokens)
  }

  /** Time passing inside the interval never adds to the allowance. */
  lemma AllowanceAges(l: Limits, ws: Windows, key: string, a: nat, now: nat, later: nat)
    requires WithinLimits(l, ws) && now <= later < a + WINDOW && (key in ws ==> ws[key].startedAt <= now)
    ensures var p, q := Allowance(l, Live(ws, key, later), a, later), Allowance(l, Live(ws, key, now), a, now);
            p.0 <= q.0 && p.1 <= q.1
  {}

  /** One grant uses up at least its own cost of the allowance. */
  lemma GrantUsesAllowance(l: Limits, ws: Windows, c: Call, key: string, a: nat)
    requires l.maxRequests < U64_MAX && l.maxTokens < U64_MAX && WithinLimits(l, ws)
    requires key in ws ==> ws[key].startedAt <= c.now
    requires c.now < a + WINDOW
    ensures var ws' := Step(l, ws, c).0;
            var p, q := Allowance(l, Live(ws', key, c.now), a, c.now), Allowance(l, Live(ws, key, c.now), a, c.now);
            var counts := c.key == key && Step(l, ws, c).1.Ok? && a <= c.now;
            && p.0 <= q.0 - (if counts then c.requests else 0)
            && p.1 <= q.1 - (if counts then c.tokens else 0)
            && WithinLimits(l, ws')
            && (key in ws' ==> ws'[key].startedAt <= c.now)
  {}

  lemma {:induction false} GrantedWithinAllowance(l: Limits, ws: Windows, calls: seq<Call>, key: string, a: nat,
      now: nat)
    requires l.maxRequests < U64_MAX && l.maxTokens < U64_MAX && WithinLimits(l, ws)
    requires Nondecreasing(now, calls) && (key in ws ==> ws[key].startedAt <= now)
    ensures var g, p := Granted(l, ws, calls, key, a), Allowance(l, Live(ws, key, now), a, now);
            g.requests <= p.0 && g.tokens <= p.1
    decreases |calls|
  {
    if calls != [] {
      var c := calls[0];
      if c.now < a + WINDOW {
        AllowanceAges(l, ws, key, a, now, c.now);
        GrantUsesAllowance(l, ws, c, key, a);
        GrantedWithinAllowance(l, Step(l, ws, c).0, calls[1..], key, a, c.now);
      } else {
        NothingAfter(l, ws, calls, key, a);
      }
    }
  }

  lemma {:induction false} NothingAfter(l: Limits, ws: Windows, calls: seq<Call>, key: string, a: nat)
    requires Nondecreasing(a + WINDOW, calls)
    ensures Granted(l, ws, calls, key, a) == Spent(0, 0)
    decreases |calls|
  {
    if calls != [] {
      Later(a + WINDOW, calls[0].now, calls[1..]);
      NothingAfter(l, Step(l, ws, calls[0]).0, calls[1..], key, a);
    }
  }

  lemma Later(from: nat, now: nat, calls: seq<Call>)
    requires from <= now && Nondecreasing(now, calls)
    ensures Nondecreasing(from, calls)
  {}

  /** At most twice each limit in any minute, for nondecreasing times and limits below the u64 maximum. */
  lemma AtMostTwiceEachLimit(l: Limits, calls: seq<Call>, key: string, a: nat)
    requires l.maxRequests < U64_MAX && l.maxTokens < U64_MAX && Nondecreasing(0, calls)
    ensures var g := Granted(l, map[], calls, key, a);
            g.requests <= 2 * l.maxRequests && g.tokens <= 2 * l.maxTokens
  {
    GrantedWithinAllowance(l, map[], calls, key, a, 0);
  }

  /** The bound needs limits below the u64 maximum: there the saturating sum never exceeds the limit. */
  lemma NoBoundAtTheMaximum(l: Limits)
    ensures l.maxRequests == U64_MAX ==>
              Granted(l, map[], Repeat(Call("a", U64_MAX, 0, 0)), "a", 0).requests == 3 * U64_MAX
    ensures l.maxTokens == U64_MAX ==>
              Granted(l, map[], Repeat(Call("a", 0, U64_MAX, 0)), "a", 0).tokens == 3 * U64_MAX
  {
    if l.maxRequests == U64_MAX { ThreeGrants(l, Call("a", U64_MAX, 0, 0)); }
    if l.maxTokens == U64_MAX { ThreeGrants(l, Call("a", 0, U64_MAX, 0)); }
  }

  predicate BoundedFor(l: Limits, calls: seq<Call>, key: string, a: nat) {
    var g := Granted(l, map[], calls, key, a);
    Nondecreasing(0, calls) ==> g.requests <= 2 * l.maxRequests && g.tokens <= 2 * l.maxTokens
  }

  /** The bound holds for every run, principal and minute exactly when both limits are below the u64 maximum. */
  lemma BoundHoldsExactly(l: Limits)
    ensures (forall calls, key, a :: BoundedFor(l, calls, key, a)) <==> l.maxRequests < U64_MAX && l.maxTokens < U64_MAX
  {
    hide Granted;
    if l.maxRequests < U64_MAX && l.maxTokens < U64_MAX {
      forall calls, key, a ensures BoundedFor(l, calls, key, a) {
        if Nondecreasing(0, calls) { AtMostTwiceEachLimit(l, calls, key, a); }
      }
    } else {
      NoBoundAtTheMaximum(l);
      var c := if l.maxRequests == U64_MAX then Call("a", U64_MAX, 0, 0) else Call("a", 0, U64_MAX, 0);
      RepeatIsOrdered(c);
      assert !BoundedFor(l, Repeat(c), "a", 0);
    }
  }

  lemma RepeatIsOrdered(c: Call)
    ensures Nondecreasing(c.now, Repeat(c))
  {
    assert Repeat(c)[1..] == [c, c] && [c, c][1..] == [c] && [c][1..] == [];
    assert Nondecreasing(c.now, [c]);
    assert Nondecreasing(c.now, [c, c]);
  }

  function Repeat(c: Call): seq<Call> { [c, c, c] }

  lemma ThreeGrants(l: Limits, c: Call)
    requires c.now == 0 && (c.requests == 0 || l.maxRequests == U64_MAX) && (c.tokens == 0 || l.maxTokens == U64_MAX)
    ensures Granted(l, map[], Repeat(c), c.key, 0) == Spent(3 * c.requests, 3 * c.tokens)
  {
    var w1 := Step(l, map[], c).0;
    var w2 := Step(l, w1, c).0;
    assert Step(l, map[], c).1.Ok? && Step(l, w1, c).1.Ok? && Step(l, w2, c).1.Ok?;
    assert Repeat(c)[1..] == [c, c] && [c, c][1..] == [c] && [c][1..] == [];
    assert Granted(l, Step(l, w2, c).0, [], c.key, 0) == Spent(0, 0);
    assert Granted(l, w2, [c], c.key, 0) == Spent(c.requests, c.tokens);
    assert Granted(l, w1, [c, c], c.key, 0) == Spent(2 * c.requests, 2 * c.tokens);
  }

  // ---- What one provider call is charged ----

  /** The tokens a step added to a principal's live window. */
  function Added(before: Windows, after: Windows, key: string, now: nat): int {
    Current(after, key, now).tokens - Current(before, key, now).tokens
  }

  /** What a finished call owes: its reservation, or the conservative actual usage if that was reported as more. */
  function Owed(r: Reservation, usage: Option<TokenUsage>): u64 {
    var reported := if usage.Some? then TotalForBudget(usage.value) else None;
    if reported.Some? && ConservativeActual(r, reported.value) > Reserved(r) then ConservativeActual(r, reported.value)
    else Reserved(r)
  }

  /** The window's total takes the whole amount without saturating. */
  predicate TakesAll(ws: Windows, key: string, now: nat, tokens: nat) {
    Current(ws, key, now).tokens + tokens <= U64_MAX
  }

  /**
   * A call whose reservation and settlement were both granted is charged exactly what it owes, never less than its
   * reservation, if and only if neither total saturates; below the largest 64-bit limit none ever does.
   */
  lemma CallIsChargedTheMaximum(
    l: Limits, ws1: Windows, now1: nat, ws2: Windows, now2: nat, r: Reservation, usage: Option<TokenUsage>)
    requires Charge(l, ws1, r.key, r.attempts, Reserved(r), now1).1.Ok?
    requires ReconcileUsage(l, ws2, r, usage, now2).1.Ok?
    ensures var reserved := Added(ws1, Charge(l, ws1, r.key, r.attempts, Reserved(r), now1).0, r.key, now1);
            var topUp := Added(ws2, ReconcileUsage(l, ws2, r, usage, now2).0, r.key, now2);
            var whole := TakesAll(ws1, r.key, now1, Reserved(r))
                         && TakesAll(ws2, r.key, now2, Owed(r, usage) - Reserved(r));
            && (reserved + topUp == Owed(r, usage) <==> whole)
            && (l.maxTokens < U64_MAX ==> whole)
            && 0 <= reserved <= Reserved(r) && 0 <= topUp <= Owed(r, usage) - Reserved(r)
  {
    hide SatMul;
  }
}
