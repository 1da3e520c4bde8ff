/** What the settlement of a finished response does to the budget's books, written out in tokens. */
module Settlement {
  import opened Basics
  import opened Text
  import opened Clock
  import opened Budget

  // ---- The books, as a principal sees them ----

  /** The window a principal has at `now`: one that started less than a minute ago. */
  predicate HasWindow(ws: Windows, key: string, now: nat) {
    key in ws && now < ws[key].startedAt + 60_000_000_000
  }

  function TokensAt(ws: Windows, key: string, now: nat): nat {
    if HasWindow(ws, key, now) then ws[key].tokens else 0
  }

  function RequestsAt(ws: Windows, key: string, now: nat): nat {
    if HasWindow(ws, key, now) then ws[key].requests else 0
  }

  predicate SameBooks(before: Windows, after: Windows, key: string, now: nat) {
    && (HasWindow(before, key, now) <==> HasWindow(after, key, now))
    && (HasWindow(before, key, now) ==> before[key] == after[key])
  }

  ghost predicate SameTotals(before: Windows, after: Windows, key: string, now: nat) {
    && TokensAt(before, key, now) == TokensAt(after, key, now)
    && RequestsAt(before, key, now) == RequestsAt(after, key, now)
  }

  /** Saturation at the largest 64-bit value. */
  function Capped(n: nat): nat { Min(n, 0xFFFF_FFFF_FFFF_FFFF) }

  /** The tokens a usage report stands for: its total, or else input and output, with reasoning for a missing output. */
  ghost predicate Reports(u: TokenUsage, n: nat) {
    match u
    case TokenUsage(_, _, _, Some(total)) => n == total
    case TokenUsage(Some(input), Some(output), _, None) => n == Capped(input + output)
    case TokenUsage(Some(input), None, Some(reasoning), None) => n == Capped(input + reasoning)
    case TokenUsage(Some(input), None, None, None) => n == input
    case TokenUsage(None, Some(output), _, None) => n == output
    case TokenUsage(None, None, Some(reasoning), None) => n == reasoning
    case TokenUsage(None, None, None, None) => false
  }

  /** What a reported usage exceeds the reservation by: earlier attempts count at their estimate. */
  function Excess(r: Reservation, actual: nat): nat {
    var earlier := if r.attempts == 0 then 0 else r.attempts - 1;
    SatSub(Capped(Capped(earlier * r.estimate) + actual), Capped(r.attempts * r.estimate))
  }

  /** The tokens a finished response adds: its excess if it reported its usage, else none. */
  ghost predicate Adds(r: Reservation, usage: Option<TokenUsage>, n: nat) {
    if usage.Some? && exists actual :: Reports(usage.value, actual)
    then exists actual :: Reports(usage.value, actual) && n == Excess(r, actual)
    else n == 0
  }

  /** The principal's window has room for this many tokens more. */
  predicate HasRoom(l: Limits, ws: Windows, key: string, now: nat, n: nat) {
    n == 0 || (Capped(TokensAt(ws, key, now) + n) <= l.maxTokens && RequestsAt(ws, key, now) <= l.maxRequests)
  }

  /** A settlement that was granted: the reservation's principal is charged the excess, and nobody else anything. */
  ghost predicate Booked(
    l: Limits, before: Windows, after: Windows, r: Reservation, usage: Option<TokenUsage>, now: nat)
  {
    && (exists n ::
          && Adds(r, usage, n) && HasRoom(l, before, r.key, now, n)
          && TokensAt(after, r.key, now) == Capped(TokensAt(before, r.key, now) + n))
    && RequestsAt(after, r.key, now) == RequestsAt(before, r.key, now)
    && forall key :: key != r.key ==> SameBooks(before, after, key, now)
  }

  /** A settlement that was refused: an excess without room, no total moved, and the wait is the window's rest. */
  ghost predicate Declined(
    l: Limits, before: Windows, after: Windows, r: Reservation, usage: Option<TokenUsage>, now: nat, retry: nat)
  {
    && (exists n :: Adds(r, usage, n) && !HasRoom(l, before, r.key, now, n))
    && (forall key :: SameTotals(before, after, key, now))
    && Waits(before, r.key, now, retry)
  }

  /** The wait, in whole seconds, until the window that refused has ended. */
  predicate Waits(ws: Windows, key: string, now: nat, retry: nat) {
    var rest := if HasWindow(ws, key, now) && ws[key].startedAt <= now
                then ws[key].startedAt + 60_000_000_000 - now else 60_000_000_000;
    retry >= 1 && (retry - 1) * 1_000_000_000 < rest <= retry * 1_000_000_000
  }

  // ---- The charge does that ----

  lemma ReportedTokens(u: TokenUsage, n: nat)
    ensures Reports(u, n) <==> TotalForBudget(u) == Some(n)
  {}

  lemma OwedTokens(r: Reservation, actual: u64)
    ensures Excess(r, actual) == SatSub(ConservativeActual(r, actual), Reserved(r))
  {
    var earlier: nat := if r.attempts == 0 then 0 else r.attempts - 1;
    assert earlier == SatSub(r.attempts, 1);
    assert earlier * r.estimate == r.estimate * earlier && r.attempts * r.estimate == r.estimate * r.attempts;
  }

  /** A charge in the books' terms. */
  lemma ChargeInBooks(l: Limits, ws: Windows, key: string, requests: u64, tokens: u64, now: nat)
    ensures var (ws', o) := Charge(l, ws, key, requests, tokens, now);
            && (o.Ok? <==>
                  && Capped(RequestsAt(ws, key, now) + requests) <= l.maxRequests
                  && Capped(TokensAt(ws, key, now) + tokens) <= l.maxTokens)
            && (o.Ok? ==>
                  && HasWindow(ws', key, now)
                  && ws'[key].startedAt == (if HasWindow(ws, key, now) then ws[key].startedAt else now)
                  && ws'[key].requests == Capped(RequestsAt(ws, key, now) + requests)
                  && ws'[key].tokens == Capped(TokensAt(ws, key, now) + tokens))
            && (o.Err? ==> SameTotals(ws, ws', key, now) && Waits(ws, key, now, o.error))
            && forall k :: k != key ==> SameBooks(ws, ws', k, now)
  {
    hide SatMul;
  }

  lemma AddsExactly(r: Reservation, usage: Option<TokenUsage>, n: nat)
    ensures Adds(r, usage, n) <==>
            n == (if usage.Some? && TotalForBudget(usage.value).Some?
                  then SatSub(ConservativeActual(r, TotalForBudget(usage.value).value), Reserved(r)) else 0)
  {
    hide TotalForBudget, ConservativeActual, Reserved, Excess, Reports;
    if usage.Some? {
      forall actual: nat ensures Reports(usage.value, actual) <==> TotalForBudget(usage.value) == Some(actual) {
        ReportedTokens(usage.value, actual);
      }
      if TotalForBudget(usage.value).Some? {
        OwedTokens(r, TotalForBudget(usage.value).value);
        assert Reports(usage.value, TotalForBudget(usage.value).value);
      }
    }
  }

  lemma UsageIsBooked(l: Limits, ws: Windows, r: Reservation, usage: Option<TokenUsage>, now: nat)
    ensures var (ws', o) := ReconcileUsage(l, ws, r, usage, now);
            if o.Ok? then Booked(l, ws, ws', r, usage, now) else Declined(l, ws, ws', r, usage, now, o.error)
  {
    var (ws', o) := ReconcileUsage(l, ws, r, usage, now);
    var n: u64 := if usage.Some? && TotalForBudget(usage.value).Some?
                  then SatSub(ConservativeActual(r, TotalForBudget(usage.value).value), Reserved(r)) else 0;
    AddsExactly(r, usage, n);
    ChargeInBooks(l, ws, r.key, 0, n, now);
    StoredIsCapped(ws, r.key, now);
    hide TotalForBudget, ConservativeActual, Reserved, Charge, Adds, Waits;
  }

  lemma StoredIsCapped(ws: Windows, key: string, now: nat)
    ensures Capped(TokensAt(ws, key, now)) == TokensAt(ws, key, now)
    ensures Capped(RequestsAt(ws, key, now)) == RequestsAt(ws, key, now)
  {}
}
