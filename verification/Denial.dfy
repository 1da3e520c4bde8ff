/** Admission of best-effort denial audit writes: one fixed window shared by all principals. */
module Denial {
  import opened Text
  import opened Clock

  const MAX_DENIAL_WRITES_PER_MINUTE := 10
  const MAX_DENIAL_PRINCIPAL_BUCKETS := 10
  const DENIAL_RATE_WINDOW := MINUTE

  datatype Admission = Admitted | DroppedByRate | DroppedByCapacity

  datatype DenialState = DenialState(
    windowStarted: nat, authenticated: nat, byPrincipal: map<string, nat>, unauthenticated: nat)

  /** The configured requests per minute, clamped. */
  function DenialLimit(configured: nat): (l: nat)
    ensures 1 <= l <= MAX_DENIAL_WRITES_PER_MINUTE
  {
    if configured < 1 then 1 else if configured > MAX_DENIAL_WRITES_PER_MINUTE then MAX_DENIAL_WRITES_PER_MINUTE
        else configured
  }

  function HalfLimit(limit: nat): nat {
    if limit / 2 > 1 then limit / 2 else 1
  }

  function Bucket(s: DenialState, principal: string): nat {
    if principal in s.byPrincipal then s.byPrincipal[principal] else 0
  }

  /** The state a call at `now` is judged in; `restart` is the clock read when the window is renewed. */
  function Roll(s: DenialState, now: nat, restart: nat): DenialState {
    if Elapsed(now, s.windowStarted) >= DENIAL_RATE_WINDOW then DenialState(restart, 0, map[], 0) else s
  }

  /** One denial: unauthenticated, or with the principal identity it carries. */
  function Admit(limit: nat, s: DenialState, unauthenticated: bool, principal: Option<string>)
    : (DenialState, Admission)
  {
    if unauthenticated then
      if principal.Some? || s.unauthenticated >= HalfLimit(limit) then (s, DroppedByRate)
      else (s.(unauthenticated := s.unauthenticated + 1), Admitted)
    else if principal.None? then (s, DroppedByRate)
    else
      var p := principal.value;
      if s.authenticated >= limit || Bucket(s, p) >= HalfLimit(limit) then (s, DroppedByRate)
      else if Bucket(s, p) == 0 && |s.byPrincipal| >= MAX_DENIAL_PRINCIPAL_BUCKETS then (s, DroppedByCapacity)
      else (s.(authenticated := s.authenticated + 1, byPrincipal := s.byPrincipal[p := Bucket(s, p) + 1]), Admitted)
  }

  /** The mutex-guarded state; the limit comes from a configuration that never changes. */
  class DenialRate {
    const configured: nat
    var windowStarted: nat
    var authenticated: nat
    var byPrincipal: map<string, nat>
    var unauthenticated: nat

    function State(): DenialState reads this {
      DenialState(windowStarted, authenticated, byPrincipal, unauthenticated)
    }

    ghost predicate Valid() reads this { Accounted(DenialLimit(configured), State()) }

    constructor (configured: nat, now: nat)
      ensures Valid() && this.configured == configured && State() == DenialState(now, 0, map[], 0)
    {
      this.configured := configured;
      windowStarted, authenticated, byPrincipal, unauthenticated := now, 0, map[], 0;
    }

    method AdmitDenial(isUnauthenticated: bool, principal: Option<string>, now: nat, restart: nat)
      returns (r: Admission)
      requires Valid()
      modifies this
      ensures (State(), r) == Admit(DenialLimit(configured), Roll(old(State()), now, restart), isUnauthenticated,
          principal)
      ensures Valid() && !r.DroppedByCapacity?
    {
      AdmitKeepsAccounts(DenialLimit(configured), Roll(State(), now, restart), isUnauthenticated, principal);
      if Elapsed(now, windowStarted) >= DENIAL_RATE_WINDOW {
        windowStarted, authenticated, byPrincipal, unauthenticated := restart, 0, map[], 0;
      }
      var limit := DenialLimit(configured);
      if isUnauthenticated {
        if principal.Some? { return DroppedByRate; }
        if unauthenticated >= HalfLimit(limit) { return DroppedByRate; }
        unauthenticated := unauthenticated + 1;
        return Admitted;
      }
      if principal.None? { return DroppedByRate; }
      var admitted := Bucket(State(), principal.value);
      if authenticated >= limit || admitted >= HalfLimit(limit) { return DroppedByRate; }
      if admitted == 0 && |byPrincipal| >= MAX_DENIAL_PRINCIPAL_BUCKETS { return DroppedByCapacity; }
      authenticated := authenticated + 1;
      byPrincipal := byPrincipal[principal.value := admitted + 1];
      return Admitted;
    }
  }

  // ---- Accounting ----

  /** The sum of all buckets. */
  ghost function Total(m: map<string, nat>): nat
    decreases |m|
  {
    if m == map[] then 0
    else
      assert |m| > 0 && m.Keys != {} by { assert |m.Keys| == |m|; }
      var k :| k in m;
      assert |(m - {k}).Keys| < |m.Keys| by { assert (m - {k}).Keys == m.Keys - {k}; }
      m[k] + Total(m - {k})
  }

  lemma {:induction false} TotalSplits(m: map<string, nat>, x: string)
    requires x in m
    ensures Total(m) == m[x] + Total(m - {x})
    decreases |m|
  {
    var k :| k in m && Total(m) == m[k] + Total(m - {k});
    if k != x {
      assert |(m - {k}).Keys| < |m.Keys| && |(m - {x}).Keys| < |m.Keys| by {
        assert (m - {k}).Keys == m.Keys - {k} && (m - {x}).Keys == m.Keys - {x};
      }
      TotalSplits(m - {k}, x);
      TotalSplits(m - {x}, k);
      assert (m - {k}) - {x} == (m - {x}) - {k};
    }
  }

  lemma TotalAfterUpdate(m: map<string, nat>, x: string, n: nat)
    ensures Total(m[x := n]) == Total(m) - (if x in m then m[x] else 0) + n
  {
    var m' := m[x := n];
    TotalSplits(m', x);
    if x in m {
      TotalSplits(m, x);
      assert m' - {x} == m - {x};
    } else {
      assert m' - {x} == m;
    }
  }

  /** Buckets of at least one each: there are no more buckets than admissions. */
  lemma {:induction false} BucketsWithinTotal(m: map<string, nat>)
    requires forall k :: k in m ==> m[k] >= 1
    ensures |m| <= Total(m)
    decreases |m|
  {
    if m != map[] {
      assert m.Keys != {};
      var k :| k in m;
      TotalSplits(m, k);
      assert (m - {k}).Keys == m.Keys - {k};
      BucketsWithinTotal(m - {k});
    }
  }

  /** The books of every reachable state. */
  ghost predicate Accounted(limit: nat, s: DenialState) {
    && s.authenticated == Total(s.byPrincipal) <= limit
    && (forall p :: p in s.byPrincipal ==> 1 <= s.byPrincipal[p] <= HalfLimit(limit))
    && s.unauthenticated <= HalfLimit(limit)
  }

  /** Every admission keeps the books, and the bucket-capacity drop can never happen. */
  lemma AdmitKeepsAccounts(limit: nat, s: DenialState, unauthenticated: bool, principal: Option<string>)
    requires 1 <= limit <= MAX_DENIAL_WRITES_PER_MINUTE && Accounted(limit, s)
    ensures Accounted(limit, Admit(limit, s, unauthenticated, principal).0)
    ensures !Admit(limit, s, unauthenticated, principal).1.DroppedByCapacity?
  {
    BucketsWithinTotal(s.byPrincipal);
    if principal.Some? { TotalAfterUpdate(s.byPrincipal, principal.value, Bucket(s, principal.value) + 1); }
  }

  // ---- Runs ----

  datatype Call = Call(unauthenticated: bool, principal: Option<string>, now: nat, restart: nat)

  function Step(limit: nat, s: DenialState, c: Call): (DenialState, Admission) {
    Admit(limit, Roll(s, c.now, c.restart), c.unauthenticated, c.principal)
  }

  function After(limit: nat, s: DenialState, calls: seq<Call>): DenialState
    decreases |calls|
  {
    if calls == [] then s else After(limit, Step(limit, s, calls[0]).0, calls[1..])
  }

  /** In every state any calls can reach, the books balance; the next call never meets the capacity drop. */
  lemma {:induction false} ReachableIsAccounted(configured: nat, s: DenialState, calls: seq<Call>, next: Call)
    requires Accounted(DenialLimit(configured), s)
    ensures Accounted(DenialLimit(configured), After(DenialLimit(configured), s, calls))
    ensures !Step(DenialLimit(configured), After(DenialLimit(configured), s, calls), next).1.DroppedByCapacity?
    decreases |calls|
  {
    var limit := DenialLimit(configured);
    if calls == [] {
      AdmitKeepsAccounts(limit, Roll(s, next.now, next.restart), next.unauthenticated, next.principal);
    } else {
      var c := calls[0];
      AdmitKeepsAccounts(limit, Roll(s, c.now, c.restart), c.unauthenticated, c.principal);
      ReachableIsAccounted(configured, Step(limit, s, c).0, calls[1..], next);
    }
  }

  /** From limit 2 up, one principal can never take the whole window: another one is still admitted. */
  lemma OnePrincipalCannotStarveOthers(configured: nat, s: DenialState, greedy: string, other: string, now: nat,
      restart: nat)
    requires DenialLimit(configured) >= 2 && Accounted(DenialLimit(configured), s)
    requires greedy != other && s.byPrincipal.Keys <= {greedy}
    ensures Step(DenialLimit(configured), s, Call(false, Some(other), now, restart)).1 == Admitted
  {
    var m := s.byPrincipal;
    if m != map[] {
      assert m.Keys != {};
      assert greedy in m && m.Keys == {greedy};
      TotalSplits(m, greedy);
      assert m - {greedy} == map[];
    }
  }

  /** What the clock guarantees of a call: the renewal reads it after the first look, and time never runs back. */
  predicate Monotone(from: nat, calls: seq<Call>)
    decreases |calls|
  {
    calls != [] ==> from <= calls[0].now <= calls[0].restart && Monotone(calls[0].restart, calls[1..])
  }

  /** Denials admitted by calls at times in [a, a + window). */
  function AdmittedIn(limit: nat, s: DenialState, calls: seq<Call>, a: nat): nat
    decreases |calls|
  {
    if calls == [] then 0
    else
      (if Step(limit, s, calls[0]).1.Admitted? && a <= calls[0].now < a + DENIAL_RATE_WINDOW then 1 else 0)
      + AdmittedIn(limit, Step(limit, s, calls[0]).0, calls[1..], a)
  }

  function Quota(limit: nat): nat { limit + HalfLimit(limit) }

  /** What the interval can still admit: this window's rest, and a whole next window if this one ends inside. */
  function Allowance(limit: nat, s: DenialState, a: nat): int {
    if s.windowStarted + DENIAL_RATE_WINDOW <= a then 2 * Quota(limit)
    else (if s.windowStarted < a then 2 else 1) * Quota(limit) - s.authenticated - s.unauthenticated
  }

  /** Admissions use the window up one by one; a new window starts only after the old one. */
  lemma StepUsesAllowance(limit: nat, s: DenialState, c: Call, a: nat)
    requires 1 <= limit <= MAX_DENIAL_WRITES_PER_MINUTE && Accounted(limit, s)
    requires s.windowStarted <= c.now <= c.restart
    ensures Allowance(limit, s, a) >= 0
    ensures var (s1, r) := Step(limit, s, c);
      && Accounted(limit, s1) && s1.windowStarted <= c.restart
      && (c.now < a + DENIAL_RATE_WINDOW ==>
            (if r.Admitted? && a <= c.now then 1 else 0) + Allowance(limit, s1, a) <= Allowance(limit, s, a))
  {
    AdmitKeepsAccounts(limit, Roll(s, c.now, c.restart), c.unauthenticated, c.principal);
    hide Total, HalfLimit;
  }

  lemma {:induction false} AdmittedWithinAllowance(limit: nat, s: DenialState, calls: seq<Call>, a: nat, now: nat)
    requires 1 <= limit <= MAX_DENIAL_WRITES_PER_MINUTE && Accounted(limit, s)
    requires Monotone(now, calls) && s.windowStarted <= now
    ensures AdmittedIn(limit, s, calls, a) <= Allowance(limit, s, a)
    decreases |calls|
  {
    hide Accounted, Allowance, Step;
    if calls == [] {
      NothingUsed(limit, s, a);
    } else {
      var c := calls[0];
      StepUsesAllowance(limit, s, c, a);
      AdmittedWithinAllowance(limit, Step(limit, s, c).0, calls[1..], a, c.restart);
      if c.now >= a + DENIAL_RATE_WINDOW { NothingAfter(limit, s, calls, a); }
    }
  }

  lemma NothingUsed(limit: nat, s: DenialState, a: nat)
    requires Accounted(limit, s)
    ensures Allowance(limit, s, a) >= 0
  {
    hide Total, HalfLimit;
  }

  lemma {:induction false} NothingAfter(limit: nat, s: DenialState, calls: seq<Call>, a: nat)
    requires Monotone(a + DENIAL_RATE_WINDOW, calls)
    ensures AdmittedIn(limit, s, calls, a) == 0
    decreases |calls|
  {
    if calls != [] {
      Later(a + DENIAL_RATE_WINDOW, calls[0].restart, calls[1..]);
      NothingAfter(limit, Step(limit, s, calls[0]).0, calls[1..], a);
    }
  }

  lemma Later(from: nat, now: nat, calls: seq<Call>)
    requires from <= now && Monotone(now, calls)
    ensures Monotone(from, calls)
  {}

  // ---- What a denial is entitled to ----

  /** The admissions on record for a principal. */
  function RecordedFor(s: DenialState, principal: string): nat {
    if principal in s.byPrincipal then s.byPrincipal[principal] else 0
  }

  /**
   * A denial is recorded exactly if its class has quota left: an anonymous one without an identity, up to half the
   * limit; an identified one, up to the limit for all and half of it for each principal. A minute after the window
   * began, all counts start from zero. What is recorded counts once, for its own class and principal; what is not,
   * counts nowhere.
   */
  lemma DenialIsRecordedExactly(configured: nat, s: DenialState, c: Call)
    requires Accounted(DenialLimit(configured), s)
    ensures var limit := if configured < 1 then 1 else if configured > 10 then 10 else configured;
            var half := if limit / 2 < 1 then 1 else limit / 2;
            var anew := c.now >= s.windowStarted + 60_000_000_000;
            var (all, anonymous) := if anew then (0, 0) else (s.authenticated, s.unauthenticated);
            var mine := if anew || c.principal.None? then 0 else RecordedFor(s, c.principal.value);
            var (s', r) := Step(DenialLimit(configured), s, c);
            && (r.Admitted? <==> if c.unauthenticated then c.principal.None? && anonymous < half
                                 else c.principal.Some? && all < limit && mine < half)
            && s'.windowStarted == (if anew then c.restart else s.windowStarted)
            && s'.unauthenticated == anonymous + (if r.Admitted? && c.unauthenticated then 1 else 0)
            && s'.authenticated == all + (if r.Admitted? && !c.unauthenticated then 1 else 0)
            && forall p :: RecordedFor(s', p) ==
                 (if anew then 0 else RecordedFor(s, p))
                 + if r.Admitted? && !c.unauthenticated && c.principal == Some(p) then 1 else 0
  {
    var limit := DenialLimit(configured);
    var rolled := Roll(s, c.now, c.restart);
    AdmitKeepsAccounts(limit, rolled, c.unauthenticated, c.principal);
    hide Total;
  }
}
