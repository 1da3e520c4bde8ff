/** The fixed-window request limiter of the HTTP boundary, with its lazy cleanup. */
module RateLimiter {
  import opened Basics
  import opened Text
  import opened Clock

  datatype RateWindow = RateWindow(startedAt: nat, requests: u64)

  datatype RateState = RateState(windows: map<string, RateWindow>, lastCleanup: nat)

  /** Ok, or the Retry-After seconds of a rejection. */
  type Outcome = Result<(), nat>

  /** The limiter's two settings; a window lasts some positive time. */
  datatype Limit = Limit(max: u64, window: nat)

  // ---- One key, never cleaned: the plain fixed-window counter ----

  /** The window a call at `now` counts in. */
  function Enter(l: Limit, w: Option<RateWindow>, now: nat): RateWindow {
    if w.None? || Elapsed(now, w.value.startedAt) >= l.window then RateWindow(now, 0) else w.value
  }

  function Decide(l: Limit, e: RateWindow, now: nat): (RateWindow, Outcome) {
    if e.requests >= l.max then (e, Err(CeilSeconds(SatSub(l.window, Elapsed(now, e.startedAt)))))
    else (e.(requests := SatAdd(e.requests, 1)), Ok(()))
  }

  function CounterStep(l: Limit, w: Option<RateWindow>, now: nat): (RateWindow, Outcome) {
    Decide(l, Enter(l, w, now), now)
  }

  function Counter(l: Limit, w: Option<RateWindow>, times: seq<nat>): seq<Outcome>
    decreases |times|
  {
    if times == [] then []
    else
      var (w', o) := CounterStep(l, w, times[0]);
      [o] + Counter(l, Some(w'), times[1..])
  }

  // ---- The limiter, all keys, with cleanup ----

  function Cleanup(l: Limit, s: RateState, now: nat): RateState {
    if now >= s.lastCleanup && now - s.lastCleanup >= l.window then
      var windows := map k
        | k in s.windows && now >= s.windows[k].startedAt && now - s.windows[k].startedAt < l.window :: s.windows[k];
      RateState(windows, now)
    else s
  }

  function Lookup(s: RateState, key: string): Option<RateWindow> {
    if key in s.windows then Some(s.windows[key]) else None
  }

  function Check(l: Limit, s: RateState, key: string, now: nat): (RateState, Outcome) {
    var c := Cleanup(l, s, now);
    var (w, o) := CounterStep(l, Lookup(c, key), now);
    (c.(windows := c.windows[key := w]), o)
  }

  class FixedWindowRateLimiter {
    const limit: Limit
    var windows: map<string, RateWindow>
    var lastCleanup: nat

    function State(): RateState reads this { RateState(windows, lastCleanup) }

    constructor (limit: Limit, now: nat)
      ensures this.limit == limit && State() == RateState(map[], now)
    {
      this.limit := limit;
      windows, lastCleanup := map[], now;
    }

    /** `now` was read before the lock was taken, so calls can arrive with out-of-order times. */
    method CheckAt(key: string, now: nat) returns (r: Outcome)
      modifies this
      ensures (State(), r) == Check(limit, old(State()), key, now)
    {
      if now >= lastCleanup && now - lastCleanup >= limit.window {
        windows := map k
          | k in windows && now >= windows[k].startedAt && now - windows[k].startedAt < limit.window :: windows[k];
        lastCleanup := now;
      }
      ghost var cleaned := windows;
      if key !in windows { windows := windows[key := RateWindow(now, 0)]; }
      var entry := windows[key];
      if Elapsed(now, entry.startedAt) >= limit.window {
        entry := RateWindow(now, 0);
        windows := windows[key := entry];
      }
      assert windows == cleaned[key := entry];
      if entry.requests >= limit.max {
        return Err(CeilSeconds(SatSub(limit.window, Elapsed(now, entry.startedAt))));
      }
      entry := entry.(requests := SatAdd(entry.requests, 1));
      windows := windows[key := entry];
      assert windows == cleaned[key := entry];
      return Ok(());
    }
  }

  // ---- Runs ----

  datatype Call = Call(key: string, now: nat)

  function Run(l: Limit, s: RateState, calls: seq<Call>): (RateState, seq<Outcome>)
    decreases |calls|
  {
    if calls == [] then (s, [])
    else
      var (s1, o) := Check(l, s, calls[0].key, calls[0].now);
      var (s2, more) := Run(l, s1, calls[1..]);
      (s2, [o] + more)
  }

  /** No call is older than the latest cleanup before it. Every run with nondecreasing times is timely. */
  predicate Timely(l: Limit, s: RateState, calls: seq<Call>)
    decreases |calls|
  {
    calls != [] ==>
      calls[0].now >= s.lastCleanup && Timely(l, Check(l, s, calls[0].key, calls[0].now).0, calls[1..])
  }

  predicate Nondecreasing(from: nat, calls: seq<Call>)
    decreases |calls|
  {
    calls != [] ==> from <= calls[0].now && Nondecreasing(calls[0].now, calls[1..])
  }

  lemma {:induction false} NondecreasingIsTimely(l: Limit, s: RateState, from: nat, calls: seq<Call>)
    requires Nondecreasing(from, calls) && s.lastCleanup <= from
    ensures Timely(l, s, calls)
    decreases |calls|
  {
    if calls != [] {
      NondecreasingIsTimely(l, Check(l, s, calls[0].key, calls[0].now).0, calls[0].now, calls[1..]);
    }
  }

  function TimesOf(calls: seq<Call>, key: string): seq<nat> {
    if calls == [] then []
    else (if calls[0].key == key then [calls[0].now] else []) + TimesOf(calls[1..], key)
  }

  function OutcomesOf(l: Limit, s: RateState, calls: seq<Call>, key: string): seq<Outcome>
    decreases |calls|
  {
    if calls == [] then []
    else
      var (s1, o) := Check(l, s, calls[0].key, calls[0].now);
      (if calls[0].key == key then [o] else []) + OutcomesOf(l, s1, calls[1..], key)
  }

  /** The limiter's entry for a key stands for a counter: it is the counter's window, or that one has expired. */
  predicate StandsFor(l: Limit, s: RateState, key: string, w: Option<RateWindow>) {
    || Lookup(s, key) == w
    || (Lookup(s, key).None? && w.Some? && w.value.startedAt + l.window <= s.lastCleanup)
  }

  /** Every window started before the next cleanup is due. */
  predicate StartsBounded(l: Limit, s: RateState) {
    forall k :: k in s.windows ==> s.windows[k].startedAt < s.lastCleanup + l.window
  }

  lemma CheckKeepsStartsBounded(l: Limit, s: RateState, key: string, now: nat)
    requires l.window > 0 && StartsBounded(l, s)
    ensures StartsBounded(l, Check(l, s, key, now).0)
  {}

  lemma {:induction false} RunKeepsStartsBounded(l: Limit, s: RateState, calls: seq<Call>)
    requires l.window > 0 && StartsBounded(l, s)
    ensures StartsBounded(l, Run(l, s, calls).0)
    decreases |calls|
  {
    if calls != [] {
      CheckKeepsStartsBounded(l, s, calls[0].key, calls[0].now);
      RunKeepsStartsBounded(l, Check(l, s, calls[0].key, calls[0].now).0, calls[1..]);
    }
  }

  /** In whatever order call times reach the lock, cleanup drops the expired windows and nothing else. */
  lemma CleanupDropsExactlyExpired(l: Limit, start: nat, calls: seq<Call>, now: nat, key: string)
    requires l.window > 0
    ensures var s := Run(l, RateState(map[], start), calls).0;
            var c := Cleanup(l, s, now);
            c != s && key in s.windows ==>
              (key in c.windows <==> now < s.windows[key].startedAt + l.window)
  {
    RunKeepsStartsBounded(l, RateState(map[], start), calls);
  }

  lemma CheckKeepsStandsFor(l: Limit, s: RateState, c: Call, key: string, w: Option<RateWindow>)
    requires l.window > 0 && StartsBounded(l, s) && StandsFor(l, s, key, w) && c.now >= s.lastCleanup
    ensures var (s1, o) := Check(l, s, c.key, c.now);
            if c.key == key
            then o == CounterStep(l, w, c.now).1 && StandsFor(l, s1, key, Some(CounterStep(l, w, c.now).0))
            else StandsFor(l, s1, key, w)
  {
    var cleaned := Cleanup(l, s, c.now);
    assert StandsFor(l, cleaned, key, w);
    assert Enter(l, Lookup(cleaned, key), c.now) == Enter(l, w, c.now);
  }

  /**
   * Cleanup is invisible: for each key the limiter decides exactly as a counter fed only that key's
   * calls and never cleaned, Retry-After included.
   */
  lemma {:induction false} SameAsNeverCleaned(l: Limit, s: RateState, calls: seq<Call>, key: string,
      w: Option<RateWindow>)
    requires l.window > 0 && StartsBounded(l, s) && StandsFor(l, s, key, w) && Timely(l, s, calls)
    ensures OutcomesOf(l, s, calls, key) == Counter(l, w, TimesOf(calls, key))
    decreases |calls|
  {
    if calls != [] {
      var c := calls[0];
      var s1 := Check(l, s, c.key, c.now).0;
      CheckKeepsStartsBounded(l, s, c.key, c.now);
      CheckKeepsStandsFor(l, s, c, key, w);
      if c.key == key {
        var w1 := CounterStep(l, w, c.now).0;
        SameAsNeverCleaned(l, s1, calls[1..], key, Some(w1));
        assert TimesOf(calls, key)[1..] == TimesOf(calls[1..], key);
      } else {
        SameAsNeverCleaned(l, s1, calls[1..], key, w);
        assert TimesOf(calls, key) == TimesOf(calls[1..], key);
      }
    }
  }

  /** The never-cleaned counter's window after some calls. */
  function CounterAfter(l: Limit, w: Option<RateWindow>, times: seq<nat>): Option<RateWindow>
    decreases |times|
  {
    if times == [] then w else CounterAfter(l, Some(CounterStep(l, w, times[0]).0), times[1..])
  }

  /** After a timely run the limiter still stands for every key's counter. */
  lemma {:induction false} TimelyRunStandsFor(
    l: Limit, s: RateState, calls: seq<Call>, key: string, w: Option<RateWindow>)
    requires l.window > 0 && StartsBounded(l, s) && StandsFor(l, s, key, w) && Timely(l, s, calls)
    ensures var s' := Run(l, s, calls).0;
            StartsBounded(l, s') && StandsFor(l, s', key, CounterAfter(l, w, TimesOf(calls, key)))
    decreases |calls|
  {
    hide Check, CounterStep, StandsFor, StartsBounded;
    if calls != [] {
      var c := calls[0];
      var s1 := Check(l, s, c.key, c.now).0;
      CheckKeepsStartsBounded(l, s, c.key, c.now);
      CheckKeepsStandsFor(l, s, c, key, w);
      if c.key == key {
        TimelyRunStandsFor(l, s1, calls[1..], key, Some(CounterStep(l, w, c.now).0));
        assert TimesOf(calls, key)[1..] == TimesOf(calls[1..], key);
      } else {
        TimelyRunStandsFor(l, s1, calls[1..], key, w);
        assert TimesOf(calls, key) == TimesOf(calls[1..], key);
      }
    }
  }

  /** A live window, exhausted, that cleanup has already dropped: `w` is what a counter would remember. */
  predicate Forgotten(l: Limit, s: RateState, key: string, w: Option<RateWindow>, now: nat) {
    key !in s.windows && w.Some? && now < w.value.startedAt + l.window && w.value.requests >= l.max
  }

  lemma OneCallExactly(l: Limit, s: RateState, key: string, w: Option<RateWindow>, now: nat)
    requires l.window > 0 && StartsBounded(l, s) && StandsFor(l, s, key, w)
    ensures var (limiter, counter) := (Check(l, s, key, now).1, CounterStep(l, w, now).1);
            && (l.max > 0 ==> (limiter == counter <==> !Forgotten(l, s, key, w, now)))
            && (l.max > 0 && Forgotten(l, s, key, w, now) ==> now < s.lastCleanup && limiter.Ok? && counter.Err?)
            && (l.max == 0 ==> limiter.Err? && counter.Err?)
  {}

  /**
   * The call after a timely run, at whatever time: limiter and never-cleaned counter answer alike, Retry-After
   * included, unless an exhausted window that is still live for this call was cleaned away. Then, and only then, the
   * call is older than that cleanup and the limiter admits what the counter refuses.
   */
  lemma NextCallExactly(l: Limit, start: nat, calls: seq<Call>, key: string, now: nat)
    requires l.window > 0 && Timely(l, RateState(map[], start), calls)
    ensures var s := Run(l, RateState(map[], start), calls).0;
            var w := CounterAfter(l, None, TimesOf(calls, key));
            var (limiter, counter) := (Check(l, s, key, now).1, CounterStep(l, w, now).1);
            && (l.max > 0 ==> (limiter == counter <==> !Forgotten(l, s, key, w, now)))
            && (l.max > 0 && Forgotten(l, s, key, w, now) ==> now < s.lastCleanup && limiter.Ok? && counter.Err?)
            && (l.max == 0 ==> limiter.Err? && counter.Err?)
  {
    hide Run, Check, CounterStep, TimesOf, Timely;
    TimelyRunStandsFor(l, RateState(map[], start), calls, key, None);
    OneCallExactly(l, Run(l, RateState(map[], start), calls).0, key, CounterAfter(l, None, TimesOf(calls, key)), now);
  }

  /** A call older than the latest cleanup can find its live window gone: the two then differ. */
  lemma LateCallDiffers()
    ensures var l := Limit(1, MINUTE);
            var calls := [Call("a", 0), Call("b", MINUTE), Call("a", MINUTE / 2)];
            && !Timely(l, RateState(map[], 0), calls)
            && OutcomesOf(l, RateState(map[], 0), calls, "a") == [Ok(()), Ok(())]
            && Counter(l, None, TimesOf(calls, "a")) == [Ok(()), Err(30)]
  {
    hide Check;
    var l, half := Limit(1, MINUTE), MINUTE / 2;
    var calls := [Call("a", 0), Call("b", MINUTE), Call("a", half)];
    var s0 := RateState(map[], 0);
    var s1 := RateState(map["a" := RateWindow(0, 1)], 0);
    var s2 := RateState(map["b" := RateWindow(MINUTE, 1)], MINUTE);
    LateChecks(l, s0, s1, s2);
    var late := [calls[2]];
    assert calls[1..] == [calls[1]] + late && (calls[1..])[1..] == late && late[1..] == [];
    assert TimesOf(late, "a") == [half] && TimesOf(calls[1..], "a") == [half];
    assert OutcomesOf(l, s2, [], "a") == [];
    assert OutcomesOf(l, s2, late, "a") == [Ok(())] + [];
    assert OutcomesOf(l, s1, calls[1..], "a") == [] + OutcomesOf(l, s2, late, "a");
    assert !Timely(l, s2, late) && !Timely(l, s1, calls[1..]);
    assert [0, half][1..] == [half] && [half][1..] == [];
    assert Counter(l, Some(RateWindow(0, 1)), [half]) == [Err(30)];
  }

  lemma LateChecks(l: Limit, s0: RateState, s1: RateState, s2: RateState)
    requires l == Limit(1, MINUTE) && s0 == RateState(map[], 0) && s1 == RateState(map["a" := RateWindow(0, 1)], 0)
    requires s2 == RateState(map["b" := RateWindow(MINUTE, 1)], MINUTE)
    ensures Check(l, s0, "a", 0) == (s1, Ok(())) && Check(l, s1, "b", MINUTE) == (s2, Ok(()))
    ensures Check(l, s2, "a", MINUTE / 2).1 == Ok(())
  {
    assert Cleanup(l, s1, MINUTE) == RateState(map[], MINUTE);
  }

  // ---- How much a key gets through ----

  /** Calls admitted at times in the half-open interval [a, a + window). */
  function Admitted(times: seq<nat>, outcomes: seq<Outcome>, a: nat, window: nat): nat
    requires |times| == |outcomes|
  {
    if times == [] then 0
    else
      (if outcomes[0].Ok? && a <= times[0] < a + window then 1 else 0) + Admitted(times[1..], outcomes[1..], a, window)
  }

  lemma {:induction false} CounterLength(l: Limit, w: Option<RateWindow>, times: seq<nat>)
    ensures |Counter(l, w, times)| == |times|
    decreases |times|
  {
    if times != [] { CounterLength(l, Some(CounterStep(l, w, times[0]).0), times[1..]); }
  }

  predicate Sorted(times: seq<nat>) {
    forall i, j :: 0 <= i < j < |times| ==> times[i] <= times[j]
  }

  /** What can still be admitted inside the interval, given the window reached so far. */
  function Allowance(l: Limit, w: Option<RateWindow>, a: nat): int {
    if w.None? || w.value.startedAt + l.window <= a then 2 * l.max
    else if w.value.startedAt < a then 2 * l.max - w.value.requests
    else l.max - w.value.requests
  }

  lemma {:induction false} AdmittedWithinAllowance(l: Limit, w: Option<RateWindow>, times: seq<nat>, a: nat)
    requires l.window > 0 && Sorted(times)
    requires w.Some? ==> w.value.requests <= l.max && (times != [] ==> w.value.startedAt <= times[0])
    ensures |Counter(l, w, times)| == |times|
    ensures Admitted(times, Counter(l, w, times), a, l.window) <= Allowance(l, w, a)
    decreases |times|
  {
    CounterLength(l, w, times);
    if times != [] {
      var (w1, o) := CounterStep(l, w, times[0]);
      assert Counter(l, w, times)[1..] == Counter(l, Some(w1), times[1..]);
      AdmittedWithinAllowance(l, Some(w1), times[1..], a);
      if times[0] >= a + l.window { NothingAfter(times, Counter(l, w, times), a, l.window); }
    }
  }

  lemma {:induction false} NothingAfter(times: seq<nat>, outcomes: seq<Outcome>, a: nat, window: nat)
    requires |times| == |outcomes| && Sorted(times) && (times != [] ==> times[0] >= a + window)
    ensures Admitted(times, outcomes, a, window) == 0
    decreases |times|
  {
    if times != [] { NothingAfter(times[1..], outcomes[1..], a, window); }
  }

  lemma {:induction false} TimesSorted(from: nat, calls: seq<Call>, key: string)
    requires Nondecreasing(from, calls)
    ensures Sorted(TimesOf(calls, key)) && forall t :: t in TimesOf(calls, key) ==> from <= t
    decreases |calls|
  {
    if calls != [] {
      TimesSorted(calls[0].now, calls[1..], key);
      var rest := TimesOf(calls[1..], key);
      assert forall i :: 0 <= i < |rest| ==> rest[i] in rest;
    }
  }

  /**
   * On every run with nondecreasing times a key gets at most twice the limit through in any
   * half-open interval of one window length.
   */
  lemma AtMostTwiceTheLimit(l: Limit, start: nat, calls: seq<Call>, key: string, a: nat)
    requires l.window > 0 && Nondecreasing(start, calls)
    ensures |OutcomesOf(l, RateState(map[], start), calls, key)| == |TimesOf(calls, key)|
    ensures Admitted(TimesOf(calls, key), OutcomesOf(l, RateState(map[], start), calls, key), a, l.window) <= 2 * l.max
  {
    var s := RateState(map[], start);
    NondecreasingIsTimely(l, s, start, calls);
    SameAsNeverCleaned(l, s, calls, key, None);
    TimesSorted(start, calls, key);
    AdmittedWithinAllowance(l, None, TimesOf(calls, key), a);
  }

  // ---- Retry-After ----

  /** After a rejection the key waits out its window: earlier calls fail, and the promised second admits. */
  lemma RetryAfterIsExact(l: Limit, w: Option<RateWindow>, now: nat, later: nat)
    requires l.window > 0 && (w.Some? ==> w.value.startedAt <= now)
    requires CounterStep(l, w, now).1.Err? && now <= later
    ensures var (w1, o) := CounterStep(l, w, now);
            var next := CounterStep(l, Some(w1), later).1;
            && (later <= now + (o.error - 1) * SECOND ==> next.Err?)
            && (later >= now + o.error * SECOND ==> (next.Ok? <==> l.max > 0))
  {}

  /** The same on the whole limiter: whatever other keys do in between. */
  lemma RetryAfterOnLimiter(l: Limit, s: RateState, c: Call, others: seq<Call>, later: nat)
    requires l.window > 0 && StartsBounded(l, s) && s.lastCleanup <= c.now
    requires Lookup(s, c.key).Some? ==> Lookup(s, c.key).value.startedAt <= c.now
    requires Check(l, s, c.key, c.now).1.Err?
    requires Nondecreasing(c.now, others + [Call(c.key, later)]) && TimesOf(others, c.key) == []
    ensures var (s1, o) := Check(l, s, c.key, c.now);
            var next := OutcomesOf(l, s1, others + [Call(c.key, later)], c.key);
            && |next| == 1
            && (later <= c.now + (o.error - 1) * SECOND ==> next[0].Err?)
            && (later >= c.now + o.error * SECOND ==> (next[0].Ok? <==> l.max > 0))
  {
    var s1 := Check(l, s, c.key, c.now).0;
    var w := Lookup(s, c.key);
    var calls := others + [Call(c.key, later)];
    CheckKeepsStartsBounded(l, s, c.key, c.now);
    CheckKeepsStandsFor(l, s, c, c.key, w);
    var w1 := CounterStep(l, w, c.now).0;
    NondecreasingIsTimely(l, s1, c.now, calls);
    SameAsNeverCleaned(l, s1, calls, c.key, Some(w1));
    TimesOfSnoc(others, Call(c.key, later), c.key);
    LastIsLater(c.now, calls);
    RetryAfterIsExact(l, w, c.now, later);
    assert [later][1..] == [];
  }

  /** Nothing in the state is newer than t. */
  predicate NotAfter(s: RateState, t: nat) {
    s.lastCleanup <= t && forall k :: k in s.windows ==> s.windows[k].startedAt <= t
  }

  lemma CheckKeepsNotAfter(l: Limit, s: RateState, key: string, now: nat)
    requires NotAfter(s, now)
    ensures NotAfter(Check(l, s, key, now).0, now)
  {}

  /** Nondecreasing runs only reach states that are no newer than the call to come. */
  lemma {:induction false} RunKeepsNotAfter(l: Limit, s: RateState, calls: seq<Call>, from: nat, c: Call)
    requires NotAfter(s, from) && Nondecreasing(from, calls + [c])
    ensures NotAfter(Run(l, s, calls).0, c.now)
    decreases |calls|
  {
    hide Check;
    if calls == [] {
      assert (calls + [c])[0] == c;
    } else {
      assert (calls + [c])[0] == calls[0] && (calls + [c])[1..] == calls[1..] + [c];
      CheckKeepsNotAfter(l, s, calls[0].key, calls[0].now);
      RunKeepsNotAfter(l, Check(l, s, calls[0].key, calls[0].now).0, calls[1..], calls[0].now, c);
    }
  }

  lemma {:induction false} NondecreasingSplits(from: nat, a: seq<Call>, c: Call, b: seq<Call>)
    requires Nondecreasing(from, a + [c] + b)
    ensures Nondecreasing(from, a + [c]) && Nondecreasing(c.now, b)
    decreases |a|
  {
    var all := a + [c] + b;
    if a == [] {
      assert all[0] == c && all[1..] == b && (a + [c])[0] == c && (a + [c])[1..] == [];
    } else {
      assert all[0] == a[0] && all[1..] == a[1..] + [c] + b;
      assert (a + [c])[0] == a[0] && (a + [c])[1..] == a[1..] + [c];
      NondecreasingSplits(a[0].now, a[1..], c, b);
    }
  }

  /**
   * From the start, on every run with nondecreasing times: a refused key that waits is refused again up to one second
   * before its Retry-After, and admitted from then on exactly if the limit is positive.
   */
  lemma RetryAfterOnRuns(l: Limit, start: nat, before: seq<Call>, c: Call, others: seq<Call>, later: nat)
    requires l.window > 0 && Nondecreasing(start, before + [c] + (others + [Call(c.key, later)]))
    requires TimesOf(others, c.key) == []
    requires Check(l, Run(l, RateState(map[], start), before).0, c.key, c.now).1.Err?
    ensures var (s1, o) := Check(l, Run(l, RateState(map[], start), before).0, c.key, c.now);
            var next := OutcomesOf(l, s1, others + [Call(c.key, later)], c.key);
            && |next| == 1
            && (later <= c.now + (o.error - 1) * SECOND ==> next[0].Err?)
            && (later >= c.now + o.error * SECOND ==> (next[0].Ok? <==> l.max > 0))
  {
    hide Check, OutcomesOf, Run, TimesOf, Nondecreasing;
    NondecreasingSplits(start, before, c, others + [Call(c.key, later)]);
    RunKeepsNotAfter(l, RateState(map[], start), before, start, c);
    RunKeepsStartsBounded(l, RateState(map[], start), before);
    RetryAfterOnLimiter(l, Run(l, RateState(map[], start), before).0, c, others, later);
  }

  lemma NoTimes(key: string)
    ensures TimesOf([], key) == []
  {}

  lemma TimesOfHead(calls: seq<Call>, key: string)
    requires calls != []
    ensures TimesOf(calls, key) == (if calls[0].key == key then [calls[0].now] else []) + TimesOf(calls[1..], key)
  {}

  lemma {:induction false} TimesOfSnoc(calls: seq<Call>, c: Call, key: string)
    ensures TimesOf(calls + [c], key) == TimesOf(calls, key) + TimesOf([c], key)
  {
    hide TimesOf;
    if calls == [] {
      assert calls + [c] == [c] && TimesOf(calls, key) == [] by { NoTimes(key); }
    } else {
      var all := calls + [c];
      assert all[0] == calls[0] && all[1..] == calls[1..] + [c];
      TimesOfHead(all, key);
      TimesOfHead(calls, key);
      TimesOfSnoc(calls[1..], c, key);
    }
  }

  lemma {:induction false} LastIsLater(from: nat, calls: seq<Call>)
    requires Nondecreasing(from, calls) && calls != []
    ensures from <= calls[|calls| - 1].now
    decreases |calls|
  {
    if |calls| > 1 { LastIsLater(calls[0].now, calls[1..]); }
  }

  // ---- What a key is entitled to ----

  predicate AllBefore(times: seq<nat>, end: nat) { forall i :: 0 <= i < |times| ==> times[i] < end }

  /** The first calls get through up to the limit, the others do not. */
  predicate FirstsAdmitted(outcomes: seq<Outcome>, max: nat) {
    forall i :: 0 <= i < |outcomes| ==> (outcomes[i].Ok? <==> i < max)
  }

  /** Inside a live window calls are admitted exactly until `max` have been. */
  lemma {:induction false} LiveWindowAdmits(l: Limit, w: RateWindow, times: seq<nat>)
    requires l.window > 0 && w.requests <= l.max && AllBefore(times, w.startedAt + l.window)
    ensures var outcomes := Counter(l, Some(w), times);
            |outcomes| == |times| && FirstsAdmitted(outcomes, l.max - w.requests)
    decreases |times|
  {
    if times != [] {
      var (w1, o) := CounterStep(l, Some(w), times[0]);
      assert o.Ok? <==> w.requests < l.max;
      LiveWindowAdmits(l, w1, times[1..]);
      var outcomes, rest := Counter(l, Some(w), times), Counter(l, Some(w1), times[1..]);
      assert forall i :: 1 <= i < |outcomes| ==> outcomes[i] == rest[i - 1];
    }
  }

  /** A fresh key's first `max` calls within a window's length of its first one are admitted, and no other there. */
  lemma FreshKeyAdmits(l: Limit, times: seq<nat>)
    requires l.window > 0 && times != [] && AllBefore(times, times[0] + l.window)
    ensures var outcomes := Counter(l, None, times); |outcomes| == |times| && FirstsAdmitted(outcomes, l.max)
  {
    var w := RateWindow(times[0], 0);
    LiveWindowAdmits(l, w, times);
    assert CounterStep(l, None, times[0]) == CounterStep(l, Some(w), times[0]);
    assert Counter(l, None, times) == Counter(l, Some(w), times);
  }

  /** Once a window's length has passed since the first call of a window, the key starts over. */
  lemma {:induction false} KeyStartsOver(l: Limit, w: RateWindow, times: seq<nat>, later: seq<nat>)
    requires l.window > 0 && AllBefore(times, w.startedAt + l.window)
    requires later != [] && later[0] >= w.startedAt + l.window
    ensures Counter(l, Some(w), times + later) == Counter(l, Some(w), times) + Counter(l, None, later)
    decreases |times|
  {
    if times == [] {
      assert times + later == later;
      assert CounterStep(l, Some(w), later[0]) == CounterStep(l, None, later[0]);
      assert [] + Counter(l, None, later) == Counter(l, None, later);
    } else {
      var w1 := CounterStep(l, Some(w), times[0]).0;
      assert (times + later)[0] == times[0] && (times + later)[1..] == times[1..] + later;
      KeyStartsOver(l, w1, times[1..], later);
      Associative([CounterStep(l, Some(w), times[0]).1], Counter(l, Some(w1), times[1..]), Counter(l, None, later));
    }
  }

  /** A call a window's length after the latest cleanup leaves no expired window behind; an earlier one drops none. */
  lemma CleanupIsDue(l: Limit, s: RateState, key: string, now: nat)
    requires l.window > 0 && StartsBounded(l, s)
    ensures var s' := Check(l, s, key, now).0;
            if now >= s.lastCleanup + l.window
            then s'.lastCleanup == now && forall k :: k in s'.windows ==> now < s'.windows[k].startedAt + l.window
            else s'.lastCleanup == s.lastCleanup && forall k :: k in s.windows ==> k in s'.windows
    ensures forall k :: k != key && k in Check(l, s, key, now).0.windows ==>
              k in s.windows && Check(l, s, key, now).0.windows[k] == s.windows[k]
  {}
}
