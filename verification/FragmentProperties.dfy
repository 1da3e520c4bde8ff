/** What every run of the fragmenter guarantees, and when it reproduces the implementation it replaced. */
module FragmentProperties {
  import opened Text
  import opened Fragmenter

  // ---- Windows move forward ----

  /** A chain of windows: it starts and ends where it should, moves forward, and leaves no gap. */
  predicate Chain(p: Plan, n: nat, start: nat, ws: seq<Window>) {
    && ws != [] && ws[0].start == start && ws[|ws| - 1].end == n
    && (forall i :: 0 <= i < |ws| ==> ws[i].start < ws[i].end <= n)
    && (forall i, j :: 0 <= i && j == i + 1 < |ws| ==>
          ws[i].start + p.minStep <= ws[j].start <= ws[i].end <= ws[j].end)
  }

  lemma {:induction false} WindowsChain(p: Plan, b: Breakpoints, n: nat, start: nat)
    requires ValidPlan(p) && start < n
    ensures Chain(p, n, start, Windows(p, b, n, start))
    ensures Windows(p, b, n, start)[0].end == EndOf(p, b, n, start)
    decreases n - start
  {
    hide EndOf, NextStart;
    WindowBounds(p, b, n, start);
    var w := Window(start, EndOf(p, b, n, start));
    if w.end < n {
      var next := NextStart(p, n, w);
      WindowsChain(p, b, n, next);
      EndsNeverDecrease(p, b, n, start, next);
      assert Windows(p, b, n, start) == [w] + Windows(p, b, n, next);
      ChainPrepend(p, n, w, Windows(p, b, n, next));
    }
  }

  lemma ChainPrepend(p: Plan, n: nat, w: Window, rest: seq<Window>)
    requires rest != [] && Chain(p, n, rest[0].start, rest)
    requires w.start < w.end <= n && w.start + p.minStep <= rest[0].start <= w.end <= rest[0].end
    ensures Chain(p, n, w.start, [w] + rest)
  {
    var ws := [w] + rest;
    assert forall i :: 1 <= i < |ws| ==> ws[i] == rest[i - 1];
  }

  // ---- Fragments ----

  /** The fragments from `start` on number at most one per minimal step. */
  lemma {:induction false} CountBound(p: Plan, chars: string, start: nat, index: nat, cap: nat)
    requires ValidPlan(p) && |chars| <= start + cap * p.minStep
    ensures |From(p, chars, start, index)| <= cap
    decreases |chars| - start
  {
    hide Windows, Emit, BreaksOf, EmitOne, EndOf, NextStart;
    if start < |chars| {
      FromStep(p, chars, start, index);
      assert cap >= 1 by { assert cap == 0 ==> cap * p.minStep == 0; }
      var w := FirstWindow(p, chars, start);
      if w.end < |chars| {
        assert cap * p.minStep == (cap - 1) * p.minStep + p.minStep;
        CountBound(p, chars, NextStart(p, |chars|, w), index + |EmitOne(chars, w, index)|, cap - 1);
      }
    } else {
      NothingFrom(p, chars, start, index);
    }
  }

  function Volume(fs: seq<Fragment>): nat
    requires forall i :: 0 <= i < |fs| ==> fs[i].charStart <= fs[i].charEnd
  {
    if fs == [] then 0 else fs[0].charEnd - fs[0].charStart + Volume(fs[1..])
  }

  /** One fragment is a visible, trimmed stretch of the text at or after `start`. */
  predicate WellFormed(chars: string, f: Fragment) {
    && f.charStart < f.charEnd <= |chars| && f.content == chars[f.charStart..f.charEnd]
    && !IsWhitespace(chars[f.charStart]) && !IsWhitespace(chars[f.charEnd - 1])
    && f.tokenEstimate == EstimateTokens(f.content)
  }

  lemma {:induction false} FragmentsWellFormed(p: Plan, chars: string, start: nat, index: nat)
    requires ValidPlan(p)
    ensures var fs := From(p, chars, start, index);
            forall i :: 0 <= i < |fs| ==>
              WellFormed(chars, fs[i]) && fs[i].index == index + i && fs[i].charStart >= start
    decreases |chars| - start
  {
    hide Windows, Emit, BreaksOf, EndOf, NextStart, From, WellFormed, EmitOne;
    if start < |chars| {
      FromStep(p, chars, start, index);
      var w := FirstWindow(p, chars, start);
      var one := EmitOne(chars, w, index);
      OneWithin(chars, w, index);
      if w.end < |chars| {
        var next := NextStart(p, |chars|, w);
        FragmentsWellFormed(p, chars, next, index + |one|);
        var fs, rest := From(p, chars, start, index), From(p, chars, next, index + |one|);
        assert forall i :: |one| <= i < |fs| ==> fs[i] == rest[i - |one|];
      }
    } else {
      NothingFrom(p, chars, start, index);
    }
  }

  lemma OneWithin(chars: string, w: Window, index: nat)
    requires w.start <= w.end <= |chars|
    ensures var one := EmitOne(chars, w, index);
            one != [] ==>
              && w.start <= one[0].charStart < one[0].charEnd <= w.end && one[0].index == index
              && WellFormed(chars, one[0]) && !IsWhitespace(chars[one[0].charEnd - 1])
  {
    hide EstimateTokens;
  }

  lemma VolumeOfJoin(one: seq<Fragment>, rest: seq<Fragment>)
    requires |one| <= 1
    requires forall i :: 0 <= i < |one| ==> one[i].charStart <= one[i].charEnd
    requires forall i :: 0 <= i < |rest| ==> rest[i].charStart <= rest[i].charEnd
    ensures forall i :: 0 <= i < |one + rest| ==> (one + rest)[i].charStart <= (one + rest)[i].charEnd
    ensures Volume([]) == 0
    ensures Volume(one + rest) == (if one == [] then 0 else one[0].charEnd - one[0].charStart) + Volume(rest)
  {
    if one == [] { assert one + rest == rest; } else { assert (one + rest)[1..] == rest; }
  }

  /** What is emitted is at most four times what is left to read, and three per fragment. */
  lemma {:induction false} VolumeBound(p: Plan, chars: string, start: nat, index: nat)
    requires ValidPlan(p) && start <= |chars|
    ensures var fs := From(p, chars, start, index);
            && (forall i :: 0 <= i < |fs| ==> fs[i].charStart <= fs[i].charEnd)
            && Volume(fs) <= 4 * (|chars| - start) + 3 * |fs|
    decreases |chars| - start
  {
    hide Windows, Emit, BreaksOf, EndOf, NextStart, From, WellFormed, Volume, EmitOne;
    FragmentsWellFormed(p, chars, start, index);
    if start < |chars| {
      FromStep(p, chars, start, index);
      var w := FirstWindow(p, chars, start);
      var one := EmitOne(chars, w, index);
      OneWithin(chars, w, index);
      if w.end < |chars| {
        var next := NextStart(p, |chars|, w);
        VolumeBound(p, chars, next, index + |one|);
        VolumeOfJoin(one, From(p, chars, next, index + |one|));
      } else {
        VolumeOfJoin(one, []);
        assert one + [] == one;
      }
    } else {
      NothingFrom(p, chars, start, index);
      VolumeOfJoin([], []);
    }
  }

  /** No fragment is longer than a chunk. */
  lemma {:induction false} FragmentsAreShort(p: Plan, chars: string, start: nat, index: nat)
    requires ValidPlan(p)
    ensures var fs := From(p, chars, start, index);
            forall i :: 0 <= i < |fs| ==> |fs[i].content| <= p.chunkSize
    decreases |chars| - start
  {
    hide Windows, Emit, BreaksOf, EndOf, NextStart, From, EmitOne;
    if start < |chars| {
      FromStep(p, chars, start, index);
      var w := FirstWindow(p, chars, start);
      var one := EmitOne(chars, w, index);
      OneWithin(chars, w, index);
      if w.end < |chars| {
        var next := NextStart(p, |chars|, w);
        FragmentsAreShort(p, chars, next, index + |one|);
        var fs, rest := From(p, chars, start, index), From(p, chars, next, index + |one|);
        assert forall i :: |one| <= i < |fs| ==> fs[i] == rest[i - |one|];
      }
    } else {
      NothingFrom(p, chars, start, index);
    }
  }

  predicate Covers(f: Fragment, c: nat) { f.charStart <= c < f.charEnd }

  /** No visible character is skipped. */
  lemma {:induction false} CoversVisible(p: Plan, chars: string, start: nat, index: nat, c: nat)
    requires ValidPlan(p) && start <= c < |chars| && !IsWhitespace(chars[c])
    ensures exists f :: f in From(p, chars, start, index) && Covers(f, c)
    decreases |chars| - start
  {
    hide Windows, Emit, BreaksOf, EndOf, NextStart, EstimateTokens;
    FromStep(p, chars, start, index);
    var w := FirstWindow(p, chars, start);
    var one, fs := EmitOne(chars, w, index), From(p, chars, start, index);
    if c < w.end {
      assert Covers(one[0], c) && fs[0] == one[0];
    } else {
      var next := NextStart(p, |chars|, w);
      CoversVisible(p, chars, next, index + |one|, c);
      var rest := From(p, chars, next, index + |one|);
      var f :| f in rest && Covers(f, c);
      assert f in fs;
    }
  }

  /** Fragments from here on end after every visible character the first window reaches. */
  lemma {:induction false} EndsAfter(p: Plan, chars: string, start: nat, index: nat, c: nat)
    requires ValidPlan(p) && start < |chars| && c < FirstWindow(p, chars, start).end && c < |chars|
        && !IsWhitespace(chars[c])
    ensures var fs := From(p, chars, start, index);
            forall i :: 0 <= i < |fs| ==> c < fs[i].charEnd
    decreases |chars| - start
  {
    hide Windows, Emit, BreaksOf, EndOf, NextStart, EstimateTokens;
    FromStep(p, chars, start, index);
    var w := FirstWindow(p, chars, start);
    var one, fs := EmitOne(chars, w, index), From(p, chars, start, index);
    if w.end < |chars| {
      var next := NextStart(p, |chars|, w);
      EndsAfter(p, chars, next, index + |one|, c);
      var rest := From(p, chars, next, index + |one|);
      assert forall i :: |one| <= i < |fs| ==> fs[i] == rest[i - |one|];
    }
  }

  predicate Ordered(fs: seq<Fragment>) {
    forall i, j :: 0 <= i < j < |fs| ==> fs[i].charStart <= fs[j].charStart && fs[i].charEnd <= fs[j].charEnd
  }

  /** The first fragment starts no later than any fragment of a later window. */
  lemma StartsAfter(chars: string, w: Window, index: nat, rest: seq<Fragment>)
    requires w.start <= w.end <= |chars| && EmitOne(chars, w, index) != []
    requires forall i :: 0 <= i < |rest| ==> WellFormed(chars, rest[i]) && w.start <= rest[i].charStart
    ensures var first := EmitOne(chars, w, index)[0];
            forall i :: 0 <= i < |rest| ==> first.charStart <= rest[i].charStart
  {
    hide EstimateTokens;
  }

  lemma FewAreOrdered(fs: seq<Fragment>)
    ensures |fs| <= 1 ==> Ordered(fs)
  {}

  lemma PrependOrdered(one: seq<Fragment>, rest: seq<Fragment>)
    requires |one| == 1 && Ordered(rest)
    requires forall i :: 0 <= i < |rest| ==> one[0].charStart <= rest[i].charStart && one[0].charEnd <= rest[i].charEnd
    ensures Ordered(one + rest)
  {
    var fs := one + rest;
    assert forall i :: 1 <= i < |fs| ==> fs[i] == rest[i - 1];
  }

  /** Fragments come in order, by their starts and by their ends. */
  lemma {:induction false} FragmentsOrdered(p: Plan, chars: string, start: nat, index: nat)
    requires ValidPlan(p)
    ensures Ordered(From(p, chars, start, index))
    decreases |chars| - start
  {
    hide Windows, Emit, BreaksOf, EndOf, NextStart, From, EmitOne, Ordered, WellFormed;
    if start < |chars| {
      FromStep(p, chars, start, index);
      var w := FirstWindow(p, chars, start);
      var one, fs := EmitOne(chars, w, index), From(p, chars, start, index);
      OneWithin(chars, w, index);
      FewAreOrdered(fs);
      if w.end < |chars| {
        var next := NextStart(p, |chars|, w);
        FragmentsOrdered(p, chars, next, index + |one|);
        FragmentsWellFormed(p, chars, next, index + |one|);
        var rest := From(p, chars, next, index + |one|);
        if one != [] {
          EndsAfter(p, chars, next, index + 1, one[0].charEnd - 1);
          StartsAfter(chars, w, index, rest);
          PrependOrdered(one, rest);
        } else {
          assert fs == rest;
        }
      }
    } else {
      NothingFrom(p, chars, start, index);
      FewAreOrdered([]);
    }
  }

  /**
   * Any document under any policy: at most 10,000 fragments, numbered from zero, ordered, bounded in
   * volume, and together covering every visible character.
   */
  lemma FragmenterGuarantees(policy: Option<FragmentPolicy>, chars: string)
    ensures Clamped(FromPolicy(policy))
    ensures var step := MinStepFor(|chars|);
            var fs := FragmentsOf(FromPolicy(policy), chars, step);
            && |fs| <= MAX_FRAGMENTS_PER_DOCUMENT
            && (forall i :: 0 <= i < |fs| ==> WellFormed(chars, fs[i]) && fs[i].index == i)
            && Ordered(fs)
            && Volume(fs) <= 4 * |chars| + 3 * |fs|
            && (forall c :: 0 <= c < |chars| && !IsWhitespace(chars[c]) ==> exists f :: f in fs && Covers(f, c))
  {
    var s, step := FromPolicy(policy), MinStepFor(|chars|);
    var p := PlanFor(s, step);
    hide FromPolicy, Emit, Windows, BreaksOf, MinStepFor, Clamped, WellFormed, Covers, Ordered;
    PoliciesAreClamped(policy, s);
    PlanIsValid(s, step);
    CountBound(p, chars, 0, 0, MAX_FRAGMENTS_PER_DOCUMENT);
    FragmentsWellFormed(p, chars, 0, 0);
    FragmentsOrdered(p, chars, 0, 0);
    VolumeBound(p, chars, 0, 0);
    forall c | 0 <= c < |chars| && !IsWhitespace(chars[c])
      ensures exists f :: f in From(p, chars, 0, 0) && Covers(f, c)
    {
      CoversVisible(p, chars, 0, 0, c);
    }
  }

  // ---- A text with one breakpoint ----

  /** A text of n characters whose only breakpoint closes its first m. */
  function OneSentence(m: nat, n: nat): string {
    seq(n, i => if i == m - 1 then '.' else if i == m then ' ' else 'x')
  }

  lemma OneSentenceBreaks(m: nat, n: nat)
    requires 0 < m < n
    ensures BreaksOf(OneSentence(m, n)) == Breakpoints({}, {}, {m})
  {
    var chars := OneSentence(m, n);
    assert forall i :: 0 <= i < n ==> chars[i] != '\n' && (IsStop(chars[i]) <==> i == m - 1);
    assert forall i :: 0 <= i < n ==> (IsWhitespace(chars[i]) <==> i == m);
    assert SentenceAt(chars, m);
  }

  lemma OneSentenceWindow(p: Plan, m: nat, n: nat)
    requires ValidPlan(p) && p.minChunk <= m <= p.chunkSize < n
    ensures |OneSentence(m, n)| == n && FirstWindow(p, OneSentence(m, n), 0) == Window(0, m)
    ensures Trimmed(OneSentence(m, n), 0, m) == Window(0, m)
  {
    OneSentenceBreaks(m, n);
    assert BestBetween(Breakpoints({}, {}, {m}), p.minChunk, p.chunkSize) == Some(m);
  }
}
