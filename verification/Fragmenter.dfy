/** The linear document fragmenter: overlapping windows that end at the best breakpoint in reach. */
module Fragmenter {
  import opened Basics
  import opened Text

  const MAX_FRAGMENT_CHUNK_CHARS := 8_000
  const MAX_FRAGMENTS_PER_DOCUMENT := 10_000

  // ---- Settings ----

  datatype FragmentPolicy = FragmentPolicy(chunkSize: Option<nat>, overlap: Option<nat>, minChunk: Option<nat>)

  datatype Settings = Settings(chunkSize: nat, overlap: nat, minChunk: nat)

  const DEFAULTS := Settings(1200, 150, 200)

  function FromPolicy(policy: Option<FragmentPolicy>): Settings {
    var chunk := if policy.Some? && policy.value.chunkSize.Some?
                 then Min(Max(policy.value.chunkSize.value, 1), MAX_FRAGMENT_CHUNK_CHARS) else DEFAULTS.chunkSize;
    var overlap := if policy.Some? && policy.value.overlap.Some? then policy.value.overlap.value else DEFAULTS.overlap;
    var minChunk := if policy.Some? && policy.value.minChunk.Some? then Max(policy.value.minChunk.value, 1)
        else DEFAULTS.minChunk;
    Settings(chunk, Min(overlap, SatSub(chunk, 1)), Min(minChunk, chunk))
  }

  predicate Clamped(s: Settings) {
    1 <= s.chunkSize <= MAX_FRAGMENT_CHUNK_CHARS && s.overlap < s.chunkSize && 1 <= s.minChunk <= s.chunkSize
  }

  /** The clamped settings are exactly those some policy produces. */
  lemma PoliciesAreClamped(policy: Option<FragmentPolicy>, s: Settings)
    ensures Clamped(FromPolicy(policy))
    ensures Clamped(s) ==> s == FromPolicy(Some(FragmentPolicy(Some(s.chunkSize), Some(s.overlap), Some(s.minChunk))))
  {}

  /** A requested size is taken as it is where allowed, and else the nearest allowed one; defaults fill the gaps. */
  lemma RequestedSettings(policy: Option<FragmentPolicy>)
    ensures var s := FromPolicy(policy);
            var (chunk, overlap, least) :=
              if policy.None? then (None, None, None)
              else (policy.value.chunkSize, policy.value.overlap, policy.value.minChunk);
            && (match chunk
                case None => s.chunkSize == 1200
                case Some(n) => if 1 <= n <= 8000 then s.chunkSize == n else s.chunkSize == if n < 1 then 1 else 8000)
            && (var wanted := if overlap.Some? then overlap.value else 150;
                if wanted < s.chunkSize then s.overlap == wanted else s.overlap == s.chunkSize - 1)
            && (var wanted := if least.Some? then least.value else 200;
                if 1 <= wanted <= s.chunkSize then s.minChunk == wanted
                else s.minChunk == if wanted < 1 then 1 else s.chunkSize)
  {}

  /** Smallest step that keeps a document within the fragment cap. */
  function MinStepFor(n: nat): (step: nat)
    ensures step >= 1 && n <= MAX_FRAGMENTS_PER_DOCUMENT * step
    ensures step > 1 ==> n > MAX_FRAGMENTS_PER_DOCUMENT * (step - 1)
  {
    Max((n + MAX_FRAGMENTS_PER_DOCUMENT - 1) / MAX_FRAGMENTS_PER_DOCUMENT, 1)
  }

  /** The effective sizes for one document. */
  datatype Plan = Plan(chunkSize: nat, overlap: nat, minChunk: nat, minStep: nat)

  function PlanFor(s: Settings, minStep: nat): Plan {
    var step := Max(minStep, 1);
    var chunk := Max(s.chunkSize, step);
    Plan(chunk, s.overlap, Min(Max(s.minChunk, step), chunk), step)
  }

  predicate ValidPlan(p: Plan) {
    1 <= p.minStep <= p.minChunk <= p.chunkSize
  }

  // ---- Breakpoints ----

  /** A line that is not the first and whose first visible character is '#'. */
  predicate HeadingAt(chars: string, p: nat) {
    && 0 < p < |chars| && chars[p - 1] == '\n'
    && exists j ::
         && p <= j < |chars| && chars[j] == '#'
         && forall i :: p <= i < j ==> IsWhitespace(chars[i]) && chars[i] != '\n'
  }

  predicate ParagraphAt(chars: string, p: nat) {
    2 <= p <= |chars| && chars[p - 2] == '\n' && chars[p - 1] == '\n'
  }

  predicate IsStop(c: char) { c == '.' || c == '!' || c == '?' }

  predicate SentenceAt(chars: string, p: nat) {
    1 <= p < |chars| && IsStop(chars[p - 1]) && IsWhitespace(chars[p])
  }

  datatype Breakpoints = Breakpoints(headings: set<nat>, paragraphs: set<nat>, sentences: set<nat>)

  function BreaksOf(chars: string): Breakpoints {
    Breakpoints(set p: nat | p <= |chars| && HeadingAt(chars, p),
                set p: nat | p <= |chars| && ParagraphAt(chars, p),
                set p: nat | p <= |chars| && SentenceAt(chars, p))
  }

  /** The largest member in [lo, hi]. */
  function LastIn(s: set<nat>, lo: nat, hi: nat): (r: Option<nat>)
    ensures r.Some? ==> lo <= r.value <= hi && r.value in s
    ensures forall p :: p in s && lo <= p <= hi ==> r.Some? && p <= r.value
    decreases hi
  {
    if hi < lo then None
    else if hi in s then Some(hi)
    else if hi == 0 then None
    else LastIn(s, lo, hi - 1)
  }

  /** Headings before paragraphs before sentences; the last of the best kind present. */
  function BestBetween(b: Breakpoints, lo: nat, hi: nat): Option<nat> {
    if LastIn(b.headings, lo, hi).Some? then LastIn(b.headings, lo, hi)
    else if LastIn(b.paragraphs, lo, hi).Some? then LastIn(b.paragraphs, lo, hi)
    else LastIn(b.sentences, lo, hi)
  }

  method NewBreakpoints(chars: string) returns (b: Breakpoints)
    ensures b == BreaksOf(chars)
  {
    var headings: set<nat>, paragraphs: set<nat>, sentences: set<nat> := {}, {}, {};
    var pos := 0;
    while pos < |chars|
      invariant pos <= |chars| && (pos == 0 || chars[pos - 1] == '\n' || pos == |chars|)
      invariant headings == set p: nat | p < pos && HeadingAt(chars, p)
    {
      var newline := IndexOf(chars[pos..], '\n');
      var end := if newline.None? then |chars| else pos + newline.value + 1;
      LineHasOneHeading(chars, pos, end);
      var trimmed := TrimStart(chars[pos..end]);
      if pos > 0 && trimmed != "" && trimmed[0] == '#' {
        headings := headings + {pos};
      }
      pos := end;
    }
    for idx := 0 to |chars|
      invariant paragraphs == set p: nat | p <= idx + 1 && ParagraphAt(chars, p)
      invariant sentences == set p: nat | p <= idx && SentenceAt(chars, p)
    {
      if chars[idx] == '\n' && idx + 1 < |chars| && chars[idx + 1] == '\n' {
        paragraphs := paragraphs + {Min(idx + 2, |chars|)};
      }
      if IsStop(chars[idx]) && idx + 1 < |chars| && IsWhitespace(chars[idx + 1]) {
        sentences := sentences + {idx + 1};
      }
    }
    b := Breakpoints(headings, paragraphs, sentences);
    assert b.headings == BreaksOf(chars).headings;
  }

  /** Within one line only its start can be a heading, and the trimmed line tells. */
  lemma LineHasOneHeading(chars: string, pos: nat, end: nat)
    requires pos < end <= |chars| && (pos > 0 ==> chars[pos - 1] == '\n')
    requires forall i :: pos <= i < end - 1 ==> chars[i] != '\n'
    requires end < |chars| ==> chars[end - 1] == '\n'
    ensures forall p :: pos < p < end ==> !HeadingAt(chars, p)
    ensures pos > 0 ==>
              (HeadingAt(chars, pos)
               <==> TrimStart(chars[pos..end]) != "" && TrimStart(chars[pos..end])[0] == '#')
  {
    var line := chars[pos..end];
    var k := TrimStartIsSuffix(line);
    assert forall i :: 0 <= i < |line| ==> line[i] == chars[pos + i];
    if pos > 0 && HeadingAt(chars, pos) {
      var j :|
        && pos <= j < |chars| && chars[j] == '#'
        && forall i :: pos <= i < j ==> IsWhitespace(chars[i]) && chars[i] != '\n';
      assert forall i :: pos <= i <= j ==> chars[i] != '\n';
      assert line[j - pos] == '#' && k == j - pos;
    }
    if pos > 0 && k < |line| && line[k] == '#' {
      assert chars[pos + k] == '#';
      assert forall i :: pos <= i < pos + k ==> IsWhitespace(chars[i]) && chars[i] != '\n';
    }
  }

  // ---- Windows ----

  datatype Window = Window(start: nat, end: nat)

  function EndOf(p: Plan, b: Breakpoints, n: nat, start: nat): nat {
    var maxEnd := Min(start + p.chunkSize, n);
    if maxEnd == n then n
    else
      var best := BestBetween(b, start + p.minChunk, maxEnd);
      if best.Some? then best.value else maxEnd
  }

  function NextStart(p: Plan, n: nat, w: Window): nat
    requires w.start <= w.end
  {
    Min(Max(SatSub(w.end, p.overlap), w.start + Max((w.end - w.start) / 4, p.minStep)), n)
  }

  lemma WindowBounds(p: Plan, b: Breakpoints, n: nat, start: nat)
    requires ValidPlan(p) && start < n
    ensures var end := EndOf(p, b, n, start);
            && start < end <= n && end <= start + p.chunkSize
            && (end < n ==>
                  && start + p.minChunk <= end
                  && start + p.minStep <= NextStart(p, n, Window(start, end)) <= end
                  && end - start <= 4 * (NextStart(p, n, Window(start, end)) - start) + 3)
  {}

  function Windows(p: Plan, b: Breakpoints, n: nat, start: nat): seq<Window>
    requires ValidPlan(p)
    decreases n - start
  {
    if start >= n then []
    else
      WindowBounds(p, b, n, start);
      var w := Window(start, EndOf(p, b, n, start));
      [w] + if w.end >= n then [] else Windows(p, b, n, NextStart(p, n, w))
  }

  /** The first and one past the last visible character of a range. */
  function Trimmed(chars: string, start: nat, end: nat): (w: Window)
    requires start <= end <= |chars|
    ensures start <= w.start <= w.end <= end
    ensures forall i :: start <= i < w.start || w.end <= i < end ==> IsWhitespace(chars[i])
    ensures w.start < w.end ==> !IsWhitespace(chars[w.start]) && !IsWhitespace(chars[w.end - 1])
    decreases end - start
  {
    if start < end && IsWhitespace(chars[start]) then Trimmed(chars, start + 1, end)
    else if start < end && IsWhitespace(chars[end - 1]) then Trimmed(chars, start, end - 1)
    else Window(start, end)
  }

  datatype Fragment = Fragment(index: nat, content: string, charStart: nat, charEnd: nat, tokenEstimate: nat)

  function EstimateTokens(text: string): nat { Max((|text| + 3) / 4, 1) }

  function MakeFragment(chars: string, t: Window, index: nat): Fragment
    requires t.start <= t.end <= |chars|
  {
    Fragment(index, chars[t.start..t.end], t.start, t.end, EstimateTokens(chars[t.start..t.end]))
  }

  predicate InBounds(chars: string, ws: seq<Window>) {
    forall i :: 0 <= i < |ws| ==> ws[i].start <= ws[i].end <= |chars|
  }

  /** The fragment of one window, if anything in it is visible. */
  function EmitOne(chars: string, w: Window, index: nat): seq<Fragment>
    requires w.start <= w.end <= |chars|
  {
    var t := Trimmed(chars, w.start, w.end);
    if t.start < t.end then [MakeFragment(chars, t, index)] else []
  }

  /** The visible windows, trimmed and numbered from `index`. */
  function Emit(chars: string, ws: seq<Window>, index: nat): seq<Fragment>
    requires InBounds(chars, ws)
    decreases |ws|
  {
    if ws == [] then []
    else
      assert InBounds(chars, ws[1..]) by { assert forall i :: 0 <= i < |ws[1..]| ==> ws[1..][i] == ws[i + 1]; }
      var one := EmitOne(chars, ws[0], index);
      one + Emit(chars, ws[1..], index + |one|)
  }

  lemma {:induction false} WindowsInBounds(p: Plan, chars: string, start: nat)
    requires ValidPlan(p)
    ensures InBounds(chars, Windows(p, BreaksOf(chars), |chars|, start))
    decreases |chars| - start
  {
    if start < |chars| {
      WindowBounds(p, BreaksOf(chars), |chars|, start);
      var w := Window(start, EndOf(p, BreaksOf(chars), |chars|, start));
      if w.end < |chars| { WindowsInBounds(p, chars, NextStart(p, |chars|, w)); }
    }
  }

  /** What the fragmenter produces for one text. */
  function FragmentsOf(s: Settings, chars: string, minStep: nat): seq<Fragment>
    requires Clamped(s)
  {
    var p := PlanFor(s, minStep);
    WindowsInBounds(p, chars, 0);
    Emit(chars, Windows(p, BreaksOf(chars), |chars|, 0), 0)
  }

  // ---- The loops ----

  method TrimRange(chars: string, start: nat, end: nat) returns (left: nat, right: nat)
    requires start <= end <= |chars|
    ensures Window(left, right) == Trimmed(chars, start, end)
  {
    left, right := Min(start, |chars|), Min(end, |chars|);
    while left < right && IsWhitespace(chars[left])
      invariant start <= left <= right == end
      invariant Trimmed(chars, start, end) == Trimmed(chars, left, right)
    {
      left := left + 1;
    }
    while right > left && IsWhitespace(chars[right - 1])
      invariant left <= right <= end && (left < right ==> !IsWhitespace(chars[left]))
      invariant Trimmed(chars, start, end) == Trimmed(chars, left, right)
    {
      right := right - 1;
    }
  }

  /** One turn of the loop. */
  lemma EmitStep(p: Plan, chars: string, start: nat, index: nat)
    requires ValidPlan(p) && start < |chars|
    ensures var b, n := BreaksOf(chars), |chars|;
            var w := Window(start, EndOf(p, b, n, start));
            && start < w.end <= n && InBounds(chars, Windows(p, b, n, start))
            && var one := EmitOne(chars, w, index);
            && (w.end < n ==> InBounds(chars, Windows(p, b, n, NextStart(p, n, w))))
            && Emit(chars, Windows(p, b, n, start), index) ==
               if w.end >= n then one else one + Emit(chars, Windows(p, b, n, NextStart(p, n, w)), index + |one|)
  {
    hide BreaksOf, EmitOne;
    var b, n := BreaksOf(chars), |chars|;
    WindowBounds(p, b, n, start);
    WindowsInBounds(p, chars, start);
    var w := Window(start, EndOf(p, b, n, start));
    var one := EmitOne(chars, w, index);
    var ws := Windows(p, b, n, start);
    if w.end < n {
      WindowsInBounds(p, chars, NextStart(p, n, w));
      assert ws[1..] == Windows(p, b, n, NextStart(p, n, w));
    } else {
      assert ws[1..] == [];
      assert one + [] == one;
    }
  }

  /** A later window never ends earlier, although headings beat later paragraphs and sentences. */
  lemma EndsNeverDecrease(p: Plan, b: Breakpoints, n: nat, s1: nat, s2: nat)
    requires ValidPlan(p) && s1 <= s2 < n
    ensures EndOf(p, b, n, s1) <= EndOf(p, b, n, s2)
  {}

  /** A shorthand for the fragments from a window start on. */
  function From(p: Plan, chars: string, start: nat, index: nat): seq<Fragment>
    requires ValidPlan(p)
  {
    WindowsInBounds(p, chars, start);
    Emit(chars, Windows(p, BreaksOf(chars), |chars|, start), index)
  }

  function FirstWindow(p: Plan, chars: string, start: nat): Window {
    Window(start, EndOf(p, BreaksOf(chars), |chars|, start))
  }

  /** The fragments are the first window's, if visible, and the fragments from the next start on. */
  lemma FromStep(p: Plan, chars: string, start: nat, index: nat)
    requires ValidPlan(p) && start < |chars|
    ensures var w := FirstWindow(p, chars, start);
            && start < w.end <= |chars| && w.end <= start + p.chunkSize
            && var one := EmitOne(chars, w, index);
            && |one| <= 1
            && From(p, chars, start, index) ==
               one + (if w.end >= |chars| then [] else From(p, chars, NextStart(p, |chars|, w), index + |one|))
            && (w.end < |chars| ==>
                  && start + p.minStep <= NextStart(p, |chars|, w) <= w.end
                  && w.end <= FirstWindow(p, chars, NextStart(p, |chars|, w)).end
                  && w.end - start <= 4 * (NextStart(p, |chars|, w) - start) + 3)
  {
    hide Emit, Windows, BreaksOf, EndOf, NextStart, EmitOne, InBounds;
    EmitStep(p, chars, start, index);
    WindowBounds(p, BreaksOf(chars), |chars|, start);
    var w := FirstWindow(p, chars, start);
    if w.end < |chars| { EndsNeverDecrease(p, BreaksOf(chars), |chars|, start, NextStart(p, |chars|, w)); }
    AtMostOne(chars, w, index);
    assert EmitOne(chars, w, index) + [] == EmitOne(chars, w, index);
  }

  lemma AtMostOne(chars: string, w: Window, index: nat)
    requires w.start <= w.end <= |chars|
    ensures |EmitOne(chars, w, index)| <= 1
  {}

  lemma NothingFrom(p: Plan, chars: string, start: nat, index: nat)
    requires ValidPlan(p) && start >= |chars|
    ensures From(p, chars, start, index) == []
  {}

  method FragmentWithMinStep(s: Settings, content: string, minStep: nat) returns (fragments: seq<Fragment>)
    requires Clamped(s)
    ensures fragments == FragmentsOf(s, content, minStep)
  {
    hide BreaksOf, Trimmed, From, BestBetween, EndOf, NextStart, EmitOne, MakeFragment, Min, Max, SatSub;
    fragments := [];
    var n := |content|;
    var step := Max(minStep, 1);
    var chunkSize := Max(s.chunkSize, step);
    var minChunk := Min(Max(s.minChunk, step), chunkSize);
    ghost var p, b := PlanFor(s, minStep), BreaksOf(content);
    PlanIsValid(s, minStep);
    FragmentsOfFrom(s, content, minStep);
    if n == 0 {
      NothingFrom(p, content, 0, 0);
      return;
    }
    var breaks := NewBreakpoints(content);
    var start := 0;
    ghost var all := From(p, content, 0, 0);
    assert [] + all == all;
    while true
      invariant start < n && all == fragments + From(p, content, start, |fragments|)
      decreases n - start
    {
      ghost var before := fragments;
      FromStep(p, content, start, |fragments|);
      EndIs(p, b, n, start);
      var maxEnd := Min(start + chunkSize, n);
      var end := n;
      if maxEnd != n {
        var best := BestBetween(breaks, start + minChunk, maxEnd);
        end := if best.Some? then best.value else maxEnd;
      }
      ghost var w := Window(start, end);
      ghost var one := EmitOne(content, w, |fragments|);
      NextIs(p, n, w);
      EmitOneIs(content, w, |fragments|);
      var left, right := TrimRange(content, start, end);
      if left < right {
        fragments := fragments + [MakeFragment(content, Window(left, right), |fragments|)];
      }
      assert fragments == before + one;
      if end >= n {
        assert one + [] == one;
        return;
      }
      var advance := Max((end - start) / 4, step);
      var next := Max(SatSub(end, s.overlap), start + advance);
      start := Min(next, n);
      assert start == NextStart(p, n, w);
      Associative(before, one, From(p, content, start, |fragments|));
    }
  }

  lemma FragmentsOfFrom(s: Settings, chars: string, minStep: nat)
    requires Clamped(s)
    ensures FragmentsOf(s, chars, minStep) == From(PlanFor(s, minStep), chars, 0, 0)
  {}

  lemma PlanIsValid(s: Settings, minStep: nat)
    requires Clamped(s)
    ensures ValidPlan(PlanFor(s, minStep))
  {}

  lemma EndIs(p: Plan, b: Breakpoints, n: nat, start: nat)
    ensures var maxEnd := Min(start + p.chunkSize, n);
            var best := BestBetween(b, start + p.minChunk, maxEnd);
            EndOf(p, b, n, start) == if maxEnd == n then n else if best.Some? then best.value else maxEnd
  {}

  lemma NextIs(p: Plan, n: nat, w: Window)
    requires w.start <= w.end
    ensures NextStart(p, n, w) ==
            Min(Max(SatSub(w.end, p.overlap), w.start + Max((w.end - w.start) / 4, p.minStep)), n)
  {}

  lemma EmitOneIs(chars: string, w: Window, index: nat)
    requires w.start <= w.end <= |chars|
    ensures var t := Trimmed(chars, w.start, w.end);
            EmitOne(chars, w, index) == if t.start < t.end then [MakeFragment(chars, t, index)] else []
  {}

  method FragmentDocument(s: Settings, content: string) returns (fragments: seq<Fragment>)
    requires Clamped(s)
    ensures fragments == FragmentsOf(s, content, MinStepFor(|content|))
  {
    fragments := FragmentWithMinStep(s, content, MinStepFor(|content|));
  }
}
