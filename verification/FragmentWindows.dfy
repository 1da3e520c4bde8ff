/** Where a document is cut, told on its characters: where windows end, where the next begin, and what is emitted. */
module FragmentWindows {
  import opened Basics
  import opened Text
  import opened Fragmenter

  // ---- Breakpoints, as characters ----

  /** A line after the first whose first character that is not white space is '#'. */
  predicate StartsHeading(chars: string, p: nat) {
    && 0 < p < |chars| && chars[p - 1] == '\n'
    && exists j ::
         && p <= j < |chars| && chars[j] == '#'
         && forall i :: p <= i < j ==> IsWhitespace(chars[i]) && chars[i] != '\n'
  }

  predicate FollowsBlankLine(chars: string, p: nat) {
    2 <= p <= |chars| && chars[p - 2] == '\n' && chars[p - 1] == '\n'
  }

  predicate FollowsSentence(chars: string, p: nat) {
    1 <= p < |chars| && chars[p - 1] in {'.', '!', '?'} && IsWhitespace(chars[p])
  }

  predicate LastHeading(chars: string, lo: nat, hi: nat, e: nat) {
    lo <= e <= hi && StartsHeading(chars, e) && forall p :: e < p <= hi ==> !StartsHeading(chars, p)
  }

  predicate LastParagraph(chars: string, lo: nat, hi: nat, e: nat) {
    lo <= e <= hi && FollowsBlankLine(chars, e) && forall p :: e < p <= hi ==> !FollowsBlankLine(chars, p)
  }

  predicate LastSentence(chars: string, lo: nat, hi: nat, e: nat) {
    lo <= e <= hi && FollowsSentence(chars, e) && forall p :: e < p <= hi ==> !FollowsSentence(chars, p)
  }

  /**
   * The cut in [lo, hi]: at the last heading there; without one, at the last paragraph break; without either, at the
   * last sentence end; without any of them, at hi.
   */
  predicate CutAt(chars: string, lo: nat, hi: nat, e: nat) {
    if exists p :: lo <= p <= hi && StartsHeading(chars, p) then LastHeading(chars, lo, hi, e)
    else if exists p :: lo <= p <= hi && FollowsBlankLine(chars, p) then LastParagraph(chars, lo, hi, e)
    else if exists p :: lo <= p <= hi && FollowsSentence(chars, p) then LastSentence(chars, lo, hi, e)
    else e == hi
  }

  /** There is one such cut. */
  lemma CutIsUnique(chars: string, lo: nat, hi: nat, d: nat, e: nat)
    requires CutAt(chars, lo, hi, d) && CutAt(chars, lo, hi, e)
    ensures d == e
  {
    hide StartsHeading, FollowsBlankLine, FollowsSentence;
  }

  // ---- The windows of a document ----

  function ChunkSize(s: Settings, step: nat): nat { Max(s.chunkSize, Max(step, 1)) }

  function LeastLength(s: Settings, step: nat): nat { Min(Max(s.minChunk, Max(step, 1)), ChunkSize(s, step)) }

  /** A window that reaches the end of the text ends there; any other is cut within its reach. */
  predicate EndsRight(s: Settings, step: nat, chars: string, w: Window) {
    if w.start + ChunkSize(s, step) >= |chars| then w.end == |chars|
    else CutAt(chars, w.start + LeastLength(s, step), w.start + ChunkSize(s, step), w.end)
  }

  /** The next window steps back by the overlap, unless that would gain less than a quarter, or less than the step. */
  predicate GoesOn(s: Settings, step: nat, w: Window, next: nat) {
    && next + s.overlap >= w.end && 4 * (next - w.start) >= w.end - w.start - 3 && next >= w.start + Max(step, 1)
    && (next + s.overlap == w.end || next == w.start + (w.end - w.start) / 4 || next == w.start + Max(step, 1))
  }

  /** The windows from `start` to the end of the text, one after the other. */
  predicate CutsFrom(s: Settings, step: nat, chars: string, start: nat, ws: seq<Window>)
    decreases |ws|
  {
    && ws != [] && ws[0].start == start && start < ws[0].end <= |chars| && EndsRight(s, step, chars, ws[0])
    && if |ws| == 1 then ws[0].end == |chars|
       else ws[0].end < |chars| && GoesOn(s, step, ws[0], ws[1].start) && CutsFrom(s, step, chars, ws[1].start, ws[1..])
  }

  predicate Cuts(s: Settings, step: nat, chars: string, ws: seq<Window>) {
    if chars == "" then ws == [] else CutsFrom(s, step, chars, 0, ws)
  }

  // ---- The fragmenter cuts there ----

  lemma BreaksAre(chars: string, p: nat)
    ensures p in BreaksOf(chars).headings <==> StartsHeading(chars, p)
    ensures p in BreaksOf(chars).paragraphs <==> FollowsBlankLine(chars, p)
    ensures p in BreaksOf(chars).sentences <==> FollowsSentence(chars, p)
  {
    hide IsWhitespace;
    assert StartsHeading(chars, p) <==> HeadingAt(chars, p);
    assert FollowsBlankLine(chars, p) <==> ParagraphAt(chars, p);
    assert FollowsSentence(chars, p) <==> SentenceAt(chars, p);
  }

  lemma BestIsCut(chars: string, lo: nat, hi: nat)
    ensures var best := BestBetween(BreaksOf(chars), lo, hi);
            CutAt(chars, lo, hi, if best.Some? then best.value else hi)
  {
    hide BreaksOf, StartsHeading, FollowsBlankLine, FollowsSentence;
    forall p: nat
      ensures p in BreaksOf(chars).headings <==> StartsHeading(chars, p)
      ensures p in BreaksOf(chars).paragraphs <==> FollowsBlankLine(chars, p)
      ensures p in BreaksOf(chars).sentences <==> FollowsSentence(chars, p)
    {
      BreaksAre(chars, p);
    }
  }

  lemma EndIsRight(s: Settings, step: nat, chars: string, start: nat)
    requires Clamped(s) && start < |chars|
    ensures EndsRight(s, step, chars, FirstWindow(PlanFor(s, step), chars, start))
  {
    hide BreaksOf, BestBetween, CutAt;
    BestIsCut(chars, start + LeastLength(s, step), start + ChunkSize(s, step));
  }

  lemma NextGoesOn(s: Settings, step: nat, n: nat, w: Window)
    requires Clamped(s) && w.start < w.end < n && w.start + LeastLength(s, step) <= w.end
    ensures GoesOn(s, step, w, NextStart(PlanFor(s, step), n, w))
  {}

  lemma CutIsLongEnough(s: Settings, step: nat, chars: string, w: Window)
    requires Clamped(s) && EndsRight(s, step, chars, w) && w.end < |chars|
    ensures w.start + LeastLength(s, step) <= w.end
  {
    CutWithin(chars, w.start + LeastLength(s, step), w.start + ChunkSize(s, step), w.end);
    hide CutAt;
  }

  lemma CutWithin(chars: string, lo: nat, hi: nat, e: nat)
    requires lo <= hi && CutAt(chars, lo, hi, e)
    ensures lo <= e <= hi
  {
    hide StartsHeading, FollowsBlankLine, FollowsSentence;
  }

  lemma CutsPrepend(s: Settings, step: nat, chars: string, w: Window, rest: seq<Window>)
    requires w.start < w.end < |chars| && EndsRight(s, step, chars, w)
    requires rest != [] && GoesOn(s, step, w, rest[0].start) && CutsFrom(s, step, chars, rest[0].start, rest)
    ensures CutsFrom(s, step, chars, w.start, [w] + rest)
  {
    hide EndsRight, GoesOn;
    assert ([w] + rest)[1..] == rest;
  }

  lemma {:induction false} WindowsAreCuts(s: Settings, step: nat, chars: string, start: nat)
    requires Clamped(s) && start < |chars| && ValidPlan(PlanFor(s, step))
    ensures CutsFrom(s, step, chars, start, Windows(PlanFor(s, step), BreaksOf(chars), |chars|, start))
    decreases |chars| - start
  {
    hide BreaksOf, EndOf, NextStart, PlanFor, EndsRight, GoesOn, LeastLength, ChunkSize, ValidPlan;
    var p := PlanFor(s, step);
    var w := FirstWindow(p, chars, start);
    WindowBounds(p, BreaksOf(chars), |chars|, start);
    PlanSteps(s, step);
    EndIsRight(s, step, chars, start);
    if w.end < |chars| {
      var next := NextStart(p, |chars|, w);
      CutIsLongEnough(s, step, chars, w);
      NextGoesOn(s, step, |chars|, w);
      WindowsAreCuts(s, step, chars, next);
      CutsPrepend(s, step, chars, w, Windows(p, BreaksOf(chars), |chars|, next));
    }
  }

  lemma PlanSteps(s: Settings, step: nat)
    ensures PlanFor(s, step).minStep >= 1
  {}

  // ---- What is emitted ----

  /** The fragment is the visible stretch of the window, and says so. */
  predicate ShowsWindow(chars: string, w: Window, f: Fragment) {
    && w.start <= f.charStart < f.charEnd <= w.end <= |chars| && f.content == chars[f.charStart..f.charEnd]
    && !IsWhitespace(chars[f.charStart]) && !IsWhitespace(chars[f.charEnd - 1])
    && (forall i :: w.start <= i < f.charStart ==> IsWhitespace(chars[i]))
    && forall i :: f.charEnd <= i < w.end ==> IsWhitespace(chars[i])
  }

  predicate IsBlank(chars: string, w: Window) {
    w.start <= w.end <= |chars| && forall i :: w.start <= i < w.end ==> IsWhitespace(chars[i])
  }

  /** One fragment for each window that is not blank, in order, numbered from `index`. */
  predicate Emits(chars: string, ws: seq<Window>, index: nat, fs: seq<Fragment>)
    decreases |ws|
  {
    if ws == [] then fs == []
    else if IsBlank(chars, ws[0]) then Emits(chars, ws[1..], index, fs)
    else
      && fs != [] && ShowsWindow(chars, ws[0], fs[0]) && fs[0].index == index
      && EstimatesTokens(fs[0]) && Emits(chars, ws[1..], index + 1, fs[1..])
  }

  /** A token for every four characters begun, and at least one. */
  predicate EstimatesTokens(f: Fragment) {
    f.tokenEstimate >= 1 && 4 * (f.tokenEstimate - 1) < Max(|f.content|, 1) <= 4 * f.tokenEstimate
  }

  lemma OneIsEmitted(chars: string, w: Window, index: nat)
    requires w.start <= w.end <= |chars|
    ensures var one := EmitOne(chars, w, index);
            if IsBlank(chars, w) then one == []
            else |one| == 1 && ShowsWindow(chars, w, one[0]) && one[0].index == index && EstimatesTokens(one[0])
  {
    hide IsWhitespace;
    var t := Trimmed(chars, w.start, w.end);
    assert t.start < t.end ==> !IsWhitespace(chars[t.start]);
  }

  lemma {:induction false} EmitEmits(chars: string, ws: seq<Window>, index: nat)
    requires InBounds(chars, ws)
    ensures Emits(chars, ws, index, Emit(chars, ws, index))
    decreases |ws|
  {
    hide IsBlank, ShowsWindow, EmitOne, EstimatesTokens;
    if ws != [] {
      assert InBounds(chars, ws[1..]) by { assert forall i :: 0 <= i < |ws[1..]| ==> ws[1..][i] == ws[i + 1]; }
      OneIsEmitted(chars, ws[0], index);
      var one := EmitOne(chars, ws[0], index);
      EmitEmits(chars, ws[1..], index + |one|);
      var rest := Emit(chars, ws[1..], index + |one|);
      if IsBlank(chars, ws[0]) { assert one + rest == rest; } else { assert (one + rest)[1..] == rest; }
    }
  }

  /**
   * The fragments of a document, told on its characters: its windows run from start to end, each cut at the last
   * heading, paragraph break or sentence end in reach, in that order of preference, and each next one steps back by the
   * overlap as far as progress allows; every window that is not blank is emitted once, trimmed, in order.
   */
  lemma FragmentsFollowCuts(s: Settings, chars: string, step: nat)
    requires Clamped(s)
    ensures exists ws :: Cuts(s, step, chars, ws) && Emits(chars, ws, 0, FragmentsOf(s, chars, step))
  {
    PlanIsValid(s, step);
    var p := PlanFor(s, step);
    var ws := Windows(p, BreaksOf(chars), |chars|, 0);
    WindowsInBounds(p, chars, 0);
    EmitEmits(chars, ws, 0);
    hide PlanFor, BreaksOf, EndsRight, GoesOn, Emits, Emit;
    if chars != "" { WindowsAreCuts(s, step, chars, 0); }
    assert Cuts(s, step, chars, ws);
  }
}
