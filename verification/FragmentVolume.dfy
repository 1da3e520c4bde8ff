/** How much text the fragments repeat: for which settings windows advance by a full quarter, and what that bounds. */
module FragmentVolume {
  import opened Basics
  import opened Fragmenter
  import opened FragmentProperties

  // ---- Windows that advance by a quarter ----

  /** The shortest window whose quarter is rounded down and that one character does not make up for. */
  function RoundedLength(s: Settings): nat {
    var m := Max(s.minChunk, 5);
    if m % 4 == 0 then m + 1 else m
  }

  /** No window loses more than three quarters of its length to the next: checked at the shortest that could. */
  predicate QuartersSuffice(s: Settings) {
    RoundedLength(s) > s.chunkSize || s.overlap + (RoundedLength(s) + 3) / 4 <= RoundedLength(s)
  }

  /** In the settings' own terms: a minimum chunk that exceeds its quarter by the overlap. */
  lemma LongMinimumSuffices(s: Settings)
    requires s.overlap + (s.minChunk + 3) / 4 <= s.minChunk
    ensures QuartersSuffice(s)
  {}

  lemma DefaultsSuffice()
    ensures QuartersSuffice(DEFAULTS)
  {}

  /** The step after a window of this length, in a document below the fragment cap. */
  function Advance(s: Settings, len: nat): nat {
    Max(SatSub(len, s.overlap), Max(len / 4, 1))
  }

  lemma AdvanceIsTheStep(s: Settings, n: nat, w: Window)
    requires Clamped(s) && w.start < w.end < n && Advance(s, w.end - w.start) <= w.end - w.start
    ensures NextStart(PlanFor(s, 1), n, w) == w.start + Advance(s, w.end - w.start)
  {}

  /** Exactly these settings let every length a window can have advance by a quarter or more. */
  lemma EveryLengthExactly(s: Settings)
    requires Clamped(s)
    ensures QuartersSuffice(s) <==> forall len: nat :: s.minChunk <= len <= s.chunkSize ==> len <= 4 * Advance(s, len)
  {
    if QuartersSuffice(s) {
      forall len: nat | s.minChunk <= len <= s.chunkSize ensures len <= 4 * Advance(s, len) {
        assert len < 5 || len % 4 == 0 || len >= RoundedLength(s);
      }
    } else {
      var len := RoundedLength(s);
      assert s.minChunk <= len <= s.chunkSize && len > 4 * Advance(s, len);
    }
  }

  /** A window after which the next one starts a quarter on, or more. */
  predicate Quarters(w: Window, next: nat) {
    w.end - w.start <= 4 * (next - w.start)
  }

  /** Whatever the step, windows advance by a quarter. */
  lemma StepQuarters(s: Settings, minStep: nat, b: Breakpoints, n: nat, start: nat)
    requires Clamped(s) && QuartersSuffice(s) && start < n
    ensures var p := PlanFor(s, minStep);
            var w := Window(start, EndOf(p, b, n, start));
            start < w.end && (w.end < n ==> Quarters(w, NextStart(p, n, w)))
  {
    var p := PlanFor(s, minStep);
    var w := Window(start, EndOf(p, b, n, start));
    PlanIsValid(s, minStep);
    WindowBounds(p, b, n, start);
    if w.end < n { LengthQuarters(s, minStep, w.end - start); }
  }

  lemma LengthQuarters(s: Settings, minStep: nat, len: nat)
    requires Clamped(s) && QuartersSuffice(s)
    requires var p := PlanFor(s, minStep); p.minChunk <= len <= p.chunkSize
    ensures var p := PlanFor(s, minStep); len <= 4 * Max(SatSub(len, p.overlap), Max(len / 4, p.minStep))
  {
    assert len < 5 || len % 4 == 0 || len >= RoundedLength(s) || len <= minStep;
  }

  /** All windows of the fragmenter advance by a quarter. */
  ghost predicate AllQuarters(s: Settings, chars: string)
    requires Clamped(s)
  {
    var p := PlanFor(s, MinStepFor(|chars|));
    PlanIsValid(s, MinStepFor(|chars|));
    var ws := Windows(p, BreaksOf(chars), |chars|, 0);
    forall i :: 0 <= i < |ws| - 1 ==> Quarters(ws[i], ws[i + 1].start)
  }

  lemma {:induction false} WindowsQuarter(s: Settings, minStep: nat, b: Breakpoints, n: nat, start: nat)
    requires Clamped(s) && QuartersSuffice(s) && ValidPlan(PlanFor(s, minStep))
    ensures var ws := Windows(PlanFor(s, minStep), b, n, start);
            && (start < n ==> ws != [] && ws[0].start == start)
            && forall i :: 0 <= i < |ws| - 1 ==> Quarters(ws[i], ws[i + 1].start)
    decreases n - start
  {
    hide EndOf, NextStart, PlanFor, QuartersSuffice, Quarters;
    if start < n {
      var p := PlanFor(s, minStep);
      WindowBounds(p, b, n, start);
      StepQuarters(s, minStep, b, n, start);
      var w := Window(start, EndOf(p, b, n, start));
      if w.end < n {
        var rest := Windows(p, b, n, NextStart(p, n, w));
        WindowsQuarter(s, minStep, b, n, NextStart(p, n, w));
        assert forall i :: 0 < i <= |rest| ==> ([w] + rest)[i] == rest[i - 1];
      }
    }
  }

  lemma ShortQuarter(s: Settings)
    requires Clamped(s) && !QuartersSuffice(s)
    ensures var m, p := RoundedLength(s), PlanFor(s, 1);
            && p.minChunk <= m <= p.chunkSize == s.chunkSize && Advance(s, m) <= m && m > 4 * Advance(s, m)
            && s.chunkSize < MAX_FRAGMENTS_PER_DOCUMENT && MinStepFor(s.chunkSize + 1) == 1
  {}

  /** Other settings have a short document whose first window advances by less. */
  lemma ShortQuarterExists(s: Settings)
    requires Clamped(s) && !QuartersSuffice(s)
    ensures var chars := OneSentence(RoundedLength(s), s.chunkSize + 1);
            |chars| <= MAX_FRAGMENTS_PER_DOCUMENT && !AllQuarters(s, chars)
  {
    hide Windows, BreaksOf, OneSentence, PlanFor, Advance, RoundedLength, MinStepFor, EndOf, NextStart, Trimmed;
    var m, n := RoundedLength(s), s.chunkSize + 1;
    var chars, p := OneSentence(m, n), PlanFor(s, 1);
    ShortQuarter(s);
    PlanIsValid(s, 1);
    OneSentenceWindow(p, m, n);
    AdvanceIsTheStep(s, n, Window(0, m));
    FirstTwo(p, chars);
    assert !Quarters(Window(0, m), Advance(s, m));
  }

  lemma FirstTwo(p: Plan, chars: string)
    requires ValidPlan(p) && chars != []
    ensures var ws, w := Windows(p, BreaksOf(chars), |chars|, 0), FirstWindow(p, chars, 0);
            && ws != [] && ws[0] == w && w.end <= |chars|
            && (w.end < |chars| ==> |ws| > 1 && ws[1].start == NextStart(p, |chars|, w))
  {
    WindowBounds(p, BreaksOf(chars), |chars|, 0);
    hide BreaksOf, EndOf, NextStart;
    var w := FirstWindow(p, chars, 0);
    if w.end < |chars| { WindowsChain(p, BreaksOf(chars), |chars|, NextStart(p, |chars|, w)); }
  }

  /** So the windows of all documents below the cap advance by a quarter exactly under these settings. */
  lemma AllQuartersExactly(s: Settings)
    requires Clamped(s)
    ensures QuartersSuffice(s) <==> forall chars :: |chars| <= MAX_FRAGMENTS_PER_DOCUMENT ==> AllQuarters(s, chars)
  {
    if QuartersSuffice(s) {
      forall chars | |chars| <= MAX_FRAGMENTS_PER_DOCUMENT ensures AllQuarters(s, chars) {
        PlanIsValid(s, MinStepFor(|chars|));
        WindowsQuarter(s, MinStepFor(|chars|), BreaksOf(chars), |chars|, 0);
      }
    } else {
      ShortQuarterExists(s);
    }
  }

  // ---- The bound without a rest ----

  lemma {:induction false} TightVolumeFrom(s: Settings, minStep: nat, chars: string, start: nat, index: nat)
    requires Clamped(s) && QuartersSuffice(s) && ValidPlan(PlanFor(s, minStep)) && start <= |chars|
    ensures var fs := From(PlanFor(s, minStep), chars, start, index);
            && (forall i :: 0 <= i < |fs| ==> fs[i].charStart <= fs[i].charEnd)
            && Volume(fs) <= 4 * (|chars| - start)
    decreases |chars| - start
  {
    hide Windows, Emit, BreaksOf, EndOf, NextStart, From, WellFormed, Volume, EmitOne, PlanFor, QuartersSuffice;
    var p := PlanFor(s, minStep);
    FragmentsWellFormed(p, chars, start, index);
    if start < |chars| {
      FromStep(p, chars, start, index);
      StepQuarters(s, minStep, BreaksOf(chars), |chars|, start);
      var w := FirstWindow(p, chars, start);
      var one := EmitOne(chars, w, index);
      OneWithin(chars, w, index);
      if w.end < |chars| {
        var next := NextStart(p, |chars|, w);
        TightVolumeFrom(s, minStep, chars, next, index + |one|);
        VolumeOfJoin(one, From(p, chars, next, index + |one|));
      } else {
        VolumeOfJoin(one, []);
        assert one + [] == one;
      }
    } else {
      NothingFrom(p, chars, start, index);
      VolumeOfJoin([], []);
    }
  }

  /** Under these settings no document, whatever its length, is repeated more than four times over. */
  lemma TightVolume(s: Settings, chars: string, minStep: nat)
    requires Clamped(s) && QuartersSuffice(s)
    ensures var fs := FragmentsOf(s, chars, minStep);
            && (forall i :: 0 <= i < |fs| ==> fs[i].charStart <= fs[i].charEnd)
            && Volume(fs) <= 4 * |chars|
  {
    PlanIsValid(s, minStep);
    FragmentsOfFrom(s, chars, minStep);
    TightVolumeFrom(s, minStep, chars, 0, 0);
  }

  // ---- Solid text: the volume to the character ----

  function Solid(n: nat): string { seq(n, i => 'x') }

  lemma SolidLength(n: nat)
    ensures |Solid(n)| == n
  {}

  /** A plan whose windows of solid text advance by a quarter, rounded down. */
  predicate AtQuarter(p: Plan) {
    ValidPlan(p) && p.minStep <= p.chunkSize / 4 && p.overlap + p.chunkSize / 4 >= p.chunkSize
  }

  lemma SolidWindow(p: Plan, n: nat, start: nat)
    requires AtQuarter(p) && start < n
    ensures var w := FirstWindow(p, Solid(n), start);
            && w.end == Min(start + p.chunkSize, n)
            && (w.end < n ==> NextStart(p, n, w) == start + p.chunkSize / 4)
            && Trimmed(Solid(n), start, w.end) == w
  {
    NoBreaks(n);
    hide BreaksOf;
  }

  lemma NoBreaks(n: nat)
    ensures BreaksOf(Solid(n)) == Breakpoints({}, {}, {})
  {}

  lemma OneLess(k: nat, x: nat)
    requires k >= 1
    ensures k * x == (k - 1) * x + x
  {}

  /** One window of solid text, and the text after it. */
  lemma SolidStep(p: Plan, n: nat, start: nat, index: nat)
    requires AtQuarter(p) && start + p.chunkSize <= n && start < n
    ensures |Solid(n)| == n
    ensures var w := Window(start, start + p.chunkSize);
            var one := EmitOne(Solid(n), w, index);
            && |one| == 1 && one[0].charStart == w.start && one[0].charEnd == w.end
            && From(p, Solid(n), start, index) ==
               one + if w.end == n then [] else From(p, Solid(n), start + p.chunkSize / 4, index + 1)
  {
    hide Windows, Emit, BreaksOf, EndOf, NextStart, Solid, From, Trimmed, EmitOne;
    SolidLength(n);
    SolidWindow(p, n, start);
    FromStep(p, Solid(n), start, index);
    OneSpans(Solid(n), FirstWindow(p, Solid(n), start), index);
  }

  lemma {:induction false} SolidVolume(p: Plan, n: nat, start: nat, index: nat, k: nat)
    requires AtQuarter(p) && k >= 1 && start + (k - 1) * (p.chunkSize / 4) + p.chunkSize == n
    ensures var fs := From(p, Solid(n), start, index);
            && (forall i :: 0 <= i < |fs| ==> fs[i].charStart <= fs[i].charEnd)
            && |fs| == k && Volume(fs) == k * p.chunkSize
    decreases k
  {
    hide Windows, Emit, BreaksOf, EndOf, NextStart, Solid, Volume, From, Trimmed, EmitOne;
    var chars, q := Solid(n), p.chunkSize / 4;
    assert (k - 1) * q >= 0;
    SolidStep(p, n, start, index);
    var one := EmitOne(chars, Window(start, start + p.chunkSize), index);
    if k > 1 {
      OneLess(k - 1, q);
      OneLess(k, p.chunkSize);
      SolidVolume(p, n, start + q, index + 1, k - 1);
      VolumeOfJoin(one, From(p, chars, start + q, index + 1));
    } else {
      VolumeOfJoin(one, []);
    }
  }

  lemma OneSpans(chars: string, w: Window, index: nat)
    requires w.start < w.end <= |chars| && Trimmed(chars, w.start, w.end) == w
    ensures var one := EmitOne(chars, w, index);
            |one| == 1 && one[0].charStart == w.start && one[0].charEnd == w.end
  {}

  /** The length of a solid text that fills exactly k windows. */
  function SolidSize(s: Settings, k: nat): nat
    requires k >= 1
  {
    (k - 1) * (s.chunkSize / 4) + s.chunkSize
  }

  /**
   * Whenever overlap leaves solid text to the quarter alone, k windows emit four times the text, plus what rounding
   * loses at every step, less three chunks: that bound fails once the rounding outweighs the three chunks.
   */
  lemma SolidVolumeIsExact(s: Settings, k: nat)
    requires Clamped(s) && k >= 1 && s.overlap + s.chunkSize / 4 >= s.chunkSize
    requires MinStepFor(SolidSize(s, k)) <= s.chunkSize / 4
    ensures var n := SolidSize(s, k);
            var fs := FragmentsOf(s, Solid(n), MinStepFor(n));
            && (forall i :: 0 <= i < |fs| ==> fs[i].charStart <= fs[i].charEnd)
            && Volume(fs) == 4 * n + (k - 1) * (s.chunkSize % 4) - 3 * s.chunkSize
  {
    var n := SolidSize(s, k);
    var step, q := MinStepFor(n), s.chunkSize / 4;
    var p := PlanFor(s, step);
    FragmentsOfFrom(s, Solid(n), step);
    SolidVolume(p, n, 0, 0, k);
    RoundingLoss(k, s.chunkSize, q, s.chunkSize % 4);
    hide FragmentsOf, From, Volume, Solid, MinStepFor;
  }

  /**
   * So under such settings solid text exceeds four times itself and one maximal chunk exactly when the rounding of its
   * steps outweighs three chunks and that maximal chunk.
   */
  lemma SolidTextExceeds(s: Settings, k: nat)
    requires Clamped(s) && k >= 1 && s.overlap + s.chunkSize / 4 >= s.chunkSize
    requires MinStepFor(SolidSize(s, k)) <= s.chunkSize / 4
    ensures var n := SolidSize(s, k);
            var fs := FragmentsOf(s, Solid(n), MinStepFor(n));
            && (forall i :: 0 <= i < |fs| ==> fs[i].charStart <= fs[i].charEnd)
            && (Volume(fs) > 4 * n + MAX_FRAGMENT_CHUNK_CHARS
                <==> (k - 1) * (s.chunkSize % 4) > MAX_FRAGMENT_CHUNK_CHARS + 3 * s.chunkSize)
  {
    hide FragmentsOf, Volume, Solid, MinStepFor;
    SolidVolumeIsExact(s, k);
  }

  lemma RoundingLoss(k: nat, chunk: nat, q: nat, r: nat)
    requires k >= 1 && chunk == 4 * q + r
    ensures k * chunk == 4 * ((k - 1) * q + chunk) + (k - 1) * r - 3 * chunk
  {
    assert k * chunk == (k - 1) * chunk + chunk;
    assert (k - 1) * chunk == (k - 1) * (4 * q) + (k - 1) * r;
    assert (k - 1) * (4 * q) == 4 * ((k - 1) * q);
  }

  /** A concrete case: 3,000 characters exceed four times the text and one maximal chunk. */
  lemma QuarterRoundsDown()
    ensures Clamped(Settings(7, 6, 1)) && !QuartersSuffice(Settings(7, 6, 1))
    ensures var fs := FragmentsOf(Settings(7, 6, 1), Solid(3000), MinStepFor(3000));
            && (forall i :: 0 <= i < |fs| ==> fs[i].charStart <= fs[i].charEnd)
            && Volume(fs) > 4 * 3000 + MAX_FRAGMENT_CHUNK_CHARS
  {
    hide FragmentsOf, Volume, Solid;
    assert SolidSize(Settings(7, 6, 1), 2994) == 3000;
    SolidVolumeIsExact(Settings(7, 6, 1), 2994);
  }
}
