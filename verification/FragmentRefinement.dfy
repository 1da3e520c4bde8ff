/** The fragmenter against the implementation it replaced, which advanced by one character at least and no more. */
module FragmentRefinement {
  import opened Basics
  import opened Text
  import opened Fragmenter
  import opened FragmentProperties
  import opened FragmentWindows

  // ---- The previous implementation ----

  function OldPlan(s: Settings): Plan { Plan(s.chunkSize, s.overlap, s.minChunk, 1) }

  function OldNext(s: Settings, n: nat, w: Window): nat {
    Min(Max(SatSub(w.end, s.overlap), w.start + 1), n)
  }

  /** The last heading, paragraph break and sentence end in [lo, hi], each by a scan from the right. */
  function ScanHeading(chars: string, lo: nat, hi: nat): (r: Option<nat>)
    ensures r.Some? ==> LastHeading(chars, lo, hi, r.value)
    ensures r.None? ==> forall p :: lo <= p <= hi ==> !StartsHeading(chars, p)
    decreases hi
  {
    if hi < lo then None
    else if StartsHeading(chars, hi) then Some(hi)
    else if hi == 0 then None
    else ScanHeading(chars, lo, hi - 1)
  }

  function ScanParagraph(chars: string, lo: nat, hi: nat): (r: Option<nat>)
    ensures r.Some? ==> LastParagraph(chars, lo, hi, r.value)
    ensures r.None? ==> forall p :: lo <= p <= hi ==> !FollowsBlankLine(chars, p)
    decreases hi
  {
    if hi < lo then None
    else if FollowsBlankLine(chars, hi) then Some(hi)
    else if hi == 0 then None
    else ScanParagraph(chars, lo, hi - 1)
  }

  function ScanSentence(chars: string, lo: nat, hi: nat): (r: Option<nat>)
    ensures r.Some? ==> LastSentence(chars, lo, hi, r.value)
    ensures r.None? ==> forall p :: lo <= p <= hi ==> !FollowsSentence(chars, p)
    decreases hi
  {
    if hi < lo then None
    else if FollowsSentence(chars, hi) then Some(hi)
    else if hi == 0 then None
    else ScanSentence(chars, lo, hi - 1)
  }

  /** Its own choice of a window's end: the text's end if in reach, else the best breakpoint found by scanning back. */
  function OldEnd(s: Settings, chars: string, start: nat): nat {
    var lo, hi := start + s.minChunk, start + s.chunkSize;
    if hi >= |chars| then |chars|
    else if ScanHeading(chars, lo, hi).Some? then ScanHeading(chars, lo, hi).value
    else if ScanParagraph(chars, lo, hi).Some? then ScanParagraph(chars, lo, hi).value
    else if ScanSentence(chars, lo, hi).Some? then ScanSentence(chars, lo, hi).value
    else hi
  }

  /** The two implementations end a window alike. */
  lemma EndsAgree(s: Settings, chars: string, start: nat)
    requires Clamped(s) && start < |chars|
    ensures OldEnd(s, chars, start) == FirstWindow(OldPlan(s), chars, start).end
  {
    hide StartsHeading, FollowsBlankLine, FollowsSentence, BreaksOf, EndOf, BestBetween, OldEnd, CutAt;
    assert PlanFor(s, 1) == OldPlan(s) && LeastLength(s, 1) == s.minChunk && ChunkSize(s, 1) == s.chunkSize;
    EndIsRight(s, 1, chars, start);
    var lo, hi := start + s.minChunk, start + s.chunkSize;
    OldEndIsCut(s, chars, start);
    assert EndsRight(s, 1, chars, FirstWindow(OldPlan(s), chars, start));
    var w := FirstWindow(OldPlan(s), chars, start);
    if hi < |chars| {
      assert CutAt(chars, lo, hi, w.end);
      CutIsUnique(chars, lo, hi, OldEnd(s, chars, start), w.end);
    } else {
      assert w.end == |chars|;
    }
  }

  lemma OldEndIsCut(s: Settings, chars: string, start: nat)
    ensures if start + s.chunkSize >= |chars| then OldEnd(s, chars, start) == |chars|
            else CutAt(chars, start + s.minChunk, start + s.chunkSize, OldEnd(s, chars, start))
  {
    hide StartsHeading, FollowsBlankLine, FollowsSentence;
  }

  lemma OldNextWithin(s: Settings, n: nat, w: Window)
    requires w.start < w.end <= n
    ensures OldNext(s, n, w) <= w.end
  {}

  /** A fragment as both implementations report it. */
  type Triple = (nat, nat, string)

  function OldFragments(s: Settings, chars: string, start: nat): seq<Triple>
    requires Clamped(s)
    decreases |chars| - start
  {
    if start >= |chars| then []
    else
      EndsAgree(s, chars, start);
      WindowBounds(OldPlan(s), BreaksOf(chars), |chars|, start);
      var w := Window(start, OldEnd(s, chars, start));
      var t := Trimmed(chars, w.start, w.end);
      (if t.start < t.end then [(t.start, t.end, chars[t.start..t.end])] else [])
      + if w.end >= |chars| then [] else OldFragments(s, chars, OldNext(s, |chars|, w))
  }

  function Triples(fs: seq<Fragment>): seq<Triple> {
    seq(|fs|, i requires 0 <= i < |fs| => (fs[i].charStart, fs[i].charEnd, fs[i].content))
  }

  function NewFragments(s: Settings, chars: string): seq<Triple>
    requires Clamped(s)
  {
    Triples(FragmentsOf(s, chars, MinStepFor(|chars|)))
  }

  // ---- When the progress floor never binds ----

  /** The shortest window whose quarter exceeds one character. */
  function Critical(s: Settings): nat { Max(s.minChunk, 8) }

  /** No window the settings allow has a quarter that reaches past its overlap. */
  predicate FloorNeverBinds(s: Settings) {
    Critical(s) > s.chunkSize || Critical(s) - Critical(s) / 4 >= s.overlap
  }

  lemma DefaultsNeverBind()
    ensures FloorNeverBinds(DEFAULTS)
  {}

  /** The condition in the settings' own terms: a minimum chunk long enough for its overlap. */
  lemma LongMinimumNeverBinds(s: Settings)
    requires s.minChunk - s.minChunk / 4 >= s.overlap
    ensures FloorNeverBinds(s)
  {}

  lemma SameNext(s: Settings, n: nat, w: Window)
    requires Clamped(s) && FloorNeverBinds(s)
    requires w.start + s.minChunk <= w.end <= w.start + s.chunkSize && w.end < n
    ensures NextStart(OldPlan(s), n, w) == OldNext(s, n, w)
  {}

  lemma {:induction false} SameFragments(s: Settings, chars: string, start: nat, index: nat)
    requires Clamped(s) && FloorNeverBinds(s)
    ensures Triples(From(OldPlan(s), chars, start, index)) == OldFragments(s, chars, start)
    decreases |chars| - start
  {
    hide BreaksOf, EndOf, From, Trimmed, NextStart, OldNext, OldFragments, Triples, EmitOne;
    var p := OldPlan(s);
    TriplesJoin([], []);
    OldStep(s, chars, start);
    if start >= |chars| {
      NothingFrom(p, chars, start, index);
    } else {
      FromStep(p, chars, start, index);
      WindowBounds(p, BreaksOf(chars), |chars|, start);
      var w := FirstWindow(p, chars, start);
      var one := EmitOne(chars, w, index);
      OneTriple(chars, w, index);
      if w.end < |chars| {
        SameNext(s, |chars|, w);
        var next := NextStart(p, |chars|, w);
        SameFragments(s, chars, next, index + |one|);
        TriplesJoin(one, From(p, chars, next, index + |one|));
      } else {
        assert Triples(one) + [] == Triples(one) && one + [] == one;
      }
    }
  }

  lemma TriplesJoin(a: seq<Fragment>, b: seq<Fragment>)
    ensures Triples(a + b) == Triples(a) + Triples(b)
    ensures Triples([]) == []
  {}

  lemma OldStep(s: Settings, chars: string, start: nat)
    requires Clamped(s)
    ensures start >= |chars| ==> OldFragments(s, chars, start) == []
    ensures start < |chars| ==>
              var w := FirstWindow(OldPlan(s), chars, start);
              && start < w.end <= |chars|
              && var t := Trimmed(chars, w.start, w.end);
              OldFragments(s, chars, start) ==
              (if t.start < t.end then [(t.start, t.end, chars[t.start..t.end])] else [])
              + if w.end >= |chars| then [] else OldFragments(s, chars, OldNext(s, |chars|, w))
  {
    hide BreaksOf, EndOf, Trimmed, OldNext, OldEnd;
    if start < |chars| {
      EndsAgree(s, chars, start);
      WindowBounds(OldPlan(s), BreaksOf(chars), |chars|, start);
    }
  }

  lemma OneTriple(chars: string, w: Window, index: nat)
    requires w.start <= w.end <= |chars|
    ensures var t := Trimmed(chars, w.start, w.end);
            Triples(EmitOne(chars, w, index)) == if t.start < t.end then [(t.start, t.end, chars[t.start..t.end])]
                else []
  {}

  /** Below the fragment cap, settings whose floor never binds fragment every document as before. */
  lemma RefinesOld(s: Settings, chars: string)
    requires Clamped(s) && FloorNeverBinds(s) && |chars| <= MAX_FRAGMENTS_PER_DOCUMENT
    ensures NewFragments(s, chars) == OldFragments(s, chars, 0)
  {
    assert PlanFor(s, MinStepFor(|chars|)) == OldPlan(s);
    SameFragments(s, chars, 0, 0);
  }

  // ---- When it binds ----

  /** A document whose only breakpoint closes a window of critical length. */
  function Witness(s: Settings): string { OneSentence(Critical(s), s.chunkSize + 1) }

  lemma WitnessFirstWindow(s: Settings)
    requires Clamped(s) && !FloorNeverBinds(s)
    ensures FirstWindow(OldPlan(s), Witness(s), 0) == Window(0, Critical(s))
    ensures Trimmed(Witness(s), 0, Critical(s)) == Window(0, Critical(s))
  {
    OneSentenceWindow(OldPlan(s), Critical(s), s.chunkSize + 1);
  }

  /** A window that starts on a visible character yields a fragment starting there. */
  lemma StartsVisible(p: Plan, chars: string, start: nat, index: nat)
    requires ValidPlan(p) && start < |chars| && !IsWhitespace(chars[start])
    ensures From(p, chars, start, index) != [] && From(p, chars, start, index)[0].charStart == start
  {
    hide Windows, Emit, BreaksOf, EndOf, NextStart, From;
    FromStep(p, chars, start, index);
  }

  lemma OldStartsVisible(s: Settings, chars: string, start: nat)
    requires Clamped(s) && start < |chars| && !IsWhitespace(chars[start])
    ensures OldFragments(s, chars, start) != [] && OldFragments(s, chars, start)[0].0 == start
  {
    hide BreaksOf, EndOf, OldFragments;
    OldStep(s, chars, start);
  }

  lemma WitnessNexts(s: Settings)
    requires Clamped(s) && !FloorNeverBinds(s)
    ensures var n, w := s.chunkSize + 1, Window(0, Critical(s));
            && |Witness(s)| == n <= MAX_FRAGMENTS_PER_DOCUMENT && w.end < n
            && OldNext(s, n, w) < NextStart(OldPlan(s), n, w) < w.end - 1
            && forall i :: 0 <= i < w.end - 1 ==> !IsWhitespace(Witness(s)[i])
  {}

  lemma NewSecondStart(s: Settings, chars: string, w: Window)
    requires Clamped(s) && 0 < |chars| <= MAX_FRAGMENTS_PER_DOCUMENT
    requires w == FirstWindow(OldPlan(s), chars, 0) && w.end < |chars| && Trimmed(chars, 0, w.end) == w
    requires !IsWhitespace(chars[NextStart(OldPlan(s), |chars|, w)])
    ensures |NewFragments(s, chars)| > 1 && NewFragments(s, chars)[1].0 == NextStart(OldPlan(s), |chars|, w)
  {
    hide Windows, Emit, BreaksOf, EndOf, NextStart, From;
    var p := OldPlan(s);
    assert PlanFor(s, MinStepFor(|chars|)) == p;
    FragmentsOfFrom(s, chars, MinStepFor(|chars|));
    FromStep(p, chars, 0, 0);
    StartsVisible(p, chars, NextStart(p, |chars|, w), 1);
  }

  lemma OldSecondStart(s: Settings, chars: string, w: Window)
    requires Clamped(s) && 0 < |chars|
    requires w == FirstWindow(OldPlan(s), chars, 0) && w.end < |chars| && Trimmed(chars, 0, w.end) == w
    requires !IsWhitespace(chars[OldNext(s, |chars|, w)])
    ensures |OldFragments(s, chars, 0)| > 1 && OldFragments(s, chars, 0)[1].0 == OldNext(s, |chars|, w)
  {
    hide BreaksOf, EndOf, OldNext, OldFragments, Trimmed;
    OldStep(s, chars, 0);
    OldNextWithin(s, |chars|, w);
    OldStartsVisible(s, chars, OldNext(s, |chars|, w));
  }

  /** When the floor binds, the second fragments of the witness start at different characters. */
  lemma WitnessDiffers(s: Settings)
    requires Clamped(s) && !FloorNeverBinds(s)
    ensures |Witness(s)| <= MAX_FRAGMENTS_PER_DOCUMENT
    ensures NewFragments(s, Witness(s)) != OldFragments(s, Witness(s), 0)
  {
    hide NewFragments, OldFragments, BreaksOf, EndOf, NextStart, OldNext, Witness, Trimmed;
    WitnessFirstWindow(s);
    WitnessNexts(s);
    NewSecondStart(s, Witness(s), Window(0, Critical(s)));
    OldSecondStart(s, Witness(s), Window(0, Critical(s)));
  }

  /** Exactly the settings whose floor never binds reproduce the previous fragments on every document below the cap. */
  lemma RefinesOldExactly(s: Settings)
    requires Clamped(s)
    ensures FloorNeverBinds(s) <==>
            forall chars :: |chars| <= MAX_FRAGMENTS_PER_DOCUMENT ==>
                NewFragments(s, chars) == OldFragments(s, chars, 0)
  {
    hide NewFragments, OldFragments, FloorNeverBinds, Witness;
    if FloorNeverBinds(s) {
      forall chars | |chars| <= MAX_FRAGMENTS_PER_DOCUMENT ensures NewFragments(s, chars) == OldFragments(s, chars, 0) {
        RefinesOld(s, chars);
      }
    } else {
      WitnessDiffers(s);
    }
  }
}
