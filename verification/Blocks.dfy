/** Fragmenting a parsed document block by block, on one fragment budget. */
module Blocks {
  import opened Basics
  import opened Text
  import opened BlockOrder
  import opened Fragmenter
  import opened FragmentProperties

  /** A chunk, the block it carries the metadata of, and its range inside that block's body. */
  datatype Chunk = Chunk(index: nat, block: Option<Block>, content: string, range: Option<(nat, nat)>)

  /** The blocks with visible text, with that text. */
  function Bodies(blocks: seq<Block>): seq<(Block, string)> {
    if blocks == [] then []
    else
      (if BlockBody(blocks[0]).Some? && HasText(BlockBody(blocks[0]).value)
       then [(blocks[0], BlockBody(blocks[0]).value)] else [])
      + Bodies(blocks[1..])
  }

  function TotalLength(bodies: seq<(Block, string)>): nat {
    if bodies == [] then 0 else |bodies[0].1| + TotalLength(bodies[1..])
  }

  predicate IsLongParagraph(s: Settings, b: Block, body: string) {
    b.blockType == "paragraph" && |body| > s.chunkSize
  }

  function Numbered(fs: seq<Fragment>, block: Option<Block>, index: nat): seq<Chunk> {
    seq(|fs|, i requires 0 <= i < |fs| => Chunk(index + i, block, fs[i].content,
        Some((fs[i].charStart, fs[i].charEnd))))
  }

  /** The chunks of one block. */
  function BlockChunks(s: Settings, step: nat, b: Block, body: string, index: nat): seq<Chunk>
    requires Clamped(s)
  {
    if IsLongParagraph(s, b, body) then Numbered(FragmentsOf(s, body, step), Some(b), index)
    else [Chunk(index, Some(b), body, None)]
  }

  function ChunksOf(s: Settings, step: nat, bodies: seq<(Block, string)>, index: nat): seq<Chunk>
    requires Clamped(s)
    decreases |bodies|
  {
    if bodies == [] then []
    else
      var here := BlockChunks(s, step, bodies[0].0, bodies[0].1, index);
      here + ChunksOf(s, step, bodies[1..], index + |here|)
  }

  /** The visible bodies of a document, in reading order. */
  function OrderedBodies(blocks: seq<Block>): seq<(Block, string)> { Bodies(SortBlocks(blocks)) }

  /** The chunks of a document: of its blocks in reading order, or of its text when it has none. */
  function DocumentChunks(s: Settings, content: string, blocks: seq<Block>): seq<Chunk>
    requires Clamped(s)
  {
    if blocks == [] then Numbered(FragmentsOf(s, content, MinStepFor(|content|)), None, 0)
    else ChunksOf(s, MinStepFor(TotalLength(OrderedBodies(blocks))), OrderedBodies(blocks), 0)
  }

  method VisibleBodies(ordered: seq<Block>) returns (bodies: seq<(Block, string)>, total: nat)
    ensures bodies == Bodies(ordered) && total == TotalLength(bodies)
  {
    hide HasText, BlockBody;
    bodies, total := [], 0;
    for i := 0 to |ordered|
      invariant Bodies(ordered) == bodies + Bodies(ordered[i..])
      invariant total == TotalLength(bodies)
    {
      assert ordered[i..][0] == ordered[i] && ordered[i..][1..] == ordered[i + 1..];
      ghost var before, rest := bodies, Bodies(ordered[i + 1..]);
      var block := ordered[i];
      assert [] + rest == rest;
      var body := BlockBody(block);
      if body.None? { continue; }
      TrimShape(body.value);
      if Trim(body.value) == "" { continue; }
      bodies := bodies + [(block, body.value)];
      TotalAppends(before, (block, body.value));
      total := total + |body.value|;
      Associative(before, [(block, body.value)], rest);
    }
    assert ordered[|ordered|..] == [] && bodies + [] == bodies;
  }

  method PushBlock(s: Settings, step: nat, block: Block, body: string, chunks: seq<Chunk>) returns (out: seq<Chunk>)
    requires Clamped(s)
    ensures out == chunks + BlockChunks(s, step, block, body, |chunks|)
  {
    hide FragmentsOf;
    out := chunks;
    if block.blockType == "paragraph" && |body| > s.chunkSize {
      var fragments := FragmentWithMinStep(s, body, step);
      for j := 0 to |fragments|
        invariant out == chunks + Numbered(fragments, Some(block), |chunks|)[..j]
      {
        out := out + [Chunk(|out|, Some(block), fragments[j].content,
            Some((fragments[j].charStart, fragments[j].charEnd)))];
      }
    } else {
      out := out + [Chunk(|out|, Some(block), body, None)];
    }
  }

  method FragmentBlocks(s: Settings, content: string, blocks: seq<Block>) returns (chunks: seq<Chunk>)
    requires Clamped(s)
    ensures chunks == DocumentChunks(s, content, blocks)
  {
    hide FragmentsOf, MinStepFor, Bodies, BlockChunks, SortBlocks;
    if blocks == [] {
      var fragments := FragmentDocument(s, content);
      return Numbered(fragments, None, 0);
    }
    var bodies, total := VisibleBodies(SortBlocks(blocks));
    var step := MinStepFor(total);
    chunks := [];
    ghost var all := ChunksOf(s, step, bodies, 0);
    assert [] + all == all;
    for i := 0 to |bodies|
      invariant all == chunks + ChunksOf(s, step, bodies[i..], |chunks|)
    {
      assert bodies[i..][0] == bodies[i] && bodies[i..][1..] == bodies[i + 1..];
      ghost var before := chunks;
      chunks := PushBlock(s, step, bodies[i].0, bodies[i].1, chunks);
      Associative(before, BlockChunks(s, step, bodies[i].0, bodies[i].1, |before|),
          ChunksOf(s, step, bodies[i + 1..], |chunks|));
    }
    assert bodies[|bodies|..] == [] && chunks + [] == chunks;
  }

  lemma {:induction false} TotalAppends(bodies: seq<(Block, string)>, one: (Block, string))
    ensures TotalLength(bodies + [one]) == TotalLength(bodies) + |one.1|
  {
    if bodies == [] {
      assert bodies + [one] == [one];
      assert [one][1..] == [];
    } else {
      assert (bodies + [one])[1..] == bodies[1..] + [one];
      TotalAppends(bodies[1..], one);
    }
  }

  // ---- One budget for the whole document ----

  /** A visible text has at least one fragment, and at most one per step it begins. */
  lemma FragmentCount(s: Settings, body: string, step: nat)
    requires Clamped(s) && step >= 1
    ensures |FragmentsOf(s, body, step)| <= (|body| + step - 1) / step
    ensures HasText(body) ==> FragmentsOf(s, body, step) != []
  {
    hide FragmentsOf, From, PlanFor;
    var p := PlanFor(s, step);
    PlanIsValid(s, step);
    FragmentsOfFrom(s, body, step);
    StepOfPlan(s, step);
    Ceiling(|body|, step);
    CountBound(p, body, 0, 0, (|body| + step - 1) / step);
    if HasText(body) {
      var c :| 0 <= c < |body| && !IsWhitespace(body[c]);
      CoversVisible(p, body, 0, 0, c);
    }
  }

  lemma StepOfPlan(s: Settings, step: nat)
    requires step >= 1
    ensures PlanFor(s, step).minStep == step
  {}

  lemma Ceiling(n: nat, step: nat)
    requires step >= 1
    ensures (n + step - 1) / step * step >= n
    ensures n >= 1 ==> ((n + step - 1) / step - 1) * step <= n - 1
  {
    var q := (n + step - 1) / step;
    assert q * step == n + step - 1 - (n + step - 1) % step;
    assert (q - 1) * step == q * step - step;
  }

  /** Chunks of a block sequence, times the step, stay within its length and one step per block. */
  lemma {:induction false} ChunkBudget(s: Settings, step: nat, bodies: seq<(Block, string)>, index: nat)
    requires Clamped(s) && step >= 1
    requires forall i :: 0 <= i < |bodies| ==> HasText(bodies[i].1)
    ensures |ChunksOf(s, step, bodies, index)| >= |bodies|
    ensures (|ChunksOf(s, step, bodies, index)| - |bodies|) * step <= TotalLength(bodies)
    decreases |bodies|
  {
    hide FragmentsOf, HasText, IsLongParagraph;
    if bodies != [] {
      var (b, body) := bodies[0];
      var here := BlockChunks(s, step, b, body, index);
      FragmentCount(s, body, step);
      Ceiling(|body|, step);
      ChunkBudget(s, step, bodies[1..], index + |here|);
      var rest := |ChunksOf(s, step, bodies[1..], index + |here|)|;
      assert HasText(body) && |body| >= 1 by { TextIsNonempty(body); }
      assert (|here| - 1) * step <= |body| by {
        if IsLongParagraph(s, b, body) {
          MulMono(|here| - 1, (|body| + step - 1) / step - 1, step);
        } else {
          assert |here| - 1 == 0;
        }
      }
      assert (|here| + rest - |bodies|) * step == (|here| - 1) * step + (rest - (|bodies| - 1)) * step;
    }
  }

  lemma TextIsNonempty(s: string)
    requires HasText(s)
    ensures |s| >= 1
  {}

  lemma MulMono(a: int, b: int, step: nat)
    requires a <= b
    ensures a * step <= b * step
  {}

  /** The chunk carries the block, and the whole body or the stretch of it that its range names. */
  predicate Fits(c: Chunk, b: Block, body: string) {
    && c.block == Some(b)
    && match c.range
       case None => c.content == body
       case Some((x, y)) => x < y <= |body| && c.content == body[x..y]
  }

  predicate Shows(c: Chunk, at: nat) {
    match c.range case None => true case Some((x, y)) => x <= at < y
  }

  /** The chunks in [from, to), at least one, fit the block, and together show every visible character of its body. */
  predicate RunOf(chunks: seq<Chunk>, b: Block, body: string, from: nat, to: nat) {
    && from < to <= |chunks| && (forall i :: from <= i < to ==> Fits(chunks[i], b, body))
    && forall at :: 0 <= at < |body| && !IsWhitespace(body[at]) ==> ShownIn(chunks, from, to, at)
  }

  predicate ShownIn(chunks: seq<Chunk>, from: nat, to: nat, at: nat)
    requires to <= |chunks|
  {
    exists i :: from <= i < to && Shows(chunks[i], at)
  }

  /** Whose chunk each one is: cut points between the blocks' runs of chunks. */
  predicate CutsAt(chunks: seq<Chunk>, bodies: seq<(Block, string)>, cuts: seq<nat>) {
    && |cuts| == |bodies| + 1 && cuts[0] == 0 && cuts[|bodies|] == |chunks|
    && forall b :: 0 <= b < |bodies| ==> RunOf(chunks, bodies[b].0, bodies[b].1, cuts[b], cuts[b + 1])
  }

  lemma FragmentsShowBody(s: Settings, step: nat, b: Block, body: string, index: nat)
    requires Clamped(s) && step >= 1 && HasText(body)
    ensures var chunks := Numbered(FragmentsOf(s, body, step), Some(b), index);
            RunOf(chunks, b, body, 0, |chunks|)
  {
    var p := PlanFor(s, step);
    PlanIsValid(s, step);
    FragmentsOfFrom(s, body, step);
    FragmentCount(s, body, step);
    FragmentsWellFormed(p, body, 0, 0);
    hide FragmentsOf, From, PlanFor, HasText, EstimateTokens;
    var fs := FragmentsOf(s, body, step);
    var chunks := Numbered(fs, Some(b), index);
    forall i | 0 <= i < |chunks| ensures Fits(chunks[i], b, body) {
      assert WellFormed(body, fs[i]);
    }
    forall at | 0 <= at < |body| && !IsWhitespace(body[at]) ensures ShownIn(chunks, 0, |chunks|, at) {
      CoversVisible(p, body, 0, 0, at);
      var f :| f in fs && Covers(f, at);
      var i :| 0 <= i < |fs| && fs[i] == f;
      assert Shows(chunks[i], at);
    }
  }

  lemma BlockIsShown(s: Settings, step: nat, b: Block, body: string, index: nat)
    requires Clamped(s) && step >= 1 && HasText(body)
    ensures var chunks := BlockChunks(s, step, b, body, index);
            RunOf(chunks, b, body, 0, |chunks|) && forall i :: 0 <= i < |chunks| ==> chunks[i].index == index + i
  {
    hide FragmentsOf, HasText;
    if IsLongParagraph(s, b, body) {
      hide RunOf;
      FragmentsShowBody(s, step, b, body, index);
    } else {
      var one := Chunk(index, Some(b), body, None);
      assert BlockChunks(s, step, b, body, index) == [one];
      forall at | 0 <= at < |body| ensures ShownIn([one], 0, 1, at) {
        assert Shows([one][0], at);
      }
    }
  }

  lemma {:induction false} BlocksInOrder(s: Settings, step: nat, bodies: seq<(Block, string)>, index: nat)
    returns (cuts: seq<nat>)
    requires Clamped(s) && step >= 1
    requires forall i :: 0 <= i < |bodies| ==> HasText(bodies[i].1)
    ensures var chunks := ChunksOf(s, step, bodies, index);
            && CutsAt(chunks, bodies, cuts)
            && forall i :: 0 <= i < |chunks| ==> chunks[i].index == index + i
    decreases |bodies|
  {
    hide FragmentsOf, HasText, CutsAt, RunOf, BlockChunks;
    if bodies == [] {
      cuts := [0];
      NoCuts();
    } else {
      var (b, body) := bodies[0];
      var here := BlockChunks(s, step, b, body, index);
      assert HasText(body);
      BlockIsShown(s, step, b, body, index);
      var later := BlocksInOrder(s, step, bodies[1..], index + |here|);
      var rest := ChunksOf(s, step, bodies[1..], index + |here|);
      cuts := [0] + seq(|later|, i requires 0 <= i < |later| => |here| + later[i]);
      CutsPrepend(here, rest, bodies, later, cuts);
      assert forall i :: |here| <= i < |here + rest| ==> (here + rest)[i] == rest[i - |here|];
    }
  }

  lemma NoCuts()
    ensures CutsAt([], [], [0])
  {}

  lemma RunExtends(here: seq<Chunk>, rest: seq<Chunk>, b: Block, body: string)
    requires RunOf(here, b, body, 0, |here|)
    ensures RunOf(here + rest, b, body, 0, |here|)
  {
    hide Fits, Shows;
    var all := here + rest;
    assert forall i :: 0 <= i < |here| ==> all[i] == here[i];
    forall at | 0 <= at < |body| && !IsWhitespace(body[at]) ensures ShownIn(all, 0, |here|, at) {
      var i :| 0 <= i < |here| && Shows(here[i], at);
      assert Shows(all[i], at);
    }
  }

  lemma RunShifts(here: seq<Chunk>, rest: seq<Chunk>, b: Block, body: string, from: nat, to: nat)
    requires RunOf(rest, b, body, from, to)
    ensures RunOf(here + rest, b, body, |here| + from, |here| + to)
  {
    hide Fits, Shows;
    var all, n := here + rest, |here|;
    assert forall i :: n <= i < |all| ==> all[i] == rest[i - n];
    forall at | 0 <= at < |body| && !IsWhitespace(body[at]) ensures ShownIn(all, n + from, n + to, at) {
      var i :| from <= i < to && Shows(rest[i], at);
      assert Shows(all[n + i], at);
    }
  }

  lemma CutsPrepend(
    here: seq<Chunk>, rest: seq<Chunk>, bodies: seq<(Block, string)>, later: seq<nat>, cuts: seq<nat>)
    requires bodies != [] && RunOf(here, bodies[0].0, bodies[0].1, 0, |here|)
    requires CutsAt(rest, bodies[1..], later)
    requires cuts == [0] + seq(|later|, i requires 0 <= i < |later| => |here| + later[i])
    ensures CutsAt(here + rest, bodies, cuts)
  {
    hide RunOf;
    var chunks := here + rest;
    assert forall b :: 1 <= b < |cuts| ==> cuts[b] == |here| + later[b - 1];
    forall b | 0 <= b < |bodies| ensures RunOf(chunks, bodies[b].0, bodies[b].1, cuts[b], cuts[b + 1]) {
      if b > 0 {
        assert bodies[1..][b - 1] == bodies[b];
        RunShifts(here, rest, bodies[b].0, bodies[b].1, later[b - 1], later[b]);
      } else {
        assert later[0] == 0;
        RunExtends(here, rest, bodies[0].0, bodies[0].1);
      }
    }
  }

  /** Every block with a body contributes it, and the text of each is visible. */
  lemma {:induction false} BodiesVisible(blocks: seq<Block>)
    ensures forall i :: 0 <= i < |Bodies(blocks)| ==> HasText(Bodies(blocks)[i].1)
    ensures forall b :: b in blocks && BlockBody(b).Some? ==> (b, BlockBody(b).value) in Bodies(blocks)
  {
    hide HasText, BlockBody;
    if blocks != [] {
      BodiesVisible(blocks[1..]);
      VisibleIfAny(blocks[0]);
    }
  }

  lemma VisibleIfAny(b: Block)
    ensures BlockBody(b).Some? ==> HasText(BlockBody(b).value)
  {
    BodyIsVisible(b);
  }

  /**
   * A block document yields at most the cap plus one chunk per visible block, however many long paragraphs share it.
   * Chunks are numbered from zero and run through the visible blocks in reading order, stably; each block's chunks
   * carry its body, whole or by ranges, and show every visible character of it.
   */
  lemma BlockDocumentGuarantees(s: Settings, content: string, blocks: seq<Block>) returns (cuts: seq<nat>)
    requires Clamped(s) && blocks != []
    ensures var ordered := SortBlocks(blocks);
            InReadingOrder(ordered) && forall k :: WithKey(ordered, k) == WithKey(blocks, k)
    ensures var chunks := DocumentChunks(s, content, blocks);
            && |chunks| <= MAX_FRAGMENTS_PER_DOCUMENT + |OrderedBodies(blocks)|
            && (forall i :: 0 <= i < |chunks| ==> chunks[i].index == i)
            && CutsAt(chunks, OrderedBodies(blocks), cuts)
  {
    hide FragmentsOf, CutsAt, ChunksOf, Bodies, SortBlocks, WithKey, InReadingOrder, BlockBody, KeyLe, KeyOf, HasText;
    SortIsStable(blocks);
    var bodies := OrderedBodies(blocks);
    var total := TotalLength(bodies);
    var step := MinStepFor(total);
    BodiesVisible(SortBlocks(blocks));
    ChunkBudget(s, step, bodies, 0);
    cuts := BlocksInOrder(s, step, bodies, 0);
    var extra := |ChunksOf(s, step, bodies, 0)| - |bodies|;
    if extra > MAX_FRAGMENTS_PER_DOCUMENT {
      MulMono(MAX_FRAGMENTS_PER_DOCUMENT + 1, extra, step);
      assert false;
    }
  }

  // ---- What is split and what is not ----

  /** A paragraph longer than a chunk is split into chunks that are not; any other body is one chunk. */
  lemma OnlyLongParagraphsAreSplit(s: Settings, step: nat, b: Block, body: string, index: nat)
    requires Clamped(s) && step >= 1
    ensures var chunks := BlockChunks(s, step, b, body, index);
            if b.blockType == "paragraph" && |body| > s.chunkSize
            then forall i :: 0 <= i < |chunks| ==>
                   chunks[i].range.Some?
                   && |chunks[i].content| <= if s.chunkSize >= step then s.chunkSize else step
            else |chunks| == 1 && chunks[0].range.None? && chunks[0].content == body
  {
    PlanIsValid(s, step);
    FragmentsOfFrom(s, body, step);
    FragmentsAreShort(PlanFor(s, step), body, 0, 0);
    hide FragmentsOf, From;
  }

  /** A document without blocks is chunked as its text is fragmented. */
  lemma NoBlocksNoMetadata(s: Settings, content: string)
    requires Clamped(s)
    ensures var fs, chunks := FragmentsOf(s, content, MinStepFor(|content|)), DocumentChunks(s, content, []);
            && |chunks| == |fs|
            && forall i :: 0 <= i < |fs| ==>
                 chunks[i] == Chunk(i, None, fs[i].content, Some((fs[i].charStart, fs[i].charEnd)))
  {
    hide FragmentsOf;
  }
}
