/** Parsed blocks, the text each contributes, and the reading order a document's blocks are brought into. */
module BlockOrder {
  import opened Text

  type u32 = x: int | 0 <= x < 0x1_0000_0000

  const LAST_PAGE: u32 := 0xFFFF_FFFF

  datatype Block = Block(
    id: string, blockType: string, readingOrder: u32, page: Option<u32>, text: Option<string>, html: Option<string>,
    latex: Option<string>, imageRef: Option<string>, caption: Option<string>, footnote: Option<string>)

  // ---- The text of a block ----

  /** A field, if it is there and visible. */
  function Shown(field: Option<string>): seq<string> {
    if field.Some? && HasText(field.value) then [field.value] else []
  }

  function OrElse(first: seq<string>, second: seq<string>): seq<string> {
    if first != [] then first else second
  }

  function MainParts(b: Block): seq<string> {
    if b.blockType == "table" then OrElse(Shown(b.html), Shown(b.text))
    else if b.blockType == "equation" then OrElse(Shown(b.latex), Shown(b.text))
    else if b.blockType == "image" || b.blockType == "chart" then Shown(b.caption) + Shown(b.text) + Shown(b.imageRef)
    else OrElse(Shown(b.text), OrElse(Shown(b.html), Shown(b.latex)))
  }

  /** The caption is added unless a part already is that text. */
  function BodyParts(b: Block): seq<string> {
    var main := MainParts(b);
    var captioned := if Shown(b.caption) != [] && b.caption.value !in main then main + [b.caption.value] else main;
    captioned + Shown(b.footnote)
  }

  function BlockBody(b: Block): Option<string> {
    if BodyParts(b) == [] then None else Some(Join(BodyParts(b), "\n\n"))
  }

  lemma {:induction false} JoinedIsVisible(parts: seq<string>, separator: string, i: nat)
    requires i < |parts| && HasText(parts[i])
    ensures HasText(Join(parts, separator))
    decreases |parts|
  {
    if |parts| > 1 {
      var rest := Join(parts[1..], separator);
      HasTextAppend(parts[0], separator);
      HasTextAppend(parts[0] + separator, rest);
      if i > 0 { JoinedIsVisible(parts[1..], separator, i - 1); }
    }
  }

  lemma ShownIsVisible(field: Option<string>)
    ensures forall part :: part in Shown(field) ==> HasText(part)
  {}

  /** A block has a body exactly when it has a part to show, and then the body is visible. */
  lemma BodyIsVisible(b: Block)
    ensures BlockBody(b).Some? ==> HasText(BlockBody(b).value)
    ensures forall part :: part in BodyParts(b) ==> HasText(part)
  {
    hide HasText, Shown;
    ShownIsVisible(b.text);
    ShownIsVisible(b.html);
    ShownIsVisible(b.latex);
    ShownIsVisible(b.imageRef);
    ShownIsVisible(b.caption);
    ShownIsVisible(b.footnote);
    CaptionShown(b);
    if BodyParts(b) != [] { JoinedIsVisible(BodyParts(b), "\n\n", 0); }
  }

  lemma CaptionShown(b: Block)
    ensures Shown(b.caption) != [] ==> b.caption.Some? && b.caption.value in Shown(b.caption)
  {}

  // ---- Reading order ----

  datatype Key = Key(readingOrder: u32, page: u32, id: string)

  function KeyOf(b: Block): Key {
    Key(b.readingOrder, if b.page.Some? then b.page.value else LAST_PAGE, b.id)
  }

  /** Strings compare as their UTF-8 encodings do, which is by scalar values. */
  predicate StringLe(a: string, b: string) {
    if a == "" then true
    else if b == "" then false
    else a[0] < b[0] || (a[0] == b[0] && StringLe(a[1..], b[1..]))
  }

  predicate KeyLe(a: Key, b: Key) {
    || a.readingOrder < b.readingOrder
    || (a.readingOrder == b.readingOrder && a.page < b.page)
    || (a.readingOrder == b.readingOrder && a.page == b.page && StringLe(a.id, b.id))
  }

  lemma {:induction false} StringsAreOrdered(a: string, b: string, c: string)
    ensures StringLe(a, b) || StringLe(b, a)
    ensures StringLe(a, b) && StringLe(b, a) ==> a == b
    ensures StringLe(a, b) && StringLe(b, c) ==> StringLe(a, c)
    decreases |a| + |b| + |c|
  {
    if a != "" && b != "" {
      StringsAreOrdered(a[1..], b[1..], if c == "" then c else c[1..]);
      assert a == [a[0]] + a[1..] && b == [b[0]] + b[1..];
    }
  }

  /** Keys are totally ordered. */
  lemma KeysAreOrdered(a: Key, b: Key, c: Key)
    ensures KeyLe(a, b) || KeyLe(b, a)
    ensures KeyLe(a, b) && KeyLe(b, a) ==> a == b
    ensures KeyLe(a, b) && KeyLe(b, c) ==> KeyLe(a, c)
  {
    hide StringLe;
    StringsAreOrdered(a.id, b.id, c.id);
  }

  /** Before the first block that does not come earlier. */
  function Insert(b: Block, sorted: seq<Block>): seq<Block> {
    if sorted == [] || KeyLe(KeyOf(b), KeyOf(sorted[0])) then [b] + sorted
    else [sorted[0]] + Insert(b, sorted[1..])
  }

  /** What the source's stable sort by key yields. */
  function SortBlocks(blocks: seq<Block>): seq<Block> {
    if blocks == [] then [] else Insert(blocks[0], SortBlocks(blocks[1..]))
  }

  predicate InReadingOrder(blocks: seq<Block>) {
    forall i, j :: 0 <= i < j < |blocks| ==> KeyLe(KeyOf(blocks[i]), KeyOf(blocks[j]))
  }

  /** The blocks with one key, in the order they stand. */
  function WithKey(blocks: seq<Block>, k: Key): seq<Block> {
    if blocks == [] then [] else (if KeyOf(blocks[0]) == k then [blocks[0]] else []) + WithKey(blocks[1..], k)
  }

  lemma PrependInOrder(b: Block, rest: seq<Block>)
    requires InReadingOrder(rest) && forall x :: x in rest ==> KeyLe(KeyOf(b), KeyOf(x))
    ensures InReadingOrder([b] + rest)
  {
    hide KeyLe, KeyOf;
    assert forall i :: 0 <= i < |rest| ==> ([b] + rest)[i + 1] == rest[i] && rest[i] in rest;
  }

  lemma {:induction false} InsertKeepsOrder(b: Block, sorted: seq<Block>)
    requires InReadingOrder(sorted)
    ensures InReadingOrder(Insert(b, sorted)) && forall x :: x in Insert(b, sorted) <==> x == b || x in sorted
    decreases |sorted|
  {
    hide KeyLe, KeyOf;
    if sorted == [] {
      PrependInOrder(b, []);
    } else if KeyLe(KeyOf(b), KeyOf(sorted[0])) {
      forall x | x in sorted ensures KeyLe(KeyOf(b), KeyOf(x)) {
        var i :| 0 <= i < |sorted| && sorted[i] == x;
        KeysAreOrdered(KeyOf(b), KeyOf(sorted[0]), KeyOf(x));
      }
      PrependInOrder(b, sorted);
    } else {
      KeysAreOrdered(KeyOf(b), KeyOf(sorted[0]), KeyOf(b));
      var rest := Insert(b, sorted[1..]);
      InsertKeepsOrder(b, sorted[1..]);
      assert forall x :: x in sorted[1..] ==> exists i :: 0 < i < |sorted| && sorted[i] == x;
      PrependInOrder(sorted[0], rest);
    }
  }

  lemma {:induction false} InsertIsStable(b: Block, sorted: seq<Block>, k: Key)
    ensures WithKey(Insert(b, sorted), k) == (if KeyOf(b) == k then [b] else []) + WithKey(sorted, k)
    decreases |sorted|
  {
    hide KeyLe, KeyOf;
    if sorted == [] || KeyLe(KeyOf(b), KeyOf(sorted[0])) {
      assert ([b] + sorted)[1..] == sorted;
    } else {
      KeysAreOrdered(KeyOf(b), KeyOf(b), KeyOf(b));
      InsertIsStable(b, sorted[1..], k);
      assert ([sorted[0]] + Insert(b, sorted[1..]))[1..] == Insert(b, sorted[1..]);
    }
  }

  /** The sort orders the blocks and is stable: blocks with the same key stand as they stood. */
  lemma {:induction false} SortIsStable(blocks: seq<Block>)
    ensures InReadingOrder(SortBlocks(blocks)) && |SortBlocks(blocks)| == |blocks|
    ensures forall k :: WithKey(SortBlocks(blocks), k) == WithKey(blocks, k)
  {
    hide KeyOf, KeyLe;
    if blocks != [] {
      var rest := SortBlocks(blocks[1..]);
      SortIsStable(blocks[1..]);
      InsertKeepsOrder(blocks[0], rest);
      InsertAddsOne(blocks[0], rest);
      forall k ensures WithKey(SortBlocks(blocks), k) == WithKey(blocks, k) {
        InsertIsStable(blocks[0], rest, k);
      }
    }
  }

  lemma {:induction false} InsertAddsOne(b: Block, sorted: seq<Block>)
    ensures |Insert(b, sorted)| == |sorted| + 1
    decreases |sorted|
  {
    hide KeyOf, KeyLe;
    if sorted != [] && !KeyLe(KeyOf(b), KeyOf(sorted[0])) { InsertAddsOne(b, sorted[1..]); }
  }

  lemma {:induction false} WithKeyHas(blocks: seq<Block>, b: Block)
    ensures b in WithKey(blocks, KeyOf(b)) <==> b in blocks
    ensures forall x, k :: x in WithKey(blocks, k) ==> KeyOf(x) == k && x in blocks
  {
    hide KeyOf;
    if blocks != [] {
      var rest := blocks[1..];
      WithKeyHas(rest, b);
      assert forall x :: x in blocks <==> x == blocks[0] || x in rest;
      assert forall x, k ::
          x in WithKey(blocks, k) <==> (KeyOf(blocks[0]) == k && x == blocks[0]) || x in WithKey(rest, k);
    }
  }

  lemma SmallestKey(a: seq<Block>, b: seq<Block>)
    requires a != [] && InReadingOrder(a) && InReadingOrder(b)
    requires forall k :: WithKey(a, k) == WithKey(b, k)
    ensures b != [] && KeyLe(KeyOf(b[0]), KeyOf(a[0]))
  {
    hide KeyOf, KeyLe;
    WithKeyHas(a, a[0]);
    WithKeyHas(b, a[0]);
    assert a[0] in b;
    var i :| 0 <= i < |b| && b[i] == a[0];
    KeysAreOrdered(KeyOf(a[0]), KeyOf(a[0]), KeyOf(a[0]));
  }

  /** So there is only one such order: any stable sort by this key yields it. */
  lemma {:induction false} StableSortIsUnique(a: seq<Block>, b: seq<Block>)
    requires InReadingOrder(a) && InReadingOrder(b)
    requires forall k :: WithKey(a, k) == WithKey(b, k)
    ensures a == b
    decreases |a| + |b|
  {
    hide KeyOf, KeyLe;
    if a == [] && b == [] { return; }
    if a == [] { SmallestKey(b, a); }
    if b == [] { SmallestKey(a, b); }
    if a != [] && b != [] {
      SmallestKey(a, b);
      SmallestKey(b, a);
      KeysAreOrdered(KeyOf(a[0]), KeyOf(b[0]), KeyOf(a[0]));
      var k0 := KeyOf(a[0]);
      assert WithKey(a, k0)[0] == a[0] && WithKey(b, k0)[0] == b[0];
      forall k ensures WithKey(a[1..], k) == WithKey(b[1..], k) {
        var head := if k0 == k then [a[0]] else [];
        assert WithKey(a, k) == head + WithKey(a[1..], k) && WithKey(b, k) == head + WithKey(b[1..], k);
        assert WithKey(a[1..], k) == WithKey(a, k)[|head|..] && WithKey(b[1..], k) == WithKey(b, k)[|head|..];
      }
      StableSortIsUnique(a[1..], b[1..]);
      assert a == [a[0]] + a[1..] && b == [b[0]] + b[1..];
    }
  }

  // ---- What the parts and the order are ----

  predicate IsShown(field: Option<string>) { field.Some? && HasText(field.value) }

  /** The fields that are shown, in this order. */
  function AllShown(fields: seq<Option<string>>): seq<string> {
    if fields == [] then []
    else (if IsShown(fields[0]) then [fields[0].value] else []) + AllShown(fields[1..])
  }

  /** The first field that is shown, if any. */
  function FirstShown(fields: seq<Option<string>>): seq<string> {
    if fields == [] then [] else if IsShown(fields[0]) then [fields[0].value] else FirstShown(fields[1..])
  }

  /**
   * A table shows its HTML or else its text, an equation its LaTeX or else its text, an image or chart its caption,
   * text and reference, and every other block its text, or else its HTML, or else its LaTeX.
   */
  lemma MainPartsAre(b: Block)
    ensures b.blockType == "table" ==> MainParts(b) == FirstShown([b.html, b.text])
    ensures b.blockType == "equation" ==> MainParts(b) == FirstShown([b.latex, b.text])
    ensures b.blockType in {"image", "chart"} ==> MainParts(b) == AllShown([b.caption, b.text, b.imageRef])
    ensures b.blockType !in {"table", "equation", "image", "chart"} ==>
              MainParts(b) == FirstShown([b.text, b.html, b.latex])
  {
    hide HasText;
    ShownTwo(b.html, b.text);
    ShownTwo(b.latex, b.text);
    ShownThree(b.caption, b.text, b.imageRef);
    ShownThree(b.text, b.html, b.latex);
  }

  lemma ShownMore(f: Option<string>, rest: seq<Option<string>>)
    ensures FirstShown([f] + rest) == OrElse(Shown(f), FirstShown(rest))
    ensures AllShown([f] + rest) == Shown(f) + AllShown(rest)
  {
    hide HasText;
    assert ([f] + rest)[1..] == rest;
  }

  lemma ShownTwo(f: Option<string>, g: Option<string>)
    ensures FirstShown([f, g]) == OrElse(Shown(f), Shown(g)) && AllShown([f, g]) == Shown(f) + Shown(g)
  {
    hide Shown, IsShown;
    ShownMore(g, []);
    ShownMore(f, [g]);
    assert [g] + [] == [g] && [f] + [g] == [f, g] && Shown(g) + [] == Shown(g);
  }

  lemma ShownThree(f: Option<string>, g: Option<string>, h: Option<string>)
    ensures FirstShown([f, g, h]) == OrElse(Shown(f), OrElse(Shown(g), Shown(h)))
    ensures AllShown([f, g, h]) == Shown(f) + Shown(g) + Shown(h)
  {
    hide Shown, IsShown, FirstShown, AllShown;
    ShownTwo(g, h);
    ShownMore(f, [g, h]);
    assert [f] + [g, h] == [f, g, h] && Shown(f) + (Shown(g) + Shown(h)) == Shown(f) + Shown(g) + Shown(h);
  }

  /** After the main parts come a caption that is not among them already, and a footnote. */
  lemma BodyPartsAre(b: Block)
    ensures var main, parts := MainParts(b), BodyParts(b);
            && |main| <= |parts| && parts[..|main|] == main
            && (IsShown(b.caption) && b.caption.value !in main ==> |parts| > |main| && parts[|main|] == b.caption.value)
            && (IsShown(b.footnote) ==> parts != [] && parts[|parts| - 1] == b.footnote.value)
            && |parts| == |main| + (if IsShown(b.caption) && b.caption.value !in main then 1 else 0)
                          + (if IsShown(b.footnote) then 1 else 0)
            && (BlockBody(b).None? <==> parts == [])
  {
    hide HasText;
  }

  /** A part of a joined text stands in it. */
  lemma {:induction false} PartStands(parts: seq<string>, separator: string, i: nat) returns (at: nat)
    requires i < |parts|
    ensures at + |parts[i]| <= |Join(parts, separator)|
    ensures Join(parts, separator)[at..at + |parts[i]|] == parts[i]
    decreases |parts|
  {
    if i == 0 {
      at := 0;
    } else {
      var rest := PartStands(parts[1..], separator, i - 1);
      at := |parts[0]| + |separator| + rest;
      var whole, tail := Join(parts, separator), Join(parts[1..], separator);
      assert whole == (parts[0] + separator) + tail;
      assert whole[at..at + |parts[i]|] == tail[rest..rest + |parts[i]|];
    }
  }

  /** A block's body shows every one of its parts, a paragraph's text among them. */
  lemma PartsStandInBody(b: Block, i: nat) returns (at: nat)
    requires i < |BodyParts(b)|
    ensures BlockBody(b).Some? && at + |BodyParts(b)[i]| <= |BlockBody(b).value|
    ensures BlockBody(b).value[at..at + |BodyParts(b)[i]|] == BodyParts(b)[i]
  {
    hide BodyParts;
    at := PartStands(BodyParts(b), "\n\n", i);
  }

  /** A string comes first that is a beginning of the other, or smaller at the first difference. */
  lemma {:induction false} StringLeIs(a: string, b: string)
    ensures StringLe(a, b) <==> ComesFirst(a, b)
    decreases |a|
  {
    if a == "" {
      assert a[..0] == b[..0] && ComesAt(a, b, 0);
    } else if b == "" {
    } else if a[0] == b[0] {
      StringLeIs(a[1..], b[1..]);
      ComesFirstTail(a, b);
    } else {
      FirstDifference(a, b);
    }
  }

  /** The two agree up to n, where the first ends or has the smaller character. */
  predicate ComesAt(a: string, b: string, n: nat) {
    n <= |a| && n <= |b| && a[..n] == b[..n] && (n == |a| || (n < |b| && a[n] < b[n]))
  }

  ghost predicate ComesFirst(a: string, b: string) { exists n: nat :: ComesAt(a, b, n) }

  lemma ComesFirstTail(a: string, b: string)
    requires a != "" && b != "" && a[0] == b[0]
    ensures ComesFirst(a, b) <==> ComesFirst(a[1..], b[1..])
  {
    if ComesFirst(a, b) {
      var n: nat :| ComesAt(a, b, n);
      assert n > 0;
      assert a[..n][1..] == a[1..][..n - 1] && b[..n][1..] == b[1..][..n - 1];
      assert ComesAt(a[1..], b[1..], n - 1);
    }
    if ComesFirst(a[1..], b[1..]) {
      var n: nat :| ComesAt(a[1..], b[1..], n);
      assert a[..n + 1] == [a[0]] + a[1..][..n] && b[..n + 1] == [b[0]] + b[1..][..n];
      assert ComesAt(a, b, n + 1);
    }
  }

  lemma SameHead(a: string, b: string, n: nat)
    ensures 0 < n <= |a| && n <= |b| && a[..n] == b[..n] ==> a[0] == b[0]
  {
    if 0 < n <= |a| && n <= |b| && a[..n] == b[..n] { assert a[..n][0] == b[..n][0]; }
  }

  lemma FirstDifference(a: string, b: string)
    requires a != "" && b != "" && a[0] != b[0]
    ensures ComesFirst(a, b) <==> a[0] < b[0]
  {
    if ComesFirst(a, b) {
      var n: nat :| ComesAt(a, b, n);
      SameHead(a, b, n);
    }
    if a[0] < b[0] { assert ComesAt(a, b, 0); }
  }

  /** Reading order first, then the page, a missing one last, then the identifier. */
  lemma OrderIs(a: Block, b: Block)
    ensures var pageA: int := if a.page.Some? then a.page.value else 0xFFFF_FFFF;
            var pageB: int := if b.page.Some? then b.page.value else 0xFFFF_FFFF;
            KeyLe(KeyOf(a), KeyOf(b)) <==>
              if a.readingOrder != b.readingOrder then a.readingOrder < b.readingOrder
              else if pageA != pageB then pageA < pageB
              else ComesFirst(a.id, b.id)
  {
    StringLeIs(a.id, b.id);
    hide StringLe, ComesFirst;
  }
}
