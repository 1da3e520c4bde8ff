/** Strings as the service sees them: sequences of Unicode scalar values, measured in UTF-8 bytes. */
module Text {
  datatype Option<+T> = None | Some(value: T)

  /** A failure-compatible result: `:-` propagates Err. */
  datatype Result<+T, +E> = Ok(value: T) | Err(error: E) {
    predicate IsFailure() { Err? }

    function PropagateFailure<U>(): Result<U, E>
      requires Err?
    {
      Err(error)
    }

    function Extract(): T
      requires Ok?
    {
      value
    }
  }

  /** The White_Space property used by char::is_whitespace and str::trim. */
  predicate IsWhitespace(c: char) {
    var n := c as int;
    9 <= n <= 13 || n == 0x20 || n == 0x85 || n == 0xA0 || n == 0x1680 || 0x2000 <= n <= 0x200A
    || n == 0x2028 || n == 0x2029 || n == 0x202F || n == 0x205F || n == 0x3000
  }

  /** General category Cc, used by char::is_control. */
  predicate IsControl(c: char) {
    var n := c as int;
    n < 0x20 || 0x7F <= n <= 0x9F
  }

  function Utf8Len(c: char): (n: nat)
    ensures 1 <= n <= 4
  {
    var n := c as int;
    if n < 0x80 then 1 else if n < 0x800 then 2 else if n < 0x1_0000 then 3 else 4
  }

  /** String::len: the length of the UTF-8 encoding. */
  function ByteLen(s: string): nat {
    if s == [] then 0 else Utf8Len(s[0]) + ByteLen(s[1..])
  }

  lemma {:induction false} ByteLenAppend(v: string, w: string)
    ensures ByteLen(v + w) == ByteLen(v) + ByteLen(w)
  {
    if v == "" {
      assert v + w == w;
    } else {
      ByteLenAppend(v[1..], w);
      assert (v + w)[1..] == v[1..] + w;
    }
  }

  predicate HasText(s: string) {
    exists i :: 0 <= i < |s| && !IsWhitespace(s[i])
  }

  function TrimStart(s: string): string {
    if s != [] && IsWhitespace(s[0]) then TrimStart(s[1..]) else s
  }

  function TrimEnd(s: string): string {
    if s != [] && IsWhitespace(s[|s| - 1]) then TrimEnd(s[..|s| - 1]) else s
  }

  function Trim(s: string): string {
    TrimEnd(TrimStart(s))
  }

  lemma {:induction false} TrimStartIsSuffix(s: string) returns (k: nat)
    ensures k <= |s| && TrimStart(s) == s[k..]
    ensures forall i :: 0 <= i < k ==> IsWhitespace(s[i])
    ensures k < |s| ==> !IsWhitespace(s[k])
  {
    if s != [] && IsWhitespace(s[0]) {
      var j := TrimStartIsSuffix(s[1..]);
      k := j + 1;
      assert forall i :: 1 <= i < k ==> s[i] == s[1..][i - 1];
    } else {
      k := 0;
    }
  }

  lemma {:induction false} TrimEndIsPrefix(s: string) returns (k: nat)
    ensures k <= |s| && TrimEnd(s) == s[..k]
    ensures forall i :: k <= i < |s| ==> IsWhitespace(s[i])
    ensures k > 0 ==> !IsWhitespace(s[k - 1])
  {
    if s != [] && IsWhitespace(s[|s| - 1]) {
      k := TrimEndIsPrefix(s[..|s| - 1]);
      assert s[..|s| - 1][..k] == s[..k];
    } else {
      k := |s|;
    }
  }

  /** A trimmed string is empty exactly when nothing in it is visible; it never starts or ends with white space. */
  lemma TrimShape(s: string)
    ensures Trim(s) == "" <==> !HasText(s)
    ensures Trim(s) != "" ==> !IsWhitespace(Trim(s)[0]) && !IsWhitespace(Trim(s)[|Trim(s)| - 1])
    ensures forall c :: c in Trim(s) ==> c in s
  {
    var a := TrimStartIsSuffix(s);
    var b := TrimEndIsPrefix(s[a..]);
    assert Trim(s) == s[a..][..b];
    assert forall i :: a <= i < |s| ==> s[i] == s[a..][i - a];
  }

  lemma TrimIsIdempotent(s: string)
    ensures Trim(Trim(s)) == Trim(s)
  {
    TrimShape(s);
  }

  function Concat(parts: seq<string>): string {
    if parts == [] then "" else parts[0] + Concat(parts[1..])
  }

  lemma {:induction false} ConcatAppend(a: seq<string>, b: seq<string>)
    ensures Concat(a + b) == Concat(a) + Concat(b)
  {
    if a == [] {
      assert a + b == b;
    } else {
      assert (a + b)[1..] == a[1..] + b;
      ConcatAppend(a[1..], b);
    }
  }

  lemma HasTextAppend(a: string, b: string)
    ensures HasText(a + b) <==> HasText(a) || HasText(b)
  {
    var s := a + b;
    if HasText(a) { var i :| 0 <= i < |a| && !IsWhitespace(a[i]); assert s[i] == a[i]; }
    if HasText(b) { var i :| 0 <= i < |b| && !IsWhitespace(b[i]); assert s[|a| + i] == b[i]; }
    if HasText(s) {
      var i :| 0 <= i < |s| && !IsWhitespace(s[i]);
      if i < |a| { assert a[i] == s[i]; } else { assert b[i - |a|] == s[i]; }
    }
  }

  /** Position of the first occurrence, as Iterator::position and str::find report it. */
  function IndexOf<T(==)>(s: seq<T>, x: T): (r: Option<nat>)
    ensures r.None? <==> x !in s
    ensures r.Some? ==> r.value < |s| && s[r.value] == x && x !in s[..r.value]
  {
    if s == [] then None
    else if s[0] == x then Some(0)
    else
      var rest := IndexOf(s[1..], x);
      if rest.None? then None else
      assert s[..rest.value + 1] == [s[0]] + s[1..][..rest.value];
      Some(rest.value + 1)
  }

  lemma IndexAt(s: string, c: char, i: nat)
    requires i < |s| && s[i] == c && c !in s[..i]
    ensures IndexOf(s, c) == Some(i)
  {
    assert forall j :: 0 <= j < i ==> s[..i][j] == s[j];
    var k := IndexOf(s, c);
    assert k.Some?;
    assert forall j :: 0 <= j < k.value ==> s[..k.value][j] == s[j];
  }

  function Join(lines: seq<string>, separator: string): string {
    if lines == [] then ""
    else if |lines| == 1 then lines[0]
    else lines[0] + separator + Join(lines[1..], separator)
  }

  /** Trimming takes white space off both ends, and nothing else. */
  lemma TrimIsInner(s: string) returns (before: string, after: string)
    ensures s == before + Trim(s) + after
    ensures forall c :: c in before || c in after ==> IsWhitespace(c)
    ensures Trim(s) != "" ==> !IsWhitespace(Trim(s)[0]) && !IsWhitespace(Trim(s)[|Trim(s)| - 1])
  {
    hide IsWhitespace, TrimStart, TrimEnd;
    var a := TrimStartIsSuffix(s);
    var b := TrimEndIsPrefix(s[a..]);
    before, after := s[..a], s[a + b..];
    assert Trim(s) == s[a..][..b];
    assert s[a..] == s[a..][..b] + s[a..][b..] && s[a..][b..] == after && s == s[..a] + s[a..];
    assert forall i :: 0 <= i < |after| ==> after[i] == s[a..][b + i];
    TrimShape(s);
  }

  /** The lines of a text: what stands between its line feeds. */
  function SplitLines(s: string): seq<string>
    decreases |s|
  {
    match IndexOf(s, '\n')
    case None => [s]
    case Some(i) => [s[..i]] + SplitLines(s[i + 1..])
  }

  lemma FirstLine(line: string, rest: string)
    requires '\n' !in line
    ensures SplitLines(line + "\n" + rest) == [line] + SplitLines(rest)
  {
    var s := line + "\n" + rest;
    assert s[..|line|] == line && s[|line|] == '\n' && s[|line| + 1..] == rest;
    IndexAt(s, '\n', |line|);
  }

  lemma OneLineSplits(line: string)
    requires '\n' !in line
    ensures SplitLines(line) == [line]
  {}

  /** Joining lines by line feeds loses none of them. */
  lemma {:induction false} JoinedLinesSplit(lines: seq<string>)
    requires lines != [] && forall i :: 0 <= i < |lines| ==> '\n' !in lines[i]
    ensures SplitLines(Join(lines, "\n")) == lines
  {
    hide SplitLines;
    if |lines| == 1 {
      OneLineSplits(lines[0]);
      assert lines == [lines[0]];
    } else {
      JoinedLinesSplit(lines[1..]);
      FirstLine(lines[0], Join(lines[1..], "\n"));
      assert lines == [lines[0]] + lines[1..];
    }
  }

  /** The white space of the program's text functions, by code point. */
  lemma WhiteSpaceIs(c: char)
    ensures IsWhitespace(c) <==>
            c as int in {0x09, 0x0A, 0x0B, 0x0C, 0x0D, 0x20, 0x85, 0xA0, 0x1680, 0x2028, 0x2029, 0x202F, 0x205F, 0x3000}
            || 0x2000 <= c as int <= 0x200A
  {}

  /** A character's length in UTF-8, and its place among the control characters, by code point. */
  lemma CharacterIs(c: char)
    ensures Utf8Len(c) == (if c as int <= 0x7F then 1 else if c as int <= 0x7FF then 2
                           else if c as int <= 0xFFFF then 3 else 4)
    ensures IsControl(c) <==> c as int <= 0x1F || 0x7F <= c as int <= 0x9F
  {}

  /** Lengths add up, character by character. */
  lemma ByteLenOne(c: char, rest: string)
    ensures ByteLen([c] + rest) == Utf8Len(c) + ByteLen(rest)
  {
    assert ([c] + rest)[1..] == rest;
  }
}
