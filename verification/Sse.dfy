/**
 * The incremental server-sent-events parser of the provider stream: bytes are buffered up to a line
 * feed, each completed line is decoded and folded into the pending message, and an empty line
 * dispatches the message (section 9.2.6 of the WHATWG HTML Living Standard, without a bare carriage
 * return, `id` or `retry`).
 */
module Sse {
  import opened Text

  newtype Byte = x: int | 0 <= x < 256

  const LF: Byte := 10
  const CR: Byte := 13

  /** UTF-8 decoding of one line; None stands for ill-formed input. */
  type Utf8 = seq<Byte> -> Option<string>

  datatype SseMessage = SseMessage(event: Option<string>, data: string)

  /** The fields collected since the last dispatched message. */
  datatype Fields = Fields(event: Option<string>, dataLines: seq<string>)

  datatype SseState = SseState(lineBuffer: seq<Byte>, fields: Fields)

  const NO_FIELDS := Fields(None, [])
  const FRESH := SseState([], NO_FIELDS)

  function DropCr(line: seq<Byte>): seq<Byte> {
    if line != [] && line[|line| - 1] == CR then line[..|line| - 1] else line
  }

  function FieldName(line: string): string {
    match IndexOf(line, ':')
    case None => line
    case Some(i) => line[..i]
  }

  function FieldValue(line: string): string {
    match IndexOf(line, ':')
    case None => ""
    case Some(i) =>
      var v := line[i + 1..];
      if v != "" && v[0] == ' ' then v[1..] else v
  }

  /** One decoded line: the new pending fields and the message it dispatches, if any. */
  function LineStep(f: Fields, line: string): (Fields, seq<SseMessage>) {
    if line == "" then
      (NO_FIELDS, if f.dataLines == [] then [] else [SseMessage(f.event, Join(f.dataLines, "\n"))])
    else if line[0] == ':' then (f, [])
    else if FieldName(line) == "event" then (f.(event := Some(FieldValue(line))), [])
    else if FieldName(line) == "data" then (f.(dataLines := f.dataLines + [FieldValue(line)]), [])
    else (f, [])
  }

  /** One byte of the stream. None: the line it completes is not UTF-8. */
  function ByteStep(utf8: Utf8, s: SseState, b: Byte): Option<(SseState, seq<SseMessage>)> {
    if b != LF then Some((s.(lineBuffer := s.lineBuffer + [b]), []))
    else
      match utf8(DropCr(s.lineBuffer))
      case None => None
      case Some(line) =>
        var (f, out) := LineStep(s.fields, line);
        Some((SseState([], f), out))
  }

  /** The byte-at-a-time automaton; it knows nothing of chunks. */
  function Feed(utf8: Utf8, s: SseState, bytes: seq<Byte>): Option<(SseState, seq<SseMessage>)>
    decreases |bytes|
  {
    if bytes == [] then Some((s, []))
    else
      match ByteStep(utf8, s, bytes[0])
      case None => None
      case Some((s1, out)) =>
        match Feed(utf8, s1, bytes[1..])
        case None => None
        case Some((s2, more)) => Some((s2, out + more))
  }

  /** Continue a partial result with more bytes. */
  function Then(utf8: Utf8, r: Option<(SseState, seq<SseMessage>)>, bytes: seq<Byte>)
    : Option<(SseState, seq<SseMessage>)>
  {
    match r
    case None => None
    case Some((s, out)) =>
      match Feed(utf8, s, bytes)
      case None => None
      case Some((s', more)) => Some((s', out + more))
  }

  lemma {:induction false} FeedConcat(utf8: Utf8, s: SseState, a: seq<Byte>, b: seq<Byte>)
    ensures Feed(utf8, s, a + b) == Then(utf8, Feed(utf8, s, a), b)
    decreases |a|
  {
    if a == [] {
      assert a + b == b;
      var r := Feed(utf8, s, b);
      assert r.Some? ==> [] + r.value.1 == r.value.1;
    } else {
      assert (a + b)[0] == a[0] && (a + b)[1..] == a[1..] + b;
      var step := ByteStep(utf8, s, a[0]);
      if step.Some? {
        FeedConcat(utf8, step.value.0, a[1..], b);
        var r := Feed(utf8, step.value.0, a[1..]);
        if r.Some? && Feed(utf8, r.value.0, b).Some? {
          var m := Feed(utf8, r.value.0, b).value.1;
          assert step.value.1 + (r.value.1 + m) == (step.value.1 + r.value.1) + m;
        }
      }
    }
  }

  lemma {:induction false} FeedPartialLine(utf8: Utf8, s: SseState, a: seq<Byte>)
    requires LF !in a
    ensures Feed(utf8, s, a) == Some((s.(lineBuffer := s.lineBuffer + a), []))
    decreases |a|
  {
    if a == [] {
      assert s.lineBuffer + a == s.lineBuffer;
    } else {
      assert LF !in a[1..] && a[0] in a;
      var next := s.(lineBuffer := s.lineBuffer + [a[0]]);
      FeedPartialLine(utf8, next, a[1..]);
      assert next.lineBuffer + a[1..] == s.lineBuffer + a;
      var rest := Feed(utf8, next, a[1..]).value.1;
      assert [] + rest == rest;
    }
  }

  /** A whole line is decoded and folded at its line feed. */
  lemma FeedLine(utf8: Utf8, f: Fields, line: seq<Byte>, rest: seq<Byte>)
    requires LF !in line
    ensures Feed(utf8, SseState([], f), line + [LF] + rest) ==
            match utf8(DropCr(line))
            case None => None
            case Some(text) => Then(utf8, Some((SseState([], LineStep(f, text).0), LineStep(f, text).1)), rest)
  {
    var s := SseState([], f);
    FeedPartialLine(utf8, s, line);
    assert [] + line == line;
    assert line + [LF] + rest == line + ([LF] + rest);
    FeedConcat(utf8, s, line, [LF] + rest);
    assert ([LF] + rest)[1..] == rest;
    var r := Feed(utf8, SseState(line, f), [LF] + rest);
    assert r.Some? ==> [] + r.value.1 == r.value.1;
  }

  class IncrementalSseDecoder {
    const utf8: Utf8
    var lineBuffer: seq<Byte>
    var event: Option<string>
    var dataLines: seq<string>

    ghost predicate Valid() reads this { LF !in lineBuffer }

    function Pending(): Fields reads this { Fields(event, dataLines) }

    function State(): SseState reads this { SseState(lineBuffer, Pending()) }

    constructor (utf8: Utf8)
      ensures this.utf8 == utf8 && Valid() && State() == FRESH
    {
      this.utf8 := utf8;
      lineBuffer, event, dataLines := [], None, [];
    }

    /** Messages completed by one chunk. On an error the caller discards the decoder. */
    method Push(chunk: seq<Byte>) returns (r: Result<seq<SseMessage>, ()>)
      requires Valid()
      modifies this
      ensures r.Ok? <==> Feed(utf8, old(State()), chunk).Some?
      ensures r.Ok? ==> Valid() && Feed(utf8, old(State()), chunk) == Some((State(), r.value))
    {
      hide Feed, LineStep, DropCr;
      ghost var start, f0 := lineBuffer, Pending();
      FeedPartialLine(utf8, SseState([], f0), start);
      assert [] + start == start;
      FeedConcat(utf8, SseState([], f0), start, chunk);
      ghost var total := Feed(utf8, State(), chunk);
      assert total.Some? ==> [] + total.value.1 == total.value.1;
      lineBuffer := lineBuffer + chunk;
      var messages := [];
      assert [] + (if total.Some? then total.value.1 else []) == if total.Some? then total.value.1 else [];
      while true
        invariant total == Then(utf8, Some((SseState([], Pending()), messages)), lineBuffer)
        decreases |lineBuffer|
      {
        var newline := IndexOf(lineBuffer, LF);
        if newline.None? { break; }
        var n := newline.value;
        var line := lineBuffer[..n];
        ghost var all, f, before := lineBuffer, Pending(), messages;
        assert all == line + [LF] + all[n + 1..];
        lineBuffer := lineBuffer[n + 1..];
        FeedLine(utf8, f, line, lineBuffer);
        var text := utf8(DropCr(line));
        if text.None? { return Err(()); }
        messages := ProcessLine(text.value, messages);
        ghost var rest := Feed(utf8, SseState([], Pending()), lineBuffer);
        if rest.Some? {
          assert before + (LineStep(f, text.value).1 + rest.value.1) == messages + rest.value.1;
        }
      }
      FeedPartialLine(utf8, SseState([], Pending()), lineBuffer);
      assert [] + lineBuffer == lineBuffer;
      assert messages + [] == messages;
      r := Ok(messages);
    }

    method ProcessLine(line: string, messages: seq<SseMessage>) returns (out: seq<SseMessage>)
      modifies this`event, this`dataLines
      ensures Pending() == LineStep(old(Pending()), line).0
      ensures out == messages + LineStep(old(Pending()), line).1
    {
      out := messages;
      if line == "" {
        if dataLines != [] {
          out := out + [SseMessage(event, Join(dataLines, "\n"))];
          event, dataLines := None, [];
        } else {
          event := None;
        }
        return;
      }
      if line[0] == ':' { return; }
      match FieldName(line) {
        case "event" => event := Some(FieldValue(line));
        case "data" => dataLines := dataLines + [FieldValue(line)];
        case _ =>
      }
    }

    /** End of stream: nothing may be left half-read. */
    method Finish() returns (ok: bool)
      ensures ok <==> State() == FRESH
    {
      ok := lineBuffer == [] && event.None? && dataLines == [];
    }
  }

  /** The same stream read a line at a time: the lines of a text body, as str::lines yields them. */
  function BodyLines(utf8: Utf8, body: seq<Byte>): Option<seq<string>>
    decreases |body|
  {
    match IndexOf(body, LF)
    case None =>
      if body == [] then Some([])
      else (match utf8(body) case None => None case Some(t) => Some([t]))
    case Some(n) =>
      match (utf8(DropCr(body[..n])), BodyLines(utf8, body[n + 1..]))
      case (Some(t), Some(rest)) => Some([t] + rest)
      case _ => None
  }

  function FoldLines(f: Fields, lines: seq<string>): (Fields, seq<SseMessage>)
    decreases |lines|
  {
    if lines == [] then (f, [])
    else
      var (f1, out) := LineStep(f, lines[0]);
      var (f2, more) := FoldLines(f1, lines[1..]);
      (f2, out + more)
  }

  /** A body that ends at a line boundary is the fold of its lines. */
  lemma {:induction false} FeedIsFoldOfLines(utf8: Utf8, f: Fields, body: seq<Byte>)
    requires var r := Feed(utf8, SseState([], f), body); r.Some? && r.value.0.lineBuffer == []
    ensures BodyLines(utf8, body).Some?
    ensures var r := Feed(utf8, SseState([], f), body).value;
            FoldLines(f, BodyLines(utf8, body).value) == (r.0.fields, r.1)
    decreases |body|
  {
    var newline := IndexOf(body, LF);
    if newline.None? {
      FeedPartialLine(utf8, SseState([], f), body);
      assert [] + body == body;
    } else {
      var n := newline.value;
      var line, rest := body[..n], body[n + 1..];
      assert body == line + [LF] + rest;
      FeedLine(utf8, f, line, rest);
      var text := utf8(DropCr(line)).value;
      FeedIsFoldOfLines(utf8, LineStep(f, text).0, rest);
      assert ([text] + BodyLines(utf8, rest).value)[1..] == BodyLines(utf8, rest).value;
    }
  }

  // ---- What a line means ----

  /** A comment, or a line under a name the parser does not know, changes nothing and dispatches nothing. */
  lemma SilentLines(f: Fields, name: string, rest: string)
    requires ':' !in name && name != "event" && name != "data"
    ensures name + ":" + rest != "" ==> LineStep(f, name + ":" + rest) == (f, [])
    ensures name != "" ==> LineStep(f, name) == (f, [])
  {
    var line := name + ":" + rest;
    assert line[|name|] == ':' && line[..|name|] == name;
    IndexAt(line, ':', |name|);
    assert name != "" ==> line[0] == name[0] && name[0] in name;
  }

  /** One space after the colon is not part of the value; a second one is, and none is needed. */
  lemma OneSpaceIsDropped(f: Fields, value: string)
    ensures var line := "data:" + value;
            LineStep(f, line) == (f.(dataLines := f.dataLines + [WithoutSpace(value)]), [])
    ensures LineStep(f, "event:" + value) == (f.(event := Some(WithoutSpace(value))), [])
  {
    hide FieldName, FieldValue, WithoutSpace;
    NamedLine("data", value);
    NamedLine("event", value);
    assert "data" + ":" + value == "data:" + value && "event" + ":" + value == "event:" + value;
  }

  function WithoutSpace(value: string): string {
    if value != "" && value[0] == ' ' then value[1..] else value
  }

  lemma NamedLine(name: string, value: string)
    requires name in {"event", "data"}
    ensures var line := name + ":" + value;
            && line != "" && line[0] != ':' && FieldName(line) == name
            && FieldValue(line) == WithoutSpace(value)
  {
    var line := name + ":" + value;
    assert line[..|name|] == name && line[|name|] == ':' && ':' !in name;
    IndexAt(line, ':', |name|);
    assert line[|name| + 1..] == value;
  }

  /** A blank line dispatches what is pending, if it has data, and always starts over. */
  lemma BlankLineDispatches(f: Fields)
    ensures LineStep(f, "") ==
            (Fields(None, []), if f.dataLines == [] then [] else [SseMessage(f.event, Join(f.dataLines, "\n"))])
  {}

  /** A line may end in a carriage return and a line feed, or in a line feed alone. */
  lemma CarriageReturnIsDropped(utf8: Utf8, f: Fields, line: seq<Byte>, rest: seq<Byte>)
    requires LF !in line && (line != [] ==> line[|line| - 1] != CR)
    ensures Feed(utf8, SseState([], f), line + [CR] + [LF] + rest) == Feed(utf8, SseState([], f), line + [LF] + rest)
  {
    hide Feed, LineStep;
    assert (line + [CR])[..|line|] == line;
    assert DropCr(line + [CR]) == line && DropCr(line) == line;
    FeedLine(utf8, f, line + [CR], rest);
    FeedLine(utf8, f, line, rest);
  }
}
