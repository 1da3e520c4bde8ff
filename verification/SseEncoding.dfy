/** A server-sent-events encoder, and the round trip through the incremental parser. */
module SseEncoding {
  import opened Text
  import opened Sse

  /** What a sender puts on one line, decoded the way the parser decodes it. */
  type Encoder = string -> seq<Byte>

  predicate Plain(line: string) { '\n' !in line && (line != "" ==> line[|line| - 1] != '\r') }

  /** The encoder is undone by the decoder, and plain text becomes plain bytes. */
  ghost predicate Encodes(utf8: Utf8, enc: Encoder) {
    forall t :: Plain(t) ==> utf8(enc(t)) == Some(t) && LF !in enc(t) && (enc(t) != [] ==> enc(t)[|enc(t)| - 1] != CR)
  }

  /** A message to send: its name, if any, and its data, a line at a time. */
  datatype Outgoing = Outgoing(event: Option<string>, lines: seq<string>)

  predicate Sendable(o: Outgoing) {
    && o.lines != [] && (forall i :: 0 <= i < |o.lines| ==> Plain(o.lines[i]))
    && (o.event.Some? ==> Plain(o.event.value))
  }

  function Received(o: Outgoing): SseMessage { SseMessage(o.event, Join(o.lines, "\n")) }

  function DataFields(lines: seq<string>): seq<string> {
    seq(|lines|, i requires 0 <= i < |lines| => "data: " + lines[i])
  }

  function FieldLines(o: Outgoing): seq<string> {
    (if o.event.Some? then ["event: " + o.event.value] else []) + DataFields(o.lines) + [""]
  }

  function AllLines(os: seq<Outgoing>): seq<string> {
    if os == [] then [] else FieldLines(os[0]) + AllLines(os[1..])
  }

  function Bytes(enc: Encoder, lines: seq<string>): seq<Byte> {
    if lines == [] then [] else enc(lines[0]) + [LF] + Bytes(enc, lines[1..])
  }

  function Encode(enc: Encoder, os: seq<Outgoing>): seq<Byte> { Bytes(enc, AllLines(os)) }

  /** Encoded lines are read back as lines. */
  lemma {:induction false} LinesArrive(utf8: Utf8, enc: Encoder, f: Fields, lines: seq<string>)
    requires Encodes(utf8, enc) && forall i :: 0 <= i < |lines| ==> Plain(lines[i])
    ensures Feed(utf8, SseState([], f), Bytes(enc, lines)) ==
            Some((SseState([], FoldLines(f, lines).0), FoldLines(f, lines).1))
    decreases |lines|
  {
    if lines != [] {
      hide Feed, LineStep;
      var line, rest := enc(lines[0]), Bytes(enc, lines[1..]);
      assert Plain(lines[0]) && DropCr(line) == line;
      FeedLine(utf8, f, line, rest);
      LinesArrive(utf8, enc, LineStep(f, lines[0]).0, lines[1..]);
    }
  }

  lemma {:induction false} FoldConcat(f: Fields, a: seq<string>, b: seq<string>)
    ensures var (f1, x) := FoldLines(f, a);
            var (f2, y) := FoldLines(f1, b);
            FoldLines(f, a + b) == (f2, x + y)
    decreases |a|
  {
    hide LineStep;
    if a == [] {
      assert a + b == b;
      assert [] + FoldLines(f, b).1 == FoldLines(f, b).1;
    } else {
      assert (a + b)[0] == a[0] && (a + b)[1..] == a[1..] + b;
      FoldConcat(LineStep(f, a[0]).0, a[1..], b);
      var (f1, x) := FoldLines(LineStep(f, a[0]).0, a[1..]);
      assert LineStep(f, a[0]).1 + (x + FoldLines(f1, b).1) == (LineStep(f, a[0]).1 + x) + FoldLines(f1, b).1;
    }
  }

  lemma FieldOf(name: string, value: string)
    requires name in {"event", "data"}
    ensures var line := name + ": " + value;
            line != "" && line[0] != ':' && FieldName(line) == name && FieldValue(line) == value
  {
    var line := name + ": " + value;
    assert line[..|name|] == name && line[|name|] == ':' && ':' !in name;
    IndexAt(line, ':', |name|);
    assert line[|name| + 1..] == " " + value;
  }

  lemma DataLine(f: Fields, value: string)
    ensures LineStep(f, "data: " + value) == (f.(dataLines := f.dataLines + [value]), [])
  {
    hide FieldName, FieldValue;
    FieldOf("data", value);
    assert "data" + ": " + value == "data: " + value;
  }

  lemma EventLine(f: Fields, value: string)
    ensures LineStep(f, "event: " + value) == (f.(event := Some(value)), [])
  {
    hide FieldName, FieldValue;
    FieldOf("event", value);
    assert "event" + ": " + value == "event: " + value;
  }

  lemma OneLine(f: Fields, line: string)
    ensures FoldLines(f, [line]) == LineStep(f, line)
  {
    hide LineStep;
    assert [line][1..] == [];
    assert FoldLines(LineStep(f, line).0, []) == (LineStep(f, line).0, []);
    assert LineStep(f, line).1 + [] == LineStep(f, line).1;
  }

  lemma {:induction false} DataArrives(f: Fields, lines: seq<string>)
    ensures FoldLines(f, DataFields(lines)) == (f.(dataLines := f.dataLines + lines), [])
    decreases |lines|
  {
    hide LineStep;
    if lines == [] {
      assert f.dataLines + lines == f.dataLines;
    } else {
      DataLine(f, lines[0]);
      var f1 := f.(dataLines := f.dataLines + [lines[0]]);
      DataArrives(f1, lines[1..]);
      OneLine(f, "data: " + lines[0]);
      FoldConcat(f, ["data: " + lines[0]], DataFields(lines[1..]));
      assert DataFields(lines) == ["data: " + lines[0]] + DataFields(lines[1..]);
      assert f1.dataLines + lines[1..] == f.dataLines + lines;
    }
  }

  lemma NameArrives(o: Outgoing)
    ensures FoldLines(NO_FIELDS, if o.event.Some? then ["event: " + o.event.value] else []) == (Fields(o.event, []), [])
  {
    hide LineStep;
    if o.event.Some? {
      EventLine(NO_FIELDS, o.event.value);
      OneLine(NO_FIELDS, "event: " + o.event.value);
    }
  }

  lemma BlankArrives(f: Fields)
    requires f.dataLines != []
    ensures FoldLines(f, [""]) == (NO_FIELDS, [SseMessage(f.event, Join(f.dataLines, "\n"))])
  {
    OneLine(f, "");
  }

  /** The lines of one message, read from a fresh state, dispatch exactly that message. */
  lemma MessageArrives(o: Outgoing)
    requires Sendable(o)
    ensures FoldLines(NO_FIELDS, FieldLines(o)) == (NO_FIELDS, [Received(o)])
  {
    hide FoldLines, Join;
    var name := if o.event.Some? then ["event: " + o.event.value] else [];
    NameArrives(o);
    var named := Fields(o.event, []);
    DataArrives(named, o.lines);
    assert named.(dataLines := named.dataLines + o.lines) ==
        Fields(o.event, o.lines) by { assert [] + o.lines == o.lines; }
    assert FoldLines(NO_FIELDS, name) == (named, []);
    var none: seq<SseMessage> := [];
    assert none + none == none;
    FoldConcat(NO_FIELDS, name, DataFields(o.lines));
    FoldConcat(NO_FIELDS, name + DataFields(o.lines), [""]);
    assert FoldLines(NO_FIELDS, name + DataFields(o.lines)) == (Fields(o.event, o.lines), []);
    BlankArrives(Fields(o.event, o.lines));
    assert [] + [Received(o)] == [Received(o)];
    assert FieldLines(o) == name + DataFields(o.lines) + [""];
  }

  function AllReceived(os: seq<Outgoing>): seq<SseMessage> {
    seq(|os|, i requires 0 <= i < |os| => Received(os[i]))
  }

  lemma {:induction false} MessagesArrive(os: seq<Outgoing>)
    requires forall i :: 0 <= i < |os| ==> Sendable(os[i])
    ensures FoldLines(NO_FIELDS, AllLines(os)) == (NO_FIELDS, AllReceived(os))
  {
    hide LineStep, FieldLines, Received;
    if os == [] {
      assert AllReceived(os) == [];
    } else {
      MessageArrives(os[0]);
      MessagesArrive(os[1..]);
      FoldConcat(NO_FIELDS, FieldLines(os[0]), AllLines(os[1..]));
      assert AllReceived(os) == [Received(os[0])] + AllReceived(os[1..]);
    }
  }

  lemma {:induction false} LinesArePlain(os: seq<Outgoing>)
    requires forall i :: 0 <= i < |os| ==> Sendable(os[i])
    ensures forall i :: 0 <= i < |AllLines(os)| ==> Plain(AllLines(os)[i])
  {
    if os != [] {
      FieldLinesArePlain(os[0]);
      LinesArePlain(os[1..]);
      hide FieldLines, Plain, Sendable;
      var head, tail := FieldLines(os[0]), AllLines(os[1..]);
      assert AllLines(os) == head + tail;
    }
  }

  lemma FieldLinesArePlain(o: Outgoing)
    requires Sendable(o)
    ensures forall i :: 0 <= i < |FieldLines(o)| ==> Plain(FieldLines(o)[i])
  {
    if o.event.Some? { PrefixIsPlain("event: ", o.event.value); }
    forall i | 0 <= i < |o.lines| ensures Plain("data: " + o.lines[i]) {
      PrefixIsPlain("data: ", o.lines[i]);
    }
  }

  lemma PrefixIsPlain(prefix: string, line: string)
    requires Plain(prefix) && prefix != "" && Plain(line)
    ensures Plain(prefix + line)
  {
    var s := prefix + line;
    assert s[|s| - 1] == if line == "" then prefix[|prefix| - 1] else line[|line| - 1];
  }

  /** Whatever a sender encodes, the parser dispatches, message for message, and nothing is left pending. */
  lemma SentIsReceived(utf8: Utf8, enc: Encoder, os: seq<Outgoing>)
    requires Encodes(utf8, enc) && forall i :: 0 <= i < |os| ==> Sendable(os[i])
    ensures Feed(utf8, FRESH, Encode(enc, os)) == Some((FRESH, AllReceived(os)))
  {
    LinesArePlain(os);
    LinesArrive(utf8, enc, NO_FIELDS, AllLines(os));
    MessagesArrive(os);
  }
}
