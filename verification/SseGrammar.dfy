/**
 What an event stream means, read field by field and block by block, in any of the three
 line endings: the reference that the page's parser and the line-scanner loop are measured
 against, for every well-formed and every unknown field.
 */
module SseGrammar {
  import opened SseParsing
  import opened SseRoundTrip

  datatype Field =
    | Blank
    | Comment(text: string)                                 // ":" text
    | Bare(name: string)                                    // a name without a colon
    | Named(name: string, value: string, spaced: bool)      // name ":" [space] value

  datatype Eol = LF | CRLF | CR

  function FieldText(f: Field): string {
    match f
    case Blank => ""
    case Comment(text) => ":" + text
    case Bare(name) => name
    case Named(name, value, spaced) => name + ":" + (if spaced then " " + value else value)
  }

  function EolText(e: Eol): string {
    match e
    case LF => "\n"
    case CRLF => "\r\n"
    case CR => "\r"
  }

  predicate IsName(s: string) { s != "" && Plain(s) && Lacks(s, ':') }

  predicate FieldOk(f: Field) {
    match f
    case Blank => true
    case Comment(text) => Plain(text)
    case Bare(name) => IsName(name)
    case Named(name, value, spaced) => IsName(name) && Plain(value) && (!spaced ==> value == "" || value[0] != ' ')
  }

  datatype Line = Line(field: Field, eol: Eol)

  /** A CR that the LF of an empty line follows would be read as one ending. */
  predicate Separate(lines: seq<Line>) {
    forall i :: 0 <= i < |lines| ==>
      && FieldOk(lines[i].field)
      && (i + 1 < |lines| && lines[i].eol == CR ==> lines[i + 1] != Line(Blank, LF))
  }

  function Text(lines: seq<Line>): string {
    if lines == [] then "" else FieldText(lines[0].field) + EolText(lines[0].eol) + Text(lines[1..])
  }

  // -------------------------------------------------------------------- meaning

  /** The values given to a name in a block; a bare name gives the empty value. */
  function Values(block: seq<Field>, name: string): seq<string> {
    if block == [] then []
    else
      var f := block[|block| - 1];
      Values(block[..|block| - 1], name)
      + (if f.Named? && f.name == name then [f.value] else if f.Bare? && f.name == name then [""] else [])
  }

  function LastOr(values: seq<string>, default_: string): string {
    if values == [] then default_ else values[|values| - 1]
  }

  /** A block with data is one frame: the last event name that is given, and the data lines. */
  function BlockFrames(block: seq<Field>): seq<Frame> {
    var event, data := LastOr(Values(block, "event"), ""), Values(block, "data");
    if data == [] then [] else [Frame(if event == "" then "message" else event, Join(data))]
  }

  /** Blank lines end blocks, and so does the end of the stream. */
  function Meaning(block: seq<Field>, fields: seq<Field>): seq<Frame>
    decreases |fields|
  {
    if fields == [] then BlockFrames(block)
    else if fields[0].Blank? then BlockFrames(block) + Meaning([], fields[1..])
    else Meaning(block + [fields[0]], fields[1..])
  }

  function Fields(lines: seq<Line>): seq<Field> { if lines == [] then [] else [lines[0].field] + Fields(lines[1..]) }

  function Texts(lines: seq<Line>): seq<string> {
    if lines == [] then [] else [FieldText(lines[0].field)] + Texts(lines[1..])
  }

  // ------------------------------------------------------------- reading the lines

  lemma FieldIsPlain(f: Field)
    requires FieldOk(f)
    ensures Plain(FieldText(f))
    ensures FieldText(f) == "" <==> f.Blank?
  {
  }

  lemma LineCut(field: string, e: Eol, rest: string)
    requires Plain(field) && (e == CR ==> rest == "" || rest[0] != '\n')
    ensures Lines("", field + EolText(e) + rest) == [field] + Lines("", rest)
  {
    var tail := EolText(e) + rest;
    assert field + EolText(e) + rest == field + tail && "" + field == field;
    PlainPrefix("", field, tail);
    assert tail[|EolText(e)|..] == rest;
  }

  lemma SeparateTail(lines: seq<Line>)
    requires Separate(lines) && lines != []
    ensures Separate(lines[1..])
    ensures lines[0].eol == CR ==> Text(lines[1..]) == "" || Text(lines[1..])[0] != '\n'
  {
    var rest := lines[1..];
    assert forall i :: 0 <= i < |rest| ==> rest[i] == lines[i + 1];
    if rest != [] {
      FieldIsPlain(rest[0].field);
      assert Text(rest)[0] == (FieldText(rest[0].field) + EolText(rest[0].eol))[0];
    }
  }

  lemma {:induction false} LinesOfText(lines: seq<Line>)
    requires Separate(lines)
    ensures Lines("", Text(lines)) == Texts(lines)
    decreases |lines|
  {
    if lines != [] {
      SeparateTail(lines);
      FieldIsPlain(lines[0].field);
      LineCut(FieldText(lines[0].field), lines[0].eol, Text(lines[1..]));
      LinesOfText(lines[1..]);
    }
  }

  // ------------------------------------------------------------ reading the fields

  /** The parser's pending event is what the block so far says. */
  ghost predicate Reads(p: Pending, block: seq<Field>) {
    p.event == LastOr(Values(block, "event"), "") && p.data == Values(block, "data")
  }

  lemma NamedField(name: string, value: string, spaced: bool)
    requires FieldOk(Named(name, value, spaced))
    ensures var line := FieldText(Named(name, value, spaced));
            line != "" && line[0] != ':' && FieldName(line) == name && FieldValue(line) == value
  {
    var tail := if spaced then " " + value else value;
    var line := name + ":" + tail;
    ColonAfter(name, tail);
    assert line[0] == name[0] && line[..|name|] == name && line[|name| + 1..] == tail;
    if spaced {
      assert line[|name| + 1] == ' ' && line[|name| + 2..] == value;
    }
  }

  lemma {:induction false} BareField(name: string)
    requires Lacks(name, ':')
    ensures ColonIndex(name) == |name|
    decreases |name|
  {
    if name != "" {
      BareField(name[1..]);
    }
  }

  lemma ValuesSnoc(block: seq<Field>, f: Field, name: string)
    ensures Values(block + [f], name) == Values(block, name)
      + (if f.Named? && f.name == name then [f.value] else if f.Bare? && f.name == name then [""] else [])
  {
    assert (block + [f])[..|block|] == block;
  }

  lemma ConsumeField(p: Pending, block: seq<Field>, f: Field)
    requires Reads(p, block) && FieldOk(f) && !f.Blank?
    ensures var q := Consume(p, FieldText(f)); Reads(q, block + [f]) && q.frames == p.frames
  {
    ValuesSnoc(block, f, "event");
    ValuesSnoc(block, f, "data");
    match f
    case Comment(text) => assert FieldText(f)[0] == ':';
    case Bare(name) => BareField(name);
    case Named(name, value, spaced) => NamedField(name, value, spaced);
  }

  lemma ConsumeBlank(p: Pending, block: seq<Field>)
    requires Reads(p, block)
    ensures var q := Consume(p, ""); Reads(q, []) && q.frames == p.frames + BlockFrames(block)
    ensures AtEnd(p).frames == p.frames + BlockFrames(block)
  {
  }

  lemma {:induction false} ConsumeFields(p: Pending, block: seq<Field>, lines: seq<Line>)
    requires Reads(p, block) && forall i :: 0 <= i < |lines| ==> FieldOk(lines[i].field)
    ensures AtEnd(ConsumeAll(p, Texts(lines))).frames == p.frames + Meaning(block, Fields(lines))
    decreases |lines|
  {
    hide Reads, FieldOk, FieldText, BlockFrames, AtEnd, Consume;
    if lines == [] {
      ConsumeBlank(p, block);
    } else {
      var f, rest := lines[0].field, lines[1..];
      assert Texts(lines)[1..] == Texts(rest) && Fields(lines)[1..] == Fields(rest);
      var q := Consume(p, FieldText(f));
      if f.Blank? {
        BlankText();
        ConsumeBlank(p, block);
        ConsumeFields(q, [], rest);
        Regroup(p.frames, BlockFrames(block), Meaning([], Fields(rest)));
      } else {
        ConsumeField(p, block, f);
        ConsumeFields(q, block + [f], rest);
      }
    }
  }

  lemma BlankText()
    ensures FieldText(Blank) == ""
  {
  }

  /** The parser reads every stream, in any mix of line endings, as its blocks say: known,
      unknown, bare and comment fields, with or without the space, and a last block that no
      blank line ends. */
  lemma ParsesAsItMeans(lines: seq<Line>)
    requires Separate(lines)
    ensures Parse(Text(lines)) == Meaning([], Fields(lines))
  {
    LinesOfText(lines);
    ConsumeFields(EMPTY, [], lines);
    assert EMPTY.frames + Meaning([], Fields(lines)) == Meaning([], Fields(lines));
  }

  // ------------------------------------------------------------ the end of the stream

  lemma {:induction false} LinesBeforeEnd(line: string, text: string)
    ensures var more := Lines(line, text + "\n\n");
            more == Lines(line, text) + [""] || more == Lines(line, text) + ["", ""]
    decreases |text|
  {
    if text == "" {
      assert text + "\n\n" == "\n\n" && "\n\n"[1..] == "\n" && "\n"[1..] == "";
      assert Lines("", "\n") == [""];
      assert Lines(line, "\n\n") == [line] + [""];
      if line == "" {
        assert [] + ["", ""] == [line] + [""];
      }
    } else if text == "\r" {
      assert (text + "\n\n")[2..] == "\n" && "\n"[1..] == "";
      assert Lines("", "\n") == [""];
    } else if IsBreak(text[0]) {
      var n := if text[0] == '\r' && text[1] == '\n' then 2 else 1;
      assert (text + "\n\n")[n..] == text[n..] + "\n\n";
      LinesBeforeEnd("", text[n..]);
      Regroup([line], Lines("", text[n..]), [""]);
      Regroup([line], Lines("", text[n..]), ["", ""]);
    } else {
      assert (text + "\n\n")[1..] == text[1..] + "\n\n";
      LinesBeforeEnd(line + [text[0]], text[1..]);
    }
  }

  /** The end of the stream is a blank line: an event it cuts short is handed out. */
  lemma EndIsABlankLine(text: string)
    ensures Parse(text) == Parse(text + "\n\n")
  {
    var lines := Lines("", text);
    LinesBeforeEnd("", text);
    ConsumeSnoc(EMPTY, lines, "");
    ConsumeSnoc(EMPTY, lines + [""], "");
    assert lines + [""] + [""] == lines + ["", ""];
  }

  /** Every line is exactly one kind of field, so nothing is left unread. */
  lemma EveryLineIsAField(line: string) returns (f: Field)
    requires Plain(line)
    ensures FieldOk(f) && FieldText(f) == line
  {
    var i := ColonIndex(line);
    if line == "" {
      f := Blank;
    } else if i == |line| {
      assert line[..i] == line;
      f := Bare(line);
    } else if i == 0 {
      f := Comment(line[1..]);
    } else if i + 1 < |line| && line[i + 1] == ' ' {
      f := Named(line[..i], line[i + 2..], true);
      assert line == line[..i] + ":" + (" " + line[i + 2..]);
    } else {
      f := Named(line[..i], line[i + 1..], false);
      assert line == line[..i] + ":" + line[i + 1..];
    }
  }

  // ---------------------------------------------------------- the line-scanner loop

  /** The loop knows a name only with its colon. */
  function NamedValues(block: seq<Field>, name: string): seq<string> {
    if block == [] then []
    else
      var f := block[|block| - 1];
      NamedValues(block[..|block| - 1], name) + (if f.Named? && f.name == name then [f.value] else [])
  }

  /** It joins data lines from the first that is not empty. */
  function JoinFromText(values: seq<string>): string {
    if values == [] then ""
    else
      var before, last := JoinFromText(values[..|values| - 1]), values[|values| - 1];
      if before == "" then last else before + "\n" + last
  }

  /** A block counts as a frame if it names an event or has data that is not empty. */
  function ScannedBlock(block: seq<Field>): seq<Frame> {
    var event, data := LastOr(NamedValues(block, "event"), ""), JoinFromText(NamedValues(block, "data"));
    if event == "" && data == "" then [] else [Frame(event, data)]
  }

  /** Only a blank line ends a block: what the end of the stream cuts short is dropped. */
  function ScannedMeaning(block: seq<Field>, fields: seq<Field>): seq<Frame>
    decreases |fields|
  {
    if fields == [] then []
    else if fields[0].Blank? then ScannedBlock(block) + ScannedMeaning([], fields[1..])
    else ScannedMeaning(block + [fields[0]], fields[1..])
  }

  ghost predicate Scans(s: Scan, block: seq<Field>) {
    s.event == LastOr(NamedValues(block, "event"), "") && s.data == JoinFromText(NamedValues(block, "data"))
  }

  lemma NamedSnoc(block: seq<Field>, f: Field, name: string)
    ensures var more := if f.Named? && f.name == name then [f.value] else [];
            NamedValues(block + [f], name) == NamedValues(block, name) + more
  {
    assert (block + [f])[..|block|] == block;
  }

  lemma JoinSnoc(values: seq<string>, last: string)
    ensures JoinFromText(values + [last]) == if JoinFromText(values) == "" then last else JoinFromText(values) + "\n" + last
  {
    assert (values + [last])[..|values|] == values;
  }

  /** A field's text starts with `name:` exactly if it is that named field. */
  lemma PrefixOfField(f: Field, name: string)
    requires FieldOk(f) && IsName(name)
    ensures HasPrefix(FieldText(f), name + ":") <==> f.Named? && f.name == name
    ensures f.Named? && f.name == name ==> TrimSpacePrefix(FieldText(f)[|name| + 1..]) == f.value
  {
    var line, prefix := FieldText(f), name + ":";
    if HasPrefix(line, prefix) {
      assert line == prefix + line[|prefix|..];
      ColonAfter(name, line[|prefix|..]);
      assert line[0] == name[0];
      match f
      case Bare(n) => BareField(n);
      case Named(n, v, sp) => NamedField(n, v, sp); assert line[..|name|] == name;
      case _ =>
    }
    if f.Named? && f.name == name {
      var tail := if f.spaced then " " + f.value else f.value;
      assert line == prefix + tail && line[|name| + 1..] == tail;
      assert f.spaced ==> tail[1..] == f.value;
    }
  }

  lemma ScanData(s: Scan, block: seq<Field>, f: Field)
    requires Scans(s, block) && FieldOk(f) && f.Named? && f.name == "data"
    ensures Scans(AddData(s, f.value), block + [f])
  {
    NamedSnoc(block, f, "event");
    NamedSnoc(block, f, "data");
    JoinSnoc(NamedValues(block, "data"), f.value);
    assert "" + f.value == f.value && NamedValues(block, "event") + [] == NamedValues(block, "event");
  }

  lemma ScanRest(s: Scan, block: seq<Field>, f: Field)
    requires Scans(s, block) && !(f.Named? && f.name == "data")
    ensures Scans(if f.Named? && f.name == "event" then s.(event := f.value) else s, block + [f])
  {
    NamedSnoc(block, f, "event");
    NamedSnoc(block, f, "data");
    assert NamedValues(block, "data") + [] == NamedValues(block, "data");
    assert NamedValues(block, "event") + [] == NamedValues(block, "event");
  }

  lemma CommentPrefix(f: Field)
    requires FieldOk(f) && !f.Blank?
    ensures FieldText(f) != "" && (HasPrefix(FieldText(f), ":") <==> f.Comment?)
  {
    FieldIsPlain(f);
    assert FieldText(f)[..1] == ":" <==> FieldText(f)[0] == ':';
  }

  lemma ScanText(s: Scan, f: Field)
    requires FieldOk(f) && !f.Blank?
    ensures ScanLine(s, FieldText(f)) ==
      if f.Named? && f.name == "event" then s.(event := f.value)
      else if f.Named? && f.name == "data" then AddData(s, f.value)
      else s
  {
    assert "event" + ":" == "event:" && "data" + ":" == "data:";
    CommentPrefix(f);
    PrefixOfField(f, "event");
    PrefixOfField(f, "data");
    hide FieldText, FieldOk, HasPrefix, TrimSpacePrefix;
  }

  lemma ScanOneField(s: Scan, block: seq<Field>, f: Field)
    requires Scans(s, block) && FieldOk(f) && !f.Blank?
    ensures var q := ScanLine(s, FieldText(f)); Scans(q, block + [f]) && q.frames == s.frames
  {
    hide Scans, ScanLine, FieldText, FieldOk;
    ScanText(s, f);
    if f.Named? && f.name == "data" {
      ScanData(s, block, f);
    } else {
      ScanRest(s, block, f);
    }
  }

  lemma ScanBlank(s: Scan, block: seq<Field>)
    requires Scans(s, block)
    ensures var q := ScanLine(s, ""); Scans(q, []) && q.frames == s.frames + ScannedBlock(block)
  {
  }

  lemma {:induction false} ScanFields(s: Scan, block: seq<Field>, lines: seq<Line>)
    requires Scans(s, block) && forall i :: 0 <= i < |lines| ==> FieldOk(lines[i].field)
    ensures ScanAll(s, Texts(lines)).frames == s.frames + ScannedMeaning(block, Fields(lines))
    decreases |lines|
  {
    hide Scans, FieldOk, FieldText, ScannedBlock, ScanLine;
    if lines != [] {
      var f, rest := lines[0].field, lines[1..];
      assert Texts(lines)[1..] == Texts(rest) && Fields(lines)[1..] == Fields(rest);
      var q := ScanLine(s, FieldText(f));
      if f.Blank? {
        BlankText();
        ScanBlank(s, block);
        ScanFields(q, [], rest);
        Regroup(s.frames, ScannedBlock(block), ScannedMeaning([], Fields(rest)));
      } else {
        ScanOneField(s, block, f);
        ScanFields(q, block + [f], rest);
      }
    }
  }

  lemma {:induction false} PlainScan(line: string, plain: string, rest: string)
    requires Plain(plain)
    ensures ScanLines(line, plain + rest) == ScanLines(line + plain, rest)
    decreases |plain|
  {
    if plain == "" {
      assert plain + rest == rest && line + plain == line;
    } else {
      assert (plain + rest)[0] == plain[0] && (plain + rest)[1..] == plain[1..] + rest;
      assert line + [plain[0]] + plain[1..] == line + plain;
      PlainScan(line + [plain[0]], plain[1..], rest);
    }
  }

  lemma ScanCut(field: string, e: Eol, rest: string)
    requires Plain(field) && e != CR
    ensures ScanLines("", field + EolText(e) + rest) == [field] + ScanLines("", rest)
  {
    var tail := "\n" + rest;
    assert "" + field == field && tail[1..] == rest;
    if e == LF {
      assert field + EolText(e) + rest == field + tail;
      PlainScan("", field, tail);
    } else {
      assert field + EolText(e) + rest == field + ("\r" + tail);
      PlainScan("", field, "\r" + tail);
      assert ("\r" + tail)[1..] == tail;
      assert (field + "\r")[..|field|] == field;
    }
    if field != "" {
      assert !IsBreak(field[|field| - 1]);
    }
  }

  lemma {:induction false} ScanLinesOfText(lines: seq<Line>)
    requires forall i :: 0 <= i < |lines| ==> FieldOk(lines[i].field) && lines[i].eol != CR
    ensures ScanLines("", Text(lines)) == Texts(lines)
    decreases |lines|
  {
    if lines != [] {
      FieldIsPlain(lines[0].field);
      ScanCut(FieldText(lines[0].field), lines[0].eol, Text(lines[1..]));
      ScanLinesOfText(lines[1..]);
    }
  }

  /** The loop reads every stream of LF and CR LF lines as its own blocks say. */
  lemma ScansAsItMeans(lines: seq<Line>)
    requires forall i :: 0 <= i < |lines| ==> FieldOk(lines[i].field) && lines[i].eol != CR
    ensures ScanAll(Scan("", "", []), ScanLines("", Text(lines))).frames == ScannedMeaning([], Fields(lines))
  {
    ScanLinesOfText(lines);
    ScanFields(Scan("", "", []), [], lines);
    assert [] + ScannedMeaning([], Fields(lines)) == ScannedMeaning([], Fields(lines));
  }
}
