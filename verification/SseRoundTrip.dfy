/**
 The sidecar's stream printer, and what the two consumers of its output get back:
 the page's parser and the line-scanner loop of the Go replay.
 */
module SseRoundTrip {
  import opened SseParsing

  /** What a relay writes: an event, or a keepalive comment between events. */
  datatype Item = Event(frame: Frame) | Keepalive

  /** The pieces of `data` between its LFs, at least one. */
  function SplitLF(line: string, data: string): (parts: seq<string>)
    ensures |parts| >= 1
    decreases |data|
  {
    if data == "" then [line]
    else if data[0] == '\n' then [line] + SplitLF("", data[1..])
    else SplitLF(line + [data[0]], data[1..])
  }

  function DataLines(parts: seq<string>): seq<string> {
    if parts == [] then [] else ["data" + ": " + parts[0]] + DataLines(parts[1..])
  }

  /** The lines one item is printed as; every line is then ended by an LF. */
  function ItemLines(item: Item): seq<string> {
    match item
    case Keepalive => [": keepalive", ""]
    case Event(f) =>
      (if f.event == "" then [] else ["event" + ": " + f.event]) + DataLines(SplitLF("", f.data)) + [""]
  }

  function EndWithLF(lines: seq<string>): string {
    if lines == [] then "" else lines[0] + "\n" + EndWithLF(lines[1..])
  }

  function StreamLines(items: seq<Item>): seq<string> {
    if items == [] then [] else ItemLines(items[0]) + StreamLines(items[1..])
  }

  /** The text of a whole stream. */
  function Print(items: seq<Item>): string { EndWithLF(StreamLines(items)) }

  function ItemFrames(item: Item): seq<Frame> { if item.Event? then [item.frame] else [] }

  function FramesOf(items: seq<Item>): seq<Frame> {
    if items == [] then [] else ItemFrames(items[0]) + FramesOf(items[1..])
  }

  /** Exactly the frames the wire can carry. */
  ghost predicate Printable(f: Frame) { f.event != "" && Plain(f.event) && Lacks(f.data, '\r') }

  ghost predicate AllPrintable(items: seq<Item>) {
    forall i :: 0 <= i < |items| && items[i].Event? ==> Printable(items[i].frame)
  }

  ghost predicate AllPlain(lines: seq<string>) { forall i :: 0 <= i < |lines| ==> Plain(lines[i]) }

  // ------------------------------------------------------------------- printing

  lemma KeepaliveText()
    ensures Print([Keepalive]) == ": keepalive\n\n"
  {
    assert StreamLines([Keepalive]) == [": keepalive", ""];
    TwoLinesText(": keepalive", "");
    assert ": keepalive" + "\n" + "" + "\n" == ": keepalive\n\n";
  }

  lemma DataText(data: string)
    ensures EndWithLF(["data" + ": " + data, ""]) == "data: " + data + "\n\n"
  {
    var line := "data" + ": " + data;
    TwoLinesText(line, "");
    assert "data" + ": " == "data: ";
    assert line + "\n" + "" + "\n" == line + "\n\n";
  }

  /** The bytes on the wire of an event with one line of data; an event without a name has
      only its data. */
  lemma PrintedText(f: Frame)
    requires Lacks(f.data, '\n')
    ensures Print([Event(f)]) == (if f.event == "" then "" else "event: " + f.event + "\n") + ("data: " + f.data + "\n\n")
  {
    OnePart("", f.data);
    assert "" + f.data == f.data;
    var data, event := "data" + ": " + f.data, "event" + ": " + f.event;
    DataText(f.data);
    assert [f.data][1..] == [];
    assert DataLines([f.data]) == [data];
    assert StreamLines([Event(f)]) == ItemLines(Event(f));
    hide EndWithLF;
    if f.event == "" {
      assert ItemLines(Event(f)) == [data, ""];
    } else {
      assert "event" + ": " == "event: ";
      assert ItemLines(Event(f)) == [event] + [data, ""];
      EndWithLFConcat([event], [data, ""]);
      OneLineText(event);
    }
  }

  lemma OneLineText(line: string)
    ensures EndWithLF([line]) == line + "\n"
  {
    assert [line][1..] == [];
  }

  lemma TwoLinesText(a: string, b: string)
    ensures EndWithLF([a, b]) == a + "\n" + b + "\n"
  {
    OneLineText(b);
    assert [a, b][1..] == [b];
  }

  lemma {:induction false} OnePart(line: string, data: string)
    requires Lacks(data, '\n')
    ensures SplitLF(line, data) == [line + data]
    decreases |data|
  {
    if data == "" {
      assert line + data == line;
    } else {
      OnePart(line + [data[0]], data[1..]);
      assert line + [data[0]] + data[1..] == line + data;
    }
  }

  lemma {:induction false} EndWithLFConcat(xs: seq<string>, ys: seq<string>)
    ensures EndWithLF(xs + ys) == EndWithLF(xs) + EndWithLF(ys)
    decreases |xs|
  {
    if xs == [] {
      assert xs + ys == ys;
    } else {
      assert (xs + ys)[1..] == xs[1..] + ys;
      EndWithLFConcat(xs[1..], ys);
    }
  }

  /** A stream is the texts of its items, one after the other. */
  lemma {:induction false} PrintConcat(items: seq<Item>, more: seq<Item>)
    ensures Print(items + more) == Print(items) + Print(more)
    decreases |items|
  {
    StreamConcat(items, more);
    EndWithLFConcat(StreamLines(items), StreamLines(more));
  }

  lemma {:induction false} StreamConcat(items: seq<Item>, more: seq<Item>)
    ensures StreamLines(items + more) == StreamLines(items) + StreamLines(more)
    decreases |items|
  {
    if items == [] {
      assert items + more == more;
    } else {
      assert (items + more)[1..] == items[1..] + more;
      StreamConcat(items[1..], more);
      Regroup(ItemLines(items[0]), StreamLines(items[1..]), StreamLines(more));
    }
  }


  lemma {:induction false} SplitThenJoin(line: string, data: string)
    ensures Join(SplitLF(line, data)) == line + data
    decreases |data|
  {
    if data == "" {
      assert line + data == line;
    } else if data[0] == '\n' {
      SplitThenJoin("", data[1..]);
      assert "" + data[1..] == data[1..];
      assert line + "\n" + data[1..] == line + data;
    } else {
      SplitThenJoin(line + [data[0]], data[1..]);
      assert line + [data[0]] + data[1..] == line + data;
    }
  }

  lemma {:induction false} SplitIsPlain(line: string, data: string)
    requires Plain(line) && Lacks(data, '\r')
    ensures AllPlain(SplitLF(line, data))
    decreases |data|
  {
    if data != "" {
      if data[0] == '\n' {
        SplitIsPlain("", data[1..]);
      } else {
        SplitIsPlain(line + [data[0]], data[1..]);
      }
    }
  }

  lemma {:induction false} DataLinesPlain(parts: seq<string>)
    requires AllPlain(parts)
    ensures AllPlain(DataLines(parts))
  {
    if parts != [] {
      DataLinesPlain(parts[1..]);
    }
  }

  lemma ItemLinesPlain(item: Item)
    requires item.Event? ==> Printable(item.frame)
    ensures AllPlain(ItemLines(item))
  {
    if item.Event? {
      SplitIsPlain("", item.frame.data);
      DataLinesPlain(SplitLF("", item.frame.data));
    }
  }

  lemma {:induction false} StreamLinesPlain(items: seq<Item>)
    requires AllPrintable(items)
    ensures AllPlain(StreamLines(items))
  {
    if items != [] {
      ItemLinesPlain(items[0]);
      StreamLinesPlain(items[1..]);
    }
  }

  lemma FirstLine(line: string, text: string)
    requires Plain(line)
    ensures Lines("", line + "\n" + text) == [line] + Lines("", text)
  {
    var tail := "\n" + text;
    assert line + "\n" + text == line + tail;
    PlainPrefix("", line, tail);
    assert tail[1..] == text;
    assert "" + line == line;
  }

  /** Reading back printed lines. */
  lemma {:induction false} LinesOfPrinted(lines: seq<string>)
    requires AllPlain(lines)
    ensures Lines("", EndWithLF(lines)) == lines
    decreases |lines|
  {
    if lines != [] {
      FirstLine(lines[0], EndWithLF(lines[1..]));
      LinesOfPrinted(lines[1..]);
    }
  }

  lemma FieldLine(name: string, value: string)
    requires name == "event" || name == "data"
    ensures var line := name + ": " + value;
            FieldName(line) == name && FieldValue(line) == value && line != "" && line[0] != ':'
  {
    var line := name + ": " + value;
    ColonAfter(name, " " + value);
    assert line == name + ":" + (" " + value);
    assert line[|name|] == ':' && line[|name| + 1] == ' ';
    assert line[..|name|] == name && line[|name| + 2..] == value;
    assert line[0] == name[0];
  }

  lemma {:induction false} ColonAfter(name: string, rest: string)
    requires Lacks(name, ':')
    ensures ColonIndex(name + ":" + rest) == |name|
    decreases |name|
  {
    var line := name + ":" + rest;
    if name != "" {
      assert line[0] == name[0];
      ColonAfter(name[1..], rest);
      assert line[1..] == name[1..] + ":" + rest;
    }
  }

  lemma {:induction false} ConsumeData(p: Pending, parts: seq<string>)
    ensures ConsumeAll(p, DataLines(parts)) == p.(data := p.data + parts)
    decreases |parts|
  {
    if parts == [] {
      assert p.data + parts == p.data;
    } else {
      FieldLine("data", parts[0]);
      var line := "data" + ": " + parts[0];
      assert DataLines(parts) == [line] + DataLines(parts[1..]);
      var q := p.(data := p.data + [parts[0]]);
      assert Consume(p, line) == q;
      ConsumeData(q, parts[1..]);
      assert p.data + [parts[0]] + parts[1..] == p.data + parts;
    }
  }

  lemma Regroup<T>(a: seq<T>, b: seq<T>, c: seq<T>)
    ensures a + b + c == a + (b + c)
  {
  }

  lemma ConsumeEvent(frames: seq<Frame>, f: Frame)
    requires f.event != ""
    ensures ConsumeAll(Pending("", [], frames), ItemLines(Event(f))) == Pending("", [], frames + [f])
  {
    var p := Pending("", [], frames);
    var q := p.(event := f.event);
    var parts := SplitLF("", f.data);
    var eventLine := "event" + ": " + f.event;
    FieldLine("event", f.event);
    assert Consume(p, eventLine) == q;
    assert ItemLines(Event(f)) == [eventLine] + (DataLines(parts) + [""]);
    ConsumeSnoc(q, DataLines(parts), "");
    ConsumeData(q, parts);
    assert q.data + parts == parts;
    SplitThenJoin("", f.data);
    assert "" + f.data == f.data;
  }

  lemma ConsumeItem(frames: seq<Frame>, item: Item)
    requires item.Event? ==> item.frame.event != ""
    ensures ConsumeAll(Pending("", [], frames), ItemLines(item)) == Pending("", [], frames + ItemFrames(item))
  {
    var p := Pending("", [], frames);
    match item
    case Event(f) => ConsumeEvent(frames, f);
    case Keepalive =>
      ConsumeSnoc(p, [": keepalive"], "");
      assert [": keepalive"] + [""] == ItemLines(item);
      ConsumeSnoc(p, [], ": keepalive");
      assert [] + [": keepalive"] == [": keepalive"];
      assert frames + [] == frames;
  }

  lemma {:induction false} ConsumeStream(frames: seq<Frame>, items: seq<Item>)
    requires AllPrintable(items)
    ensures ConsumeAll(Pending("", [], frames), StreamLines(items)) == Pending("", [], frames + FramesOf(items))
    decreases |items|
  {
    var p := Pending("", [], frames);
    if items == [] {
      assert frames + FramesOf(items) == frames;
    } else {
      var tail := items[1..];
      ConsumeConcat(p, ItemLines(items[0]), StreamLines(tail));
      ConsumeItem(frames, items[0]);
      var more := frames + ItemFrames(items[0]);
      ConsumeStream(more, tail);
      Regroup(frames, ItemFrames(items[0]), FramesOf(tail));
    }
  }

  /** Whatever was printed, with keepalives anywhere between frames, is read back. */
  lemma RoundTrip(items: seq<Item>)
    requires AllPrintable(items)
    ensures Parse(Print(items)) == FramesOf(items)
  {
    StreamLinesPlain(items);
    LinesOfPrinted(StreamLines(items));
    ConsumeStream([], items);
    assert [] + FramesOf(items) == FramesOf(items);
  }

  /** The same, however the network cuts the text into chunks. */
  method ReadBack(items: seq<Item>, chunks: seq<string>) returns (frames: seq<Frame>)
    requires AllPrintable(items) && Concat(chunks) == Print(items)
    ensures frames == FramesOf(items)
  {
    RoundTrip(items);
    frames := ParseChunks(chunks);
  }

  // --------------------------------------------- no other frame can be carried

  ghost predicate Clean(p: Pending) {
    && Plain(p.event) && AllPlain(p.data)
    && forall i :: 0 <= i < |p.frames| ==> Printable(p.frames[i])
  }

  lemma {:induction false} JoinLacksCR(parts: seq<string>)
    requires AllPlain(parts)
    ensures Lacks(Join(parts), '\r')
    decreases |parts|
  {
    if |parts| > 1 {
      JoinLacksCR(parts[1..]);
    }
  }

  lemma {:induction false} LinesArePlain(line: string, text: string)
    requires Plain(line)
    ensures AllPlain(Lines(line, text))
    decreases |text|
  {
    if text != "" {
      if IsBreak(text[0]) {
        LinesArePlain("", if text[0] == '\r' && |text| > 1 && text[1] == '\n' then text[2..] else text[1..]);
      } else {
        LinesArePlain(line + [text[0]], text[1..]);
      }
    }
  }

  lemma {:induction false} ConsumeKeepsClean(p: Pending, lines: seq<string>)
    requires Clean(p) && AllPlain(lines)
    ensures Clean(ConsumeAll(p, lines))
    decreases |lines|
  {
    if lines != [] {
      JoinLacksCR(p.data);
      ConsumeKeepsClean(Consume(p, lines[0]), lines[1..]);
    }
  }

  /** Every frame the parser ever hands out is printable. */
  lemma ParsedIsPrintable(text: string)
    ensures forall i :: 0 <= i < |Parse(text)| ==> Printable(Parse(text)[i])
  {
    LinesArePlain("", text);
    var p := ConsumeAll(EMPTY, Lines("", text));
    ConsumeKeepsClean(EMPTY, Lines("", text));
    JoinLacksCR(p.data);
  }

  /** A frame survives the wire if and only if its event is non-empty and free of line
      breaks and its data has no CR. */
  lemma SurvivesExactly(f: Frame)
    ensures Parse(Print([Event(f)])) == [f] <==> Printable(f)
  {
    if Printable(f) {
      RoundTrip([Event(f)]);
      assert FramesOf([Event(f)]) == [f] + FramesOf([]);
    } else {
      var frames := Parse(Print([Event(f)]));
      ParsedIsPrintable(Print([Event(f)]));
      assert |frames| == 1 ==> Printable(frames[0]);
    }
  }

  // ------------------------------------------------------ the line-scanner loop

  /** The scanner's lines: cut at LF only, one trailing CR dropped, no empty last line. */
  function ScanLines(line: string, text: string): seq<string>
    decreases |text|
  {
    if text == "" then (if line == "" then [] else [DropCR(line)])
    else if text[0] == '\n' then [DropCR(line)] + ScanLines("", text[1..])
    else ScanLines(line + [text[0]], text[1..])
  }

  function DropCR(line: string): string {
    if line != "" && line[|line| - 1] == '\r' then line[..|line| - 1] else line
  }

  predicate HasPrefix(s: string, prefix: string) { prefix <= s }

  function TrimSpacePrefix(s: string): string { if s != "" && s[0] == ' ' then s[1..] else s }

  datatype Scan = Scan(event: string, data: string, frames: seq<Frame>)

  function ScanLine(s: Scan, line: string): Scan {
    if line == "" then
      Scan("", "", if s.data != "" || s.event != "" then s.frames + [Frame(s.event, s.data)] else s.frames)
    else if HasPrefix(line, ":") then s
    else if HasPrefix(line, "event:") then s.(event := TrimSpacePrefix(line[6..]))
    else if HasPrefix(line, "data:") then
      s.(data := (if s.data != "" then s.data + "\n" else "") + TrimSpacePrefix(line[5..]))
    else s
  }

  function ScanAll(s: Scan, lines: seq<string>): Scan
    decreases |lines|
  {
    if lines == [] then s else ScanAll(ScanLine(s, lines[0]), lines[1..])
  }

  /** The loop of the Go replay; its frames are what it counts and interprets. */
  method ScanFrames(lines: seq<string>) returns (frames: seq<Frame>)
    ensures frames == ScanAll(Scan("", "", []), lines).frames
  {
    var event, data := "", "";
    frames := [];
    for i := 0 to |lines|
      invariant ScanAll(Scan(event, data, frames), lines[i..]) == ScanAll(Scan("", "", []), lines)
    {
      var line := lines[i];
      assert lines[i..][1..] == lines[i + 1..];
      if line == "" {
        if data != "" || event != "" {
          frames := frames + [Frame(event, data)];
        }
        event, data := "", "";
        continue;
      }
      if HasPrefix(line, ":") {
        continue;
      }
      if HasPrefix(line, "event:") {
        event := TrimSpacePrefix(line[6..]);
        continue;
      }
      if HasPrefix(line, "data:") {
        if data != "" {
          data := data + "\n";
        }
        data := data + TrimSpacePrefix(line[5..]);
      }
    }
  }

  lemma {:induction false} ScanConcat(s: Scan, xs: seq<string>, ys: seq<string>)
    ensures ScanAll(s, xs + ys) == ScanAll(ScanAll(s, xs), ys)
    decreases |xs|
  {
    if xs == [] {
      assert xs + ys == ys;
    } else {
      assert (xs + ys)[1..] == xs[1..] + ys;
      ScanConcat(ScanLine(s, xs[0]), xs[1..], ys);
    }
  }

  /** Without CRs the scanner cuts a text where the parser does. */
  lemma {:induction false} ScanCutsAlike(line: string, text: string)
    requires Plain(line) && Lacks(text, '\r')
    ensures ScanLines(line, text) == Lines(line, text)
    decreases |text|
  {
    if text != "" {
      if text[0] == '\n' {
        ScanCutsAlike("", text[1..]);
      } else {
        ScanCutsAlike(line + [text[0]], text[1..]);
      }
    }
  }

  lemma {:induction false} PrintedLacksCR(lines: seq<string>)
    requires AllPlain(lines)
    ensures Lacks(EndWithLF(lines), '\r')
    decreases |lines|
  {
    if lines != [] {
      PrintedLacksCR(lines[1..]);
    }
  }

  /** The scanner's loop loses the LFs that data starts with. */
  function DropLeadingLF(data: string): string {
    if data != "" && data[0] == '\n' then DropLeadingLF(data[1..]) else data
  }

  function AsScanned(f: Frame): Frame { f.(data := DropLeadingLF(f.data)) }

  function ScannedItem(item: Item): seq<Frame> { if item.Event? then [AsScanned(item.frame)] else [] }

  function ScannedFrames(items: seq<Item>): seq<Frame> {
    if items == [] then [] else ScannedItem(items[0]) + ScannedFrames(items[1..])
  }

  lemma ScanField(s: Scan, name: string, value: string)
    requires name == "event" || name == "data"
    ensures name == "event" ==> ScanLine(s, name + ": " + value) == s.(event := value)
    ensures name == "data" ==> ScanLine(s, name + ": " + value) == AddData(s, value)
  {
    var line := name + ": " + value;
    assert line[0] == name[0] && line[1] == name[1];
    assert line[|name| + 1..] == " " + value && (" " + value)[1..] == value;
    assert line[..|name| + 1] == name + ":";
  }

  function AddData(s: Scan, part: string): Scan {
    s.(data := (if s.data != "" then s.data + "\n" else "") + part)
  }

  function AddAll(s: Scan, parts: seq<string>): Scan
    decreases |parts|
  {
    if parts == [] then s else AddAll(AddData(s, parts[0]), parts[1..])
  }

  lemma {:induction false} ScanDataLines(s: Scan, parts: seq<string>)
    ensures ScanAll(s, DataLines(parts)) == AddAll(s, parts)
    decreases |parts|
  {
    if parts != [] {
      ScanField(s, "data", parts[0]);
      ScanDataLines(AddData(s, parts[0]), parts[1..]);
      assert DataLines(parts)[1..] == DataLines(parts[1..]);
    }
  }

  /** Parts after the first non-empty one are joined; empty ones before it vanish. */
  lemma {:induction false} AddSplit(s: Scan, line: string, data: string)
    ensures AddAll(s, SplitLF(line, data)) == s.(data :=
              if s.data != "" then s.data + "\n" + line + data
              else if line != "" then line + data
              else DropLeadingLF(data))
    decreases |data|
  {
    if data == "" {
      assert [line][1..] == [];
      assert line + data == line && s.data + "\n" + line + data == s.data + "\n" + line;
    } else if data[0] == '\n' {
      var t := AddData(s, line);
      var rest := data[1..];
      AddSplit(t, "", rest);
      assert ([line] + SplitLF("", rest))[1..] == SplitLF("", rest);
      if t.data != "" {
        assert t.data + "\n" + "" + rest == t.data + data;
        assert s.data + "\n" + line + data == (s.data + "\n" + line) + data;
      }
    } else {
      AddSplit(s, line + [data[0]], data[1..]);
      assert line + [data[0]] + data[1..] == line + data;
      assert s.data + "\n" + (line + [data[0]]) + data[1..] == s.data + "\n" + line + data;
    }
  }

  lemma ScanEvent(frames: seq<Frame>, f: Frame)
    requires f.event != ""
    ensures ScanAll(Scan("", "", frames), ItemLines(Event(f))) == Scan("", "", frames + [AsScanned(f)])
  {
    var s := Scan("", "", frames);
    var q := s.(event := f.event);
    var eventLine := "event" + ": " + f.event;
    var parts := SplitLF("", f.data);
    ScanField(s, "event", f.event);
    assert ItemLines(Event(f)) == [eventLine] + (DataLines(parts) + [""]);
    ScanConcat(q, DataLines(parts), [""]);
    ScanDataLines(q, parts);
    AddSplit(q, "", f.data);
  }

  lemma ScanItem(frames: seq<Frame>, item: Item)
    requires item.Event? ==> item.frame.event != ""
    ensures ScanAll(Scan("", "", frames), ItemLines(item)) == Scan("", "", frames + ScannedItem(item))
  {
    var s := Scan("", "", frames);
    match item
    case Event(f) => ScanEvent(frames, f);
    case Keepalive =>
      var lines := ItemLines(item);
      assert lines[0][0] == ':';
      assert ScanLine(s, lines[0]) == s;
      assert lines[1..] == [""] && [""][1..] == [];
      assert frames + [] == frames;
  }

  lemma {:induction false} ScanStream(frames: seq<Frame>, items: seq<Item>)
    requires AllPrintable(items)
    ensures ScanAll(Scan("", "", frames), StreamLines(items)) == Scan("", "", frames + ScannedFrames(items))
    decreases |items|
  {
    var s := Scan("", "", frames);
    if items == [] {
      assert frames + ScannedFrames(items) == frames;
    } else {
      var tail := items[1..];
      ScanConcat(s, ItemLines(items[0]), StreamLines(tail));
      ScanItem(frames, items[0]);
      var more := frames + ScannedItem(items[0]);
      ScanStream(more, tail);
      Regroup(frames, ScannedItem(items[0]), ScannedFrames(tail));
    }
  }

  lemma {:induction false} ScannedMatches(items: seq<Item>)
    ensures |ScannedFrames(items)| == |FramesOf(items)|
    ensures ScannedFrames(items) == FramesOf(items) <==>
            forall i :: 0 <= i < |items| && items[i].Event? && items[i].frame.data != "" ==> items[i].frame.data[0] != '\n'
  {
    if items != [] {
      var tail := items[1..];
      ScannedMatches(tail);
      if items[0].Event? {
        DropLeadingShrinks(items[0].frame.data);
        var xs, ys := ScannedFrames(items), FramesOf(items);
        assert xs[0] == AsScanned(items[0].frame) && ys[0] == items[0].frame;
        assert xs[1..] == ScannedFrames(tail) && ys[1..] == FramesOf(tail);
        assert xs == [xs[0]] + xs[1..] && ys == [ys[0]] + ys[1..];
      } else {
        assert ScannedFrames(items) == ScannedFrames(tail) && FramesOf(items) == FramesOf(tail);
      }
      assert forall i :: 0 <= i < |tail| ==> tail[i] == items[i + 1];
      assert forall i :: 1 <= i < |items| ==> items[i] == tail[i - 1];
    }
  }

  lemma {:induction false} DropLeadingShrinks(data: string)
    ensures |DropLeadingLF(data)| <= |data|
    ensures DropLeadingLF(data) == data <==> data == "" || data[0] != '\n'
    decreases |data|
  {
    if data != "" && data[0] == '\n' {
      DropLeadingShrinks(data[1..]);
    }
  }

  /** The two consumers agree on a printed stream if and only if no frame's data starts
      with an LF; in any case the scanner sees the same frames without those LFs. */
  lemma ScannerAgreesExactly(items: seq<Item>)
    requires AllPrintable(items)
    ensures ScanAll(Scan("", "", []), ScanLines("", Print(items))).frames == ScannedFrames(items)
    ensures ScannedFrames(items) == Parse(Print(items)) <==>
            forall i :: 0 <= i < |items| && items[i].Event? && items[i].frame.data != "" ==> items[i].frame.data[0] != '\n'
  {
    StreamLinesPlain(items);
    PrintedLacksCR(StreamLines(items));
    ScanCutsAlike("", Print(items));
    LinesOfPrinted(StreamLines(items));
    ScanStream([], items);
    assert [] + ScannedFrames(items) == ScannedFrames(items);
    RoundTrip(items);
    ScannedMatches(items);
  }

  /** An event whose data starts with an LF: the parser keeps it, the scanner's loop does not. */
  lemma LeadingLFIsLost(event: string, text: string)
    requires event != "" && Plain(event) && text != "" && Plain(text)
    ensures var items := [Event(Frame(event, "\n" + text))];
            && Parse(Print(items)) == [Frame(event, "\n" + text)]
            && ScanAll(Scan("", "", []), ScanLines("", Print(items))).frames == [Frame(event, text)]
  {
    var f := Frame(event, "\n" + text);
    var items := [Event(f)];
    assert items[1..] == [] && ("\n" + text)[1..] == text;
    DropLeadingShrinks(text);
    assert DropLeadingLF("\n" + text) == text;
    assert FramesOf(items) == [f] + FramesOf([]);
    assert ScannedFrames(items) == [AsScanned(f)] + ScannedFrames([]);
    hide ScanAll, ScanLines, Parse, Print;
    ScannerAgreesExactly(items);
    RoundTrip(items);
  }
}
