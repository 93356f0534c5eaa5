/**
 The incremental server-sent-events parser of the kill-check page, over already
 decoded characters. `Lines` and `Parse` are the reference: a whole text is cut at
 CR LF, LF or CR and the lines are interpreted in order. `SseParser` is the
 streaming form, which keeps a buffer across chunks and holds back a trailing CR.
 */
module SseParsing {
  datatype Frame = Frame(event: string, data: string)

  /** The parser's fields apart from its buffer, and the frames handed out so far. */
  datatype Pending = Pending(event: string, data: seq<string>, frames: seq<Frame>)

  const EMPTY := Pending("", [], [])

  predicate IsBreak(c: char) { c == '\n' || c == '\r' }

  predicate Plain(s: string) { forall i :: 0 <= i < |s| ==> !IsBreak(s[i]) }

  predicate Lacks(s: string, c: char) { forall i :: 0 <= i < |s| ==> s[i] != c }

  function Join(parts: seq<string>): string {
    if |parts| == 0 then ""
    else if |parts| == 1 then parts[0]
    else parts[0] + "\n" + Join(parts[1..])
  }

  /** Index of the first colon, or the length of the line when it has none. */
  function ColonIndex(line: string): (i: nat)
    ensures i <= |line| && Lacks(line[..i], ':')
    ensures i < |line| ==> line[i] == ':'
  {
    if line == "" || line[0] == ':' then 0 else 1 + ColonIndex(line[1..])
  }

  function FieldName(line: string): string { line[..ColonIndex(line)] }

  function FieldValue(line: string): string {
    var i := ColonIndex(line);
    if i == |line| then ""
    else if i + 1 < |line| && line[i + 1] == ' ' then line[i + 2..]
    else line[i + 1..]
  }

  function Dispatch(p: Pending): Pending {
    p.(frames := p.frames + [Frame(if p.event == "" then "message" else p.event, Join(p.data))])
  }

  function Reset(p: Pending): Pending { p.(event := "", data := []) }

  function Consume(p: Pending, line: string): Pending {
    if line == "" then Reset(if |p.data| > 0 then Dispatch(p) else p)
    else if line[0] == ':' then p
    else if FieldName(line) == "event" then p.(event := FieldValue(line))
    else if FieldName(line) == "data" then p.(data := p.data + [FieldValue(line)])
    else p
  }

  function ConsumeAll(p: Pending, lines: seq<string>): Pending
    decreases |lines|
  {
    if lines == [] then p else ConsumeAll(Consume(p, lines[0]), lines[1..])
  }

  /** The end of the stream hands out an event that no blank line closed. */
  function AtEnd(p: Pending): Pending { if |p.data| > 0 then Reset(Dispatch(p)) else p }

  /** Reference: the lines of a whole text whose first line starts with `line`. */
  function Lines(line: string, text: string): seq<string>
    decreases |text|
  {
    if text == "" then (if line == "" then [] else [line])
    else if text[0] == '\n' then [line] + Lines("", text[1..])
    else if text[0] == '\r' then
      [line] + Lines("", if |text| > 1 && text[1] == '\n' then text[2..] else text[1..])
    else Lines(line + [text[0]], text[1..])
  }

  /** Reference: the frames of a whole text. */
  function Parse(text: string): seq<Frame> { AtEnd(ConsumeAll(EMPTY, Lines("", text))).frames }

  datatype Split = Split(lines: seq<string>, rest: string)

  /** What can be decided before the stream ends: the finished lines of a text, and the
      rest, where a trailing CR stays undecided. */
  function Cut(line: string, text: string): Split
    decreases |text|
  {
    if text == "" then Split([], line)
    else if text == "\r" then Split([], line + text)
    else if IsBreak(text[0]) then
      var s := Cut("", if text[0] == '\r' && text[1] == '\n' then text[2..] else text[1..]);
      Split([line] + s.lines, s.rest)
    else Cut(line + [text[0]], text[1..])
  }

  /** What draining a buffer consumes and keeps. */
  function Drained(buffer: string, final: bool): Split {
    if final then Split(Lines("", buffer), "") else Cut("", buffer)
  }

  // ---------------------------------------------------------------- the parser

  datatype Ending = NoEnding | Ending(index: nat, length: nat)

  /** The ending `findLineEnding` must return: the first break character, unless it is
      a CR that might still be half of a CR LF. */
  ghost predicate IsEnding(b: string, final: bool, e: Ending) {
    match e
    case NoEnding => forall i :: 0 <= i < |b| ==> IsBreak(b[i]) ==> b[i] == '\r' && i == |b| - 1 && !final
    case Ending(i, n) =>
      && i < |b| && IsBreak(b[i]) && Plain(b[..i])
      && n == (if b[i] == '\r' && i + 1 < |b| && b[i + 1] == '\n' then 2 else 1)
      && (b[i] == '\r' && i + 1 == |b| ==> final)
  }

  class SseParser {
    var buffer: string
    var event: string
    var data: seq<string>
    var frames: seq<Frame>

    function State(): Pending
      reads this
    {
      Pending(event, data, frames)
    }

    constructor ()
      ensures buffer == "" && State() == EMPTY
    {
      buffer, event, data, frames := "", "", [], [];
    }

    method Push(chunk: string)
      modifies this
      ensures var s := Cut("", old(buffer) + chunk);
              State() == ConsumeAll(old(State()), s.lines) && buffer == s.rest
    {
      buffer := buffer + chunk;
      Drain(false);
    }

    method Finish()
      modifies this
      ensures State() == AtEnd(ConsumeAll(old(State()), Lines("", old(buffer)))) && buffer == ""
    {
      Drain(true);
    }

    method Drain(final: bool)
      modifies this
      ensures var s := Drained(old(buffer), final);
              var p := ConsumeAll(old(State()), s.lines);
              State() == (if final then AtEnd(p) else p) && buffer == s.rest
    {
      ghost var goal := Drained(buffer, final);
      ghost var done: seq<string> := [];
      while true
        invariant State() == ConsumeAll(old(State()), done)
        invariant goal == Split(done + Drained(buffer, final).lines, Drained(buffer, final).rest)
        decreases |buffer|
      {
        var e := FindLineEnding(final);
        if e.NoEnding? {
          break;
        }
        LineAtEnding(buffer, final, e);
        var line := buffer[..e.index];
        buffer := buffer[e.index + e.length..];
        ConsumeSnoc(old(State()), done, line);
        assert done + ([line] + Drained(buffer, final).lines) == (done + [line]) + Drained(buffer, final).lines;
        done := done + [line];
        ConsumeLine(line);
      }
      NoLineLeft(buffer, final);
      assert done + [] == done;
      if final && buffer != "" {
        var line := buffer;
        buffer := "";
        ConsumeSnoc(old(State()), done, line);
        ConsumeLine(line);
      }
      if final && |data| > 0 {
        frames := frames + [Frame(if event == "" then "message" else event, Join(data))];
        event, data := "", [];
      }
    }

    method FindLineEnding(final: bool) returns (e: Ending)
      ensures IsEnding(buffer, final, e)
    {
      for i := 0 to |buffer|
        invariant Plain(buffer[..i])
      {
        var c := buffer[i];
        if c == '\n' {
          return Ending(i, 1);
        }
        if c != '\r' {
          continue;
        }
        if i + 1 == |buffer| && !final {
          return NoEnding;
        }
        return Ending(i, if i + 1 < |buffer| && buffer[i + 1] == '\n' then 2 else 1);
      }
      assert buffer[..|buffer|] == buffer;
      return NoEnding;
    }

    method ConsumeLine(line: string)
      modifies this`event, this`data, this`frames
      ensures State() == Consume(old(State()), line)
    {
      if line == "" {
        if |data| > 0 {
          frames := frames + [Frame(if event == "" then "message" else event, Join(data))];
        }
        event, data := "", [];
        return;
      }
      if line[0] == ':' {
        return;
      }
      var field, value := FieldName(line), FieldValue(line);
      if field == "event" {
        event := value;
      } else if field == "data" {
        data := data + [value];
      }
    }
  }

  lemma {:induction false} ConsumeSnoc(p: Pending, lines: seq<string>, line: string)
    ensures ConsumeAll(p, lines + [line]) == Consume(ConsumeAll(p, lines), line)
    decreases |lines|
  {
    if lines == [] {
      assert [line][1..] == [];
    } else {
      assert (lines + [line])[1..] == lines[1..] + [line];
      ConsumeSnoc(Consume(p, lines[0]), lines[1..], line);
    }
  }

  lemma {:induction false} ConsumeConcat(p: Pending, xs: seq<string>, ys: seq<string>)
    ensures ConsumeAll(p, xs + ys) == ConsumeAll(ConsumeAll(p, xs), ys)
    decreases |xs|
  {
    if xs == [] {
      assert xs + ys == ys;
    } else {
      assert (xs + ys)[1..] == xs[1..] + ys;
      ConsumeConcat(Consume(p, xs[0]), xs[1..], ys);
    }
  }

  /** Plain characters only lengthen the current line. */
  lemma {:induction false} PlainPrefix(line: string, plain: string, text: string)
    requires Plain(plain)
    ensures Cut(line, plain + text) == Cut(line + plain, text)
    ensures Lines(line, plain + text) == Lines(line + plain, text)
    decreases |plain|
  {
    if plain == "" {
      assert plain + text == text && line + plain == line;
    } else {
      assert (plain + text)[0] == plain[0];
      assert (plain + text)[1..] == plain[1..] + text;
      assert line + [plain[0]] + plain[1..] == line + plain;
      PlainPrefix(line + [plain[0]], plain[1..], text);
    }
  }

  lemma LineAtEnding(b: string, final: bool, e: Ending)
    requires IsEnding(b, final, e) && e.Ending?
    ensures var s := Drained(b[e.index + e.length..], final);
            Drained(b, final) == Split([b[..e.index]] + s.lines, s.rest)
  {
    var line, tail := b[..e.index], b[e.index..];
    assert b == line + tail && "" + line == line;
    PlainPrefix("", line, tail);
    assert tail[e.length..] == b[e.index + e.length..];
  }

  lemma NoLineLeft(b: string, final: bool)
    requires IsEnding(b, final, NoEnding)
    ensures Drained(b, final) == if !final then Split([], b) else Split(if b == "" then [] else [b], "")
  {
    if b != "" && b[|b| - 1] == '\r' {
      var line := b[..|b| - 1];
      assert b == line + "\r" && "" + line == line;
      PlainPrefix("", line, "\r");
    } else {
      assert b == b + "" && "" + b == b;
      PlainPrefix("", b, "");
    }
  }

  // ------------------------------------------------------- chunking is invisible

  /** Cutting a longer text resumes from the rest of the shorter one. */
  lemma {:induction false} CutAppend(line: string, text: string, more: string)
    requires Plain(line)
    ensures var s := Cut(line, text);
            var t := Cut("", s.rest + more);
            Cut(line, text + more) == Split(s.lines + t.lines, t.rest)
    decreases |text|
  {
    if text == "" || text == "\r" {
      assert text + more == more || text == "\r";
      assert "" + line == line;
      PlainPrefix("", line, text + more);
      assert line + (text + more) == Cut(line, text).rest + more;
    } else if IsBreak(text[0]) {
      var n := if text[0] == '\r' && text[1] == '\n' then 2 else 1;
      assert (text + more)[n..] == text[n..] + more;
      CutAppend("", text[n..], more);
      var s := Cut("", text[n..]);
      var t := Cut("", s.rest + more);
      assert [line] + (s.lines + t.lines) == ([line] + s.lines) + t.lines;
    } else {
      assert (text + more)[1..] == text[1..] + more;
      CutAppend(line + [text[0]], text[1..], more);
    }
  }

  /** Ending the stream after a cut yields the lines of the whole text. */
  lemma {:induction false} CutThenEnd(line: string, text: string)
    requires Plain(line)
    ensures var s := Cut(line, text);
            Lines(line, text) == s.lines + Lines("", s.rest)
    decreases |text|
  {
    if text == "" || text == "\r" {
      assert "" + line == line;
      PlainPrefix("", line, text);
      assert line + "" == line;
    } else if IsBreak(text[0]) {
      var n := if text[0] == '\r' && text[1] == '\n' then 2 else 1;
      CutThenEnd("", text[n..]);
      var s := Cut("", text[n..]);
      assert [line] + (s.lines + Lines("", s.rest)) == ([line] + s.lines) + Lines("", s.rest);
    } else {
      CutThenEnd(line + [text[0]], text[1..]);
    }
  }

  function Concat(chunks: seq<string>): string {
    if chunks == [] then "" else chunks[0] + Concat(chunks[1..])
  }

  /** One parser fed chunk by chunk and then finished. */
  method ParseChunks(chunks: seq<string>) returns (frames: seq<Frame>)
    ensures frames == Parse(Concat(chunks))
  {
    var parser := new SseParser();
    ghost var seen := "";
    for i := 0 to |chunks|
      invariant seen + Concat(chunks[i..]) == Concat(chunks)
      invariant var s := Cut("", seen);
                parser.State() == ConsumeAll(EMPTY, s.lines) && parser.buffer == s.rest
    {
      ghost var s := Cut("", seen);
      parser.Push(chunks[i]);
      CutAppend("", seen, chunks[i]);
      ConsumeConcat(EMPTY, s.lines, Cut("", s.rest + chunks[i]).lines);
      assert chunks[i..][1..] == chunks[i + 1..];
      assert seen + (chunks[i] + Concat(chunks[i + 1..])) == (seen + chunks[i]) + Concat(chunks[i + 1..]);
      seen := seen + chunks[i];
    }
    assert seen == Concat(chunks);
    CutThenEnd("", seen);
    ConsumeConcat(EMPTY, Cut("", seen).lines, Lines("", Cut("", seen).rest));
    parser.Finish();
    frames := parser.frames;
  }
}
