/**
 * The incremental event-stream parser (packages/client/src/sse.ts). It follows sections 9.2.5 and
 * 9.2.6 of the WHATWG HTML Living Standard for LF and CRLF line ends, without `id` and `retry`.
 */
module Sse {
  import opened Common

  /** `data` is the raw text; decoding it as JSON is a function of that text. */
  datatype Frame = Frame(event: string, data: string)

  datatype Parser = Parser(eventName: string, dataLines: seq<string>)

  const FRESH: Parser := Parser("message", [])

  /** `indexOf` of one character, -1 when absent. */
  function IndexOf(s: string, c: char): int
    ensures -1 <= IndexOf(s, c) < |s|
    ensures IndexOf(s, c) >= 0 ==> s[IndexOf(s, c)] == c
    ensures forall j :: 0 <= j < (if IndexOf(s, c) < 0 then |s| else IndexOf(s, c)) ==> s[j] != c
  {
    if s == [] then -1
    else if s[0] == c then 0
    else
      var k := IndexOf(s[1..], c);
      assert forall j :: 0 < j < |s| ==> s[j] == s[1..][j - 1];
      if k < 0 then -1 else k + 1
  }

  lemma IndexOfIs(s: string, c: char, k: nat)
    requires k < |s| && s[k] == c && forall j :: 0 <= j < k ==> s[j] != c
    ensures IndexOf(s, c) == k
  {
  }

  function JoinLf(lines: seq<string>): string {
    if lines == [] then ""
    else if |lines| == 1 then lines[0]
    else JoinLf(lines[..|lines| - 1]) + "\n" + lines[|lines| - 1]
  }

  function StripCr(line: string): string {
    if line != [] && line[|line| - 1] == '\r' then line[..|line| - 1] else line
  }

  function FieldOf(line: string): string {
    var colon := IndexOf(line, ':');
    if colon < 0 then line else line[..colon]
  }

  /** The text after the first colon, without one leading space. */
  function ValueOf(line: string): string {
    var colon := IndexOf(line, ':');
    var v := if colon < 0 then "" else line[colon + 1..];
    if v != [] && v[0] == ' ' then v[1..] else v
  }

  /** One nonempty line updates the event under construction. */
  function Field(p: Parser, line: string): Parser {
    if line != [] && line[0] == ':' then p
    else if FieldOf(line) == "event" then p.(eventName := ValueOf(line))
    else if FieldOf(line) == "data" then p.(dataLines := p.dataLines + [ValueOf(line)])
    else p
  }

  /** The frame a blank line dispatches. */
  function Dispatched(p: Parser): seq<Frame> {
    if p.dataLines == [] then [] else [Frame(p.eventName, JoinLf(p.dataLines))]
  }

  function AfterLine(p: Parser, raw: string): Parser {
    if StripCr(raw) == "" then FRESH else Field(p, StripCr(raw))
  }

  function LineFrames(p: Parser, raw: string): seq<Frame> {
    if StripCr(raw) == "" then Dispatched(p) else []
  }

  // ---- the line-by-line reference ---------------------------------------------

  /** The complete lines of a text; what follows the last newline is not one. */
  function Lines(text: string): seq<string>
    decreases |text|
  {
    var nl := IndexOf(text, '\n');
    if nl < 0 then [] else [text[..nl]] + Lines(text[nl + 1..])
  }

  /** What is left after the last newline. */
  function Tail(text: string): string
    decreases |text|
  {
    var nl := IndexOf(text, '\n');
    if nl < 0 then text else Tail(text[nl + 1..])
  }

  function ParserAfter(p: Parser, lines: seq<string>): Parser
    decreases |lines|
  {
    if lines == [] then p else ParserAfter(AfterLine(p, lines[0]), lines[1..])
  }

  function FramesFrom(p: Parser, lines: seq<string>): seq<Frame>
    decreases |lines|
  {
    if lines == [] then [] else LineFrames(p, lines[0]) + FramesFrom(AfterLine(p, lines[0]), lines[1..])
  }

  /** The frames of a whole text. */
  function Frames(text: string): seq<Frame> {
    FramesFrom(FRESH, Lines(text))
  }

  /** Taking off the first line of a text. */
  lemma FirstLine(text: string, nl: nat)
    requires nl < |text| && text[nl] == '\n' && forall j :: 0 <= j < nl ==> text[j] != '\n'
    ensures Lines(text) == [text[..nl]] + Lines(text[nl + 1..]) && Tail(text) == Tail(text[nl + 1..])
  {
    IndexOfIs(text, '\n', nl);
  }

  lemma NoLine(text: string)
    requires IndexOf(text, '\n') < 0
    ensures Lines(text) == [] && Tail(text) == text
  {
  }

  lemma {:induction false} LinesConcat(a: string, b: string)
    ensures Lines(a + b) == Lines(a) + Lines(Tail(a) + b)
    ensures Tail(a + b) == Tail(Tail(a) + b)
    decreases |a|
  {
    hide Lines, Tail;
    var nl := IndexOf(a, '\n');
    if nl < 0 {
      NoLine(a);
    } else {
      var rest := a[nl + 1..];
      FirstLine(a, nl);
      FirstLine(a + b, nl);
      assert (a + b)[..nl] == a[..nl] && (a + b)[nl + 1..] == rest + b;
      LinesConcat(rest, b);
      assert [a[..nl]] + (Lines(rest) + Lines(Tail(rest) + b)) == [a[..nl]] + Lines(rest) + Lines(Tail(rest) + b);
    }
  }

  lemma {:induction false} FramesConcat(p: Parser, a: seq<string>, b: seq<string>)
    ensures ParserAfter(p, a + b) == ParserAfter(ParserAfter(p, a), b)
    ensures FramesFrom(p, a + b) == FramesFrom(p, a) + FramesFrom(ParserAfter(p, a), b)
    decreases |a|
  {
    if a == [] {
      assert a + b == b;
    } else {
      assert (a + b)[1..] == a[1..] + b;
      FramesConcat(AfterLine(p, a[0]), a[1..], b);
    }
  }

  // ---- the parser of the source -----------------------------------------------

  /** One line: dispatch on a blank one, skip comments, collect fields. */
  method HandleLine(p: Parser, raw: string) returns (p': Parser, frames: seq<Frame>)
    ensures p' == AfterLine(p, raw) && frames == LineFrames(p, raw)
  {
    var line := raw;
    if |line| > 0 && line[|line| - 1] == '\r' { line := line[..|line| - 1]; }
    if line == "" {
      frames := if |p.dataLines| > 0 then [Frame(p.eventName, JoinLf(p.dataLines))] else [];
      return Parser("message", []), frames;
    }
    frames := [];
    if line[0] == ':' { return p, frames; }
    var colon := IndexOf(line, ':');
    var field := if colon == -1 then line else line[..colon];
    var val := if colon == -1 then "" else line[colon + 1..];
    if |val| > 0 && val[0] == ' ' { val := val[1..]; }
    p' := p;
    if field == "event" { p' := p.(eventName := val); }
    else if field == "data" { p' := p.(dataLines := p.dataLines + [val]); }
  }

  /**
   * `parseSseFrames`: the frames of the pieces are the frames of the whole text, however it was
   * cut into pieces.
   */
  method ParseSseFrames(pieces: seq<string>) returns (frames: seq<Frame>)
    ensures frames == Frames(Flatten(pieces))
  {
    hide AfterLine, LineFrames;
    var buffer, p := "", FRESH;
    frames := [];
    assert Lines("") == [] && Tail("") == "";
    for i := 0 to |pieces|
      invariant buffer == Tail(Flatten(pieces[..i])) && IndexOf(buffer, '\n') < 0
      invariant p == ParserAfter(FRESH, Lines(Flatten(pieces[..i])))
      invariant frames == FramesFrom(FRESH, Lines(Flatten(pieces[..i])))
    {
      ghost var done := Flatten(pieces[..i]);
      assert pieces[..i + 1][..i] == pieces[..i];
      assert Flatten(pieces[..i + 1]) == done + pieces[i];
      LinesConcat(done, pieces[i]);
      FramesConcat(FRESH, Lines(done), Lines(buffer + pieces[i]));
      var more;
      buffer, p, more := DrainBuffer(buffer + pieces[i], p);
      frames := frames + more;
    }
    assert pieces[..|pieces|] == pieces;
  }

  /** The inner loop: every complete line in the buffer. */
  method DrainBuffer(text: string, start: Parser) returns (buffer: string, p: Parser, frames: seq<Frame>)
    ensures buffer == Tail(text) && IndexOf(buffer, '\n') < 0
    ensures p == ParserAfter(start, Lines(text)) && frames == FramesFrom(start, Lines(text))
  {
    hide AfterLine, LineFrames, Lines, Tail, FramesFrom, ParserAfter;
    buffer, p, frames := text, start, [];
    var nl := IndexOf(buffer, '\n');
    while nl >= 0
      invariant nl == IndexOf(buffer, '\n')
      invariant Tail(buffer) == Tail(text)
      invariant ParserAfter(p, Lines(buffer)) == ParserAfter(start, Lines(text))
      invariant frames + FramesFrom(p, Lines(buffer)) == FramesFrom(start, Lines(text))
      decreases |buffer|
    {
      var line := buffer[..nl];
      FirstLine(buffer, nl);
      TakeLine(p, line, Lines(buffer[nl + 1..]));
      buffer := buffer[nl + 1..];
      var more;
      p, more := HandleLine(p, line);
      frames := frames + more;
      nl := IndexOf(buffer, '\n');
    }
    NoLine(buffer);
    TakeNothing(p);
  }

  lemma TakeLine(p: Parser, line: string, rest: seq<string>)
    ensures FramesFrom(p, [line] + rest) == LineFrames(p, line) + FramesFrom(AfterLine(p, line), rest)
    ensures ParserAfter(p, [line] + rest) == ParserAfter(AfterLine(p, line), rest)
  {
    assert ([line] + rest)[1..] == rest;
  }

  lemma TakeNothing(p: Parser)
    ensures FramesFrom(p, []) == [] && ParserAfter(p, []) == p
  {
  }

  // ---- what a line means ------------------------------------------------------

  /** What a field's text is: everything after the colon but one leading space. */
  ghost predicate IsValue(rest: string, v: string) {
    if rest != "" && rest[0] == ' ' then rest == " " + v else v == rest
  }

  /** A line `name:rest` sets the event's name, adds a data line, or does nothing; a name that is empty makes a comment. */
  lemma FieldLineIs(p: Parser, name: string, rest: string, v: string)
    requires (forall i :: 0 <= i < |name| ==> name[i] != ':') && IsValue(rest, v)
    ensures Field(p, name + ":" + rest)
            == if name == "event" then p.(eventName := v) else if name == "data" then p.(dataLines := p.dataLines + [v]) else p
  {
    var line := name + ":" + rest;
    IndexOfIs(line, ':', |name|);
    assert line[..|name|] == name && line[|name| + 1..] == rest;
    assert rest != "" && rest[0] == ' ' ==> rest[1..] == v;
    assert name == "" ==> line[0] == ':';
  }

  /** A line without a colon is a field with empty text. */
  lemma BareLineIs(p: Parser, name: string)
    requires name != "" && forall i :: 0 <= i < |name| ==> name[i] != ':'
    ensures Field(p, name)
            == if name == "event" then p.(eventName := "") else if name == "data" then p.(dataLines := p.dataLines + [""]) else p
  {
    assert IndexOf(name, ':') < 0 by { var k := IndexOf(name, ':'); }
  }

  /** A line that is blank but for a CR hands over the data lines collected so far, joined, and starts an event named `message`. */
  lemma BlankLineIs(p: Parser, raw: string)
    requires raw in ["", "\r"]
    ensures AfterLine(p, raw) == Parser("message", [])
    ensures LineFrames(p, raw) == if p.dataLines == [] then [] else [Frame(p.eventName, JoinLf(p.dataLines))]
  {
  }

  /** Any other line is read as a field without its final CR and hands over nothing. */
  lemma OtherLineIs(p: Parser, line: string, raw: string)
    requires line != "" && (raw == line + "\r" || (raw == line && line[|line| - 1] != '\r'))
    ensures AfterLine(p, raw) == Field(p, line) && LineFrames(p, raw) == []
  {
    assert StripCr(raw) == line;
  }

  // ---- printing ---------------------------------------------------------------

  function SplitLf(s: string): seq<string>
    decreases |s|
  {
    var nl := IndexOf(s, '\n');
    if nl < 0 then [s] else [s[..nl]] + SplitLf(s[nl + 1..])
  }

  function DataText(lines: seq<string>): string {
    if lines == [] then "" else "data: " + lines[0] + "\n" + DataText(lines[1..])
  }

  function Print(f: Frame): string {
    "event: " + f.event + "\n" + DataText(SplitLf(f.data)) + "\n"
  }

  function PrintAll(fs: seq<Frame>): string {
    if fs == [] then "" else Print(fs[0]) + PrintAll(fs[1..])
  }

  predicate NoLf(s: string) {
    forall i :: 0 <= i < |s| ==> s[i] != '\n'
  }

  predicate EndsCr(s: string) {
    s != [] && s[|s| - 1] == '\r'
  }

  /** A name that survives printing: one line, not ending in CR. */
  predicate IsPlainName(name: string) {
    NoLf(name) && !EndsCr(name)
  }

  /** Data none of whose lines ends in CR. */
  predicate IsPlainData(data: string) {
    forall i :: 0 <= i < |SplitLf(data)| ==> !EndsCr(SplitLf(data)[i])
  }

  lemma {:induction false} SplitLfOk(s: string)
    ensures SplitLf(s) != [] && (forall i :: 0 <= i < |SplitLf(s)| ==> NoLf(SplitLf(s)[i]))
    ensures JoinLf(SplitLf(s)) == s
    decreases |s|
  {
    hide JoinLf;
    var nl := IndexOf(s, '\n');
    if nl < 0 {
      JoinOne(s);
    } else {
      SplitLfOk(s[nl + 1..]);
      JoinCons(s[..nl], SplitLf(s[nl + 1..]));
      assert s[..nl] + "\n" + s[nl + 1..] == s;
    }
  }

  lemma JoinOne(s: string)
    ensures JoinLf([s]) == s
  {
  }

  lemma {:induction false} JoinCons(x: string, xs: seq<string>)
    requires xs != []
    ensures JoinLf([x] + xs) == x + "\n" + JoinLf(xs)
    decreases |xs|
  {
    var all := [x] + xs;
    if |xs| == 1 {
      assert all[..1] == [x];
    } else {
      assert all[..|all| - 1] == [x] + xs[..|xs| - 1];
      JoinCons(x, xs[..|xs| - 1]);
      assert x + "\n" + JoinLf(xs[..|xs| - 1]) + "\n" + xs[|xs| - 1]
          == x + "\n" + (JoinLf(xs[..|xs| - 1]) + "\n" + xs[|xs| - 1]);
    }
  }

  /** A line and its newline are the first complete line of what follows. */
  lemma LinesCons(line: string, rest: string)
    requires NoLf(line)
    ensures Lines(line + "\n" + rest) == [line] + Lines(rest)
  {
    var text := line + "\n" + rest;
    IndexOfIs(text, '\n', |line|);
    assert text[..|line|] == line && text[|line| + 1..] == rest;
  }

  lemma DataLine(p: Parser, line: string)
    ensures AfterLine(p, "data: " + line) == p.(dataLines := p.dataLines + [StripCr(line)])
    ensures LineFrames(p, "data: " + line) == []
  {
    var raw := "data: " + line;
    var text := StripCr(raw);
    assert text == "data: " + StripCr(line);
    IndexOfIs(text, ':', 4);
    assert text[..4] == "data" && text[5..] == " " + StripCr(line);
  }

  lemma EventLine(p: Parser, name: string)
    ensures AfterLine(p, "event: " + name) == p.(eventName := StripCr(name))
    ensures LineFrames(p, "event: " + name) == []
  {
    var text := StripCr("event: " + name);
    assert text == "event: " + StripCr(name);
    IndexOfIs(text, ':', 5);
    assert text[..5] == "event" && text[6..] == " " + StripCr(name);
  }

  function StripAll(lines: seq<string>): seq<string> {
    seq(|lines|, i requires 0 <= i < |lines| => StripCr(lines[i]))
  }

  /** The printed data lines collect into the parser, each without a trailing CR. */
  lemma {:induction false} DataLinesCollect(p: Parser, lines: seq<string>, rest: string)
    requires forall i :: 0 <= i < |lines| ==> NoLf(lines[i])
    ensures var q := p.(dataLines := p.dataLines + StripAll(lines));
            FramesFrom(p, Lines(DataText(lines) + rest)) == FramesFrom(q, Lines(rest))
    decreases |lines|
  {
    hide AfterLine, LineFrames, Lines, FramesFrom, StripCr;
    if lines == [] {
      assert DataText(lines) + rest == rest;
      assert p.dataLines + StripAll(lines) == p.dataLines;
    } else {
      var line, more := "data: " + lines[0], DataText(lines[1..]) + rest;
      NoLfConcat("data: ", lines[0]);
      DataTextCons(lines, rest);
      LinesCons(line, more);
      DataLine(p, lines[0]);
      var p' := p.(dataLines := p.dataLines + [StripCr(lines[0])]);
      TakeLine(p, line, Lines(more));
      DataLinesCollect(p', lines[1..], rest);
      StripCons(p.dataLines, lines);
    }
  }

  lemma NoLfConcat(a: string, b: string)
    requires NoLf(a) && NoLf(b)
    ensures NoLf(a + b)
  {
  }

  lemma DataTextCons(lines: seq<string>, rest: string)
    requires lines != []
    ensures DataText(lines) + rest == "data: " + lines[0] + "\n" + (DataText(lines[1..]) + rest)
  {
    var head, more := "data: " + lines[0] + "\n", DataText(lines[1..]);
    assert head + more + rest == head + (more + rest);
  }

  lemma StripCons(before: seq<string>, lines: seq<string>)
    requires lines != []
    ensures before + [StripCr(lines[0])] + StripAll(lines[1..]) == before + StripAll(lines)
  {
    hide StripCr;
    assert StripAll(lines) == [StripCr(lines[0])] + StripAll(lines[1..]);
  }

  /** A printed frame comes back with its name and its data lines stripped of a trailing CR. */
  lemma PrintedFrame(f: Frame, rest: string)
    requires NoLf(f.event)
    ensures FramesFrom(FRESH, Lines(Print(f) + rest))
            == [Frame(StripCr(f.event), JoinLf(StripAll(SplitLf(f.data))))] + FramesFrom(FRESH, Lines(rest))
  {
    hide AfterLine, LineFrames, SplitLf, JoinLf, Lines, FramesFrom, DataText, StripCr;
    var lines := SplitLf(f.data);
    SplitLfOk(f.data);
    var first, blank := "event: " + f.event, "" + "\n" + rest;
    var afterFirst := DataText(lines) + blank;
    NoLfConcat("event: ", f.event);
    assert Print(f) + rest == first + "\n" + afterFirst;
    LinesCons(first, afterFirst);
    EventLine(FRESH, f.event);
    TakeLine(FRESH, first, Lines(afterFirst));
    var p := FRESH.(eventName := StripCr(f.event));
    DataLinesCollect(p, lines, blank);
    var q := p.(dataLines := p.dataLines + StripAll(lines));
    assert q.dataLines == StripAll(lines);
    LinesCons("", rest);
    TakeLine(q, "", Lines(rest));
    BlankLine(q);
  }

  lemma BlankLine(p: Parser)
    ensures AfterLine(p, "") == FRESH && LineFrames(p, "") == Dispatched(p)
  {
  }

  lemma JoinLfLength(lines: seq<string>)
    requires lines != []
    ensures |JoinLf(lines)| == |lines[|lines| - 1]| + if |lines| == 1 then 0 else |JoinLf(lines[..|lines| - 1])| + 1
  {
  }

  lemma {:induction false} StripShortens(lines: seq<string>)
    requires lines != []
    ensures |JoinLf(StripAll(lines))| <= |JoinLf(lines)|
    ensures (exists i :: 0 <= i < |lines| && EndsCr(lines[i])) ==> |JoinLf(StripAll(lines))| < |JoinLf(lines)|
    decreases |lines|
  {
    hide StripCr, EndsCr, JoinLf;
    var n := |lines| - 1;
    StripOne(lines[n]);
    JoinLfLength(lines);
    JoinLfLength(StripAll(lines));
    if n > 0 {
      var front := lines[..n];
      StripShortens(front);
      assert StripAll(lines)[..n] == StripAll(front);
      if i :| 0 <= i < n && EndsCr(lines[i]) {
        assert front[i] == lines[i];
      }
    }
  }

  lemma StripOne(line: string)
    ensures if EndsCr(line) then |StripCr(line)| < |line| else StripCr(line) == line
  {
  }

  lemma StripPlain(lines: seq<string>)
    requires forall i :: 0 <= i < |lines| ==> !EndsCr(lines[i])
    ensures StripAll(lines) == lines
  {
  }

  lemma NothingParses()
    ensures FramesFrom(FRESH, Lines("")) == []
  {
  }

  /** No name that the parser reports holds a newline. */
  lemma {:induction false} NamesHaveNoLf(p: Parser, lines: seq<string>)
    requires NoLf(p.eventName) && forall i :: 0 <= i < |lines| ==> NoLf(lines[i])
    ensures forall i :: 0 <= i < |FramesFrom(p, lines)| ==> NoLf(FramesFrom(p, lines)[i].event)
    decreases |lines|
  {
    hide AfterLine, NoLf;
    if lines != [] {
      LineHasNoLf(p, lines[0]);
      NamesHaveNoLf(AfterLine(p, lines[0]), lines[1..]);
    }
  }

  lemma LineHasNoLf(p: Parser, line: string)
    requires NoLf(p.eventName) && NoLf(line)
    ensures NoLf(AfterLine(p, line).eventName)
  {
    var text := StripCr(line);
    assert NoLf(text);
    assert forall i :: 0 <= i < |ValueOf(text)| ==> ValueOf(text)[i] in text;
  }

  lemma {:induction false} LinesHaveNoLf(text: string)
    ensures forall i :: 0 <= i < |Lines(text)| ==> NoLf(Lines(text)[i])
    decreases |text|
  {
    hide NoLf, Lines;
    var nl := IndexOf(text, '\n');
    if nl < 0 {
      NoLine(text);
    } else {
      FirstLine(text, nl);
      UpToLf(text, nl);
      LinesHaveNoLf(text[nl + 1..]);
    }
  }

  lemma UpToLf(text: string, nl: nat)
    requires nl <= |text| && forall j :: 0 <= j < nl ==> text[j] != '\n'
    ensures NoLf(text[..nl])
  {
  }

  /** Printing and parsing returns the frame iff its name is one line that does not end in CR and no data line does. */
  lemma PrintParseIff(f: Frame)
    ensures Frames(Print(f)) == [f] <==> IsPlainName(f.event) && IsPlainData(f.data)
  {
    hide SplitLf, JoinLf, Lines, Print, StripAll, FramesFrom, StripCr;
    if NoLf(f.event) {
      PrintedAlone(f);
      var lines := SplitLf(f.data);
      SplitLfOk(f.data);
      StripOne(f.event);
      if IsPlainData(f.data) {
        StripPlain(lines);
      } else {
        StripShortens(lines);
        assert Frames(Print(f))[0].data != f.data;
      }
    } else {
      LinesHaveNoLf(Print(f));
      NamesHaveNoLf(FRESH, Lines(Print(f)));
      assert [f][0] == f;
    }
  }

  lemma PrintedAlone(f: Frame)
    requires NoLf(f.event)
    ensures Frames(Print(f)) == [Frame(StripCr(f.event), JoinLf(StripAll(SplitLf(f.data))))]
  {
    hide SplitLf, JoinLf, Lines, Print, StripAll, FramesFrom, StripCr;
    PrintedFrame(f, "");
    NothingParses();
    assert Print(f) + "" == Print(f);
  }

  /** A printed sequence of frames, followed by an event without its blank line, parses to those frames. */
  lemma {:induction false} PrintedFramesParse(fs: seq<Frame>, tail: string)
    requires forall i :: 0 <= i < |fs| ==> IsPlainName(fs[i].event) && IsPlainData(fs[i].data)
    requires forall i :: 0 <= i < |Lines(tail)| ==> StripCr(Lines(tail)[i]) != ""
    ensures Frames(PrintAll(fs) + tail) == fs
    decreases |fs|
  {
    hide SplitLf, JoinLf, Lines, Print, FramesFrom, StripAll, StripCr;
    if fs == [] {
      assert PrintAll(fs) + tail == tail;
      NoBlankNoFrame(FRESH, Lines(tail));
    } else {
      var lines := SplitLf(fs[0].data);
      PrintedFramesParse(fs[1..], tail);
      SplitLfOk(fs[0].data);
      StripPlain(lines);
      StripOne(fs[0].event);
      assert PrintAll(fs) + tail == Print(fs[0]) + (PrintAll(fs[1..]) + tail);
      PrintedFrame(fs[0], PrintAll(fs[1..]) + tail);
    }
  }

  /** Lines without a blank one dispatch nothing. */
  lemma {:induction false} NoBlankNoFrame(p: Parser, lines: seq<string>)
    requires forall i :: 0 <= i < |lines| ==> StripCr(lines[i]) != ""
    ensures FramesFrom(p, lines) == []
    decreases |lines|
  {
    if lines != [] {
      NoBlankNoFrame(AfterLine(p, lines[0]), lines[1..]);
    }
  }
}
