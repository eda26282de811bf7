/**
 The texts that the batch parser accepts, written out character by character, and what
 each of their blocks puts into the capture (backend/src/monitoring.rs).
 */
module BatchOutcome {
  import opened Wrappers
  import opened Text
  import opened Decimals
  import opened Metrics
  import opened Batch
  import BatchTranscript

  /**
   One block as it stands in a text: white space before it, the output, the exit code, and whether a
   newline ends it.
   */
  datatype Written = Written(gap: string, action: ActionId, output: string, code: string, closed: bool)

  const BEGIN := HOST_RESOURCE_V1.begin
  const END := HOST_RESOURCE_V1.end

  function Closing(w: Written): string {
    if w.closed then "\n" else ""
  }

  function Line(name: string, code: string): string {
    name + ":" + code
  }

  function BodyText(end: string, name: string, w: Written): string {
    w.output + end + (Line(name, w.code) + Closing(w))
  }

  function BlockText(begin: string, end: string, name: string, w: Written): string {
    begin + (name + "\n" + BodyText(end, name, w))
  }

  function Block(w: Written): string {
    BlockText(BEGIN, END, Name(w.action), w)
  }

  /** Blocks in a row, then `tail`. */
  function TextOf(ws: seq<Written>, tail: string): string {
    if ws == [] then tail else ws[0].gap + (Block(ws[0]) + TextOf(ws[1..], tail))
  }

  predicate AllSpace(s: string) {
    forall i :: 0 <= i < |s| ==> s[i] in [' ', '\t', '\n', '\r', '\U{0C}']
  }

  /** The end marker behind the output is the first one, even where the output ends with a part of one. */
  predicate MarkerIsFirst(output: string, end: string) {
    forall j: nat :: j < |output| ==> !OccursAt(output + end, end, j)
  }

  predicate WellWritten(w: Written) {
    AllSpace(w.gap) && MarkerIsFirst(w.output, END) && ParseI32(w.code).Some?
  }

  /** Only the last block may lack its newline, and then it ends the text. */
  predicate WellFormed(ws: seq<Written>, tail: string) {
    && AllSpace(tail)
    && forall i :: 0 <= i < |ws| ==> WellWritten(ws[i]) && (ws[i].closed || (i == |ws| - 1 && tail == ""))
  }

  /** What a code and an output leave in a slot. */
  predicate Decides(slot: RawSource, code: int, output: string, limit: nat) {
    if code == 124 then slot == Unavailable(TimedOut)
    else if code == 126 then slot == Unavailable(PermissionDenied)
    else if code != 0 then slot == Unavailable(Unsupported)
    else if |output| > limit then slot == Unavailable(ParseFailed)
    else slot == Output(output)
  }

  lemma SourceIsDecided(a: ActionId, code: int, output: string)
    ensures Decides(SourceOf(a, code, output), code, output, MaxStdoutBytes(a))
  {
  }

  // ---- one block, read -----------------------------------------------------------------

  lemma EndFound(output: string, end: string, tail: string)
    requires MarkerIsFirst(output, end) && end != ""
    ensures FindFrom(output + end + tail, end, 0) == Some(|output|)
  {
    var s := output + end + tail;
    assert s[|output|..] == end + tail;
    forall j: nat | j < |output| ensures !OccursAt(s, end, j) {
      assert !OccursAt(output + end, end, j);
      assert s[j..][..|end|] == (output + end)[j..][..|end|];
    }
    FirstOccurrence(s, end, |output|);
  }

  lemma NoNewlineFound(line: string)
    requires '\n' !in line
    ensures FindFrom(line, "\n", 0) == None
  {
    forall k: nat ensures !OccursAt(line, "\n", k) {
      assert k < |line| ==> line[k..][0] == line[k] && line[k] in line;
    }
    FindsFirst(line, "\n", 0);
  }

  /** A newline, or nothing where the text ends. */
  predicate IsClosing(closing: string, rest: string) {
    closing == "\n" || (closing == "" && rest == "")
  }

  lemma LineEnds(line: string, closing: string, rest: string)
    requires '\n' !in line && IsClosing(closing, rest)
    ensures var tail := line + closing + rest;
            LineEnd(tail) == |line| && tail[..|line|] == line && (|line| < |tail| <==> closing != "")
  {
    if closing == "" {
      NoNewlineFound(line);
      assert line + "" + rest == line;
    } else {
      FirstNewline(line, rest);
    }
  }

  lemma BodyUpToTail(readEnd: string -> Result<Ended, BatchError>, body: string, k: nat, marker: nat, tail: string,
                     line: string)
    requires k + marker <= |body| && body[k + marker..] == tail
    requires LineEnd(tail) == |line| <= |tail| && tail[..|line|] == line && readEnd(line).Ok?
    ensures BodyUpTo(readEnd, body, k, marker)
            == Ok(Framed(readEnd(line).value, body[..k], k + marker + |line| + (if |line| < |tail| then 1 else 0)))
  {
  }

  lemma BodyReads(end: string, readEnd: string -> Result<Ended, BatchError>, ended: Ended, output: string, line: string,
                  closing: string, rest: string)
    requires end != "" && MarkerIsFirst(output, end) && '\n' !in line && IsClosing(closing, rest)
    requires readEnd(line) == Ok(ended)
    ensures BodyAt(end, readEnd, output + end + (line + closing + rest))
            == Ok(Framed(ended, output, |output| + |end| + |line| + |closing|))
  {
    var tail := line + closing + rest;
    var body := output + end + tail;
    EndFound(output, end, tail);
    LineEnds(line, closing, rest);
    assert body[|output| + |end|..] == tail && body[..|output|] == output;
    BodyUpToTail(readEnd, body, |output|, |end|, tail, line);
  }

  lemma BetweenReads(begin: string, seen: set<string>, readBody: string -> string -> Result<Framed, BatchError>,
                     name: string, body: string, framed: Framed)
    requires name != "" && '\n' !in name && readBody(name)(body) == Ok(framed)
    ensures BlockBetween(begin, seen, readBody, begin + (name + "\n" + body))
            == if name in seen then Err(InvalidOrDuplicateBegin)
               else Ok(framed.(length := |begin| + |name| + 1 + framed.length))
  {
    var text := begin + (name + "\n" + body);
    assert text[|begin|..] == name + "\n" + body;
    FirstNewline(name, body);
    assert (name + "\n" + body)[..|name|] == name && (name + "\n" + body)[|name| + 1..] == body;
  }

  lemma CodeChars(code: string)
    requires ParseI32(code).Some?
    ensures ':' !in code && '\n' !in code
  {
    var body := if code[0] == '-' || code[0] == '+' then code[1..] else code;
    assert AllDigits(body);
    assert forall c :: c in code <==> c == code[0] || c in code[1..];
  }

  lemma LineReads(actions: seq<ActionId>, name: string, a: ActionId, code: string)
    requires ':' !in name && ParseI32(code).Some? && FindAction(actions, name) == Some(a)
    ensures EndLine(actions, name, Line(name, code)) == Ok(Ended(a, ParseI32(code).value))
  {
    CodeChars(code);
    BatchTranscript.LastSeparator(name, ':', code);
  }

  lemma Regroups(begin: string, end: string, name: string, w: Written, rest: string)
    ensures BlockText(begin, end, name, w) + rest
            == begin + (name + "\n" + BodyOf(end, name, w, rest))
    ensures |BlockText(begin, end, name, w)|
            == |begin| + |name| + 1 + (|w.output| + |end| + |Line(name, w.code)| + |Closing(w)|)
  {
  }

  function BodyOf(end: string, name: string, w: Written, rest: string): string {
    w.output + end + (Line(name, w.code) + Closing(w) + rest)
  }

  lemma EndReaderReads(protocol: Protocol, name: string, a: ActionId, code: string)
    requires ':' !in name && ParseI32(code).Some? && FindAction(protocol.actions, name) == Some(a)
    ensures EndReader(protocol, name)(Line(name, code)) == Ok(Ended(a, ParseI32(code).value))
  {
    LineReads(protocol.actions, name, a, code);
  }

  function FramedOf(end: string, name: string, w: Written, code: int): Framed {
    Framed(Ended(w.action, code), w.output, |w.output| + |end| + |Line(name, w.code)| + |Closing(w)|)
  }

  lemma ReaderIs(protocol: Protocol, name: string, body: string, framed: Framed)
    requires BodyAt(protocol.end, EndReader(protocol, name), body) == Ok(framed)
    ensures BodyReader(protocol)(name)(body) == Ok(framed)
  {
  }

  lemma WrittenBodyReads(end: string, readEnd: string -> Result<Ended, BatchError>, name: string, w: Written, code: int,
                         rest: string)
    requires end != "" && MarkerIsFirst(w.output, end) && '\n' !in Line(name, w.code) && (w.closed || rest == "")
    requires readEnd(Line(name, w.code)) == Ok(Ended(w.action, code))
    ensures BodyAt(end, readEnd, BodyOf(end, name, w, rest)) == Ok(FramedOf(end, name, w, code))
  {
    BodyReads(end, readEnd, Ended(w.action, code), w.output, Line(name, w.code), Closing(w), rest);
  }

  /** The name a block begins with, listed for its action. */
  predicate Names(actions: seq<ActionId>, name: string, a: ActionId) {
    name != "" && '\n' !in name && ':' !in name && FindAction(actions, name) == Some(a)
  }

  lemma BodyReaderReads(protocol: Protocol, name: string, w: Written, rest: string)
    requires protocol.end != "" && Names(protocol.actions, name, w.action)
    requires MarkerIsFirst(w.output, protocol.end) && ParseI32(w.code).Some? && (w.closed || rest == "")
    ensures BodyReader(protocol)(name)(BodyOf(protocol.end, name, w, rest))
            == Ok(FramedOf(protocol.end, name, w, ParseI32(w.code).value))
  {
    var code := ParseI32(w.code).value;
    CodeChars(w.code);
    EndReaderReads(protocol, name, w.action, w.code);
    LineHoldsNoNewline(name, w.code);
    WrittenBodyReads(protocol.end, EndReader(protocol, name), name, w, code, rest);
    ReaderIs(protocol, name, BodyOf(protocol.end, name, w, rest), FramedOf(protocol.end, name, w, code));
  }

  /** Framed as a whole block. */
  function FramedBlock(begin: string, end: string, name: string, w: Written, code: int): Framed {
    Framed(Ended(w.action, code), w.output, |BlockText(begin, end, name, w)|)
  }

  lemma BlockBetweenReads(begin: string, end: string, readBody: string -> string -> Result<Framed, BatchError>,
                          seen: set<string>, name: string, w: Written, code: int, rest: string)
    requires name != "" && '\n' !in name
    requires readBody(name)(BodyOf(end, name, w, rest)) == Ok(FramedOf(end, name, w, code))
    ensures BlockBetween(begin, seen, readBody, BlockText(begin, end, name, w) + rest)
            == if name in seen then Err(InvalidOrDuplicateBegin) else Ok(FramedBlock(begin, end, name, w, code))
  {
    Regroups(begin, end, name, w, rest);
    BetweenReads(begin, seen, readBody, name, BodyOf(end, name, w, rest), FramedOf(end, name, w, code));
  }

  lemma FramedReads(protocol: Protocol, seen: set<string>, name: string, w: Written, rest: string)
    requires protocol.end != "" && Names(protocol.actions, name, w.action)
    requires MarkerIsFirst(w.output, protocol.end) && ParseI32(w.code).Some? && (w.closed || rest == "")
    ensures BlockBetween(protocol.begin, seen, BodyReader(protocol),
                         BlockText(protocol.begin, protocol.end, name, w) + rest)
            == if name in seen then Err(InvalidOrDuplicateBegin)
               else Ok(FramedBlock(protocol.begin, protocol.end, name, w, ParseI32(w.code).value))
  {
    BodyReaderReads(protocol, name, w, rest);
    BlockBetweenReads(protocol.begin, protocol.end, BodyReader(protocol), seen, name, w, ParseI32(w.code).value, rest);
  }

  lemma LineHoldsNoNewline(name: string, code: string)
    requires '\n' !in name && '\n' !in code
    ensures '\n' !in Line(name, code)
  {
  }

  lemma EndIsSome()
    ensures END != ""
  {
    assert |END| > 0;
  }

  /** A written block is read as its action, what its code and output decide, and its whole length. */
  lemma BlockReads(w: Written, rest: string, seen: set<string>)
    requires WellWritten(w) && (w.closed || rest == "")
    ensures BlockAt(Block(w) + rest, seen)
            == if Name(w.action) in seen then Err(InvalidOrDuplicateBegin)
               else Ok(Parsed(w.action, SourceOf(w.action, ParseI32(w.code).value, Trim(w.output, IsLineEnd)),
                              |Block(w)|))
  {
    EndIsSome();
    BatchTranscript.NamesAreNames(w.action);
    BatchTranscript.NameChars(Name(w.action));
    BatchTranscript.FindsItself(w.action);
    FramedReads(HOST_RESOURCE_V1, seen, Name(w.action), w, rest);
  }

  // ---- whole texts, read ---------------------------------------------------------------

  lemma {:induction false} GapIsSkipped(gap: string, text: string)
    requires AllSpace(gap) && (text == "" || !IsAsciiSpace(text[0]))
    ensures TrimStart(gap + text, IsAsciiSpace) == text
  {
    if gap == [] {
      assert gap + text == text;
    } else {
      assert gap[0] in [' ', '\t', '\n', '\r', '\U{0C}'] && IsAsciiSpace(gap[0]);
      assert (gap + text)[1..] == gap[1..] + text;
      GapIsSkipped(gap[1..], text);
    }
  }

  lemma BlockBegins(w: Written, rest: string)
    ensures Block(w) != "" && Block(w) + rest != "" && !IsAsciiSpace((Block(w) + rest)[0])
  {
    BeginIsVisible();
    assert (Block(w) + rest)[0] == BEGIN[0];
  }

  lemma BeginIsVisible()
    ensures BEGIN != "" && !IsAsciiSpace(BEGIN[0])
  {
    assert |BEGIN| > 0;
  }

  function SourceIn(w: Written): RawSource
    requires ParseI32(w.code).Some?
  {
    SourceOf(w.action, ParseI32(w.code).value, Trim(w.output, IsLineEnd))
  }

  lemma OneMoreRead(w: Written, rest: string, seen: set<string>, c: Capture)
    requires WellWritten(w) && (w.closed || rest == "") && Name(w.action) !in seen
    ensures ParseRest(w.gap + (Block(w) + rest), seen, c)
            == ParseRest(rest, seen + {Name(w.action)}, SetSlot(c, w.action, SourceIn(w)))
  {
    var body := Block(w) + rest;
    BlockBegins(w, rest);
    GapIsSkipped(w.gap, body);
    OneBlock(w.gap + body, body, seen, c);
    BlockReads(w, rest, seen);
    assert body[|Block(w)|..] == rest;
  }

  ghost predicate DistinctActions(ws: seq<Written>) {
    forall i, j :: 0 <= i < j < |ws| ==> ws[i].action != ws[j].action
  }

  function FillAll(c: Capture, ws: seq<Written>): Capture
    requires forall i :: 0 <= i < |ws| ==> ParseI32(ws[i].code).Some?
    decreases |ws|
  {
    if ws == [] then c else FillAll(SetSlot(c, ws[0].action, SourceIn(ws[0])), ws[1..])
  }

  lemma WellFormedTail(ws: seq<Written>, tail: string)
    requires ws != [] && WellFormed(ws, tail)
    ensures WellFormed(ws[1..], tail) && WellWritten(ws[0]) && (ws[0].closed || TextOf(ws[1..], tail) == "")
  {
    assert forall i :: 0 <= i < |ws| - 1 ==> ws[1..][i] == ws[i + 1];
  }

  lemma {:induction false} TextReads(ws: seq<Written>, tail: string, seen: set<string>, c: Capture)
    requires WellFormed(ws, tail) && DistinctActions(ws)
    requires forall i :: 0 <= i < |ws| ==> Name(ws[i].action) !in seen
    ensures ParseRest(TextOf(ws, tail), seen, c)
            == if |seen| + |ws| == |ACTIONS| then Ok(FillAll(c, ws)) else Err(OmittedAction)
    decreases |ws|
  {
    if ws == [] {
      GapIsSkipped(tail, "");
      assert tail + "" == tail;
      NoMoreBlocks(tail, seen, c);
    } else {
      WellFormedTail(ws, tail);
      var name := Name(ws[0].action);
      OneMoreRead(ws[0], TextOf(ws[1..], tail), seen, c);
      BatchTranscript.NewName(seen, name);
      forall i | 0 <= i < |ws| - 1 ensures Name(ws[1..][i].action) !in seen + {name} {
        BatchTranscript.NamesTellActions(ws[0].action);
        BatchTranscript.NamesTellActions(ws[i + 1].action);
      }
      TextReads(ws[1..], tail, seen + {name}, SetSlot(c, ws[0].action, SourceIn(ws[0])));
    }
  }

  lemma {:induction false} FillAllKeeps(c: Capture, ws: seq<Written>, a: ActionId)
    requires forall i :: 0 <= i < |ws| ==> ParseI32(ws[i].code).Some? && ws[i].action != a
    ensures Slot(FillAll(c, ws), a) == Slot(c, a)
    decreases |ws|
  {
    if ws != [] {
      SlotsAreSeparate(c, ws[0].action, SourceIn(ws[0]), a);
      FillAllKeeps(SetSlot(c, ws[0].action, SourceIn(ws[0])), ws[1..], a);
    }
  }

  lemma {:induction false} FillAllFills(c: Capture, ws: seq<Written>, i: nat)
    requires forall j :: 0 <= j < |ws| ==> ParseI32(ws[j].code).Some?
    requires DistinctActions(ws) && i < |ws|
    ensures Slot(FillAll(c, ws), ws[i].action) == SourceIn(ws[i])
    decreases |ws|
  {
    var next := SetSlot(c, ws[0].action, SourceIn(ws[0]));
    if i == 0 {
      FillAllKeeps(next, ws[1..], ws[0].action);
      SlotsAreSeparate(c, ws[0].action, SourceIn(ws[0]), ws[0].action);
    } else {
      FillAllFills(next, ws[1..], i - 1);
    }
  }

  // ---- accepted texts, written out --------------------------------------------------------

  lemma FoundCuts(s: string, needle: string) returns (before: string, after: string)
    requires FindFrom(s, needle, 0).Some?
    ensures s == before + needle + after && |before| == FindFrom(s, needle, 0).value
    ensures before == s[..FindFrom(s, needle, 0).value] && after == s[FindFrom(s, needle, 0).value + |needle|..]
    ensures forall j: nat :: j < |before| ==> !OccursAt(s, needle, j)
  {
    var k := FindFrom(s, needle, 0).value;
    FindsFirst(s, needle, 0);
    before, after := s[..k], s[k + |needle|..];
    assert s[k..][..|needle|] == needle;
  }

  lemma {:induction false} RSplitJoins(s: string, sep: char)
    requires RSplitOnce(s, sep).Some?
    ensures s == RSplitOnce(s, sep).value.0 + [sep] + RSplitOnce(s, sep).value.1
  {
    var n := |s| - 1;
    if s[n] != sep {
      RSplitJoins(s[..n], sep);
    }
  }

  lemma EndLineIsWritten(actions: seq<ActionId>, name: string, line: string) returns (code: string)
    requires EndLine(actions, name, line).Ok?
    ensures line == Line(name, code) && ParseI32(code).Some?
    ensures var a := EndLine(actions, name, line).value.action; FindAction(actions, name) == Some(a) && Name(a) == name
  {
    RSplitJoins(line, ':');
    code := RSplitOnce(line, ':').value.1;
    FoundIsNamed(actions, name);
  }

  lemma FirstInPart(output: string, end: string, tail: string)
    requires forall j: nat :: j < |output| ==> !OccursAt(output + end + tail, end, j)
    ensures MarkerIsFirst(output, end)
  {
    forall j: nat | j < |output| ensures !OccursAt(output + end, end, j) {
      assert !OccursAt(output + end + tail, end, j);
      assert (output + end + tail)[j..][..|end|] == (output + end)[j..][..|end|];
    }
  }

  lemma TailIsWritten(tail: string) returns (line: string, closing: string, rest: string)
    ensures tail == line + closing + rest && line == tail[..LineEnd(tail)] && IsClosing(closing, rest)
  {
    if FindFrom(tail, "\n", 0).Some? {
      line, rest := FoundCuts(tail, "\n");
      closing := "\n";
    } else {
      line, closing, rest := tail, "", "";
    }
  }

  lemma BodyIsWritten(end: string, readEnd: string -> Result<Ended, BatchError>, body: string)
    returns (output: string, line: string, closing: string, rest: string)
    requires BodyAt(end, readEnd, body).Ok?
    ensures body == output + end + (line + closing + rest) && MarkerIsFirst(output, end) && IsClosing(closing, rest)
    ensures readEnd(line).Ok? && BodyAt(end, readEnd, body).value.ended == readEnd(line).value
  {
    var tail;
    output, tail := FoundCuts(body, end);
    FirstInPart(output, end, tail);
    line, closing, rest := TailIsWritten(tail);
  }

  lemma BetweenIsWritten(begin: string, seen: set<string>, readBody: string -> string -> Result<Framed, BatchError>,
                         text: string) returns (name: string, body: string)
    requires BlockBetween(begin, seen, readBody, text).Ok?
    ensures text == begin + (name + "\n" + body) && name !in seen && readBody(name)(body).Ok?
  {
    var line := text[|begin|..];
    name, body := FoundCuts(line, "\n");
    assert text == begin + line;
  }

  lemma FramedIsWritten(protocol: Protocol, seen: set<string>, text: string)
      returns (name: string, w: Written, rest: string)
    requires BlockBetween(protocol.begin, seen, BodyReader(protocol), text).Ok?
    ensures text == BlockText(protocol.begin, protocol.end, name, w) + rest && name !in seen && name == Name(w.action)
    ensures w.gap == "" && MarkerIsFirst(w.output, protocol.end) && ParseI32(w.code).Some? && (w.closed || rest == "")
  {
    var body;
    name, body := BetweenIsWritten(protocol.begin, seen, BodyReader(protocol), text);
    var output, line, closing, after := BodyIsWritten(protocol.end, EndReader(protocol, name), body);
    var code := EndLineIsWritten(protocol.actions, name, line);
    var action := EndLine(protocol.actions, name, line).value.action;
    w, rest := Written("", action, output, code, closing != ""), after;
    assert Closing(w) == closing;
    Regroups(protocol.begin, protocol.end, name, w, rest);
  }

  lemma BlockIsWritten(text: string, seen: set<string>) returns (w: Written, rest: string)
    requires BlockAt(text, seen).Ok?
    ensures text == Block(w) + rest && w.gap == "" && WellWritten(w) && (w.closed || rest == "")
            && Name(w.action) !in seen
  {
    var name;
    name, w, rest := FramedIsWritten(HOST_RESOURCE_V1, seen, text);
  }

  lemma {:induction false} SpaceIsGap(text: string) returns (gap: string)
    ensures text == gap + TrimStart(text, IsAsciiSpace) && AllSpace(gap)
  {
    if text != "" && IsAsciiSpace(text[0]) {
      gap := SpaceIsGap(text[1..]);
      gap := [text[0]] + gap;
    } else {
      gap := "";
    }
  }

  ghost predicate NoneSeen(ws: seq<Written>, seen: set<string>) {
    DistinctActions(ws) && forall i :: 0 <= i < |ws| ==> Name(ws[i].action) !in seen
  }

  lemma OneMoreUnseen(w: Written, ws: seq<Written>, seen: set<string>)
    requires Name(w.action) !in seen && NoneSeen(ws, seen + {Name(w.action)})
    ensures NoneSeen([w] + ws, seen)
  {
    forall i, j | 0 <= i < j < |[w] + ws| ensures ([w] + ws)[i].action != ([w] + ws)[j].action {
      assert Name(ws[j - 1].action) != Name(w.action);
    }
  }

  lemma OneMoreText(w: Written, ws: seq<Written>, tail: string)
    ensures TextOf([w] + ws, tail) == w.gap + (Block(w) + TextOf(ws, tail))
  {
    assert ([w] + ws)[1..] == ws;
  }

  lemma OneMoreFormed(w: Written, ws: seq<Written>, tail: string)
    requires WellWritten(w) && WellFormed(ws, tail) && (w.closed || TextOf(ws, tail) == "")
    ensures WellFormed([w] + ws, tail)
  {
    if ws != [] {
      BlockBegins(ws[0], TextOf(ws[1..], tail));
      assert |TextOf(ws, tail)| >= |Block(ws[0])|;
    }
    forall i | 0 <= i < |[w] + ws|
      ensures WellWritten(([w] + ws)[i]) && (([w] + ws)[i].closed || (i == |ws| && tail == ""))
    {
      assert i > 0 ==> ([w] + ws)[i] == ws[i - 1];
    }
  }

  lemma OneMoreWritten(w: Written, ws: seq<Written>, tail: string, seen: set<string>)
    requires WellWritten(w) && WellFormed(ws, tail) && (w.closed || TextOf(ws, tail) == "")
    requires Name(w.action) !in seen && NoneSeen(ws, seen + {Name(w.action)})
    ensures WellFormed([w] + ws, tail) && NoneSeen([w] + ws, seen)
    ensures TextOf([w] + ws, tail) == w.gap + (Block(w) + TextOf(ws, tail))
  {
    OneMoreUnseen(w, ws, seen);
    OneMoreText(w, ws, tail);
    OneMoreFormed(w, ws, tail);
  }

  lemma {:induction false} AcceptedIsWritten(text: string, seen: set<string>, c: Capture)
      returns (ws: seq<Written>, tail: string)
    requires ParseRest(text, seen, c).Ok?
    ensures text == TextOf(ws, tail) && WellFormed(ws, tail) && NoneSeen(ws, seen) && |seen| + |ws| == |ACTIONS|
    decreases |text|
  {
    var body := TrimStart(text, IsAsciiSpace);
    var gap := SpaceIsGap(text);
    if body == "" {
      NoMoreBlocks(text, seen, c);
      ws, tail := [], text;
      assert gap + "" == gap;
    } else {
      OneBlock(text, body, seen, c);
      var w, rest := BlockIsWritten(body, seen);
      BlockReads(w, rest, seen);
      assert body[|Block(w)|..] == rest;
      BlockBegins(w, rest);
      BatchTranscript.NewName(seen, Name(w.action));
      ws, tail := AcceptedIsWritten(rest, seen + {Name(w.action)}, SetSlot(c, w.action, SourceIn(w)));
      OneMoreWritten(w.(gap := gap), ws, tail, seen);
      ws := [w.(gap := gap)] + ws;
    }
  }

  // ---- the two directions -------------------------------------------------------------------

  /** The text is exactly these blocks: one for each of the sixteen actions, in some order. */
  ghost predicate Spells(text: string, ws: seq<Written>, tail: string) {
    text == TextOf(ws, tail) && WellFormed(ws, tail) && DistinctActions(ws) && |ws| == 16
  }

  /** A text is accepted exactly when it is such a row of blocks. */
  lemma AcceptedExactlyWhenSpelt(text: string)
    ensures ParseRest(text, {}, EMPTY_CAPTURE).Ok? <==> exists ws, tail :: Spells(text, ws, tail)
  {
    if ParseRest(text, {}, EMPTY_CAPTURE).Ok? {
      var ws, tail := AcceptedIsWritten(text, {}, EMPTY_CAPTURE);
      assert Spells(text, ws, tail);
    }
    if ws, tail :| Spells(text, ws, tail) {
      TextReads(ws, tail, {}, EMPTY_CAPTURE);
    }
  }

  /** Then each slot holds what its block's exit code and trimmed output decide. */
  lemma CodesDecideSlots(text: string, ws: seq<Written>, tail: string, i: nat)
    requires Spells(text, ws, tail) && i < |ws|
    ensures ParseRest(text, {}, EMPTY_CAPTURE).Ok? && ParseI32(ws[i].code).Some?
    ensures Decides(Slot(ParseRest(text, {}, EMPTY_CAPTURE).value, ws[i].action), ParseI32(ws[i].code).value,
                    Trim(ws[i].output, IsLineEnd), MaxStdoutBytes(ws[i].action))
  {
    TextReads(ws, tail, {}, EMPTY_CAPTURE);
    FillAllFills(EMPTY_CAPTURE, ws, i);
    SourceIsDecided(ws[i].action, ParseI32(ws[i].code).value, Trim(ws[i].output, IsLineEnd));
  }

  /** The most that each action may print. */
  lemma OutputLimits(a: ActionId)
    ensures a in [FrameABootUptime, FrameBBootUptime, CpuOnline, Load, ProcessSummary] ==> MaxStdoutBytes(a) == 4096
    ensures a == Memory ==> MaxStdoutBytes(a) == 65536
    ensures a in [FrameANetworkIdentity, FrameBNetworkIdentity] ==> MaxStdoutBytes(a) == 131072
    ensures a in [FrameACpu, FrameBCpu, FrameADiskIo, FrameBDiskIo, FrameANetwork, FrameBNetwork, DiskCapacity,
                  DiskInodes] ==>
              MaxStdoutBytes(a) == 262144
  {
    match a case _ =>
  }

  /** The same for what the script prints: a denied action counts as 126 whatever its own code was. */
  lemma PrintedCodesDecide(blocks: seq<BatchTranscript.Ran>, i: nat)
    requires forall j :: 0 <= j < |blocks| ==> BatchTranscript.WellBehaved(blocks[j])
    requires |blocks| == 16 && BatchTranscript.DistinctActions(blocks) && i < |blocks|
    ensures var b := blocks[i];
            var code := if BatchTranscript.SaysPermissionDenied(b.stderr) then 126 else b.status;
            var r := ParseRest(BatchTranscript.Transcript(blocks), {}, EMPTY_CAPTURE);
            && r.Ok?
            && Decides(Slot(r.value, b.action), code, Trim(b.stdout, IsLineEnd), MaxStdoutBytes(b.action))
            && (Slot(r.value, b.action).Output?
                <==> code == 0 && |Trim(b.stdout, IsLineEnd)| <= MaxStdoutBytes(b.action))
  {
    BatchTranscript.BatchRoundTrip(blocks);
    SourceIsDecided(blocks[i].action, BatchTranscript.Reported(blocks[i]), Trim(blocks[i].stdout, IsLineEnd));
  }
}
