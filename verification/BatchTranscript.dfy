/** Parsing back what the batch script prints (backend/src/monitoring.rs). */
module BatchTranscript {
  import opened Wrappers
  import opened Text
  import opened Decimals
  import opened Metrics
  import opened Batch

  /** One action as the script ran it. */
  datatype Ran = Ran(action: ActionId, stdout: string, stderr: string, status: int)

  /** The shell pattern *[Pp]ermission*[Dd]enied*. */
  ghost predicate SaysPermissionDenied(stderr: string) {
    exists i, j :: 0 <= i && i + 10 <= j && Permission(stderr, i) && Denied(stderr, j)
  }

  predicate Permission(s: string, i: int) {
    0 <= i < |s| && (s[i] == 'P' || s[i] == 'p') && OccursAt(s, "ermission", i + 1)
  }

  predicate Denied(s: string, j: int) {
    0 <= j < |s| && (s[j] == 'D' || s[j] == 'd') && OccursAt(s, "enied", j + 1)
  }

  ghost function Reported(b: Ran): int {
    if SaysPermissionDenied(b.stderr) then 126 else b.status
  }

  function PrintedBody(end: string, name: string, output: string, code: int): string {
    output + "\n" + end + (name + ":" + Decimal(code) + "\n")
  }

  function PrintedBlock(protocol: Protocol, name: string, output: string, code: int): string {
    protocol.begin + (name + "\n" + PrintedBody(protocol.end, name, output, code))
  }

  /** A begin line, the action's own output, and an end line with the status. */
  ghost function Printed(b: Ran): string {
    PrintedBlock(HOST_RESOURCE_V1, Name(b.action), b.stdout, Reported(b))
  }

  ghost function Transcript(blocks: seq<Ran>): string {
    if blocks == [] then "" else Printed(blocks[0]) + Transcript(blocks[1..])
  }

  /** What the capture should say of an action. */
  ghost function Expected(b: Ran): RawSource {
    SourceOf(b.action, Reported(b), Trim(b.stdout, IsLineEnd))
  }

  predicate IsI32(n: int) {
    -(I32_MAX + 1) <= n <= I32_MAX
  }

  predicate WellBehaved(b: Ran) {
    !Contains(b.stdout, HOST_RESOURCE_V1.end) && IsI32(b.status)
  }

  // ---- finding the marks ----------------------------------------------------------

  /** The end marker is found behind the output even when the output ends with part of one. */
  lemma FirstEndMarker(end: string, output: string, rest: string)
    requires '\n' !in end && !Contains(output, end)
    ensures FindFrom(output + "\n" + end + rest, end, 0) == Some(|output| + 1)
  {
    var s := output + "\n" + end + rest;
    assert s[|output| + 1..] == end + rest;
    forall j | 0 <= j < |output| + 1 ensures !OccursAt(s, end, j) {
      NotBefore(end, output, rest, j);
    }
    FirstOccurrence(s, end, |output| + 1);
  }

  lemma NotBefore(end: string, output: string, rest: string, j: nat)
    requires '\n' !in end && !Contains(output, end) && j <= |output|
    ensures !OccursAt(output + "\n" + end + rest, end, j)
  {
    var s := output + "\n" + end + rest;
    if j + |end| <= |output| {
      FindsFirst(output, end, 0);
      assert !OccursAt(output, end, j);
      assert s[j..][..|end|] == output[j..][..|end|];
    } else {
      assert s[|output|] == '\n';
      assert s[j..][|output| - j] == '\n';
    }
  }

  lemma {:induction false} LastSeparator(left: string, sep: char, right: string)
    requires sep !in right
    ensures RSplitOnce(left + [sep] + right, sep) == Some((left, right))
  {
    var s := left + [sep] + right;
    if right == [] {
      assert s[..|s| - 1] == left;
    } else {
      var front := right[..|right| - 1];
      assert s[..|s| - 1] == left + [sep] + front && right == front + [right[|right| - 1]];
      LastSeparator(left, sep, front);
    }
  }

  lemma {:induction false} TrimEndIgnores(s: string, c: char, drop: char -> bool)
    requires drop(c)
    ensures TrimEnd(s + [c], drop) == TrimEnd(s, drop)
  {
    assert (s + [c])[..|s + [c]| - 1] == s;
  }

  lemma {:induction false} TrimStartExtends(s: string, c: char, drop: char -> bool)
    requires drop(c)
    ensures TrimStart(s + [c], drop) == if TrimStart(s, drop) == "" then "" else TrimStart(s, drop) + [c]
    decreases |s|
  {
    if s == [] {
      assert s + [c] == [c] && [c][1..] == [];
    } else {
      assert (s + [c])[1..] == s[1..] + [c];
      TrimStartExtends(s[1..], c, drop);
    }
  }

  lemma TrimIgnoresNewline(output: string)
    ensures Trim(output + "\n", IsLineEnd) == Trim(output, IsLineEnd)
  {
    TrimStartExtends(output, '\n', IsLineEnd);
    TrimEndIgnores(TrimStart(output, IsLineEnd), '\n', IsLineEnd);
  }

  // ---- names ---------------------------------------------------------------------------

  predicate IsNameChar(c: char) {
    'a' <= c <= 'z' || c == '_'
  }

  predicate IsName(s: string) {
    s != [] && forall i :: 0 <= i < |s| ==> IsNameChar(s[i])
  }

  predicate InFrameA(a: ActionId) {
    a.FrameABootUptime? || a.FrameACpu? || a.FrameADiskIo? || a.FrameANetwork? || a.FrameANetworkIdentity?
  }

  predicate InFrameB(a: ActionId) {
    a.FrameBBootUptime? || a.FrameBCpu? || a.FrameBDiskIo? || a.FrameBNetwork? || a.FrameBNetworkIdentity?
  }

  lemma FrameANamesAreNames(a: ActionId)
    requires InFrameA(a)
    ensures IsName(Name(a))
  {
  }

  lemma FrameBNamesAreNames(a: ActionId)
    requires InFrameB(a)
    ensures IsName(Name(a))
  {
  }

  lemma NamesAreNames(a: ActionId)
    ensures IsName(Name(a))
  {
    if InFrameA(a) {
      FrameANamesAreNames(a);
    } else if InFrameB(a) {
      FrameBNamesAreNames(a);
    }
  }

  /** A name's length and two of its characters tell which action it names. */
  function Named(name: string): Option<ActionId> {
    match |name|
    case 19 => Some(if name[6] == 'a' then FrameABootUptime else FrameBBootUptime)
    case 24 => Some(if name[6] == 'a' then FrameANetworkIdentity else FrameBNetworkIdentity)
    case 10 => Some(CpuOnline)
    case 6 => Some(Memory)
    case 4 => Some(Load)
    case 13 => Some(DiskCapacity)
    case 11 => Some(if name[0] == 'd' then DiskInodes else if name[6] == 'a' then FrameACpu else FrameBCpu)
    case 15 => Some(if name[0] == 'p' then ProcessSummary
                    else if name[8] == 'd' then (if name[6] == 'a' then FrameADiskIo else FrameBDiskIo)
                    else if name[6] == 'a' then FrameANetwork else FrameBNetwork)
    case _ => None
  }

  lemma NamesTellActions(a: ActionId)
    ensures Named(Name(a)) == Some(a)
  {
    match a
    case _ =>
  }

  lemma EveryActionListed(a: ActionId)
    ensures a in ACTIONS
  {
    match a
    case FrameABootUptime => assert ACTIONS[0] == a;
    case FrameACpu => assert ACTIONS[1] == a;
    case FrameADiskIo => assert ACTIONS[2] == a;
    case FrameANetwork => assert ACTIONS[3] == a;
    case FrameANetworkIdentity => assert ACTIONS[4] == a;
    case FrameBBootUptime => assert ACTIONS[5] == a;
    case FrameBCpu => assert ACTIONS[6] == a;
    case FrameBDiskIo => assert ACTIONS[7] == a;
    case FrameBNetwork => assert ACTIONS[8] == a;
    case FrameBNetworkIdentity => assert ACTIONS[9] == a;
    case CpuOnline => assert ACTIONS[10] == a;
    case Memory => assert ACTIONS[11] == a;
    case Load => assert ACTIONS[12] == a;
    case DiskCapacity => assert ACTIONS[13] == a;
    case DiskInodes => assert ACTIONS[14] == a;
    case ProcessSummary => assert ACTIONS[15] == a;
  }

  lemma FindsItself(a: ActionId)
    ensures FindAction(ACTIONS, Name(a)) == Some(a)
  {
    EveryActionListed(a);
    var found := FindAction(ACTIONS, Name(a));
    FoundIsNamed(ACTIONS, Name(a));
    NamesTellActions(a);
    if found.Some? {
      NamesTellActions(found.value);
    }
  }

  // ---- one block ------------------------------------------------------------------------

  lemma DecimalChars(n: int)
    ensures ':' !in Decimal(n) && '\n' !in Decimal(n)
  {
    if n < 0 {
      assert forall c :: c in Digits(-n) ==> IsDigit(c);
    } else {
      assert forall c :: c in Digits(n) ==> IsDigit(c);
    }
  }

  lemma NameChars(name: string)
    requires IsName(name)
    ensures ':' !in name && '\n' !in name && name != ""
  {
    assert forall c :: c in name ==> IsNameChar(c);
  }

  lemma EndLineReads(actions: seq<ActionId>, name: string, a: ActionId, code: int)
    requires IsName(name) && IsI32(code) && FindAction(actions, name) == Some(a)
    ensures EndLine(actions, name, name + ":" + Decimal(code)) == Ok(Ended(a, code))
  {
    DecimalChars(code);
    LastSeparator(name, ':', Decimal(code));
    SignedRoundTrip(code);
  }

  lemma EndLineEnds(name: string, code: int, rest: string)
    requires IsName(name)
    ensures var line := name + ":" + Decimal(code);
            LineEnd(line + "\n" + rest) == |line| && (line + "\n" + rest)[..|line|] == line
  {
    DecimalChars(code);
    NameChars(name);
    FirstNewline(name + ":" + Decimal(code), rest);
  }

  lemma EndReaderReads(protocol: Protocol, name: string, a: ActionId, code: int)
    requires IsName(name) && IsI32(code) && FindAction(protocol.actions, name) == Some(a)
    ensures EndReader(protocol, name)(name + ":" + Decimal(code)) == Ok(Ended(a, code))
  {
    EndLineReads(protocol.actions, name, a, code);
  }

  lemma BodyReads(end: string, readEnd: string -> Result<Ended, BatchError>, name: string, ended: Ended,
      output: string, rest: string)
    requires '\n' !in end && !Contains(output, end) && IsName(name)
    requires readEnd(name + ":" + Decimal(ended.exitCode)) == Ok(ended)
    ensures BodyAt(end, readEnd, PrintedBody(end, name, output, ended.exitCode) + rest)
            == Ok(Framed(ended, output + "\n", |PrintedBody(end, name, output, ended.exitCode)|))
  {
    EndLineEnds(name, ended.exitCode, rest);
    PrintedBodyIs(end, name, output, ended.exitCode, rest);
    BodySplits(end, readEnd, output, name + ":" + Decimal(ended.exitCode), rest);
  }

  lemma BodySplits(end: string, readEnd: string -> Result<Ended, BatchError>, output: string, line: string,
      rest: string)
    requires '\n' !in end && !Contains(output, end)
    requires LineEnd(line + "\n" + rest) == |line| && (line + "\n" + rest)[..|line|] == line && readEnd(line).Ok?
    ensures BodyAt(end, readEnd, output + "\n" + end + (line + "\n" + rest))
            == Ok(Framed(readEnd(line).value, output + "\n", |output| + 1 + |end| + |line| + 1))
  {
    var tail := line + "\n" + rest;
    FirstEndMarker(end, output, tail);
    BodyCut(output, end, tail);
    BodyIs(end, readEnd, output + "\n" + end + tail, |output| + 1, line, tail);
  }

  lemma PrintedBodyIs(end: string, name: string, output: string, code: int, rest: string)
    ensures var line := name + ":" + Decimal(code);
            && PrintedBody(end, name, output, code) + rest == output + "\n" + end + (line + "\n" + rest)
            && |PrintedBody(end, name, output, code)| == |output| + 1 + |end| + |line| + 1
  {
  }

  lemma BodyCut(output: string, end: string, tail: string)
    ensures var body := output + "\n" + end + tail;
            body[..|output| + 1] == output + "\n" && body[|output| + 1 + |end|..] == tail
  {
  }

  lemma BodyUpToReads(readEnd: string -> Result<Ended, BatchError>, body: string, k: nat, marker: nat, line: string)
    requires k + marker <= |body| && var tail := body[k + marker..];
             LineEnd(tail) == |line| < |tail| && tail[..|line|] == line && readEnd(line).Ok?
    ensures BodyUpTo(readEnd, body, k, marker) == Ok(Framed(readEnd(line).value, body[..k], k + marker + |line| + 1))
  {
  }

  lemma BodyIs(end: string, readEnd: string -> Result<Ended, BatchError>, body: string, k: nat, line: string,
      tail: string)
    requires FindFrom(body, end, 0) == Some(k)
    requires k + |end| <= |body| && body[k + |end|..] == tail
    requires LineEnd(tail) == |line| < |tail| && tail[..|line|] == line && readEnd(line).Ok?
    ensures BodyAt(end, readEnd, body) == Ok(Framed(readEnd(line).value, body[..k], k + |end| + |line| + 1))
  {
    BodyUpToReads(readEnd, body, k, |end|, line);
  }

  lemma BodyReaderReads(protocol: Protocol, name: string, a: ActionId, output: string, code: int, rest: string)
    requires '\n' !in protocol.end && !Contains(output, protocol.end) && IsI32(code)
    requires IsName(name) && FindAction(protocol.actions, name) == Some(a)
    ensures var printed := PrintedBody(protocol.end, name, output, code);
            BodyReader(protocol)(name)(printed + rest) == Ok(Framed(Ended(a, code), output + "\n", |printed|))
  {
    EndReaderReads(protocol, name, a, code);
    BodyReads(protocol.end, EndReader(protocol, name), name, Ended(a, code), output, rest);
  }

  lemma BlockBetweenReads(protocol: Protocol, readBody: string -> string -> Result<Framed, BatchError>,
                          name: string, a: ActionId, output: string, code: int, rest: string, seen: set<string>)
    requires IsName(name)
    requires var printed := PrintedBody(protocol.end, name, output, code);
             readBody(name)(printed + rest) == Ok(Framed(Ended(a, code), output + "\n", |printed|))
    ensures BlockBetween(protocol.begin, seen, readBody, PrintedBlock(protocol, name, output, code) + rest)
            == if name in seen then Err(InvalidOrDuplicateBegin)
               else Ok(Framed(Ended(a, code), output + "\n", |PrintedBlock(protocol, name, output, code)|))
  {
    BlockSplits(protocol.begin, seen, readBody, name, PrintedBody(protocol.end, name, output, code), rest);
  }

  lemma BlockSplits(begin: string, seen: set<string>, readBody: string -> string -> Result<Framed, BatchError>,
                    name: string, printed: string, rest: string)
    requires IsName(name) && readBody(name)(printed + rest).Ok?
    ensures BlockBetween(begin, seen, readBody, begin + (name + "\n" + printed) + rest)
            == if name in seen then Err(InvalidOrDuplicateBegin)
               else
                 var framed := readBody(name)(printed + rest).value;
                 Ok(framed.(length := |begin| + |name| + 1 + framed.length))
  {
    BeginParts(begin, name, printed, rest);
    BlockIs(begin, seen, readBody, begin + (name + "\n" + printed) + rest, name, printed + rest);
  }

  lemma BlockIs(begin: string, seen: set<string>, readBody: string -> string -> Result<Framed, BatchError>,
                text: string, name: string, body: string)
    requires StartsWith(text, begin) && text[|begin|..] == name + "\n" + body
    requires FindFrom(name + "\n" + body, "\n", 0) == Some(|name|) && name != ""
    requires readBody(name)(body).Ok?
    ensures BlockBetween(begin, seen, readBody, text)
            == if name in seen then Err(InvalidOrDuplicateBegin)
               else Ok(readBody(name)(body).value.(length := |begin| + |name| + 1 + readBody(name)(body).value.length))
  {
    assert (name + "\n" + body)[..|name|] == name && (name + "\n" + body)[|name| + 1..] == body;
  }

  lemma BeginParts(begin: string, name: string, printed: string, rest: string)
    requires IsName(name)
    ensures var text := begin + (name + "\n" + printed) + rest;
            var line := name + "\n" + (printed + rest);
            && StartsWith(text, begin) && text[|begin|..] == line
            && FindFrom(line, "\n", 0) == Some(|name|)
            && line[..|name|] == name && line[|name| + 1..] == printed + rest && name != ""
  {
    NameChars(name);
    FirstNewline(name, printed + rest);
    assert begin + (name + "\n" + printed) + rest == begin + (name + "\n" + (printed + rest));
  }

  lemma EndIsOneLine()
    ensures '\n' !in HOST_RESOURCE_V1.end
  {
  }

  lemma BlockReads(b: Ran, rest: string, seen: set<string>)
    requires WellBehaved(b)
    ensures BlockAt(Printed(b) + rest, seen)
            == if Name(b.action) in seen then Err(InvalidOrDuplicateBegin)
               else Ok(Parsed(b.action, Expected(b), |Printed(b)|))
  {
    EndIsOneLine();
    TrimIgnoresNewline(b.stdout);
    NamesAreNames(b.action);
    FindsItself(b.action);
    BodyReaderReads(HOST_RESOURCE_V1, Name(b.action), b.action, b.stdout, Reported(b), rest);
    BlockBetweenReads(HOST_RESOURCE_V1, BodyReader(HOST_RESOURCE_V1), Name(b.action), b.action, b.stdout, Reported(b),
        rest, seen);
  }

  // ---- the whole transcript ---------------------------------------------------------------

  predicate Fresh(blocks: seq<Ran>, seen: set<string>)
    decreases |blocks|
  {
    blocks == [] || (Name(blocks[0].action) !in seen && Fresh(blocks[1..], seen + {Name(blocks[0].action)}))
  }

  ghost function SetAll(c: Capture, blocks: seq<Ran>): Capture
    decreases |blocks|
  {
    if blocks == [] then c else SetAll(SetSlot(c, blocks[0].action, Expected(blocks[0])), blocks[1..])
  }

  lemma BlockIsNotSpace(b: Ran, rest: string)
    ensures TrimStart(Printed(b) + rest, IsAsciiSpace) == Printed(b) + rest
  {
    assert (Printed(b) + rest)[0] == HOST_RESOURCE_V1.begin[0] == '_';
  }

  lemma NewName(seen: set<string>, name: string)
    requires name !in seen
    ensures |seen + {name}| == |seen| + 1
  {
  }

  /** What parsing any sequence of printed blocks gives, in whatever order and however many. */
  lemma {:induction false} TranscriptReads(blocks: seq<Ran>, seen: set<string>, c: Capture)
    requires forall i :: 0 <= i < |blocks| ==> WellBehaved(blocks[i])
    ensures ParseRest(Transcript(blocks), seen, c)
            == if !Fresh(blocks, seen) then Err(InvalidOrDuplicateBegin)
               else if |seen| + |blocks| == |ACTIONS| then Ok(SetAll(c, blocks))
               else Err(OmittedAction)
    decreases |blocks|
  {
    if blocks == [] {
      NoMoreBlocks("", seen, c);
    } else {
      var b, rest := blocks[0], Transcript(blocks[1..]);
      var text := Printed(b) + rest;
      BlockIsNotSpace(b, rest);
      BlockReads(b, rest, seen);
      OneBlock(text, text, seen, c);
      if Name(b.action) !in seen {
        assert text[|Printed(b)|..] == rest;
        NewName(seen, Name(b.action));
        TranscriptReads(blocks[1..], seen + {Name(b.action)}, SetSlot(c, b.action, Expected(b)));
      }
    }
  }

  ghost predicate DistinctActions(blocks: seq<Ran>) {
    forall i, j :: 0 <= i < j < |blocks| ==> blocks[i].action != blocks[j].action
  }

  lemma {:induction false} DistinctIsFresh(blocks: seq<Ran>, seen: set<string>)
    requires forall i :: 0 <= i < |blocks| ==> Name(blocks[i].action) !in seen
    ensures Fresh(blocks, seen) <==> DistinctActions(blocks)
    decreases |blocks|
  {
    if blocks != [] {
      var first := Name(blocks[0].action);
      if forall i :: 0 < i < |blocks| ==> blocks[i].action != blocks[0].action {
        forall i | 0 <= i < |blocks[1..]| ensures Name(blocks[1..][i].action) !in seen + {first} {
          NamesTellActions(blocks[0].action);
          NamesTellActions(blocks[1..][i].action);
        }
        DistinctIsFresh(blocks[1..], seen + {first});
        assert forall i, j :: 0 < i < j < |blocks| ==> blocks[i].action == blocks[1..][i - 1].action
                                                       && blocks[j].action == blocks[1..][j - 1].action;
      } else {
        var i :| 0 < i < |blocks| && blocks[i].action == blocks[0].action;
        NotFresh(blocks[1..], seen + {first}, i - 1);
      }
    }
  }

  lemma {:induction false} NotFresh(blocks: seq<Ran>, seen: set<string>, i: nat)
    requires i < |blocks| && Name(blocks[i].action) in seen
    ensures !Fresh(blocks, seen)
    decreases |blocks|
  {
    if i > 0 {
      NotFresh(blocks[1..], seen + {Name(blocks[0].action)}, i - 1);
    }
  }

  lemma {:induction false} SetAllKeeps(c: Capture, blocks: seq<Ran>, a: ActionId)
    requires forall i :: 0 <= i < |blocks| ==> blocks[i].action != a
    ensures Slot(SetAll(c, blocks), a) == Slot(c, a)
    decreases |blocks|
  {
    if blocks != [] {
      SlotsAreSeparate(c, blocks[0].action, Expected(blocks[0]), a);
      SetAllKeeps(SetSlot(c, blocks[0].action, Expected(blocks[0])), blocks[1..], a);
    }
  }

  lemma {:induction false} SetAllSets(c: Capture, blocks: seq<Ran>, i: nat)
    requires DistinctActions(blocks) && i < |blocks|
    ensures Slot(SetAll(c, blocks), blocks[i].action) == Expected(blocks[i])
    decreases |blocks|
  {
    var next := SetSlot(c, blocks[0].action, Expected(blocks[0]));
    if i == 0 {
      SetAllKeeps(next, blocks[1..], blocks[0].action);
      SlotsAreSeparate(c, blocks[0].action, Expected(blocks[0]), blocks[0].action);
    } else {
      SetAllSets(next, blocks[1..], i - 1);
    }
  }

  /**
   Whatever the sixteen actions print and return, in any order, each slot holds that action's trimmed
   output or its quality.
   */
  lemma BatchRoundTrip(blocks: seq<Ran>)
    requires forall i :: 0 <= i < |blocks| ==> WellBehaved(blocks[i])
    requires |blocks| == |ACTIONS| && DistinctActions(blocks)
    ensures ParseRest(Transcript(blocks), {}, EMPTY_CAPTURE).Ok?
    ensures forall i :: 0 <= i < |blocks| ==>
              Slot(ParseRest(Transcript(blocks), {}, EMPTY_CAPTURE).value, blocks[i].action) == Expected(blocks[i])
  {
    DistinctIsFresh(blocks, {});
    TranscriptReads(blocks, {}, EMPTY_CAPTURE);
    forall i | 0 <= i < |blocks| ensures Slot(SetAll(EMPTY_CAPTURE, blocks), blocks[i].action) == Expected(blocks[i]) {
      SetAllSets(EMPTY_CAPTURE, blocks, i);
    }
  }

  /**
   A printed transcript is accepted exactly when every action ran exactly once; a repeated action and
   a missing one are told apart.
   */
  lemma AcceptedExactlyWhenComplete(blocks: seq<Ran>)
    requires forall i :: 0 <= i < |blocks| ==> WellBehaved(blocks[i])
    ensures ParseRest(Transcript(blocks), {}, EMPTY_CAPTURE).Ok? <==> DistinctActions(blocks) && |blocks| == |ACTIONS|
    ensures ParseRest(Transcript(blocks), {}, EMPTY_CAPTURE) == Err(InvalidOrDuplicateBegin)
            <==> !DistinctActions(blocks)
  {
    DistinctIsFresh(blocks, {});
    TranscriptReads(blocks, {}, EMPTY_CAPTURE);
  }

  // ---- any accepted text ----------------------------------------------------------------------

  /** The slots a text sets, in order, up to its end or its first error. */
  function Sets(text: string, seen: set<string>): seq<Parsed>
    decreases |text|
  {
    var body := TrimStart(text, IsAsciiSpace);
    TrimStartShortens(text, IsAsciiSpace);
    if body == [] then []
    else
      var block := BlockAt(body, seen);
      if block.Err? then []
      else [block.value] + Sets(body[block.value.length..], seen + {Name(block.value.action)})
  }

  predicate Unseen(sets: seq<Parsed>, seen: set<string>)
    decreases |sets|
  {
    sets == [] || (Name(sets[0].action) !in seen && Unseen(sets[1..], seen + {Name(sets[0].action)}))
  }

  function ApplySets(c: Capture, sets: seq<Parsed>): Capture
    decreases |sets|
  {
    if sets == [] then c else ApplySets(SetSlot(c, sets[0].action, sets[0].source), sets[1..])
  }

  lemma {:induction false} AcceptedSetsAll(text: string, seen: set<string>, c: Capture)
    requires ParseRest(text, seen, c).Ok?
    ensures |seen| + |Sets(text, seen)| == |ACTIONS|
    ensures Unseen(Sets(text, seen), seen)
    ensures ParseRest(text, seen, c) == Ok(ApplySets(c, Sets(text, seen)))
    decreases |text|
  {
    var body := TrimStart(text, IsAsciiSpace);
    TrimStartShortens(text, IsAsciiSpace);
    if body == [] {
      NoMoreBlocks(text, seen, c);
    } else {
      OneBlock(text, body, seen, c);
      var block := BlockAt(body, seen).value;
      BlockIsNew(body, seen);
      NewName(seen, Name(block.action));
      AcceptedSetsAll(body[block.length..], seen + {Name(block.action)}, SetSlot(c, block.action, block.source));
    }
  }

  ghost predicate DistinctSets(sets: seq<Parsed>) {
    forall i, j :: 0 <= i < j < |sets| ==> sets[i].action != sets[j].action
  }

  lemma {:induction false} UnseenIsDistinct(sets: seq<Parsed>, seen: set<string>)
    requires Unseen(sets, seen)
    ensures DistinctSets(sets)
    ensures forall i :: 0 <= i < |sets| ==> Name(sets[i].action) !in seen
    decreases |sets|
  {
    if sets != [] {
      UnseenIsDistinct(sets[1..], seen + {Name(sets[0].action)});
      forall i | 0 < i < |sets| ensures Name(sets[i].action) !in seen + {Name(sets[0].action)} {
        assert sets[i] == sets[1..][i - 1];
      }
    }
  }

  function ActionsOf(sets: seq<Parsed>): set<ActionId> {
    if sets == [] then {} else ActionsOf(sets[1..]) + {sets[0].action}
  }

  lemma {:induction false} ActionsOfDistinct(sets: seq<Parsed>)
    requires DistinctSets(sets)
    ensures |ActionsOf(sets)| == |sets|
    ensures forall a :: a in ActionsOf(sets) <==> exists i :: 0 <= i < |sets| && sets[i].action == a
  {
    if sets != [] {
      ActionsOfDistinct(sets[1..]);
      forall a ensures a in ActionsOf(sets) <==> exists i :: 0 <= i < |sets| && sets[i].action == a {
        assert forall i :: 0 < i < |sets| ==> sets[i] == sets[1..][i - 1];
        assert (exists i :: 0 <= i < |sets[1..]| && sets[1..][i].action == a) ==>
                 (exists i :: 0 <= i < |sets| && sets[i].action == a) by {
          if i :| 0 <= i < |sets[1..]| && sets[1..][i].action == a {
            assert sets[i + 1].action == a;
          }
        }
        assert sets[0].action == a ==> exists i :: 0 <= i < |sets| && sets[i].action == a;
      }
      forall a | a in ActionsOf(sets[1..]) ensures a != sets[0].action {
        var i :| 0 <= i < |sets[1..]| && sets[1..][i].action == a;
        assert sets[i + 1].action == a;
      }
    }
  }

  function ElementsOf(actions: seq<ActionId>): (r: set<ActionId>)
    ensures |r| <= |actions|
    ensures forall a :: a in r <==> a in actions
  {
    if actions == [] then {}
    else
      var rest := ElementsOf(actions[1..]);
      assert forall a :: a in actions <==> a == actions[0] || a in actions[1..];
      AtMostOneMore(rest, actions[0]);
      rest + {actions[0]}
  }

  lemma AtMostOneMore(s: set<ActionId>, a: ActionId)
    ensures |s + {a}| <= |s| + 1
  {
    if a in s {
      assert s + {a} == s;
    }
  }

  lemma {:induction false} FullSubset(a: set<ActionId>, b: set<ActionId>)
    requires a <= b && |b| <= |a|
    ensures a == b
  {
    if a != {} {
      var x :| x in a;
      FullSubset(a - {x}, b - {x});
      assert a == (a - {x}) + {x} && b == (b - {x}) + {x};
    }
  }

  /** As many different actions as there are actions are all of them. */
  lemma Covers(actions: seq<ActionId>, some: set<ActionId>, a: ActionId)
    requires |some| == |actions| && forall x :: x in actions
    ensures a in some
  {
    assert some <= ElementsOf(actions);
    FullSubset(some, ElementsOf(actions));
    assert a in actions;
  }

  lemma {:induction false} ApplySetsKeeps(c: Capture, sets: seq<Parsed>, a: ActionId)
    requires forall i :: 0 <= i < |sets| ==> sets[i].action != a
    ensures Slot(ApplySets(c, sets), a) == Slot(c, a)
    decreases |sets|
  {
    if sets != [] {
      SlotsAreSeparate(c, sets[0].action, sets[0].source, a);
      ApplySetsKeeps(SetSlot(c, sets[0].action, sets[0].source), sets[1..], a);
    }
  }

  lemma {:induction false} ApplySetsSets(c: Capture, sets: seq<Parsed>, i: nat)
    requires DistinctSets(sets) && i < |sets|
    ensures Slot(ApplySets(c, sets), sets[i].action) == sets[i].source
    decreases |sets|
  {
    var next := SetSlot(c, sets[0].action, sets[0].source);
    if i == 0 {
      ApplySetsKeeps(next, sets[1..], sets[0].action);
      SlotsAreSeparate(c, sets[0].action, sets[0].source, sets[0].action);
    } else {
      ApplySetsSets(next, sets[1..], i - 1);
    }
  }

  /** Whatever text is accepted, every slot was set by exactly one of its blocks and holds what that block says. */
  lemma AcceptedSetsEachOnce(text: string, a: ActionId) returns (i: nat)
    requires ParseRest(text, {}, EMPTY_CAPTURE).Ok?
    ensures i < |Sets(text, {})| && Sets(text, {})[i].action == a
    ensures forall j :: 0 <= j < |Sets(text, {})| && j != i ==> Sets(text, {})[j].action != a
    ensures Slot(ParseRest(text, {}, EMPTY_CAPTURE).value, a) == Sets(text, {})[i].source
  {
    var sets := Sets(text, {});
    AcceptedSetsAll(text, {}, EMPTY_CAPTURE);
    UnseenIsDistinct(sets, {});
    ActionsOfDistinct(sets);
    forall x ensures x in ACTIONS {
      EveryActionListed(x);
    }
    Covers(ACTIONS, ActionsOf(sets), a);
    assert a in ActionsOf(sets);
    i :| 0 <= i < |sets| && sets[i].action == a;
    ApplySetsSets(EMPTY_CAPTURE, sets, i);
  }
}
