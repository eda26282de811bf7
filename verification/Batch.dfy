/**
 The host-resource batch protocol of backend/src/monitoring.rs: what the one remote
 script prints for its sixteen fixed actions, and the parser of that transcript.
 */
module Batch {
  import opened Wrappers
  import opened Text
  import opened Decimals
  import opened Metrics

  datatype ActionId =
    | FrameABootUptime | FrameACpu | FrameADiskIo | FrameANetwork | FrameANetworkIdentity
    | FrameBBootUptime | FrameBCpu | FrameBDiskIo | FrameBNetwork | FrameBNetworkIdentity
    | CpuOnline | Memory | Load | DiskCapacity | DiskInodes | ProcessSummary

  function Name(a: ActionId): string {
    match a
    case FrameABootUptime => "frame_a_boot_uptime"
    case FrameACpu => "frame_a_cpu"
    case FrameADiskIo => "frame_a_disk_io"
    case FrameANetwork => "frame_a_network"
    case FrameANetworkIdentity => "frame_a_network_identity"
    case FrameBBootUptime => "frame_b_boot_uptime"
    case FrameBCpu => "frame_b_cpu"
    case FrameBDiskIo => "frame_b_disk_io"
    case FrameBNetwork => "frame_b_network"
    case FrameBNetworkIdentity => "frame_b_network_identity"
    case CpuOnline => "cpu_online"
    case Memory => "memory"
    case Load => "load"
    case DiskCapacity => "disk_capacity"
    case DiskInodes => "disk_inodes"
    case ProcessSummary => "process_summary"
  }

  function MaxStdoutBytes(a: ActionId): nat {
    match a
    case FrameABootUptime | FrameBBootUptime => 4 * 1024
    case FrameACpu | FrameBCpu => 256 * 1024
    case FrameADiskIo | FrameBDiskIo => 256 * 1024
    case FrameANetwork | FrameBNetwork => 256 * 1024
    case FrameANetworkIdentity | FrameBNetworkIdentity => 128 * 1024
    case CpuOnline | Load => 4 * 1024
    case Memory => 64 * 1024
    case DiskCapacity | DiskInodes => 256 * 1024
    case ProcessSummary => 4 * 1024
  }

  /** The actions in the order the script runs them. */
  const ACTIONS: seq<ActionId> := [
    FrameABootUptime, FrameACpu, FrameADiskIo, FrameANetwork, FrameANetworkIdentity,
    FrameBBootUptime, FrameBCpu, FrameBDiskIo, FrameBNetwork, FrameBNetworkIdentity,
    CpuOnline, Memory, Load, DiskCapacity, DiskInodes, ProcessSummary]

  function FindAction(actions: seq<ActionId>, name: string): Option<ActionId> {
    if actions == [] then None
    else if Name(actions[0]) == name then Some(actions[0])
    else FindAction(actions[1..], name)
  }

  lemma {:induction false} FoundIsNamed(actions: seq<ActionId>, name: string)
    ensures var r := FindAction(actions, name);
            if r.Some? then r.value in actions && Name(r.value) == name
            else forall a :: a in actions ==> Name(a) != name
  {
    if actions != [] {
      FoundIsNamed(actions[1..], name);
      assert forall a :: a in actions <==> a == actions[0] || a in actions[1..];
    }
  }

  // ---- the capture ------------------------------------------------------------------

  datatype CounterFrame = CounterFrame(
    bootUptime: RawSource, cpu: RawSource, diskIo: RawSource, network: RawSource, networkIdentity: RawSource)

  datatype Capture = Capture(
    frameA: CounterFrame, frameB: CounterFrame, cpuOnline: RawSource, memory: RawSource, load: RawSource,
    diskCapacity: RawSource, diskInodes: RawSource, processSummary: RawSource)

  const NOTHING := Unavailable(Unsupported)
  const EMPTY_FRAME := CounterFrame(NOTHING, NOTHING, NOTHING, NOTHING, NOTHING)
  const EMPTY_CAPTURE := Capture(EMPTY_FRAME, EMPTY_FRAME, NOTHING, NOTHING, NOTHING, NOTHING, NOTHING, NOTHING)

  function SetSlot(c: Capture, a: ActionId, source: RawSource): Capture {
    match a
    case FrameABootUptime => c.(frameA := c.frameA.(bootUptime := source))
    case FrameACpu => c.(frameA := c.frameA.(cpu := source))
    case FrameADiskIo => c.(frameA := c.frameA.(diskIo := source))
    case FrameANetwork => c.(frameA := c.frameA.(network := source))
    case FrameANetworkIdentity => c.(frameA := c.frameA.(networkIdentity := source))
    case FrameBBootUptime => c.(frameB := c.frameB.(bootUptime := source))
    case FrameBCpu => c.(frameB := c.frameB.(cpu := source))
    case FrameBDiskIo => c.(frameB := c.frameB.(diskIo := source))
    case FrameBNetwork => c.(frameB := c.frameB.(network := source))
    case FrameBNetworkIdentity => c.(frameB := c.frameB.(networkIdentity := source))
    case CpuOnline => c.(cpuOnline := source)
    case Memory => c.(memory := source)
    case Load => c.(load := source)
    case DiskCapacity => c.(diskCapacity := source)
    case DiskInodes => c.(diskInodes := source)
    case ProcessSummary => c.(processSummary := source)
  }

  function Slot(c: Capture, a: ActionId): RawSource {
    match a
    case FrameABootUptime => c.frameA.bootUptime
    case FrameACpu => c.frameA.cpu
    case FrameADiskIo => c.frameA.diskIo
    case FrameANetwork => c.frameA.network
    case FrameANetworkIdentity => c.frameA.networkIdentity
    case FrameBBootUptime => c.frameB.bootUptime
    case FrameBCpu => c.frameB.cpu
    case FrameBDiskIo => c.frameB.diskIo
    case FrameBNetwork => c.frameB.network
    case FrameBNetworkIdentity => c.frameB.networkIdentity
    case CpuOnline => c.cpuOnline
    case Memory => c.memory
    case Load => c.load
    case DiskCapacity => c.diskCapacity
    case DiskInodes => c.diskInodes
    case ProcessSummary => c.processSummary
  }

  /** Setting one action's slot touches no other. */
  lemma SlotsAreSeparate(c: Capture, a: ActionId, source: RawSource, b: ActionId)
    ensures Slot(SetSlot(c, a, source), b) == if a == b then source else Slot(c, b)
  {
    match a
    case _ =>
  }

  // ---- parsing ------------------------------------------------------------------------

  datatype Protocol = Protocol(begin: string, end: string, actions: seq<ActionId>)

  const HOST_RESOURCE_V1 := Protocol("__NETWORK_ATLAS_HOST_RESOURCE_V1_BEGIN__",
      "__NETWORK_ATLAS_HOST_RESOURCE_V1_END__", ACTIONS)

  datatype BatchError =
    | OutsideMarkers | UnterminatedBegin | InvalidOrDuplicateBegin | UnterminatedOutput | InvalidEnd
    | InvalidExitCode | MarkersDoNotMatch | UnknownAction | OmittedAction

  predicate IsAsciiSpace(c: char) {
    c == ' ' || c == '\t' || c == '\n' || c == '\r' || c == '\U{0C}'
  }

  function ExitQuality(exitCode: int): Quality {
    if exitCode == 124 then TimedOut
    else if exitCode == 126 then PermissionDenied
    else Unsupported
  }

  function SourceOf(a: ActionId, exitCode: int, output: string): RawSource {
    if exitCode != 0 then Unavailable(ExitQuality(exitCode))
    else if |output| > MaxStdoutBytes(a) then Unavailable(ParseFailed)
    else Output(output)
  }

  /** Split at the last separator. */
  function RSplitOnce(s: string, sep: char): Option<(string, string)> {
    if s == [] then None
    else if s[|s| - 1] == sep then Some((s[..|s| - 1], ""))
    else match RSplitOnce(s[..|s| - 1], sep)
      case None => None
      case Some((left, right)) => Some((left, right + [s[|s| - 1]]))
  }

  datatype Parsed = Parsed(action: ActionId, source: RawSource, length: nat)

  datatype Ended = Ended(action: ActionId, exitCode: int)

  /** An end line behind its marker: the name the block began with, and an exit code. */
  function EndLine(actions: seq<ActionId>, name: string, line: string): Result<Ended, BatchError> {
    var parts := RSplitOnce(line, ':');
    if parts.None? then Err(InvalidEnd)
    else
      var exitCode := ParseI32(parts.value.1);
      if exitCode.None? then Err(InvalidExitCode)
      else if name != parts.value.0 then Err(MarkersDoNotMatch)
      else
        var action := FindAction(actions, name);
        if action.None? then Err(UnknownAction) else Ok(Ended(action.value, exitCode.value))
  }

  function LineEnd(s: string): (n: nat)
    ensures n <= |s|
  {
    var newline := FindFrom(s, "\n", 0);
    if newline.Some? then newline.value else |s|
  }

  /** A block as framed: its raw output, and how much of the text it takes. */
  datatype Framed = Framed(ended: Ended, output: string, length: nat)

  /** The output before an end marker, and the line behind the marker. */
  function BodyUpTo(readEnd: string -> Result<Ended, BatchError>, body: string, k: nat, marker: nat):
      (r: Result<Framed, BatchError>)
    requires k + marker <= |body|
    ensures r.Ok? ==> r.value.length <= |body|
  {
    var tail := body[k + marker..];
    var lineEnd := LineEnd(tail);
    var ended := readEnd(tail[..lineEnd]);
    if ended.Err? then Err(ended.error)
    else Ok(Framed(ended.value, body[..k], k + marker + lineEnd + (if lineEnd < |tail| then 1 else 0)))
  }

  /** Output up to the end marker, then the end line, read by `readEnd`. */
  function BodyAt(end: string, readEnd: string -> Result<Ended, BatchError>,
      body: string): (r: Result<Framed, BatchError>)
    ensures r.Ok? ==> r.value.length <= |body|
  {
    var found := FindFrom(body, end, 0);
    if found.None? then Err(UnterminatedOutput)
    else BodyUpTo(readEnd, body, found.value, |end|)
  }

  /** The begin line, then the rest of the block, read by `readBody` for the name found. */
  function BlockBetween(begin: string, seen: set<string>, readBody: string -> string -> Result<Framed, BatchError>,
      text: string):
    Result<Framed, BatchError>
  {
    if !StartsWith(text, begin) then Err(OutsideMarkers)
    else
      var line := text[|begin|..];
      var found := FindFrom(line, "\n", 0);
      if found.None? then Err(UnterminatedBegin)
      else
        var name := line[..found.value];
        if name == "" || name in seen then Err(InvalidOrDuplicateBegin)
        else
          var rest := readBody(name)(line[found.value + 1..]);
          if rest.Err? then rest
          else Ok(rest.value.(length := |begin| + found.value + 1 + rest.value.length))
  }

  function EndReader(protocol: Protocol, name: string): string -> Result<Ended, BatchError> {
    line => EndLine(protocol.actions, name, line)
  }

  function BodyReader(protocol: Protocol): string -> string -> Result<Framed, BatchError> {
    name => body => BodyAt(protocol.end, EndReader(protocol, name), body)
  }

  function FramedAt(text: string, seen: set<string>): (r: Result<Framed, BatchError>)
    ensures r.Ok? ==> 0 < r.value.length <= |text|
  {
    BlockBetween(HOST_RESOURCE_V1.begin, seen, BodyReader(HOST_RESOURCE_V1), text)
  }

  /** One block at the start of the text. */
  function BlockAt(text: string, seen: set<string>): (r: Result<Parsed, BatchError>)
    ensures r.Ok? ==> 0 < r.value.length <= |text|
  {
    var framed := FramedAt(text, seen);
    if framed.Err? then Err(framed.error) else Ok(ParsedOf(framed.value))
  }

  function ParsedOf(f: Framed): Parsed {
    Parsed(f.ended.action, SourceOf(f.ended.action, f.ended.exitCode, Trim(f.output, IsLineEnd)), f.length)
  }

  lemma ReadName(begin: string, seen: set<string>, readBody: string -> string -> Result<Framed, BatchError>,
      text: string)
      returns (name: string, body: string)
    requires BlockBetween(begin, seen, readBody, text).Ok?
    ensures name !in seen && readBody(name)(body).Ok?
    ensures BlockBetween(begin, seen, readBody, text).value.ended == readBody(name)(body).value.ended
  {
    var line := text[|begin|..];
    var nameEnd := FindFrom(line, "\n", 0).value;
    name, body := line[..nameEnd], line[nameEnd + 1..];
  }

  lemma ReadEnd(end: string, readEnd: string -> Result<Ended, BatchError>, body: string) returns (line: string)
    requires BodyAt(end, readEnd, body).Ok?
    ensures readEnd(line).Ok? && BodyAt(end, readEnd, body).value.ended == readEnd(line).value
  {
    var tail := body[FindFrom(body, end, 0).value + |end|..];
    line := tail[..LineEnd(tail)];
  }

  lemma EndLineNames(actions: seq<ActionId>, name: string, line: string)
    requires EndLine(actions, name, line).Ok?
    ensures var action := EndLine(actions, name, line).value.action; action in actions && Name(action) == name
  {
    FoundIsNamed(actions, name);
  }

  lemma FramedIsNew(protocol: Protocol, text: string, seen: set<string>)
    requires BlockBetween(protocol.begin, seen, BodyReader(protocol), text).Ok?
    ensures var action := BlockBetween(protocol.begin, seen, BodyReader(protocol), text).value.ended.action;
            action in protocol.actions && Name(action) !in seen
  {
    var name, body := ReadName(protocol.begin, seen, BodyReader(protocol), text);
    var line := ReadEnd(protocol.end, EndReader(protocol, name), body);
    EndLineNames(protocol.actions, name, line);
  }

  /** A block is accepted only for a listed action that no earlier block was for. */
  lemma BlockIsNew(text: string, seen: set<string>)
    requires BlockAt(text, seen).Ok?
    ensures var action := BlockAt(text, seen).value.action; action in ACTIONS && Name(action) !in seen
  {
    FramedIsNew(HOST_RESOURCE_V1, text, seen);
  }

  /** The parser as a recursion over what is left of the text. */
  function ParseRest(text: string, seen: set<string>, capture: Capture): Result<Capture, BatchError>
    decreases |text|
  {
    var body := TrimStart(text, IsAsciiSpace);
    TrimStartShortens(text, IsAsciiSpace);
    if body == [] then
      Finished(seen, capture)
    else
      match BlockAt(body, seen)
      case Err(e) => Err(e)
      case Ok(block) =>
        ParseRest(body[block.length..], seen + {Name(block.action)}, SetSlot(capture, block.action, block.source))
  }

  lemma {:induction false} TrimStartShortens(s: string, drop: char -> bool)
    ensures |TrimStart(s, drop)| <= |s|
  {
    if s != [] && drop(s[0]) {
      TrimStartShortens(s[1..], drop);
    }
  }

  method SkipSpace(stdout: string, start: nat) returns (cursor: nat)
    requires start <= |stdout|
    ensures start <= cursor <= |stdout|
    ensures stdout[cursor..] == TrimStart(stdout[start..], IsAsciiSpace)
  {
    cursor := start;
    while cursor < |stdout| && IsAsciiSpace(stdout[cursor])
      invariant start <= cursor <= |stdout|
      invariant TrimStart(stdout[cursor..], IsAsciiSpace) == TrimStart(stdout[start..], IsAsciiSpace)
    {
      assert stdout[cursor..][1..] == stdout[cursor + 1..];
      cursor := cursor + 1;
    }
  }

  function Finished(seen: set<string>, capture: Capture): Result<Capture, BatchError> {
    if |seen| == |ACTIONS| then Ok(capture) else Err(OmittedAction)
  }

  lemma NoMoreBlocks(text: string, seen: set<string>, capture: Capture)
    requires TrimStart(text, IsAsciiSpace) == []
    ensures ParseRest(text, seen, capture) == Finished(seen, capture)
  {
  }

  lemma OneBlock(text: string, body: string, seen: set<string>, capture: Capture)
    requires body == TrimStart(text, IsAsciiSpace) != []
    ensures var block := BlockAt(body, seen);
            ParseRest(text, seen, capture) == if block.Err? then Err(block.error)
                else AfterBlock(body, block.value, seen, capture)
  {
  }

  function AfterBlock(body: string, block: Parsed, seen: set<string>, capture: Capture): Result<Capture, BatchError>
    requires block.length <= |body|
  {
    ParseRest(body[block.length..], seen + {Name(block.action)}, SetSlot(capture, block.action, block.source))
  }

  /** The cursor with its text, and what has been recorded so far. */
  datatype Progress = Progress(cursor: nat, seen: set<string>, capture: Capture)

  function Outcome(stdout: string, at: Progress): Result<Capture, BatchError>
    requires at.cursor <= |stdout|
  {
    ParseRest(stdout[at.cursor..], at.seen, at.capture)
  }

  /** Reads one block: the cursor moves strictly forward and the outcome stays the same. */
  method Advance(stdout: string, at: Progress) returns (next: Result<Progress, BatchError>)
    requires at.cursor < |stdout|
    ensures next.Err? ==> Outcome(stdout, at) == Err(next.error)
    ensures next.Ok? ==> at.cursor < next.value.cursor <= |stdout| && Outcome(stdout, next.value) == Outcome(stdout, at)
  {
    var cursor := SkipSpace(stdout, at.cursor);
    if cursor == |stdout| {
      NoMoreBlocks(stdout[at.cursor..], at.seen, at.capture);
      NoMoreBlocks(stdout[cursor..], at.seen, at.capture);
      return Ok(Progress(cursor, at.seen, at.capture));
    }
    OneBlock(stdout[at.cursor..], stdout[cursor..], at.seen, at.capture);
    var block := BlockAt(stdout[cursor..], at.seen);
    if block.Err? {
      return Err(block.error);
    }
    var end := cursor + block.value.length;
    assert stdout[cursor..][block.value.length..] == stdout[end..];
    return Ok(Progress(end, at.seen + {Name(block.value.action)},
                       SetSlot(at.capture, block.value.action, block.value.source)));
  }

  method ParseBatch(stdout: string) returns (r: Result<Capture, BatchError>)
    ensures r == ParseRest(stdout, {}, EMPTY_CAPTURE)
  {
    var at := Progress(0, {}, EMPTY_CAPTURE);
    assert stdout[0..] == stdout;
    while at.cursor < |stdout|
      invariant at.cursor <= |stdout|
      invariant Outcome(stdout, at) == ParseRest(stdout, {}, EMPTY_CAPTURE)
      decreases |stdout| - at.cursor
    {
      var next := Advance(stdout, at);
      if next.Err? {
        return Err(next.error);
      }
      at := next.value;
    }
    NoMoreBlocks(stdout[at.cursor..], at.seen, at.capture);
    return Finished(at.seen, at.capture);
  }
}
