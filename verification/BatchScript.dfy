/**
 The one remote command of the host-resource batch (backend/src/monitoring.rs), down to
 what each shell in the chain receives.
 */
module BatchScript {
  import opened Wrappers
  import opened Shell
  import opened ShellText
  import opened Batch
  import BatchTranscript

  /** The texts that the profile hands to an inner `sh -c`: nothing here depends on what they do. */
  datatype Scripts = Scripts(bootUptime: string, networkIdentity: string, cpuOnline: string, processSummary: string)

  predicate AreScripts(s: Scripts) {
    NulFree(s.bootUptime) && NulFree(s.networkIdentity) && NulFree(s.cpuOnline) && NulFree(s.processSummary)
  }

  // ---- an action's command ------------------------------------------------------------

  /** `LC_ALL=C` and plain words, or an inner shell with a quoted script. */
  datatype Command = Plainly(words: seq<string>) | Scripted(script: string)

  function CommandOf(a: ActionId, s: Scripts): Command {
    match a
    case FrameABootUptime | FrameBBootUptime => Scripted(s.bootUptime)
    case FrameACpu | FrameBCpu => Plainly(["cat", "/proc/stat"])
    case FrameADiskIo | FrameBDiskIo => Plainly(["cat", "/proc/diskstats"])
    case FrameANetwork | FrameBNetwork => Plainly(["cat", "/proc/net/dev"])
    case FrameANetworkIdentity | FrameBNetworkIdentity => Scripted(s.networkIdentity)
    case CpuOnline => Scripted(s.cpuOnline)
    case Memory => Plainly(["cat", "/proc/meminfo"])
    case Load => Plainly(["cat", "/proc/loadavg"])
    case DiskCapacity => Plainly(["df", "-P", "-k"])
    case DiskInodes => Plainly(["df", "-P", "-i"])
    case ProcessSummary => Scripted(s.processSummary)
  }

  const LOCALE := Plain("LC_ALL=C", ' ')

  function ShellPieces(script: string): seq<Piece> {
    [LOCALE, Plain("sh", ' '), Plain("-c", ' '), Quoted(script, ' ')]
  }

  /** The command with a blank behind every word. */
  function CommandPieces(c: Command): seq<Piece> {
    match c
    case Plainly(words) => [LOCALE] + PlainPieces(words)
    case Scripted(script) => ShellPieces(script)
  }

  /** The command's own text, without the last blank. */
  function CommandText(c: Command): string {
    OpenText(CommandPieces(c))
  }

  predicate IsCommand(c: Command) {
    match c
    case Plainly(words) => ArePlainWords(words)
    case Scripted(script) => NulFree(script)
  }

  // ---- the invocation -----------------------------------------------------------------

  predicate HasLimit(a: ActionId) {
    a == DiskCapacity || a == DiskInodes || a == ProcessSummary
  }

  function TimeLimit(a: ActionId): string {
    if a == ProcessSummary then "2" else "3"
  }

  const HAS_TIMEOUT := [Plain("if", ' '), Plain("command", ' '), Plain("-v", ' '), Plain("timeout", ' ')]
  const QUIETLY := [Plain("", '>'), Plain("/dev/null", ' '), Plain("2", '>'), Plain("", '&'), Plain("1", ';'),
      Plain("", ' ')]
  const ELSE_REFUSE := [Plain("", ' '), Plain("else", ' '), Plain("exit", ' '), Plain("127", ';'), Plain("", ' '),
      Plain("fi", ' ')]

  function ThenRun(seconds: string, command: string): seq<Piece> {
    [Plain("then", ' '), Plain("timeout", ' '), Plain(seconds, ' '), Plain("sh", ' '), Plain("-c", ' '),
     Quoted(command, ';')]
  }

  /** if command -v timeout >/dev/null 2>&1; then timeout N sh -c 'COMMAND'; else exit 127; fi */
  function Limited(seconds: string, command: string): seq<Piece> {
    HAS_TIMEOUT + QUIETLY + (ThenRun(seconds, command) + ELSE_REFUSE)
  }

  function Invocation(a: ActionId, s: Scripts): seq<Piece> {
    var command := CommandOf(a, s);
    if HasLimit(a) then Limited(TimeLimit(a), CommandText(command)) else CommandPieces(command)
  }

  const ERRORS_OUT := [Plain("2", '>'), Plain("", '&'), Plain("1", ' ')]
  const OUTPUT_THIRD := [Plain("1", '>'), Plain("", '&'), Plain("3", ' ')]

  /** 2>&1 1>&3 */
  const TO_THIRD := [Plain("", ' ')] + (ERRORS_OUT + OUTPUT_THIRD)

  /** The text between `$(` and its `)`: the invocation in a group, with its streams exchanged. */
  function Substituted(a: ActionId, s: Scripts): string {
    " (" + Render([Plain("", ' ')] + Invocation(a, s)) + ")" + Render(TO_THIRD)
  }

  // ---- the script -----------------------------------------------------------------------

  function PrintBegin(name: string): seq<Piece> {
    [Plain("printf", ' '), Quoted("%s\\n", ' '), Quoted(HOST_RESOURCE_V1.begin + name, '\n'),
     Plain("exec", ' '), Plain("3", '>'), Plain("", '&'), Plain("1", '\n')]
  }

  const KEEP_STATUS :=
    [Param("network_atlas_rc=", "?", '\n'), Plain("exec", ' '), Plain("3", '>'), Plain("", '&'), Plain("-", '\n')]

  const PERMISSION_DENIED := "*[Pp]ermission*" + "[Dd]enied*"
  const ON_DENIED := [Plain("case", ' '), QuotedParam("network_atlas_error", ' '), Plain("in", ' '),
      Plain(PERMISSION_DENIED, ')')]
  const SET_DENIED :=
    [Plain("", ' '), Plain("network_atlas_rc=126", ' '), Plain("", ';'), Plain("", ';'), Plain("", ' '),
     Plain("esac", '\n')]

  /** case "$network_atlas_error" in *[Pp]ermission*[Dd]enied*) network_atlas_rc=126 ;; esac */
  const WHEN_DENIED := ON_DENIED + SET_DENIED

  function PrintEnd(name: string): seq<Piece> {
    [Plain("printf", ' '), Quoted("\\n%s:%s\\n", ' '), Quoted(HOST_RESOURCE_V1.end + name, ' '),
     QuotedParam("network_atlas_rc", '\n')]
  }

  function Collect(a: ActionId, s: Scripts): seq<Piece> {
    [Substitution("network_atlas_error=", Substituted(a, s), '\n')]
  }

  function ActionPieces(a: ActionId, s: Scripts): seq<Piece> {
    PrintBegin(Name(a)) + Collect(a, s) + (KEEP_STATUS + WHEN_DENIED + PrintEnd(Name(a)))
  }

  datatype ProfileStep = RunAction(action: ActionId) | LocalDelay

  function Runs(actions: seq<ActionId>): seq<ProfileStep> {
    seq(|actions|, i requires 0 <= i < |actions| => RunAction(actions[i]))
  }

  /** Frame A, the delay, frame B and the rest. */
  const PROFILE := Runs(ACTIONS[..5]) + [LocalDelay] + Runs(ACTIONS[5..])

  function StepPieces(step: ProfileStep, s: Scripts): seq<Piece> {
    match step
    case RunAction(a) => ActionPieces(a, s)
    case LocalDelay => [Plain("sleep", ' '), Plain("1.000", '\n')]
  }

  const NO_ERREXIT := [Plain("set", ' '), Plain("+e", '\n')]

  function ScriptPieces(steps: seq<ProfileStep>, s: Scripts): seq<Piece> {
    if steps == [] then NO_ERREXIT else ScriptPieces(steps[..|steps| - 1], s) + StepPieces(steps[|steps| - 1], s)
  }

  function Script(s: Scripts): string {
    Render(ScriptPieces(PROFILE, s))
  }

  method BuildScript(steps: seq<ProfileStep>, s: Scripts) returns (script: string)
    ensures script == Render(ScriptPieces(steps, s))
  {
    script := Render(NO_ERREXIT);
    for i := 0 to |steps|
      invariant script == Render(ScriptPieces(steps[..i], s))
    {
      assert steps[..i + 1][..i] == steps[..i];
      RenderJoins(ScriptPieces(steps[..i], s), StepPieces(steps[i], s));
      script := script + Render(StepPieces(steps[i], s));
    }
    assert steps[..|steps|] == steps;
  }

  /** The remote command: one shell, with the whole script quoted. */
  function Remote(s: Scripts): Command {
    Scripted(Script(s))
  }

  method BatchCommand(s: Scripts) returns (r: string)
    ensures r == CommandText(Remote(s))
    ensures AreScripts(s) ==> Tokens(r) == Some([Word("LC_ALL=C"), Word("sh"), Word("-c"), Word(Script(s))])
  {
    var script := BuildScript(PROFILE, s);
    r := "LC_ALL=C sh -c " + Quote(script);
    RemoteText(script);
    if AreScripts(s) {
      RemoteReads(s);
    }
  }

  lemma RemoteText(script: string)
    ensures CommandText(Scripted(script)) == "LC_ALL=C sh -c " + Quote(script)
  {
    assert ShellPieces(script)[..3] == [LOCALE, Plain("sh", ' '), Plain("-c", ' ')];
    ThreePieces(LOCALE, Plain("sh", ' '), Plain("-c", ' '));
    assert Body(LOCALE) == "LC_ALL=C" && Body(Plain("sh", ' ')) == "sh" && Body(Plain("-c", ' ')) == "-c";
    assert ("LC_ALL=C" + [' ']) + (("sh" + [' ']) + ("-c" + [' '])) == "LC_ALL=C sh -c ";
    var pieces := ShellPieces(script);
    assert |pieces| == 4 && Body(pieces[3]) == Quote(script)
           && CommandText(Scripted(script)) == Render(pieces[..3]) + Body(pieces[3]);
    assert Render(pieces[..3]) == "LC_ALL=C sh -c ";
  }

  // ---- commands -----------------------------------------------------------------------

  /** What a shell reads in a command: its words, or an inner shell and its script as one word. */
  function CommandTokens(c: Command): seq<Token> {
    match c
    case Plainly(words) => [Word("LC_ALL=C")] + Words(words)
    case Scripted(script) => [Word("LC_ALL=C"), Word("sh"), Word("-c"), Word(script)]
  }

  lemma LocaleIsPlain()
    ensures IsInner(LOCALE) && PieceTokens(LOCALE) == [Word("LC_ALL=C")]
  {
  }

  lemma ShellWordsArePlain()
    ensures IsInner(Plain("sh", ' ')) && IsInner(Plain("-c", ' '))
  {
  }

  lemma ShellPiecesRead(script: string)
    requires NulFree(script)
    ensures AreInner(ShellPieces(script)) && TokensOf(ShellPieces(script)) == CommandTokens(Scripted(script))
  {
    LocaleIsPlain();
    ShellWordsArePlain();
    var pieces := ShellPieces(script);
    FourTokens(pieces, Word("LC_ALL=C"), Word("sh"), Word("-c"), Word(script));
  }

  lemma CommandPiecesRead(c: Command)
    requires IsCommand(c)
    ensures AreInner(CommandPieces(c)) && TokensOf(CommandPieces(c)) == CommandTokens(c)
  {
    match c
    case Plainly(words) =>
      LocaleIsPlain();
      PlainPiecesRead(words);
      RenderJoins([LOCALE], PlainPieces(words));
      assert [LOCALE][1..] == [];
      AddsNothing(PieceTokens(LOCALE));
    case Scripted(script) => ShellPiecesRead(script);
  }

  /** A command's text reads as its words; a script in it is one word, unchanged. */
  lemma CommandTextReads(c: Command)
    requires IsCommand(c)
    ensures Tokens(CommandText(c)) == Some(CommandTokens(c)) && NulFree(CommandText(c))
  {
    CommandPiecesRead(c);
    InnerArePieces(CommandPieces(c));
    OpenTextReads(CommandPieces(c));
  }

  lemma CommandsAreCommands(a: ActionId, s: Scripts)
    requires AreScripts(s)
    ensures IsCommand(CommandOf(a, s))
  {
    FilesArePlain();
    MoreFilesArePlain();
    ProgramsArePlain();
    match a
    case DiskCapacity | DiskInodes =>
    case _ =>
  }

  lemma FilesArePlain()
    ensures AllPlain("/proc/stat") && AllPlain("/proc/diskstats") && AllPlain("/proc/net/dev")
  {
  }

  lemma MoreFilesArePlain()
    ensures AllPlain("/proc/meminfo") && AllPlain("/proc/loadavg")
  {
  }

  lemma ProgramsArePlain()
    ensures AllPlain("cat") && AllPlain("df") && AllPlain("-P") && AllPlain("-k") && AllPlain("-i")
  {
  }

  // ---- invocations -----------------------------------------------------------------------

  lemma HasTimeoutIsInner()
    ensures AreInner(HAS_TIMEOUT)
  {
    assert IsInner(Plain("if", ' ')) && IsInner(Plain("-v", ' '));
    assert IsInner(Plain("command", ' '));
    assert IsInner(Plain("timeout", ' '));
  }

  lemma QuietlyIsInner()
    ensures AreInner(QUIETLY)
  {
    assert IsInner(Plain("", '>')) && IsInner(Plain("2", '>')) && IsInner(Plain("", '&')) && IsInner(Plain("1", ';'))
           && IsInner(Plain("", ' '));
    assert IsInner(Plain("/dev/null", ' '));
  }

  lemma ElseRefuseIsInner()
    ensures AreInner(ELSE_REFUSE)
  {
    assert IsInner(Plain("", ' ')) && IsInner(Plain("fi", ' ')) && IsInner(Plain("127", ';'));
    assert IsInner(Plain("else", ' '));
    assert IsInner(Plain("exit", ' '));
  }

  lemma ThenRunIsInner(seconds: string, command: string)
    requires AllPlain(seconds) && NulFree(command)
    ensures AreInner(ThenRun(seconds, command))
  {
    ShellWordsArePlain();
    assert IsInner(Plain("then", ' '));
    assert IsInner(Plain("timeout", ' '));
    assert IsInner(Plain(seconds, ' ')) && IsInner(Quoted(command, ';'));
  }

  lemma LimitedIsInner(seconds: string, command: string)
    requires AllPlain(seconds) && NulFree(command)
    ensures AreInner(Limited(seconds, command))
  {
    HasTimeoutIsInner();
    QuietlyIsInner();
    ThenRunIsInner(seconds, command);
    ElseRefuseIsInner();
    InnerJoin(HAS_TIMEOUT, QUIETLY);
    InnerJoin(ThenRun(seconds, command), ELSE_REFUSE);
    InnerJoin(HAS_TIMEOUT + QUIETLY, ThenRun(seconds, command) + ELSE_REFUSE);
  }

  lemma LimitsArePlain()
    ensures AllPlain("2") && AllPlain("3")
  {
  }

  lemma InvocationIsInner(a: ActionId, s: Scripts)
    requires AreScripts(s)
    ensures AreInner(Invocation(a, s))
  {
    CommandsAreCommands(a, s);
    CommandPiecesRead(CommandOf(a, s));
    CommandTextReads(CommandOf(a, s));
    LimitsArePlain();
    LimitedIsInner(TimeLimit(a), CommandText(CommandOf(a, s)));
  }

  lemma ToThirdIsInner()
    ensures AreInner(TO_THIRD)
  {
  }

  lemma BlankIsInner()
    ensures AreInner([Plain("", ' ')]) && PieceTokens(Plain("", ' ')) == []
  {
  }

  /**
   In the script each invocation is the whole text of one command substitution, ended by the script's
   own parenthesis.
   */
  lemma SubstitutedIsBody(a: ActionId, s: Scripts)
    requires AreScripts(s)
    ensures IsBody(Substituted(a, s))
  {
    InvocationIsInner(a, s);
    BlankIsInner();
    InnerJoin([Plain("", ' ')], Invocation(a, s));
    ToThirdIsInner();
    GroupIsBody([Plain("", ' ')] + Invocation(a, s), TO_THIRD);
  }

  /** The same text, piece by piece. */
  function SubstitutedPieces(a: ActionId, s: Scripts): seq<Piece> {
    [Plain("", ' '), Plain("", '(')] + (([Plain("", ' ')] + Invocation(a, s)) + ([Plain("", ')')] + TO_THIRD))
  }

  lemma ParenthesesRender()
    ensures Render([Plain("", ' '), Plain("", '(')]) == " ("
            && TokensOf([Plain("", ' '), Plain("", '(')]) == [Operator('(')]
    ensures Render([Plain("", ')')]) == ")" && TokensOf([Plain("", ')')]) == [Operator(')')]
    ensures ArePieces([Plain("", ' '), Plain("", '(')]) && ArePieces([Plain("", ')')])
  {
    assert [Plain("", ' '), Plain("", '(')][1..] == [Plain("", '(')] && [Plain("", '(')][1..] == []
           && [Plain("", ')')][1..] == [];
  }

  lemma SubstitutedRenders(a: ActionId, s: Scripts)
    requires AreScripts(s)
    ensures ArePieces(SubstitutedPieces(a, s)) && Render(SubstitutedPieces(a, s)) == Substituted(a, s)
    ensures TokensOf(SubstitutedPieces(a, s))
            == [Operator('(')] + (TokensOf(Invocation(a, s)) + ([Operator(')')] + TokensOf(TO_THIRD)))
  {
    var open, close := [Plain("", ' '), Plain("", '(')], [Plain("", ')')];
    var inner := [Plain("", ' ')] + Invocation(a, s);
    ParenthesesRender();
    InvocationIsInner(a, s);
    BlankIsInner();
    InnerJoin([Plain("", ' ')], Invocation(a, s));
    InnerArePieces(inner);
    ToThirdIsInner();
    InnerArePieces(TO_THIRD);
    PiecesJoin(close, TO_THIRD);
    PiecesJoin(inner, close + TO_THIRD);
    PiecesJoin(open, inner + (close + TO_THIRD));
    RenderJoins(close, TO_THIRD);
    RenderJoins(inner, close + TO_THIRD);
    RenderJoins(open, inner + (close + TO_THIRD));
    BlankTokens(Invocation(a, s));
    Associates(Render(open), Render(inner), ")" + Render(TO_THIRD));
    Associates(" (" + Render(inner), ")", Render(TO_THIRD));
  }

  lemma BlankTokens(pieces: seq<Piece>)
    ensures TokensOf([Plain("", ' ')] + pieces) == TokensOf(pieces)
  {
    assert ([Plain("", ' ')] + pieces)[1..] == pieces;
    BlankIsInner();
    AddsNothing(TokensOf(pieces));
  }

  /** What a shell reads in a limited invocation: the command is one word, unchanged. */
  function LimitedWords(seconds: string, command: string): seq<Token> {
    [Word("if"), Word("command"), Word("-v"), Word("timeout")] + QUIET
    + ([Word("then"), Word("timeout"), Word(seconds), Word("sh"), Word("-c"), Word(command), Operator(';')] + REFUSED)
  }

  const QUIET := [Operator('>'), Word("/dev/null"), Word("2"), Operator('>'), Operator('&'), Word("1"), Operator(';')]
  const REFUSED := [Word("else"), Word("exit"), Word("127"), Operator(';'), Word("fi")]
  const EXCHANGED := [Word("2"), Operator('>'), Operator('&'), Word("1")] + [Word("1"), Operator('>'), Operator('&'),
      Word("3")]
  const STREAMS := [Operator(')')] + EXCHANGED

  lemma QuietTokens()
    ensures TokensOf(QUIETLY) == QUIET
  {
    var first, second := [Plain("", '>'), Plain("/dev/null", ' '), Plain("2", '>')],
        [Plain("", '&'), Plain("1", ';'), Plain("", ' ')];
    ThreePieces(Plain("", '>'), Plain("/dev/null", ' '), Plain("2", '>'));
    ThreePieces(Plain("", '&'), Plain("1", ';'), Plain("", ' '));
    RenderJoins(first, second);
    assert QUIETLY == first + second;
  }

  lemma RefusedTokens()
    ensures TokensOf(ELSE_REFUSE) == REFUSED
  {
    var first, second := [Plain("", ' '), Plain("else", ' '), Plain("exit", ' ')],
        [Plain("127", ';'), Plain("", ' '), Plain("fi", ' ')];
    ThreePieces(Plain("", ' '), Plain("else", ' '), Plain("exit", ' '));
    ThreePieces(Plain("127", ';'), Plain("", ' '), Plain("fi", ' '));
    RenderJoins(first, second);
    assert ELSE_REFUSE == first + second;
  }

  lemma ErrorTokens()
    ensures TokensOf(ERRORS_OUT) == [Word("2"), Operator('>'), Operator('&'), Word("1")]
  {
    ThreePieces(Plain("2", '>'), Plain("", '&'), Plain("1", ' '));
  }

  lemma OutputTokens()
    ensures TokensOf(OUTPUT_THIRD) == [Word("1"), Operator('>'), Operator('&'), Word("3")]
  {
    ThreePieces(Plain("1", '>'), Plain("", '&'), Plain("3", ' '));
  }

  lemma StreamTokens()
    ensures TokensOf(TO_THIRD) == EXCHANGED
  {
    ErrorTokens();
    OutputTokens();
    RenderJoins(ERRORS_OUT, OUTPUT_THIRD);
    BlankTokens(ERRORS_OUT + OUTPUT_THIRD);
  }

  /** What a shell reads in an invocation. */
  lemma InvocationTokens(a: ActionId, s: Scripts)
    requires AreScripts(s)
    ensures TokensOf(Invocation(a, s))
            == if HasLimit(a) then LimitedWords(TimeLimit(a), CommandText(CommandOf(a, s)))
                else CommandTokens(CommandOf(a, s))
  {
    CommandsAreCommands(a, s);
    CommandPiecesRead(CommandOf(a, s));
    LimitedTokens(TimeLimit(a), CommandText(CommandOf(a, s)));
  }

  /**
   Scanned again as a command, the substitution's text is the invocation's words in a group, with its
   streams exchanged.
   */
  lemma SubstitutedReads(a: ActionId, s: Scripts)
    requires AreScripts(s)
    ensures var command := CommandOf(a, s);
            Tokens(Substituted(a, s))
            == Some([Operator('(')] + (if HasLimit(a) then LimitedWords(TimeLimit(a), CommandText(command))
                else CommandTokens(command)) + STREAMS)
  {
    SubstitutedRenders(a, s);
    TextReads(SubstitutedPieces(a, s));
    InvocationTokens(a, s);
    StreamTokens();
    Associates([Operator('(')], TokensOf(Invocation(a, s)), STREAMS);
  }

  lemma LimitedTokens(seconds: string, command: string)
    requires seconds != ""
    ensures TokensOf(Limited(seconds, command)) == LimitedWords(seconds, command)
  {
    RenderJoins(HAS_TIMEOUT, QUIETLY);
    RenderJoins(ThenRun(seconds, command), ELSE_REFUSE);
    RenderJoins(HAS_TIMEOUT + QUIETLY, ThenRun(seconds, command) + ELSE_REFUSE);
    FourTokens(HAS_TIMEOUT, Word("if"), Word("command"), Word("-v"), Word("timeout"));
    QuietTokens();
    ThenRunTokens(seconds, command);
    RefusedTokens();
  }

  lemma ThenRunTokens(seconds: string, command: string)
    requires seconds != ""
    ensures TokensOf(ThenRun(seconds, command))
            == [Word("then"), Word("timeout"), Word(seconds), Word("sh"), Word("-c"), Word(command), Operator(';')]
  {
    var first := [Plain("then", ' '), Plain("timeout", ' '), Plain(seconds, ' '), Plain("sh", ' ')];
    var second := [Plain("-c", ' ')] + [Quoted(command, ';')];
    FourTokens(first, Word("then"), Word("timeout"), Word(seconds), Word("sh"));
    ThenCommand(command);
    RenderJoins(first, second);
    assert ThenRun(seconds, command) == first + second;
  }

  lemma {:induction false} ThenCommand(command: string)
    ensures TokensOf([Plain("-c", ' ')] + [Quoted(command, ';')]) == [Word("-c"), Word(command), Operator(';')]
  {
    RenderFirst(Plain("-c", ' '), [Quoted(command, ';')]);
    RenderFirst(Quoted(command, ';'), []);
    AddsNothing([Word("-c")]);
    assert PieceTokens(Quoted(command, ';')) == [Word(command), Operator(';')];
  }

  // ---- the whole script -------------------------------------------------------------------

  lemma MarkersAreNulFree(a: ActionId)
    ensures NulFree(HOST_RESOURCE_V1.begin + Name(a)) && NulFree(HOST_RESOURCE_V1.end + Name(a))
  {
    BeginIsNulFree();
    EndIsNulFree();
    NamesAreNulFree(a);
    BothNulFree(HOST_RESOURCE_V1.begin, Name(a));
    BothNulFree(HOST_RESOURCE_V1.end, Name(a));
  }

  lemma BeginIsNulFree()
    ensures NulFree(HOST_RESOURCE_V1.begin)
  {
  }

  lemma EndIsNulFree()
    ensures NulFree(HOST_RESOURCE_V1.end)
  {
  }

  lemma NamesAreNulFree(a: ActionId)
    ensures NulFree(Name(a))
  {
    BatchTranscript.NamesAreNames(a);
    assert forall c :: c in Name(a) ==> BatchTranscript.IsNameChar(c);
  }

  lemma PrintBeginArePieces(name: string)
    requires NulFree(HOST_RESOURCE_V1.begin + name)
    ensures ArePieces(PrintBegin(name))
  {
    assert IsPiece(Plain("printf", ' ')) && IsPiece(Quoted("%s\\n", ' '));
    assert IsPiece(Quoted(HOST_RESOURCE_V1.begin + name, '\n'));
    assert IsPiece(Plain("exec", ' ')) && IsPiece(Plain("3", '>')) && IsPiece(Plain("", '&'))
           && IsPiece(Plain("1", '\n'));
  }

  lemma PrintEndArePieces(name: string)
    requires NulFree(HOST_RESOURCE_V1.end + name)
    ensures ArePieces(PrintEnd(name))
  {
    assert IsPiece(Plain("printf", ' ')) && IsPiece(Quoted("\\n%s:%s\\n", ' '));
    assert IsPiece(Quoted(HOST_RESOURCE_V1.end + name, ' '));
    StatusIsParameter();
  }

  lemma StatusIsParameter()
    ensures IsPiece(QuotedParam("network_atlas_rc", '\n'))
  {
  }

  lemma ErrorIsParameter()
    ensures IsPiece(QuotedParam("network_atlas_error", ' '))
  {
  }

  lemma StatusNameIsPlain()
    ensures IsPiece(Param("network_atlas_rc=", "?", '\n'))
  {
  }

  lemma KeepStatusArePieces()
    ensures ArePieces(KEEP_STATUS)
  {
    StatusNameIsPlain();
    assert IsPiece(Plain("exec", ' ')) && IsPiece(Plain("3", '>')) && IsPiece(Plain("", '&'))
           && IsPiece(Plain("-", '\n'));
  }

  lemma PlainJoins(a: string, b: string)
    requires AllPlain(a) && AllPlain(b)
    ensures AllPlain(a + b)
  {
  }

  lemma PatternIsPlain()
    ensures AllPlain(PERMISSION_DENIED)
  {
    assert AllPlain("*[Pp]ermission*") by { PermissionIsPlain(); }
    assert AllPlain("[Dd]enied*");
    PlainJoins("*[Pp]ermission*", "[Dd]enied*");
  }

  lemma PermissionIsPlain()
    ensures AllPlain("*[Pp]ermission*")
  {
  }

  lemma OnDeniedArePieces()
    ensures ArePieces(ON_DENIED)
  {
    PatternIsPlain();
    ErrorIsParameter();
    assert IsPiece(Plain("case", ' ')) && IsPiece(Plain("in", ' '));
  }

  lemma DeniedStatusIsPlain()
    ensures AllPlain("network_atlas_rc=126")
  {
  }

  lemma SetDeniedArePieces()
    ensures ArePieces(SET_DENIED)
  {
    DeniedStatusIsPlain();
    assert IsPiece(Plain("esac", '\n'));
  }

  lemma WhenDeniedArePieces()
    ensures ArePieces(WHEN_DENIED)
  {
    OnDeniedArePieces();
    SetDeniedArePieces();
    PiecesJoin(ON_DENIED, SET_DENIED);
  }

  lemma ErrorNameIsPlain()
    ensures AllPlain("network_atlas_error=")
  {
  }

  lemma AssignmentIsPiece(before: string, body: string)
    requires AllPlain(before) && IsBody(body)
    ensures ArePieces([Substitution(before, body, '\n')]) && BodiesIn([Substitution(before, body, '\n')]) == [body]
  {
    assert [Substitution(before, body, '\n')][1..] == [];
  }

  lemma CollectArePieces(a: ActionId, s: Scripts)
    requires AreScripts(s)
    ensures ArePieces(Collect(a, s)) && BodiesIn(Collect(a, s)) == [Substituted(a, s)]
  {
    SubstitutedIsBody(a, s);
    ErrorNameIsPlain();
    AssignmentIsPiece("network_atlas_error=", Substituted(a, s));
  }

  lemma ActionArePieces(a: ActionId, s: Scripts)
    requires AreScripts(s)
    ensures ArePieces(ActionPieces(a, s)) && BodiesIn(ActionPieces(a, s)) == [Substituted(a, s)]
  {
    var name := Name(a);
    MarkersAreNulFree(a);
    PrintBeginArePieces(name);
    PrintEndArePieces(name);
    KeepStatusArePieces();
    WhenDeniedArePieces();
    CollectArePieces(a, s);
    PiecesJoin(PrintBegin(name), Collect(a, s));
    PiecesJoin(KEEP_STATUS, WHEN_DENIED);
    PiecesJoin(KEEP_STATUS + WHEN_DENIED, PrintEnd(name));
    PiecesJoin(PrintBegin(name) + Collect(a, s), KEEP_STATUS + WHEN_DENIED + PrintEnd(name));
    OthersHoldNothing(name);
    BodiesInJoin(PrintBegin(name), Collect(a, s));
    BodiesInJoin(KEEP_STATUS, WHEN_DENIED);
    BodiesInJoin(KEEP_STATUS + WHEN_DENIED, PrintEnd(name));
    BodiesInJoin(PrintBegin(name) + Collect(a, s), KEEP_STATUS + WHEN_DENIED + PrintEnd(name));
  }

  lemma {:induction false} NoSubstitutions(pieces: seq<Piece>)
    requires HoldNothing(pieces)
    ensures BodiesIn(pieces) == []
  {
    if pieces != [] {
      NoSubstitutions(pieces[1..]);
    }
  }

  lemma OthersHoldNothing(name: string)
    ensures BodiesIn(PrintBegin(name)) == [] && BodiesIn(KEEP_STATUS) == [] && BodiesIn(WHEN_DENIED) == []
            && BodiesIn(PrintEnd(name)) == []
  {
    PrintHoldsNothing(name);
    StatusHoldsNothing();
    DeniedHoldsNothing();
  }

  predicate HoldNothing(pieces: seq<Piece>) {
    forall i :: 0 <= i < |pieces| ==> !pieces[i].Substitution?
  }

  lemma PrintHoldsNothing(name: string)
    ensures BodiesIn(PrintBegin(name)) == [] && BodiesIn(PrintEnd(name)) == []
  {
    assert HoldNothing(PrintBegin(name)) && HoldNothing(PrintEnd(name));
    NoSubstitutions(PrintBegin(name));
    NoSubstitutions(PrintEnd(name));
  }

  lemma StatusHoldsNothing()
    ensures BodiesIn(KEEP_STATUS) == []
  {
    assert HoldNothing(KEEP_STATUS);
    NoSubstitutions(KEEP_STATUS);
  }

  lemma DeniedHoldsNothing()
    ensures BodiesIn(WHEN_DENIED) == []
  {
    assert HoldNothing(ON_DENIED) && HoldNothing(SET_DENIED);
    NoSubstitutions(ON_DENIED);
    NoSubstitutions(SET_DENIED);
    BodiesInJoin(ON_DENIED, SET_DENIED);
  }

  lemma StepArePieces(step: ProfileStep, s: Scripts)
    requires AreScripts(s)
    ensures ArePieces(StepPieces(step, s))
    ensures BodiesIn(StepPieces(step, s)) == if step.RunAction? then [Substituted(step.action, s)] else []
  {
    match step
    case RunAction(a) => ActionArePieces(a, s);
    case LocalDelay =>
      assert IsPiece(Plain("sleep", ' ')) && IsPiece(Plain("1.000", '\n'));
      NoSubstitutions(StepPieces(step, s));
  }

  /** The substitutions that the steps write, in order. */
  function BodiesFor(steps: seq<ProfileStep>, s: Scripts): seq<string> {
    if steps == [] then []
    else
      var last := steps[|steps| - 1];
      BodiesFor(steps[..|steps| - 1], s) + (if last.RunAction? then [Substituted(last.action, s)] else [])
  }

  lemma {:induction false} ScriptArePieces(steps: seq<ProfileStep>, s: Scripts)
    requires AreScripts(s)
    ensures ArePieces(ScriptPieces(steps, s)) && BodiesIn(ScriptPieces(steps, s)) == BodiesFor(steps, s)
  {
    if steps == [] {
      assert IsPiece(Plain("set", ' ')) && IsPiece(Plain("+e", '\n'));
      NoSubstitutions(NO_ERREXIT);
    } else {
      var front, last := steps[..|steps| - 1], steps[|steps| - 1];
      ScriptArePieces(front, s);
      StepArePieces(last, s);
      PiecesJoin(ScriptPieces(front, s), StepPieces(last, s));
      BodiesInJoin(ScriptPieces(front, s), StepPieces(last, s));
    }
  }

  /** The actions of some steps, in order. */
  function ActionsIn(steps: seq<ProfileStep>): seq<ActionId> {
    if steps == [] then []
    else
      var last := steps[|steps| - 1];
      ActionsIn(steps[..|steps| - 1]) + (if last.RunAction? then [last.action] else [])
  }

  lemma {:induction false} BodiesForActions(steps: seq<ProfileStep>, s: Scripts)
    ensures |BodiesFor(steps, s)| == |ActionsIn(steps)|
    ensures forall i :: 0 <= i < |ActionsIn(steps)| ==> BodiesFor(steps, s)[i] == Substituted(ActionsIn(steps)[i], s)
  {
    if steps != [] {
      BodiesForActions(steps[..|steps| - 1], s);
    }
  }

  lemma {:induction false} ActionsInJoin(a: seq<ProfileStep>, b: seq<ProfileStep>)
    ensures ActionsIn(a + b) == ActionsIn(a) + ActionsIn(b)
  {
    if b == [] {
      AddsNothing(a);
      AddsNothing(ActionsIn(a));
    } else {
      assert (a + b)[..|a + b| - 1] == a + b[..|b| - 1];
      ActionsInJoin(a, b[..|b| - 1]);
      Associates(ActionsIn(a), ActionsIn(b[..|b| - 1]), if b[|b| - 1].RunAction? then [b[|b| - 1].action] else []);
    }
  }

  lemma {:induction false} RunsAreTheirActions(actions: seq<ActionId>)
    ensures ActionsIn(Runs(actions)) == actions
  {
    if actions != [] {
      var front := actions[..|actions| - 1];
      RunsAreTheirActions(front);
      assert Runs(actions)[..|actions| - 1] == Runs(front);
    }
  }

  lemma ProfileRunsEveryAction()
    ensures ActionsIn(PROFILE) == ACTIONS
  {
    RunsAreTheirActions(ACTIONS[..5]);
    RunsAreTheirActions(ACTIONS[5..]);
    assert ActionsIn([LocalDelay]) == [] by {
      assert [LocalDelay][..0] == [];
    }
    ActionsInJoin(Runs(ACTIONS[..5]), [LocalDelay]);
    ActionsInJoin(Runs(ACTIONS[..5]) + [LocalDelay], Runs(ACTIONS[5..]));
    AddsNothing(ACTIONS[..5]);
    assert ACTIONS[..5] + ACTIONS[5..] == ACTIONS;
  }

  /**
   The shell that gets the script finds one command substitution per action, in order, each exactly
   the text written for it.
   */
  lemma EverySubstitutionIsFound(s: Scripts)
    requires AreScripts(s)
    ensures Tokens(Script(s)).Some? && var found := BodiesOf(Tokens(Script(s)).value);
            |found| == |ACTIONS| && forall i :: 0 <= i < |ACTIONS| ==> found[i] == Substituted(ACTIONS[i], s)
  {
    var pieces := ScriptPieces(PROFILE, s);
    ScriptArePieces(PROFILE, s);
    TextReads(pieces);
    BodiesAreFound(pieces);
    ProfileRunsEveryAction();
    BodiesForActions(PROFILE, s);
  }

  /** The remote command's last word is the whole script. */
  lemma RemoteReads(s: Scripts)
    requires AreScripts(s)
    ensures Tokens(CommandText(Remote(s))) == Some([Word("LC_ALL=C"), Word("sh"), Word("-c"), Word(Script(s))])
  {
    ScriptArePieces(PROFILE, s);
    PiecesAreNulFree(ScriptPieces(PROFILE, s));
    CommandTextReads(Remote(s));
  }

  /**
   Down the whole chain: the login shell hands one script to `sh -c`; that shell finds one
   substitution per action; the substituted text is a group that runs the action's words
   or, under a time limit, hands its command to another `sh -c` as one unchanged word;
   and that command reads as its words, its own script included.
   */
  lemma EveryCommandArrives(i: nat, s: Scripts)
    requires AreScripts(s) && i < |ACTIONS|
    ensures var command := CommandOf(ACTIONS[i], s);
            && Tokens(CommandText(Remote(s))) == Some([Word("LC_ALL=C"), Word("sh"), Word("-c"), Word(Script(s))])
            && Tokens(Script(s)).Some?
            && |BodiesOf(Tokens(Script(s)).value)| == |ACTIONS|
            && Tokens(BodiesOf(Tokens(Script(s)).value)[i])
               == Some([Operator('(')] + (if HasLimit(ACTIONS[i])
                   then LimitedWords(TimeLimit(ACTIONS[i]), CommandText(command)) else CommandTokens(command))
                       + STREAMS)
            && Tokens(CommandText(command)) == Some(CommandTokens(command))
  {
    RemoteReads(s);
    EverySubstitutionIsFound(s);
    SubstitutedReads(ACTIONS[i], s);
    CommandsAreCommands(ACTIONS[i], s);
    CommandTextReads(CommandOf(ACTIONS[i], s));
  }
}
