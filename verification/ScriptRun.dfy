/**
 What the batch script prints when a shell runs it line by line (backend/src/monitoring.rs), after
 POSIX.1-2017, Shell Command Language, sections 2.6.3, 2.7, 2.9.4.3 and 2.13. Only the commands that
 the script uses are known; what the groups in its substitutions do is the host's affair.
 */
module ScriptRun {
  import opened Wrappers
  import opened Decimals
  import opened Shell
  import opened ShellText
  import opened Batch
  import opened BatchScript
  import BatchOutcome
  import BatchTranscript
  import Text

  /** What a group did. */
  datatype Done = Done(stdout: string, stderr: string, status: int)

  /** The n-th group that is run, with its words. */
  type Host = (nat, seq<Token>) -> Done

  /**
   `third` tells whether descriptor 3 stands for the script's own output. `delays` are the times slept,
   with the number of groups run before.
   */
  datatype State = State(
    printed: string, runs: nat, status: int, third: bool, vars: map<string, string>, delays: seq<(nat, string)>)

  // ---- printf ----------------------------------------------------------------------------

  function Prefixed(text: string, rest: Option<string>): Option<string> {
    if rest.None? then None else Some(text + rest.value)
  }

  /** Newlines and strings; every argument is used once. */
  function Format(format: string, arguments: seq<string>): Option<string>
    decreases |format|
  {
    if format == "" then (if arguments == [] then Some("") else None)
    else if |format| >= 2 && format[0] == '\\' && format[1] == 'n' then Prefixed("\n", Format(format[2..], arguments))
    else if |format| >= 2 && format[0] == '%' && format[1] == 's' then
      if arguments == [] then None else Prefixed(arguments[0], Format(format[2..], arguments[1..]))
    else if format[0] == '\\' || format[0] == '%' then None
    else Prefixed([format[0]], Format(format[1..], arguments))
  }

  /** A literal word, or the value of a variable. */
  function ValueOf(token: Token, vars: map<string, string>): Option<string> {
    match token
    case Word(text) => Some(text)
    case Expanding(text, bodies) =>
      if bodies == [] && text != "" && text[0] == '$' then Get(vars, text[1..]) else None
    case Operator(_) => None
  }

  function Values(tokens: seq<Token>, vars: map<string, string>): Option<seq<string>> {
    if tokens == [] then Some([])
    else
      var first, rest := ValueOf(tokens[0], vars), Values(tokens[1..], vars);
      if first.None? || rest.None? then None else Some([first.value] + rest.value)
  }

  function Print(arguments: seq<Token>, st: State): Option<State> {
    var values := Values(arguments, st.vars);
    if values.None? || values.value == [] then None
    else
      var text := Format(values.value[0], values.value[1..]);
      if text.None? then None else Some(st.(printed := st.printed + text.value, status := 0))
  }

  // ---- descriptors and variables -----------------------------------------------------------

  /** 3>&1 opens the third descriptor, 3>&- closes it. */
  function Redirect(arguments: seq<Token>, st: State): Option<State> {
    if arguments == [Word("3"), Operator('>'), Operator('&'), Word("1")] then Some(st.(third := true, status := 0))
    else if arguments == [Word("3"), Operator('>'), Operator('&'), Word("-")] then
      Some(st.(third := false, status := 0))
    else None
  }

  /** Name and value on either side of the first equals sign. */
  function Assignment(text: string): Option<(string, string)> {
    var k := Text.FindFrom(text, "=", 0);
    if k.None? then None else Some((text[..k.value], text[k.value + 1..]))
  }

  const EXCHANGE := [Operator(')'), Word("2"), Operator('>'), Operator('&'), Word("1"), Word("1"), Operator('>'),
      Operator('&'), Word("3")]

  /** A group whose errors go to the substitution and whose output to the third descriptor: the group's words. */
  function GroupOf(body: string): Option<seq<Token>> {
    var tokens := Tokens(body);
    if tokens.None? || |tokens.value| < 10 || tokens.value[0] != Operator('(') then None
    else
      var n := |tokens.value| - 9;
      if tokens.value[n..] == EXCHANGE then Some(tokens.value[1..n]) else None
  }

  predicate IsNewline(c: char) {
    c == '\n'
  }

  /** name=$(...) or name=$? */
  function Assign(text: string, bodies: seq<string>, st: State, host: Host): Option<State> {
    var parts := Assignment(text);
    if parts.None? then None
    else
      var (name, value) := parts.value;
      if bodies == [] then
        if value == "$?" then Some(st.(vars := st.vars[name := Decimal(st.status)], status := 0)) else None
      else if |bodies| != 1 || value != "$(" + bodies[0] + ")" || !st.third then None
      else
        var group := GroupOf(bodies[0]);
        if group.None? then None
        else
          var done := host(st.runs, group.value);
          Some(st.(printed := st.printed + done.stdout, runs := st.runs + 1, status := done.status,
                   vars := st.vars[name := Text.TrimEnd(done.stderr, IsNewline)]))
  }

  // ---- patterns ------------------------------------------------------------------------------

  /** Stars, brackets around two characters, and characters that stand for themselves. */
  function Matches(pattern: string, s: string): bool
    decreases |pattern| + |s|
  {
    if pattern == "" then s == ""
    else if pattern[0] == '*' then Matches(pattern[1..], s) || (s != "" && Matches(pattern, s[1..]))
    else if pattern[0] == '[' then
      |pattern| >= 4 && pattern[3] == ']' && s != "" && (s[0] == pattern[1] || s[0] == pattern[2])
      && Matches(pattern[4..], s[1..])
    else s != "" && s[0] == pattern[0] && Matches(pattern[1..], s[1..])
  }

  /** case WORD in PATTERN) NAME=VALUE ;; esac */
  function Choose(arguments: seq<Token>, st: State): Option<State> {
    if |arguments| != 8 || arguments[1] != Word("in") || !arguments[2].Word? || arguments[3] != Operator(')')
       || !arguments[4].Word? || arguments[5..] != [Operator(';'), Operator(';'), Word("esac")] then None
    else
      var value, chosen := ValueOf(arguments[0], st.vars), Assignment(arguments[4].text);
      if value.None? || chosen.None? then None
      else if Matches(arguments[2].text, value.value) then
        Some(st.(vars := st.vars[chosen.value.0 := chosen.value.1], status := 0))
      else Some(st.(status := 0))
  }

  // ---- lines -----------------------------------------------------------------------------------

  /** One line; None where it is not one of the script's commands. */
  function RunLine(line: seq<Token>, st: State, host: Host): Option<State> {
    if line == [] then Some(st)
    else
      match line[0]
      case Operator(_) => None
      case Expanding(text, bodies) => if |line| == 1 then Assign(text, bodies, st, host) else None
      case Word(word) =>
        if word == "printf" then Print(line[1..], st)
        else if word == "exec" then Redirect(line[1..], st)
        else if word == "case" then Choose(line[1..], st)
        else if |line| != 2 || !line[1].Word? then None
        else if word == "set" then Some(st.(status := 0))
        else if word == "sleep" then Some(st.(status := 0, delays := st.delays + [(st.runs, line[1].text)]))
        else None
  }

  const NEWLINE := Operator('\n')

  /** Runs each line at its newline; `line` is the one under way. */
  function RunTokens(tokens: seq<Token>, line: seq<Token>, st: State, host: Host): Option<State>
    decreases |tokens|
  {
    if tokens == [] then RunLine(line, st, host)
    else if tokens[0] == NEWLINE then
      var next := RunLine(line, st, host);
      if next.None? then None else RunTokens(tokens[1..], [], next.value, host)
    else RunTokens(tokens[1..], line + [tokens[0]], st, host)
  }

  const BEGINNING := State("", 0, 0, false, map[], [])

  /** A script run to its end. */
  function RunScript(script: string, host: Host): Option<State> {
    var tokens := Tokens(script);
    if tokens.None? then None else RunTokens(tokens.value, [], BEGINNING, host)
  }

  function RunLines(lines: seq<seq<Token>>, st: State, host: Host): Option<State> {
    if lines == [] then Some(st)
    else
      var next := RunLine(lines[0], st, host);
      if next.None? then None else RunLines(lines[1..], next.value, host)
  }

  function Flat(lines: seq<seq<Token>>): seq<Token> {
    if lines == [] then [] else lines[0] + ([NEWLINE] + Flat(lines[1..]))
  }

  predicate AreLines(lines: seq<seq<Token>>) {
    forall i :: 0 <= i < |lines| ==> NEWLINE !in lines[i]
  }

  lemma {:induction false} LineRuns(before: seq<Token>, line: seq<Token>, rest: seq<Token>, st: State, host: Host)
    requires NEWLINE !in line
    ensures RunTokens(line + ([NEWLINE] + rest), before, st, host)
            == var next := RunLine(before + line, st, host);
               if next.None? then None else RunTokens(rest, [], next.value, host)
    decreases |line|
  {
    var tokens := line + ([NEWLINE] + rest);
    if line == [] {
      assert tokens[0] == NEWLINE && tokens[1..] == rest && before + line == before;
    } else {
      assert tokens[0] == line[0] && tokens[1..] == line[1..] + ([NEWLINE] + rest);
      LineRuns(before + [line[0]], line[1..], rest, st, host);
      assert (before + [line[0]]) + line[1..] == before + line;
    }
  }

  lemma {:induction false} LinesRun(lines: seq<seq<Token>>, rest: seq<Token>, st: State, host: Host)
    requires AreLines(lines)
    ensures RunTokens(Flat(lines) + rest, [], st, host)
            == var next := RunLines(lines, st, host);
               if next.None? then None else RunTokens(rest, [], next.value, host)
    decreases |lines|
  {
    if lines == [] {
      AddsNothing(rest);
    } else {
      var more := Flat(lines[1..]) + rest;
      assert Flat(lines) + rest == lines[0] + ([NEWLINE] + more);
      LineRuns([], lines[0], more, st, host);
      AddsNothing(lines[0]);
      var next := RunLine(lines[0], st, host);
      if next.Some? {
        LinesRun(lines[1..], rest, next.value, host);
      }
    }
  }

  // ---- the pattern of refusals -------------------------------------------------------------------

  predicate MatchesBehind(pattern: string, s: string, k: nat) {
    k <= |s| && Matches(pattern, s[k..])
  }

  lemma {:induction false} StarMatches(pattern: string, s: string)
    ensures Matches(['*'] + pattern, s) <==> exists k: nat :: MatchesBehind(pattern, s, k)
    decreases |s|
  {
    assert (['*'] + pattern)[1..] == pattern && s[0..] == s;
    if Matches(pattern, s) {
      assert MatchesBehind(pattern, s, 0);
    }
    if s != "" {
      var tail := s[1..];
      StarMatches(pattern, tail);
      forall k: nat ensures k > 0 ==> MatchesBehind(pattern, s, k) == MatchesBehind(pattern, tail, k - 1) {
        assert 0 < k <= |s| ==> s[k..] == tail[k - 1..];
      }
      if k: nat :| MatchesBehind(pattern, tail, k) {
        assert MatchesBehind(pattern, s, k + 1);
      }
      if k: nat :| MatchesBehind(pattern, s, k) {
        assert k > 0 ==> MatchesBehind(pattern, tail, k - 1);
      }
    }
  }

  lemma StarMatchesAll(s: string)
    ensures Matches("*", s)
  {
    StarMatches("", s);
    assert MatchesBehind("", s, |s|);
    assert ['*'] + "" == "*";
  }

  predicate IsLiteral(text: string) {
    forall i :: 0 <= i < |text| ==> text[i] != '*' && text[i] != '['
  }

  lemma {:induction false} LiteralMatches(text: string, pattern: string, s: string)
    requires IsLiteral(text)
    ensures Matches(text + pattern, s) <==> text <= s && Matches(pattern, s[|text|..])
    decreases |text|
  {
    if text == "" {
      assert text + pattern == pattern && s[0..] == s;
    } else {
      assert (text + pattern)[0] == text[0] && (text + pattern)[1..] == text[1..] + pattern;
      if s != "" {
        LiteralMatches(text[1..], pattern, s[1..]);
        assert text <= s <==> text[0] == s[0] && text[1..] <= s[1..];
        assert |text| <= |s| ==> s[1..][|text| - 1..] == s[|text|..];
      }
    }
  }

  lemma EitherMatches(a: char, b: char, pattern: string, s: string)
    ensures Matches(['[', a, b, ']'] + pattern, s)
            <==> s != "" && (s[0] == a || s[0] == b) && Matches(pattern, s[1..])
  {
    assert (['[', a, b, ']'] + pattern)[4..] == pattern;
  }

  /** One of two letters, a text, and whatever follows. */
  lemma WordMatches(a: char, b: char, text: string, pattern: string, s: string)
    requires IsLiteral(text)
    ensures Matches(['[', a, b, ']'] + (text + pattern), s)
            <==> s != "" && (s[0] == a || s[0] == b) && Text.OccursAt(s, text, 1)
                 && Matches(pattern, s[1..][|text|..])
  {
    EitherMatches(a, b, text + pattern, s);
    if s != "" {
      LiteralMatches(text, pattern, s[1..]);
    }
  }

  const DENIED := "[Dd]enied*"

  lemma DeniedMatches(s: string)
    ensures Matches(DENIED, s) <==> BatchTranscript.Denied(s, 0)
  {
    WordMatches('D', 'd', "enied", "*", s);
    assert ['[', 'D', 'd', ']'] + ("enied" + "*") == DENIED;
    if BatchTranscript.Denied(s, 0) {
      StarMatchesAll(s[1..][5..]);
    }
  }

  lemma DeniedBehind(s: string, k: nat)
    requires k <= |s|
    ensures BatchTranscript.Denied(s[k..], 0) <==> BatchTranscript.Denied(s, k)
    ensures BatchTranscript.Permission(s[k..], 0) <==> BatchTranscript.Permission(s, k)
  {
    assert k < |s| ==> s[k..][1..] == s[k + 1..];
  }

  const PERMISSION := "[Pp]ermission" + ("*" + DENIED)

  lemma PermissionMatches(s: string)
    ensures Matches(PERMISSION, s)
            <==> BatchTranscript.Permission(s, 0) && exists k: nat :: MatchesBehind(DENIED, s[1..][9..], k)
  {
    WordMatches('P', 'p', "ermission", "*" + DENIED, s);
    assert ['[', 'P', 'p', ']'] + ("ermission" + ("*" + DENIED)) == PERMISSION;
    if BatchTranscript.Permission(s, 0) {
      StarMatches(DENIED, s[1..][9..]);
      assert ['*'] + DENIED == "*" + DENIED;
    }
  }

  /** Refused at i, and the rest of the words at j. */
  ghost predicate SaysAt(s: string, i: nat, j: nat) {
    i + 10 <= j && BatchTranscript.Permission(s, i) && BatchTranscript.Denied(s, j)
  }

  lemma SlicesSlice(s: string, i: nat, k: nat)
    requires i + 10 + k <= |s|
    ensures s[i..][1..][9..][k..] == s[i + 10 + k..]
  {
  }

  lemma MatchIsSaid(s: string, i: nat)
    requires MatchesBehind(PERMISSION, s, i)
    ensures exists j: nat :: SaysAt(s, i, j)
  {
    var tail := s[i..];
    PermissionMatches(tail);
    var k: nat :| MatchesBehind(DENIED, tail[1..][9..], k);
    DeniedMatches(tail[1..][9..][k..]);
    SlicesSlice(s, i, k);
    DeniedBehind(s, i);
    DeniedBehind(s, i + 10 + k);
    assert SaysAt(s, i, i + 10 + k);
  }

  lemma SaidIsMatch(s: string, i: nat, j: nat)
    requires SaysAt(s, i, j)
    ensures MatchesBehind(PERMISSION, s, i)
  {
    var tail, k := s[i..], j - i - 10;
    SlicesSlice(s, i, k);
    DeniedBehind(s, i);
    DeniedBehind(s, j);
    DeniedMatches(s[j..]);
    assert MatchesBehind(DENIED, tail[1..][9..], k);
    PermissionMatches(tail);
  }

  /** The shell's pattern finds exactly the messages that the transcript counts as refusals. */
  lemma RefusalMatches(s: string)
    ensures Matches(PERMISSION_DENIED, s) <==> BatchTranscript.SaysPermissionDenied(s)
  {
    StarMatches(PERMISSION, s);
    assert ['*'] + PERMISSION == PERMISSION_DENIED;
    if i: nat :| MatchesBehind(PERMISSION, s, i) {
      MatchIsSaid(s, i);
    }
    if BatchTranscript.SaysPermissionDenied(s) {
      var i, j :| 0 <= i && i + 10 <= j && BatchTranscript.Permission(s, i) && BatchTranscript.Denied(s, j);
      assert SaysAt(s, i, j);
      SaidIsMatch(s, i, j);
    }
  }

  lemma NewlineAddsNothing(s: string, k: nat)
    ensures BatchTranscript.Denied(s + "\n", k) <==> BatchTranscript.Denied(s, k)
    ensures BatchTranscript.Permission(s + "\n", k) <==> BatchTranscript.Permission(s, k)
  {
    var more := s + "\n";
    assert more[|s|] == '\n';
    OccursWithout(s, "enied", k + 1);
    OccursWithout(s, "ermission", k + 1);
  }

  lemma OccursWithout(s: string, needle: string, k: nat)
    requires needle != "" && needle[|needle| - 1] != '\n'
    ensures Text.OccursAt(s + "\n", needle, k) <==> Text.OccursAt(s, needle, k)
  {
    var more := s + "\n";
    if k <= |s| {
      assert more[k..] == s[k..] + "\n";
      if needle <= more[k..] {
        assert needle[|needle| - 1] == more[k..][|needle| - 1];
        assert needle == (s[k..] + "\n")[..|needle|];
      }
    }
  }

  /** The newlines that a substitution cuts off do not matter to it. */
  lemma {:induction false} TrimKeepsRefusal(s: string)
    ensures BatchTranscript.SaysPermissionDenied(Text.TrimEnd(s, IsNewline))
            <==> BatchTranscript.SaysPermissionDenied(s)
  {
    if s != "" && s[|s| - 1] == '\n' {
      var front := s[..|s| - 1];
      assert front + "\n" == s;
      TrimKeepsRefusal(front);
      forall k: nat
        ensures BatchTranscript.Denied(s, k) <==> BatchTranscript.Denied(front, k)
        ensures BatchTranscript.Permission(s, k) <==> BatchTranscript.Permission(front, k)
      {
        NewlineAddsNothing(front, k);
      }
    }
  }

  // ---- an action's lines ----------------------------------------------------------------------------

  /** The two variables of the script, and the pattern of refusals. */
  datatype Choice = Choice(error: string, status: string, pattern: string)

  predicate IsChoice(v: Choice) {
    '=' !in v.error && '=' !in v.status && v.error != v.status
  }

  const OPEN_THIRD := [Word("exec"), Word("3"), Operator('>'), Operator('&'), Word("1")]
  const CLOSE_THIRD := [Word("exec"), Word("3"), Operator('>'), Operator('&'), Word("-")]

  function BeginLine(text: string): seq<Token> {
    [Word("printf"), Word("%s\\n")] + [Word(text)]
  }

  function CollectLine(v: Choice, body: string): seq<Token> {
    [Expanding(v.error + "=" + ("$(" + body + ")"), [body])]
  }

  function StatusLine(v: Choice): seq<Token> {
    [Expanding(v.status + "=" + "$?", [])]
  }

  function CaseArguments(token: Token, pattern: string, chosen: string): seq<Token> {
    [token, Word("in"), Word(pattern), Operator(')'), Word(chosen), Operator(';'), Operator(';'), Word("esac")]
  }

  function CaseLine(v: Choice): seq<Token> {
    [Word("case")] + CaseArguments(Expanding("$" + v.error, []), v.pattern, v.status + "=" + "126")
  }

  function FinishLine(v: Choice, text: string): seq<Token> {
    [Word("printf"), Word("\\n%s:%s\\n")] + [Word(text), Expanding("$" + v.status, [])]
  }

  function ActionLines(v: Choice, begin: string, body: string, end: string): seq<seq<Token>> {
    [BeginLine(begin)] + ([OPEN_THIRD] + ([CollectLine(v, body)] + ([StatusLine(v)] + ([CLOSE_THIRD]
    + ([CaseLine(v)] + ([FinishLine(v, end)] + []))))))
  }

  lemma AssignmentSplits(name: string, value: string)
    requires '=' !in name
    ensures Assignment(name + "=" + value) == Some((name, value))
  {
    var text := name + "=" + value;
    assert text[|name|..] == "=" + value;
    forall j | 0 <= j < |name| ensures !Text.OccursAt(text, "=", j) {
      assert text[j..][0] == text[j] == name[j];
    }
    Text.FirstOccurrence(text, "=", |name|);
    assert text[..|name|] == name && text[|name| + 1..] == value;
  }

  lemma FormatLine(text: string)
    ensures Format("%s\\n", [text]) == Some(text + "\n")
  {
    assert "%s\\n"[2..] == "\\n" && "\\n"[2..] == "" && [text][1..] == [];
    assert Format("\\n", []) == Some("\n" + "");
    assert text + ("\n" + "") == text + "\n";
  }

  lemma FormatEnd(text: string, status: string)
    ensures Format("\\n%s:%s\\n", [text, status]) == Some("\n" + (text + (":" + (status + "\n"))))
  {
    FormatLine(status);
    assert "\\n%s:%s\\n"[2..] == "%s:%s\\n" && "%s:%s\\n"[2..] == ":%s\\n" && ":%s\\n"[1..] == "%s\\n";
    assert [text, status][1..] == [status];
    assert Format(":%s\\n", [status]) == Some([':'] + (status + "\n"));
    assert Format("%s:%s\\n", [text, status]) == Some(text + ([':'] + (status + "\n")));
  }

  lemma PrintRuns(format: string, arguments: seq<Token>, values: seq<string>, text: string, st: State, host: Host)
    requires Values(arguments, st.vars) == Some(values) && Format(format, values) == Some(text)
    ensures RunLine([Word("printf"), Word(format)] + arguments, st, host)
            == Some(st.(printed := st.printed + text, status := 0))
  {
    var line := [Word("printf"), Word(format)] + arguments;
    assert line[1..] == [Word(format)] + arguments && ([Word(format)] + arguments)[1..] == arguments;
    assert ([format] + values)[1..] == values;
  }

  lemma BeginRuns(text: string, st: State, host: Host)
    ensures RunLine(BeginLine(text), st, host) == Some(st.(printed := st.printed + (text + "\n"), status := 0))
  {
    assert [Word(text)][1..] == [] && [text] + [] == [text];
    FormatLine(text);
    PrintRuns("%s\\n", [Word(text)], [text], text + "\n", st, host);
  }

  lemma ThirdRuns(st: State, host: Host)
    ensures RunLine(OPEN_THIRD, st, host) == Some(st.(third := true, status := 0))
    ensures RunLine(CLOSE_THIRD, st, host) == Some(st.(third := false, status := 0))
  {
    assert OPEN_THIRD[1..] == [Word("3"), Operator('>'), Operator('&'), Word("1")];
    assert CLOSE_THIRD[1..] == [Word("3"), Operator('>'), Operator('&'), Word("-")];
    assert "exec" != "printf" && "1" != "-";
  }

  lemma CollectRuns(v: Choice, body: string, group: seq<Token>, st: State, host: Host)
    requires IsChoice(v) && st.third && GroupOf(body) == Some(group)
    ensures var done := host(st.runs, group);
            RunLine(CollectLine(v, body), st, host)
            == Some(st.(printed := st.printed + done.stdout, runs := st.runs + 1, status := done.status,
                        vars := st.vars[v.error := Text.TrimEnd(done.stderr, IsNewline)]))
  {
    AssignmentSplits(v.error, "$(" + body + ")");
  }

  lemma StatusRuns(v: Choice, st: State, host: Host)
    requires IsChoice(v)
    ensures RunLine(StatusLine(v), st, host)
            == Some(st.(vars := st.vars[v.status := Decimal(st.status)], status := 0))
  {
    AssignmentSplits(v.status, "$?");
  }

  lemma VariableValue(name: string, vars: map<string, string>)
    ensures ValueOf(Expanding("$" + name, []), vars) == Get(vars, name)
  {
    assert ("$" + name)[1..] == name;
  }

  lemma CaseIs(arguments: seq<Token>, st: State, host: Host)
    ensures RunLine([Word("case")] + arguments, st, host) == Choose(arguments, st)
  {
    assert ([Word("case")] + arguments)[1..] == arguments;
    assert "case" != "printf" && "case"[0] != "exec"[0];
  }

  lemma ChoosesExactly(token: Token, pattern: string, chosen: string, value: string, name: string, given: string,
      st: State)
    requires ValueOf(token, st.vars) == Some(value) && Assignment(chosen) == Some((name, given))
    ensures Choose(CaseArguments(token, pattern, chosen), st)
            == Some(if Matches(pattern, value) then st.(vars := st.vars[name := given], status := 0)
                    else st.(status := 0))
  {
    assert CaseArguments(token, pattern, chosen)[5..] == [Operator(';'), Operator(';'), Word("esac")];
  }

  lemma CaseRuns(v: Choice, error: string, st: State, host: Host)
    requires IsChoice(v) && Get(st.vars, v.error) == Some(error)
    ensures RunLine(CaseLine(v), st, host)
            == Some(if Matches(v.pattern, error) then st.(vars := st.vars[v.status := "126"], status := 0)
                    else st.(status := 0))
  {
    AssignmentSplits(v.status, "126");
    VariableValue(v.error, st.vars);
    var token := Expanding("$" + v.error, []);
    ChoosesExactly(token, v.pattern, v.status + "=" + "126", error, v.status, "126", st);
    CaseIs(CaseArguments(token, v.pattern, v.status + "=" + "126"), st, host);
  }

  lemma OneValue(token: Token, rest: seq<Token>, value: string, values: seq<string>, vars: map<string, string>)
    requires ValueOf(token, vars) == Some(value) && Values(rest, vars) == Some(values)
    ensures Values([token] + rest, vars) == Some([value] + values)
  {
    assert ([token] + rest)[1..] == rest;
  }

  lemma TwoValues(text: string, token: Token, value: string, vars: map<string, string>)
    requires ValueOf(token, vars) == Some(value)
    ensures Values([Word(text), token], vars) == Some([text, value])
  {
    OneValue(token, [], value, [], vars);
    OneValue(Word(text), [token] + [], text, [value] + [], vars);
    assert [Word(text)] + ([token] + []) == [Word(text), token] && [text] + ([value] + []) == [text, value];
  }

  lemma FinishRuns(v: Choice, text: string, status: string, st: State, host: Host)
    requires Get(st.vars, v.status) == Some(status)
    ensures RunLine(FinishLine(v, text), st, host)
            == Some(st.(printed := st.printed + ("\n" + (text + (":" + (status + "\n")))), status := 0))
  {
    var token := Expanding("$" + v.status, []);
    VariableValue(v.status, st.vars);
    TwoValues(text, token, status, st.vars);
    FormatEnd(text, status);
    var line := "\n" + (text + (":" + (status + "\n")));
    PrintRuns("\\n%s:%s\\n", [Word(text), token], [text, status], line, st, host);
    assert FinishLine(v, text) == [Word("printf"), Word("\\n%s:%s\\n")] + [Word(text), token];
  }

  lemma OneLine(line: seq<Token>, rest: seq<seq<Token>>, st: State, next: State, host: Host)
    requires RunLine(line, st, host) == Some(next)
    ensures RunLines([line] + rest, st, host) == RunLines(rest, next, host)
  {
    assert ([line] + rest)[1..] == rest;
  }

  /** What the lines before the status test leave behind. */
  function Collected(v: Choice, begin: string, done: Done, st: State): State {
    st.(printed := st.printed + (begin + "\n") + done.stdout, runs := st.runs + 1, status := 0, third := false,
        vars := st.vars[v.error := Text.TrimEnd(done.stderr, IsNewline)][v.status := Decimal(done.status)])
  }

  lemma BeginningRuns(v: Choice, begin: string, body: string, group: seq<Token>, rest: seq<seq<Token>>, st: State,
      host: Host)
    requires IsChoice(v) && GroupOf(body) == Some(group)
    ensures RunLines([BeginLine(begin)] + ([OPEN_THIRD] + ([CollectLine(v, body)] + rest)), st, host)
            == RunLines(rest, Ran(v, begin, host(st.runs, group), st), host)
  {
    var begun := st.(printed := st.printed + (begin + "\n"), status := 0);
    var ready := begun.(third := true, status := 0);
    BeginRuns(begin, st, host);
    ThirdRuns(begun, host);
    CollectRuns(v, body, group, ready, host);
    OneLine(CollectLine(v, body), rest, ready, Ran(v, begin, host(st.runs, group), st), host);
    OneLine(OPEN_THIRD, [CollectLine(v, body)] + rest, begun, ready, host);
    OneLine(BeginLine(begin), [OPEN_THIRD] + ([CollectLine(v, body)] + rest), st, begun, host);
  }

  /** Behind the substitution. */
  function Ran(v: Choice, begin: string, done: Done, st: State): State {
    st.(printed := st.printed + (begin + "\n") + done.stdout, runs := st.runs + 1, status := done.status,
        third := true, vars := st.vars[v.error := Text.TrimEnd(done.stderr, IsNewline)])
  }

  lemma KeepingRuns(v: Choice, rest: seq<seq<Token>>, st: State, host: Host)
    requires IsChoice(v)
    ensures RunLines([StatusLine(v)] + ([CLOSE_THIRD] + rest), st, host)
            == RunLines(rest, st.(vars := st.vars[v.status := Decimal(st.status)], status := 0, third := false), host)
  {
    var kept := st.(vars := st.vars[v.status := Decimal(st.status)], status := 0);
    StatusRuns(v, st, host);
    ThirdRuns(kept, host);
    OneLine(CLOSE_THIRD, rest, kept, kept.(third := false, status := 0), host);
    OneLine(StatusLine(v), [CLOSE_THIRD] + rest, st, kept, host);
  }

  lemma CollectionRuns(v: Choice, begin: string, body: string, group: seq<Token>, rest: seq<seq<Token>>, st: State,
      host: Host)
    requires IsChoice(v) && GroupOf(body) == Some(group)
    ensures RunLines([BeginLine(begin)] + ([OPEN_THIRD] + ([CollectLine(v, body)] + ([StatusLine(v)]
                     + ([CLOSE_THIRD] + rest)))), st, host)
            == RunLines(rest, Collected(v, begin, host(st.runs, group), st), host)
  {
    BeginningRuns(v, begin, body, group, [StatusLine(v)] + ([CLOSE_THIRD] + rest), st, host);
    KeepingRuns(v, rest, Ran(v, begin, host(st.runs, group), st), host);
  }

  function CodeOf(v: Choice, done: Done): string {
    if Matches(v.pattern, Text.TrimEnd(done.stderr, IsNewline)) then "126" else Decimal(done.status)
  }

  lemma ReportRuns(v: Choice, end: string, done: Done, st: State, host: Host)
    requires IsChoice(v)
    requires Get(st.vars, v.error) == Some(Text.TrimEnd(done.stderr, IsNewline))
    requires Get(st.vars, v.status) == Some(Decimal(done.status))
    ensures var r := RunLines([CaseLine(v)] + ([FinishLine(v, end)] + []), st, host);
            && r.Some? && r.value.runs == st.runs && r.value.delays == st.delays
            && r.value.printed == st.printed + ("\n" + (end + (":" + (CodeOf(v, done) + "\n"))))
  {
    var error := Text.TrimEnd(done.stderr, IsNewline);
    var tested := if Matches(v.pattern, error) then st.(vars := st.vars[v.status := "126"], status := 0)
                  else st.(status := 0);
    CaseRuns(v, error, st, host);
    FinishRuns(v, end, CodeOf(v, done), tested, host);
    OneLine(CaseLine(v), [FinishLine(v, end)] + [], st, tested, host);
    OneLine(FinishLine(v, end), [], tested, RunLine(FinishLine(v, end), tested, host).value, host);
  }

  /** An action's lines print its begin line, its output, and its end line. */
  lemma ActionRuns(v: Choice, begin: string, body: string, end: string, group: seq<Token>, st: State, host: Host)
    requires IsChoice(v) && GroupOf(body) == Some(group)
    ensures var done := host(st.runs, group);
            var r := RunLines(ActionLines(v, begin, body, end), st, host);
            && r.Some? && r.value.runs == st.runs + 1 && r.value.delays == st.delays
            && r.value.printed
               == st.printed + (begin + "\n") + done.stdout + ("\n" + (end + (":" + (CodeOf(v, done) + "\n"))))
  {
    var done := host(st.runs, group);
    CollectionRuns(v, begin, body, group, [CaseLine(v)] + ([FinishLine(v, end)] + []), st, host);
    ReportRuns(v, end, done, Collected(v, begin, done, st), host);
  }

  // ---- from the written script to its lines ------------------------------------------------------------

  const CHOICE := Choice("network_atlas_error", "network_atlas_rc", PERMISSION_DENIED)

  lemma ChoiceIsChoice()
    ensures IsChoice(CHOICE)
  {
  }

  lemma FlatFirst(line: seq<Token>, rest: seq<seq<Token>>)
    ensures Flat([line] + rest) == line + ([NEWLINE] + Flat(rest))
  {
    assert ([line] + rest)[1..] == rest;
  }

  lemma {:induction false} FlatJoins(a: seq<seq<Token>>, b: seq<seq<Token>>)
    ensures Flat(a + b) == Flat(a) + Flat(b)
  {
    if a == [] {
      AddsNothing(b);
      AddsNothing(Flat(b));
    } else {
      FlatJoins(a[1..], b);
      assert a + b == [a[0]] + (a[1..] + b);
      FlatFirst(a[0], a[1..] + b);
      assert a[0] + ([NEWLINE] + (Flat(a[1..]) + Flat(b))) == (a[0] + ([NEWLINE] + Flat(a[1..]))) + Flat(b);
    }
  }

  lemma ExecTokens(word: string)
    requires word != ""
    ensures TokensOf([Plain("exec", ' '), Plain("3", '>'), Plain("", '&'), Plain(word, '\n')])
            == [Word("exec"), Word("3"), Operator('>'), Operator('&'), Word(word)] + [NEWLINE]
  {
    RenderFirst(Plain("exec", ' '), [Plain("3", '>'), Plain("", '&'), Plain(word, '\n')]);
    ThreePieces(Plain("3", '>'), Plain("", '&'), Plain(word, '\n'));
    assert [Plain("exec", ' ')] + [Plain("3", '>'), Plain("", '&'), Plain(word, '\n')]
           == [Plain("exec", ' '), Plain("3", '>'), Plain("", '&'), Plain(word, '\n')];
  }

  lemma PrintTokens(text: string)
    ensures TokensOf([Plain("printf", ' '), Quoted("%s\\n", ' '), Quoted(text, '\n')]) == BeginLine(text) + [NEWLINE]
  {
    ThreePieces(Plain("printf", ' '), Quoted("%s\\n", ' '), Quoted(text, '\n'));
  }

  lemma TwoLines(first: seq<Token>, second: seq<Token>)
    ensures (first + [NEWLINE]) + (second + [NEWLINE]) == Flat([first] + ([second] + []))
    ensures first + [NEWLINE] == Flat([first] + [])
  {
    FlatFirst(first, [second] + []);
    FlatFirst(second, []);
    FlatFirst(first, []);
  }

  lemma BeginTextTokens(text: string)
    ensures TokensOf([Plain("printf", ' '), Quoted("%s\\n", ' '), Quoted(text, '\n')]
                     + [Plain("exec", ' '), Plain("3", '>'), Plain("", '&'), Plain("1", '\n')])
            == Flat([BeginLine(text)] + ([OPEN_THIRD] + []))
  {
    PrintTokens(text);
    ExecTokens("1");
    RenderJoins([Plain("printf", ' '), Quoted("%s\\n", ' '), Quoted(text, '\n')],
                [Plain("exec", ' '), Plain("3", '>'), Plain("", '&'), Plain("1", '\n')]);
    TwoLines(BeginLine(text), OPEN_THIRD);
  }

  lemma BeginTokens(name: string)
    ensures TokensOf(PrintBegin(name)) == Flat([BeginLine(HOST_RESOURCE_V1.begin + name)] + ([OPEN_THIRD] + []))
  {
    var text := HOST_RESOURCE_V1.begin + name;
    BeginTextTokens(text);
    assert PrintBegin(name) == [Plain("printf", ' '), Quoted("%s\\n", ' '), Quoted(text, '\n')]
                               + [Plain("exec", ' '), Plain("3", '>'), Plain("", '&'), Plain("1", '\n')];
  }

  lemma CollectTokens(body: string)
    ensures TokensOf([Substitution("network_atlas_error=", body, '\n')]) == Flat([CollectLine(CHOICE, body)] + [])
  {
    RenderFirst(Substitution("network_atlas_error=", body, '\n'), []);
    assert "network_atlas_error" + "=" == "network_atlas_error=";
    TwoLines(CollectLine(CHOICE, body), []);
  }

  lemma StatusText()
    ensures "network_atlas_rc=" + ("$" + "?") == "network_atlas_rc" + "=" + "$?"
  {
  }

  lemma StatusTokens()
    ensures TokensOf(KEEP_STATUS) == Flat([StatusLine(CHOICE)] + ([CLOSE_THIRD] + []))
  {
    var first := Param("network_atlas_rc=", "?", '\n');
    var second := [Plain("exec", ' '), Plain("3", '>'), Plain("", '&'), Plain("-", '\n')];
    StatusText();
    ExecTokens("-");
    RenderFirst(first, second);
    TwoLines(StatusLine(CHOICE), CLOSE_THIRD);
  }

  lemma OnDeniedTokens(name: string, pattern: string)
    requires pattern != ""
    ensures TokensOf([Plain("case", ' '), QuotedParam(name, ' '), Plain("in", ' '), Plain(pattern, ')')])
            == [Word("case"), Expanding("$" + name, []), Word("in"), Word(pattern), Operator(')')]
  {
    RenderFirst(Plain("case", ' '), [QuotedParam(name, ' '), Plain("in", ' '), Plain(pattern, ')')]);
    ThreePieces(QuotedParam(name, ' '), Plain("in", ' '), Plain(pattern, ')'));
    assert [Plain("case", ' ')] + [QuotedParam(name, ' '), Plain("in", ' '), Plain(pattern, ')')]
           == [Plain("case", ' '), QuotedParam(name, ' '), Plain("in", ' '), Plain(pattern, ')')];
  }

  lemma SetDeniedTokens(chosen: string)
    requires chosen != ""
    ensures TokensOf([Plain("", ' '), Plain(chosen, ' '), Plain("", ';'), Plain("", ';'), Plain("", ' '),
                      Plain("esac", '\n')])
            == [Word(chosen), Operator(';'), Operator(';'), Word("esac")] + [NEWLINE]
  {
    var first, second := [Plain("", ' '), Plain(chosen, ' '), Plain("", ';')],
        [Plain("", ';'), Plain("", ' '), Plain("esac", '\n')];
    ThreePieces(Plain("", ' '), Plain(chosen, ' '), Plain("", ';'));
    ThreePieces(Plain("", ';'), Plain("", ' '), Plain("esac", '\n'));
    RenderJoins(first, second);
    assert first + second == [Plain("", ' '), Plain(chosen, ' '), Plain("", ';'), Plain("", ';'), Plain("", ' '),
                              Plain("esac", '\n')];
  }

  lemma CaseLineIs(v: Choice, chosen: string)
    requires chosen == v.status + "=" + "126"
    ensures [Word("case"), Expanding("$" + v.error, []), Word("in"), Word(v.pattern), Operator(')')]
            + ([Word(chosen), Operator(';'), Operator(';'), Word("esac")] + [NEWLINE]) == CaseLine(v) + [NEWLINE]
  {
  }

  lemma CaseTokens()
    ensures TokensOf(WHEN_DENIED) == Flat([CaseLine(CHOICE)] + [])
  {
    OnDeniedTokens("network_atlas_error", PERMISSION_DENIED);
    SetDeniedTokens("network_atlas_rc=126");
    RenderJoins(ON_DENIED, SET_DENIED);
    assert "network_atlas_rc=126" == "network_atlas_rc" + "=" + "126";
    CaseLineIs(CHOICE, "network_atlas_rc=126");
    TwoLines(CaseLine(CHOICE), []);
  }

  lemma PrintTwoTokens(word: string, format: string, text: string, name: string)
    requires word != ""
    ensures TokensOf([Plain(word, ' '), Quoted(format, ' '), Quoted(text, ' '), QuotedParam(name, '\n')])
            == [Word(word)] + ([Word(format)] + ([Word(text)] + ([Expanding("$" + name, [])] + [NEWLINE])))
  {
    var rest := [Quoted(format, ' '), Quoted(text, ' '), QuotedParam(name, '\n')];
    RenderFirst(Plain(word, ' '), rest);
    ThreePieces(Quoted(format, ' '), Quoted(text, ' '), QuotedParam(name, '\n'));
    assert [Plain(word, ' ')] + rest
           == [Plain(word, ' '), Quoted(format, ' '), Quoted(text, ' '), QuotedParam(name, '\n')];
  }

  lemma FourThenOne(a: Token, b: Token, c: Token, d: Token, e: Token)
    ensures [a] + ([b] + ([c] + ([d] + [e]))) == ([a, b] + [c, d]) + [e]
  {
  }

  lemma FinishLineTokens(text: string, name: string)
    ensures TokensOf([Plain("printf", ' '), Quoted("\\n%s:%s\\n", ' '), Quoted(text, ' '), QuotedParam(name, '\n')])
            == ([Word("printf"), Word("\\n%s:%s\\n")] + [Word(text), Expanding("$" + name, [])]) + [NEWLINE]
  {
    PrintTwoTokens("printf", "\\n%s:%s\\n", text, name);
    FourThenOne(Word("printf"), Word("\\n%s:%s\\n"), Word(text), Expanding("$" + name, []), NEWLINE);
  }

  lemma FinishTokens(name: string)
    ensures TokensOf(PrintEnd(name)) == Flat([FinishLine(CHOICE, HOST_RESOURCE_V1.end + name)] + [])
  {
    FinishLineTokens(HOST_RESOURCE_V1.end + name, "network_atlas_rc");
    TwoLines(FinishLine(CHOICE, HOST_RESOURCE_V1.end + name), []);
  }

  function LinesOf(a: ActionId, s: Scripts): seq<seq<Token>> {
    ActionLines(CHOICE, HOST_RESOURCE_V1.begin + Name(a), Substituted(a, s), HOST_RESOURCE_V1.end + Name(a))
  }

  lemma SevenLines(a: seq<Token>, b: seq<Token>, c: seq<Token>, d: seq<Token>, e: seq<Token>, f: seq<Token>,
      g: seq<Token>)
    ensures [a] + ([b] + ([c] + ([d] + ([e] + ([f] + ([g] + []))))))
            == (([a] + ([b] + [])) + ([c] + [])) + ((([d] + ([e] + [])) + ([f] + [])) + ([g] + []))
  {
  }

  /** The script's text for an action, as its lines. */
  lemma ActionTokens(a: ActionId, s: Scripts)
    ensures TokensOf(ActionPieces(a, s)) == Flat(LinesOf(a, s))
  {
    var name, body := Name(a), Substituted(a, s);
    var begin, end := HOST_RESOURCE_V1.begin + name, HOST_RESOURCE_V1.end + name;
    BeginTokens(name);
    CollectTokens(body);
    StatusTokens();
    CaseTokens();
    FinishTokens(name);
    RenderJoins(PrintBegin(name), Collect(a, s));
    RenderJoins(KEEP_STATUS, WHEN_DENIED);
    RenderJoins(KEEP_STATUS + WHEN_DENIED, PrintEnd(name));
    RenderJoins(PrintBegin(name) + Collect(a, s), KEEP_STATUS + WHEN_DENIED + PrintEnd(name));
    var v := CHOICE;
    FlatJoins([BeginLine(begin)] + ([OPEN_THIRD] + []), [CollectLine(v, body)] + []);
    FlatJoins([StatusLine(v)] + ([CLOSE_THIRD] + []), [CaseLine(v)] + []);
    FlatJoins(([StatusLine(v)] + ([CLOSE_THIRD] + [])) + ([CaseLine(v)] + []), [FinishLine(v, end)] + []);
    FlatJoins(([BeginLine(begin)] + ([OPEN_THIRD] + [])) + ([CollectLine(v, body)] + []),
              (([StatusLine(v)] + ([CLOSE_THIRD] + [])) + ([CaseLine(v)] + [])) + ([FinishLine(v, end)] + []));
    SevenLines(BeginLine(begin), OPEN_THIRD, CollectLine(v, body), StatusLine(v), CLOSE_THIRD, CaseLine(v),
               FinishLine(v, end));
  }

  // ---- the whole script ------------------------------------------------------------------------------

  function StepLines(step: ProfileStep, s: Scripts): seq<seq<Token>> {
    match step
    case RunAction(a) => LinesOf(a, s)
    case LocalDelay => [[Word("sleep"), Word("1.000")]]
  }

  function ScriptLines(steps: seq<ProfileStep>, s: Scripts): seq<seq<Token>> {
    if steps == [] then [[Word("set"), Word("+e")]]
    else ScriptLines(steps[..|steps| - 1], s) + StepLines(steps[|steps| - 1], s)
  }

  lemma TwoWordTokens(a: string, b: string)
    requires a != "" && b != ""
    ensures TokensOf([Plain(a, ' '), Plain(b, '\n')]) == Flat([[Word(a), Word(b)]])
  {
    RenderFirst(Plain(a, ' '), [Plain(b, '\n')]);
    RenderFirst(Plain(b, '\n'), []);
    assert [Plain(a, ' ')] + [Plain(b, '\n')] == [Plain(a, ' '), Plain(b, '\n')];
    FlatFirst([Word(a), Word(b)], []);
    assert [[Word(a), Word(b)]] + [] == [[Word(a), Word(b)]];
  }

  lemma StepTokens(step: ProfileStep, s: Scripts)
    ensures TokensOf(StepPieces(step, s)) == Flat(StepLines(step, s))
  {
    match step
    case RunAction(a) => ActionTokens(a, s);
    case LocalDelay => TwoWordTokens("sleep", "1.000");
  }

  lemma {:induction false} ScriptTokens(steps: seq<ProfileStep>, s: Scripts)
    ensures TokensOf(ScriptPieces(steps, s)) == Flat(ScriptLines(steps, s))
  {
    if steps == [] {
      TwoWordTokens("set", "+e");
    } else {
      var front, last := steps[..|steps| - 1], steps[|steps| - 1];
      ScriptTokens(front, s);
      StepTokens(last, s);
      RenderJoins(ScriptPieces(front, s), StepPieces(last, s));
      FlatJoins(ScriptLines(front, s), StepLines(last, s));
    }
  }

  lemma {:induction false} RunLinesJoin(a: seq<seq<Token>>, b: seq<seq<Token>>, st: State, host: Host)
    ensures RunLines(a + b, st, host)
            == var next := RunLines(a, st, host); if next.None? then None else RunLines(b, next.value, host)
    decreases |a|
  {
    if a == [] {
      AddsNothing(b);
    } else {
      assert a + b == [a[0]] + (a[1..] + b) && (a + b)[1..] == a[1..] + b;
      var next := RunLine(a[0], st, host);
      if next.Some? {
        RunLinesJoin(a[1..], b, next.value, host);
      }
    }
  }

  lemma ActionLinesAreLines(v: Choice, begin: string, body: string, end: string)
    ensures AreLines(ActionLines(v, begin, body, end))
  {
    assert NEWLINE !in CaseArguments(Expanding("$" + v.error, []), v.pattern, v.status + "=" + "126");
    assert NEWLINE !in CaseLine(v) && NEWLINE !in FinishLine(v, end) && NEWLINE !in OPEN_THIRD;
    assert NEWLINE !in CLOSE_THIRD && NEWLINE !in BeginLine(begin);
  }

  lemma {:induction false} ScriptLinesAreLines(steps: seq<ProfileStep>, s: Scripts)
    ensures AreLines(ScriptLines(steps, s))
  {
    if steps != [] {
      var front, last := steps[..|steps| - 1], steps[|steps| - 1];
      ScriptLinesAreLines(front, s);
      match last
      case RunAction(a) =>
        ActionLinesAreLines(CHOICE, HOST_RESOURCE_V1.begin + Name(a), Substituted(a, s),
                            HOST_RESOURCE_V1.end + Name(a));
      case LocalDelay =>
    }
  }

  /** What a substitution's group is told. */
  function GroupWords(a: ActionId, s: Scripts): seq<Token> {
    if HasLimit(a) then LimitedWords(TimeLimit(a), CommandText(CommandOf(a, s))) else CommandTokens(CommandOf(a, s))
  }

  lemma GroupIsFound(body: string, words: seq<Token>)
    requires Tokens(body) == Some([Operator('(')] + words + EXCHANGE)
    ensures GroupOf(body) == Some(words)
  {
    var tokens := Tokens(body).value;
    assert |tokens| == |words| + 10 && tokens[|tokens| - 9..] == EXCHANGE && tokens[1..|tokens| - 9] == words;
  }

  lemma StreamsAreExchanged()
    ensures STREAMS == EXCHANGE
  {
  }

  lemma GroupReads(a: ActionId, s: Scripts)
    requires AreScripts(s)
    ensures GroupOf(Substituted(a, s)) == Some(GroupWords(a, s))
  {
    SubstitutedReads(a, s);
    StreamsAreExchanged();
    GroupIsFound(Substituted(a, s), GroupWords(a, s));
  }

  /** What the host made of the i-th action. */
  function RanBy(a: ActionId, i: nat, s: Scripts, host: Host): BatchTranscript.Ran {
    var done := host(i, GroupWords(a, s));
    BatchTranscript.Ran(a, done.stdout, done.stderr, done.status)
  }

  function BlocksOf(actions: seq<ActionId>, s: Scripts, host: Host): seq<BatchTranscript.Ran> {
    seq(|actions|, i requires 0 <= i < |actions| => RanBy(actions[i], i, s, host))
  }

  lemma CodeIsReported(done: Done, b: BatchTranscript.Ran)
    requires b.stderr == done.stderr && b.status == done.status
    ensures CodeOf(CHOICE, done) == Decimal(BatchTranscript.Reported(b))
  {
    RefusalMatches(Text.TrimEnd(done.stderr, IsNewline));
    TrimKeepsRefusal(done.stderr);
    assert Digits(1) == "1" && Digits(12) == "12" && Digits(126) == "126";
  }

  lemma BlockIsPrinted(begin: string, name: string, output: string, end: string, code: string, printed: string)
    ensures printed + (begin + name + "\n") + output + ("\n" + (end + name + (":" + (code + "\n"))))
            == printed + (begin + (name + "\n" + (output + "\n" + end + (name + ":" + code + "\n"))))
  {
  }

  lemma ActionPrints(a: ActionId, s: Scripts, st: State, host: Host)
    requires AreScripts(s)
    ensures var r := RunLines(LinesOf(a, s), st, host);
            && r.Some? && r.value.runs == st.runs + 1 && r.value.delays == st.delays
            && r.value.printed == st.printed + BatchTranscript.Printed(RanBy(a, st.runs, s, host))
  {
    var done, b := host(st.runs, GroupWords(a, s)), RanBy(a, st.runs, s, host);
    ChoiceIsChoice();
    GroupReads(a, s);
    ActionRuns(CHOICE, HOST_RESOURCE_V1.begin + Name(a), Substituted(a, s), HOST_RESOURCE_V1.end + Name(a),
               GroupWords(a, s), st, host);
    CodeIsReported(done, b);
    BlockIsPrinted(HOST_RESOURCE_V1.begin, Name(a), done.stdout, HOST_RESOURCE_V1.end, CodeOf(CHOICE, done),
                   st.printed);
  }

  lemma {:induction false} TranscriptJoins(blocks: seq<BatchTranscript.Ran>, b: BatchTranscript.Ran)
    ensures BatchTranscript.Transcript(blocks + [b]) == BatchTranscript.Transcript(blocks) + BatchTranscript.Printed(b)
  {
    if blocks == [] {
      assert [b][1..] == [] && [] + [b] == [b];
      AddsNothing(BatchTranscript.Printed(b));
    } else {
      assert (blocks + [b])[1..] == blocks[1..] + [b];
      TranscriptJoins(blocks[1..], b);
    }
  }

  lemma SetRuns(argument: string, st: State, host: Host)
    ensures RunLines([[Word("set"), Word(argument)]], st, host) == Some(st.(status := 0))
  {
    assert [[Word("set"), Word(argument)]][1..] == [];
    assert "set" != "printf" && "set" != "exec" && "set" != "case";
  }

  lemma SleepRuns(time: string, st: State, host: Host)
    ensures RunLines([[Word("sleep"), Word(time)]], st, host)
            == Some(st.(status := 0, delays := st.delays + [(st.runs, time)]))
  {
    assert [[Word("sleep"), Word(time)]][1..] == [];
    assert "sleep" != "printf" && "sleep" != "exec" && "sleep" != "case" && "sleep" != "set";
  }

  /** The transcript of these actions stands printed, and these delays lie between them. */
  ghost predicate HasPrinted(st: State, actions: seq<ActionId>, delays: seq<(nat, string)>, s: Scripts, host: Host) {
    && st.runs == |actions| && st.delays == delays
    && st.printed == BatchTranscript.Transcript(BlocksOf(actions, s, host))
  }

  lemma ActionAdds(a: ActionId, actions: seq<ActionId>, delays: seq<(nat, string)>, s: Scripts, st: State, host: Host)
    requires AreScripts(s) && HasPrinted(st, actions, delays, s, host)
    ensures var r := RunLines(LinesOf(a, s), st, host);
            r.Some? && HasPrinted(r.value, actions + [a], delays, s, host)
  {
    ActionPrints(a, s, st, host);
    BlocksJoin(actions, a, s, host);
    TranscriptJoins(BlocksOf(actions, s, host), RanBy(a, |actions|, s, host));
  }

  lemma BlocksJoin(actions: seq<ActionId>, a: ActionId, s: Scripts, host: Host)
    ensures BlocksOf(actions + [a], s, host) == BlocksOf(actions, s, host) + [RanBy(a, |actions|, s, host)]
  {
  }

  /** The delays of some steps, each with the number of actions before it. */
  function DelaysIn(steps: seq<ProfileStep>): seq<(nat, string)> {
    if steps == [] then []
    else
      var front, last := steps[..|steps| - 1], steps[|steps| - 1];
      DelaysIn(front) + (if last.LocalDelay? then [(|ActionsIn(front)|, "1.000")] else [])
  }

  lemma StepAdds(step: ProfileStep, actions: seq<ActionId>, delays: seq<(nat, string)>, s: Scripts, st: State,
      host: Host)
    requires AreScripts(s) && HasPrinted(st, actions, delays, s, host)
    ensures var r := RunLines(StepLines(step, s), st, host);
            r.Some? && HasPrinted(r.value, actions + (if step.RunAction? then [step.action] else []),
                                  delays + (if step.LocalDelay? then [(|actions|, "1.000")] else []), s, host)
  {
    AddsNothing(actions);
    AddsNothing(delays);
    match step
    case RunAction(a) => ActionAdds(a, actions, delays, s, st, host);
    case LocalDelay => SleepRuns("1.000", st, host);
  }

  lemma {:induction false} ScriptRuns(steps: seq<ProfileStep>, s: Scripts, host: Host)
    requires AreScripts(s)
    ensures var r := RunLines(ScriptLines(steps, s), BEGINNING, host);
            r.Some? && HasPrinted(r.value, ActionsIn(steps), DelaysIn(steps), s, host)
  {
    if steps == [] {
      SetRuns("+e", BEGINNING, host);
    } else {
      var front, last := steps[..|steps| - 1], steps[|steps| - 1];
      ScriptRuns(front, s, host);
      RunLinesJoin(ScriptLines(front, s), StepLines(last, s), BEGINNING, host);
      StepAdds(last, ActionsIn(front), DelaysIn(front), s, RunLines(ScriptLines(front, s), BEGINNING, host).value,
               host);
    }
  }

  lemma {:induction false} RunsHaveNoDelay(steps: seq<ProfileStep>, actions: seq<ActionId>)
    ensures DelaysIn(steps + Runs(actions)) == DelaysIn(steps)
  {
    if actions == [] {
      AddsNothing(steps);
    } else {
      var front := actions[..|actions| - 1];
      RunsHaveNoDelay(steps, front);
      var all := steps + Runs(actions);
      assert all[..|all| - 1] == steps + Runs(front) && all[|all| - 1].RunAction?;
    }
  }

  lemma DelayIsBetween()
    ensures DelaysIn(PROFILE) == [(5, "1.000")]
  {
    var first := Runs(ACTIONS[..5]);
    RunsHaveNoDelay([], ACTIONS[..5]);
    AddsNothing(first);
    RunsAreTheirActions(ACTIONS[..5]);
    assert (first + [LocalDelay])[..5] == first;
    RunsHaveNoDelay(first + [LocalDelay], ACTIONS[5..]);
  }

  /**
   Whatever the sixteen commands print, say and return, the script prints their transcript: each
   command's own output between its markers, with its own status, or 126 when it said that
   permission was denied. It sleeps one second, once, between the first five and the others.
   */
  lemma ScriptPrintsTranscript(s: Scripts, host: Host)
    requires AreScripts(s)
    ensures var end := RunScript(Script(s), host);
            && end.Some? && end.value.printed == BatchTranscript.Transcript(BlocksOf(ACTIONS, s, host))
            && end.value.runs == 16 && end.value.delays == [(5, "1.000")]
  {
    var pieces, lines := ScriptPieces(PROFILE, s), ScriptLines(PROFILE, s);
    ScriptArePieces(PROFILE, s);
    TextReads(pieces);
    ScriptTokens(PROFILE, s);
    ScriptLinesAreLines(PROFILE, s);
    LinesRun(lines, [], BEGINNING, host);
    AddsNothing(Flat(lines));
    ScriptRuns(PROFILE, s, host);
    ProfileRunsEveryAction();
    DelayIsBetween();
  }

  lemma BlocksAreDistinct(s: Scripts, host: Host)
    ensures BatchTranscript.DistinctActions(BlocksOf(ACTIONS, s, host))
  {
    forall i: nat, j: nat | i < j < |ACTIONS| ensures ACTIONS[i] != ACTIONS[j] {
    }
  }

  /**
   From the command's text to the slots: the parser reads what the script prints, and each slot holds
   its command's trimmed output, or the quality that its status and its complaints call for.
   */
  lemma ScriptIsParsedBack(s: Scripts, host: Host, i: nat)
    requires AreScripts(s) && i < 16
    requires forall j :: 0 <= j < 16 ==> BatchTranscript.WellBehaved(RanBy(ACTIONS[j], j, s, host))
    ensures var done := host(i, GroupWords(ACTIONS[i], s));
            var end := RunScript(Script(s), host);
            && end.Some? && ParseRest(end.value.printed, {}, EMPTY_CAPTURE).Ok?
            && BatchOutcome.Decides(Slot(ParseRest(end.value.printed, {}, EMPTY_CAPTURE).value, ACTIONS[i]),
                                    if BatchTranscript.SaysPermissionDenied(done.stderr) then 126 else done.status,
                                    Text.Trim(done.stdout, Text.IsLineEnd), MaxStdoutBytes(ACTIONS[i]))
  {
    var blocks := BlocksOf(ACTIONS, s, host);
    ScriptPrintsTranscript(s, host);
    BlocksAreDistinct(s, host);
    BatchOutcome.PrintedCodesDecide(blocks, i);
  }

  // ---- the commands, word for word ------------------------------------------------------------------------

  lemma DfText(flag: string)
    ensures CommandText(Plainly(["df", "-P", flag])) == "LC_ALL=C df -P " + flag
  {
    var pieces := CommandPieces(Plainly(["df", "-P", flag]));
    assert pieces[..3] == [LOCALE, Plain("df", ' '), Plain("-P", ' ')] && pieces[3] == Plain(flag, ' ');
    ThreePieces(LOCALE, Plain("df", ' '), Plain("-P", ' '));
    assert ("LC_ALL=C" + [' ']) + (("df" + [' ']) + ("-P" + [' '])) == "LC_ALL=C df -P ";
  }

  function Reading(path: string): seq<Token> {
    [Word("LC_ALL=C"), Word("cat"), Word(path)]
  }

  function Inner(script: string): seq<Token> {
    [Word("LC_ALL=C"), Word("sh"), Word("-c"), Word(script)]
  }

  /** if command -v timeout >/dev/null 2>&1; then timeout N sh -c COMMAND; else exit 127; fi */
  function Within(seconds: string, command: string): seq<Token> {
    [Word("if"), Word("command"), Word("-v"), Word("timeout"), Operator('>'), Word("/dev/null"), Word("2"),
     Operator('>'), Operator('&'), Word("1"), Operator(';')]
    + [Word("then"), Word("timeout"), Word(seconds), Word("sh"), Word("-c"), Word(command), Operator(';'),
       Word("else"), Word("exit"), Word("127"), Operator(';'), Word("fi")]
  }

  lemma ReadingReads(path: string)
    ensures CommandTokens(Plainly(["cat", path])) == Reading(path)
  {
  }

  lemma LimitedIsWithin(seconds: string, command: string)
    ensures LimitedWords(seconds, command) == Within(seconds, command)
  {
  }

  /** The groups that run an inner shell. */
  lemma InnerCommands(a: ActionId, s: Scripts)
    ensures a in [FrameABootUptime, FrameBBootUptime] ==> GroupWords(a, s) == Inner(s.bootUptime)
    ensures a in [FrameANetworkIdentity, FrameBNetworkIdentity] ==> GroupWords(a, s) == Inner(s.networkIdentity)
    ensures a == CpuOnline ==> GroupWords(a, s) == Inner(s.cpuOnline)
  {
  }

  lemma ReadsFile(a: ActionId, s: Scripts, path: string)
    requires !HasLimit(a) && CommandOf(a, s) == Plainly(["cat", path])
    ensures GroupWords(a, s) == Reading(path)
  {
  }

  /** The groups that print a file. */
  lemma FileCommands(a: ActionId, s: Scripts)
    ensures a in [FrameACpu, FrameBCpu] ==> GroupWords(a, s) == Reading("/proc/stat")
    ensures a in [FrameADiskIo, FrameBDiskIo] ==> GroupWords(a, s) == Reading("/proc/diskstats")
    ensures a in [FrameANetwork, FrameBNetwork] ==> GroupWords(a, s) == Reading("/proc/net/dev")
    ensures a == Memory ==> GroupWords(a, s) == Reading("/proc/meminfo")
    ensures a == Load ==> GroupWords(a, s) == Reading("/proc/loadavg")
  {
    match a
    case FrameACpu | FrameBCpu => ReadsFile(a, s, "/proc/stat");
    case FrameADiskIo | FrameBDiskIo => ReadsFile(a, s, "/proc/diskstats");
    case FrameANetwork | FrameBNetwork => ReadsFile(a, s, "/proc/net/dev");
    case Memory => ReadsFile(a, s, "/proc/meminfo");
    case Load => ReadsFile(a, s, "/proc/loadavg");
    case _ =>
  }

  lemma RunsWithin(a: ActionId, s: Scripts, seconds: string, command: string)
    requires HasLimit(a) && TimeLimit(a) == seconds && CommandText(CommandOf(a, s)) == command
    ensures GroupWords(a, s) == Within(seconds, command)
  {
    LimitedIsWithin(seconds, command);
  }

  /** The groups with a time limit. */
  lemma LimitedCommands(a: ActionId, s: Scripts)
    ensures a == DiskCapacity ==> GroupWords(a, s) == Within("3", "LC_ALL=C df -P " + "-k")
    ensures a == DiskInodes ==> GroupWords(a, s) == Within("3", "LC_ALL=C df -P " + "-i")
    ensures a == ProcessSummary ==> GroupWords(a, s) == Within("2", "LC_ALL=C sh -c " + Quote(s.processSummary))
  {
    match a
    case DiskCapacity => LimitedDf(a, s, "-k");
    case DiskInodes => LimitedDf(a, s, "-i");
    case ProcessSummary =>
      RemoteText(s.processSummary);
      RunsWithin(a, s, "2", "LC_ALL=C sh -c " + Quote(s.processSummary));
    case _ =>
  }

  lemma LimitedDf(a: ActionId, s: Scripts, flag: string)
    requires HasLimit(a) && a != ProcessSummary && CommandOf(a, s) == Plainly(["df", "-P", flag])
    ensures GroupWords(a, s) == Within("3", "LC_ALL=C df -P " + flag)
  {
    DfText(flag);
    RunsWithin(a, s, "3", "LC_ALL=C df -P " + flag);
  }
}
