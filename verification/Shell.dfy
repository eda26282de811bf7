/**
 Shell quoting (backend/src/monitoring.rs, backend/src/discovery.rs) against the token
 recognition of POSIX.1-2017, Shell Command Language, sections 2.2, 2.3 and 2.6. Words are
 given after quote removal. A word that holds a parameter or a command substitution is told
 apart from a literal one, and the text of each substitution is kept, to be scanned again as
 a command. Arithmetic, braces, backquotes and, inside a substitution, expansions and
 comments stop the scan.
 */
module Shell {
  import opened Wrappers

  /** `bodies` are the texts of an expanding word's command substitutions. */
  datatype Token = Word(text: string) | Expanding(text: string, bodies: seq<string>) | Operator(symbol: char)

  /** Where the scan stands in the text of a command substitution: how many parentheses are open, and which quotes. */
  datatype Hole = Hole(quoted: bool, depth: nat, text: string, quoting: Quoting)

  datatype Quoting = Open | InSingle | InDouble | AfterBackslash | AfterDoubleBackslash

  datatype Mode =
    | Bare | Escaped | Single | Double | DoubleEscaped | Comment
    | Dollar(quoted: bool) | Inside(hole: Hole) | Stuck

  /** The word under way. */
  datatype Part = Part(text: string, expands: bool, bodies: seq<string>)

  datatype Scan = Scan(mode: Mode, word: Option<Part>, tokens: seq<Token>)

  const START := Scan(Bare, None, [])

  predicate IsBlank(c: char) {
    c == ' ' || c == '\t'
  }

  predicate IsOperator(c: char) {
    c == '\n' || c == ';' || c == '&' || c == '|' || c == '<' || c == '>' || c == '(' || c == ')'
  }

  predicate IsNameChar(c: char) {
    'a' <= c <= 'z' || 'A' <= c <= 'Z' || '0' <= c <= '9' || c == '_'
  }

  /** What may follow a dollar sign without braces: a name or a special parameter. */
  predicate BeginsParameter(c: char) {
    IsNameChar(c) || c == '?' || c == '@' || c == '*' || c == '-' || c == '!'
  }

  function Pending(st: Scan): Part {
    if st.word.Some? then st.word.value else Part("", false, [])
  }

  function Append(st: Scan, text: string): Scan {
    st.(word := Some(Pending(st).(text := Pending(st).text + text)))
  }

  function Expand(st: Scan, text: string, bodies: seq<string>): Scan {
    st.(word := Some(Part(Pending(st).text + text, true, Pending(st).bodies + bodies)))
  }

  function TokenOf(part: Part): Token {
    if part.expands then Expanding(part.text, part.bodies) else Word(part.text)
  }

  /** Delimits the word under way, if any. */
  function Flush(st: Scan): Scan {
    if st.word.Some? then st.(word := None, tokens := st.tokens + [TokenOf(st.word.value)]) else st
  }

  function BareStep(st: Scan, c: char): Scan {
    if c == '\'' then Append(st, "").(mode := Single)
    else if c == '"' then Append(st, "").(mode := Double)
    else if c == '\\' then st.(mode := Escaped)
    else if c == '$' then st.(mode := Dollar(false))
    else if c == '`' then st.(mode := Stuck)
    else if c == '#' && st.word.None? then st.(mode := Comment)
    else if IsBlank(c) then Flush(st)
    else if IsOperator(c) then Flush(st).(tokens := Flush(st).tokens + [Operator(c)])
    else Append(st, [c])
  }

  function DoubleStep(st: Scan, c: char): Scan {
    if c == '"' then st.(mode := Bare)
    else if c == '\\' then st.(mode := DoubleEscaped)
    else if c == '$' then st.(mode := Dollar(true))
    else if c == '`' then st.(mode := Stuck)
    else Append(st, [c])
  }

  function Outer(quoted: bool): Mode {
    if quoted then Double else Bare
  }

  function DollarStep(st: Scan, quoted: bool, c: char): Scan {
    if c == '(' then st.(mode := Inside(Hole(quoted, 0, "", Open)))
    else if BeginsParameter(c) then Expand(st, ['$', c], []).(mode := Outer(quoted))
    else st.(mode := Stuck)
  }

  /** One more character of a substitution's text; None where this model does not follow it. */
  function HoleStep(h: Hole, c: char): Option<Hole> {
    var more := h.(text := h.text + [c]);
    if c == '\0' then None
    else match h.quoting
      case InSingle => Some(if c == '\'' then more.(quoting := Open) else more)
      case AfterBackslash => Some(more.(quoting := Open))
      case AfterDoubleBackslash => Some(more.(quoting := InDouble))
      case InDouble =>
        if c == '"' then Some(more.(quoting := Open))
        else if c == '\\' then Some(more.(quoting := AfterDoubleBackslash))
        else if c == '$' || c == '`' then None
        else Some(more)
      case Open =>
        if c == '\'' then Some(more.(quoting := InSingle))
        else if c == '"' then Some(more.(quoting := InDouble))
        else if c == '\\' then Some(more.(quoting := AfterBackslash))
        else if c == '$' || c == '`' || c == '#' || (c == '(' && h.text == "") then None
        else if c == '(' then Some(more.(depth := h.depth + 1))
        else if c == ')' then (if h.depth == 0 then None else Some(more.(depth := h.depth - 1)))
        else Some(more)
  }

  /** The closing parenthesis ends the substitution where it was not opened inside it. */
  predicate Closes(h: Hole, c: char) {
    c == ')' && h.quoting == Open && h.depth == 0
  }

  function InsideStep(st: Scan, h: Hole, c: char): Scan {
    if Closes(h, c) then Expand(st, "$(" + h.text + ")", [h.text]).(mode := Outer(h.quoted))
    else match HoleStep(h, c)
      case Some(next) => st.(mode := Inside(next))
      case None => st.(mode := Stuck)
  }

  function Step(st: Scan, c: char): Scan {
    if c == '\0' then st.(mode := Stuck)
    else match st.mode
      case Bare => BareStep(st, c)
      case Escaped => if c == '\n' then st.(mode := Bare) else Append(st, [c]).(mode := Bare)
      case Single => if c == '\'' then st.(mode := Bare) else Append(st, [c])
      case Double => DoubleStep(st, c)
      case DoubleEscaped =>
        if c == '\n' then st.(mode := Double)
        else if c == '$' || c == '`' || c == '"' || c == '\\' then Append(st, [c]).(mode := Double)
        else Append(st, ['\\', c]).(mode := Double)
      case Comment => if c == '\n' then st.(mode := Bare, tokens := st.tokens + [Operator('\n')]) else st
      case Dollar(quoted) => DollarStep(st, quoted, c)
      case Inside(h) => InsideStep(st, h, c)
      case Stuck => st
  }

  function Run(st: Scan, text: string): Scan
    decreases |text|
  {
    if text == [] then st else Run(Step(st, text[0]), text[1..])
  }

  /** The tokens of a complete text; None when a quote or substitution is left open or the scan stopped. */
  function Tokens(text: string): Option<seq<Token>> {
    Finish(Run(START, text))
  }

  function Finish(st: Scan): Option<seq<Token>> {
    if st.mode == Bare || st.mode == Comment then Some(Flush(st).tokens) else None
  }

  lemma {:induction false} RunConcat(st: Scan, a: string, b: string)
    ensures Run(st, a + b) == Run(Run(st, a), b)
    decreases |a|
  {
    if a == [] {
      assert a + b == b;
    } else {
      assert (a + b)[0] == a[0] && (a + b)[1..] == a[1..] + b;
      RunConcat(Step(st, a[0]), a[1..], b);
    }
  }

  // ---- quoting --------------------------------------------------------------------

  /** Leaves single quotes, adds a double-quoted single quote, and enters single quotes again. */
  const QUOTE_ESCAPE := "'\"'\"'"

  function Replace(s: string, c: char, with: string): string {
    if s == [] then [] else (if s[0] == c then with else [s[0]]) + Replace(s[1..], c, with)
  }

  function Quote(s: string): string {
    "'" + Replace(s, '\'', QUOTE_ESCAPE) + "'"
  }

  predicate NulFree(s: string) {
    '\0' !in s
  }

  lemma EscapeAddsOneQuote(st: Scan)
    requires st.mode == Single && st.word.Some?
    ensures Run(st, QUOTE_ESCAPE) == Append(st, "'")
  {
    var bare, double := st.(mode := Bare), st.(mode := Double);
    var more := Append(bare, "'");
    assert st.word.value.text + "" == st.word.value.text && more.word.value.text + "" == more.word.value.text;
    assert Step(st, '\'') == bare && Step(bare, '"') == double;
    assert Step(double, '\'') == more.(mode := Double) && Step(more.(mode := Double), '"') == more;
    assert Step(more, '\'') == Append(st, "'");
    assert QUOTE_ESCAPE == ['\'', '"', '\'', '"', '\''];
    Five(st, '\'', '"', '\'', '"', '\'');
  }

  lemma One(st: Scan, c: char)
    ensures Run(st, [c]) == Step(st, c)
  {
    assert [c][1..] == [];
  }

  lemma Then(st: Scan, text: string, c: char)
    ensures Run(st, text + [c]) == Step(Run(st, text), c)
  {
    RunConcat(st, text, [c]);
    One(Run(st, text), c);
  }

  lemma Five(st: Scan, a: char, b: char, c: char, d: char, e: char)
    ensures Run(st, [a, b, c, d, e]) == Step(Step(Step(Step(Step(st, a), b), c), d), e)
  {
    One(st, a);
    Then(st, [a], b);
    Then(st, [a] + [b], c);
    Then(st, [a] + [b] + [c], d);
    Then(st, [a] + [b] + [c] + [d], e);
    assert [a, b, c, d, e] == [a] + [b] + [c] + [d] + [e];
  }

  lemma {:induction false} InsideQuotes(st: Scan, s: string)
    requires st.mode == Single && st.word.Some? && NulFree(s)
    ensures Run(st, Replace(s, '\'', QUOTE_ESCAPE)) == Append(st, s)
    decreases |s|
  {
    if s == [] {
      assert st.word.value.text + s == st.word.value.text;
    } else {
      var first := if s[0] == '\'' then QUOTE_ESCAPE else [s[0]];
      assert Run(st, first) == Append(st, [s[0]]) by {
        if s[0] == '\'' {
          EscapeAddsOneQuote(st);
          assert [s[0]] == "'";
        } else {
          assert [s[0]][0] == s[0] && [s[0]][1..] == [];
        }
      }
      RunConcat(st, first, Replace(s[1..], '\'', QUOTE_ESCAPE));
      assert NulFree(s[1..]);
      InsideQuotes(Append(st, [s[0]]), s[1..]);
      assert (st.word.value.text + [s[0]]) + s[1..] == st.word.value.text + s;
    }
  }

  /** Wherever a word may stand, quoted text adds exactly its original to the word under way and nothing else. */
  lemma QuotedIsLiteral(st: Scan, s: string)
    requires st.mode == Bare && NulFree(s)
    ensures Run(st, Quote(s)) == Append(st, s)
  {
    InsideQuotes(Append(st, "").(mode := Single), s);
    Enclosed(st, Replace(s, '\'', QUOTE_ESCAPE), s);
  }

  lemma Enclosed(st: Scan, body: string, s: string)
    requires st.mode == Bare
    requires Run(Append(st, "").(mode := Single), body) == Append(Append(st, "").(mode := Single), s)
    ensures Run(st, "'" + body + "'") == Append(st, s)
  {
    var open := Append(st, "").(mode := Single);
    One(st, '\'');
    RunConcat(st, "'", body);
    Then(st, "'" + body, '\'');
    assert (Pending(st).text + "") + s == Pending(st).text + s;
  }

  /** Quoted text is exactly one word, equal to the original. */
  lemma QuotedIsOneWord(s: string)
    requires NulFree(s)
    ensures Tokens(Quote(s)) == Some([Word(s)])
  {
    QuotedIsLiteral(START, s);
    assert "" + s == s && START.tokens + [Word(s)] == [Word(s)];
  }

  /** Text without single quotes is quoted by quotes around it, as command texts write it. */
  lemma {:induction false} QuoteFreeIsWrapped(s: string)
    requires '\'' !in s
    ensures Quote(s) == "'" + s + "'"
  {
    if s != [] {
      QuoteFreeIsWrapped(s[1..]);
      assert Quote(s[1..]) == "'" + s[1..] + "'";
      assert Replace(s[1..], '\'', QUOTE_ESCAPE) == Quote(s[1..])[1..|Quote(s[1..])| - 1] == s[1..];
      assert [s[0]] + s[1..] == s;
    }
  }

  // ---- nesting ----------------------------------------------------------------------

  function Nested(levels: nat, s: string): string {
    if levels == 0 then s else Quote(Nested(levels - 1, s))
  }

  /** What remains of a text after it is read as a single word that many times over. */
  function Unwrapped(levels: nat, text: string): Option<string> {
    if levels == 0 then Some(text)
    else match Tokens(text)
      case Some(tokens) => if |tokens| == 1 && tokens[0].Word? then Unwrapped(levels - 1, tokens[0].text) else None
      case None => None
  }

  lemma {:induction false} ReplaceKeepsNulFree(s: string)
    requires NulFree(s)
    ensures NulFree(Replace(s, '\'', QUOTE_ESCAPE))
  {
    if s != [] {
      assert NulFree(s[1..]) && s[0] in s;
      ReplaceKeepsNulFree(s[1..]);
      assert NulFree(QUOTE_ESCAPE);
    }
  }

  lemma {:induction false} NestedIsNulFree(levels: nat, s: string)
    requires NulFree(s)
    ensures NulFree(Nested(levels, s))
  {
    if levels > 0 {
      NestedIsNulFree(levels - 1, s);
      ReplaceKeepsNulFree(Nested(levels - 1, s));
    }
  }

  /** Any number of shells in a row gives back the original. */
  lemma {:induction false} NestingUnwraps(levels: nat, s: string)
    requires NulFree(s)
    ensures Unwrapped(levels, Nested(levels, s)) == Some(s)
  {
    if levels > 0 {
      NestedIsNulFree(levels - 1, s);
      QuotedIsOneWord(Nested(levels - 1, s));
      NestingUnwraps(levels - 1, s);
    }
  }

  // ---- as an argument -----------------------------------------------------------------

  /** A text after which a new word may begin. */
  predicate EndsBetweenWords(text: string) {
    var st := Run(START, text);
    st.mode == Bare && st.word.None?
  }

  /** A text whose first character ends a word. */
  predicate EndsTheWord(text: string) {
    text == [] || IsBlank(text[0]) || IsOperator(text[0])
  }

  function After(before: seq<Token>, st: Scan): Scan {
    st.(tokens := before + st.tokens)
  }

  /** Tokens already recognised do not influence what follows. */
  lemma {:induction false} TokensAppend(st: Scan, before: seq<Token>, text: string)
    ensures Run(After(before, st), text) == After(before, Run(st, text))
    decreases |text|
  {
    if text != [] {
      StepAppends(st, before, text[0]);
      TokensAppend(Step(st, text[0]), before, text[1..]);
    }
  }

  lemma StepAppends(st: Scan, before: seq<Token>, c: char)
    ensures Step(After(before, st), c) == After(before, Step(st, c))
  {
    assert Flush(After(before, st)) == After(before, Flush(st));
    assert forall t: Token :: (before + st.tokens) + [t] == before + (st.tokens + [t]);
    assert forall t: Token :: (before + Flush(st).tokens) + [t] == before + (Flush(st).tokens + [t]);
  }

  /**
   Quoted text between any command text and any continuation is one word of its own; the tokens on
   either side do not depend on it.
   */
  lemma QuotedArgument(before: string, s: string, after: string)
    requires NulFree(s) && EndsBetweenWords(before) && EndsTheWord(after)
    ensures var rest := Tokens(after);
            Tokens(before + Quote(s) + after)
            == if rest.Some? then Some(Run(START, before).tokens + [Word(s)] + rest.value) else None
  {
    var st := Run(START, before);
    var done := st.tokens + [Word(s)];
    RunConcat(START, before + Quote(s), after);
    RunConcat(START, before, Quote(s));
    QuotedIsLiteral(st, s);
    assert "" + s == s;
    assert After(done, START) == Scan(Bare, None, done) == Flush(Append(st, s));
    TokensAppend(START, done, after);
    FinishAppends(Run(START, after), done);
    if after != [] {
      WordEnds(Append(st, s), after[0]);
    } else {
      assert Finish(Append(st, s)) == Some(done);
    }
  }

  /** At a separator a pending word is delimited first. */
  lemma WordEnds(st: Scan, c: char)
    requires st.mode == Bare && (IsBlank(c) || IsOperator(c))
    ensures Step(st, c) == Step(Flush(st), c)
  {
  }

  lemma FinishAppends(st: Scan, before: seq<Token>)
    ensures Finish(After(before, st)) == (if Finish(st).Some? then Some(before + Finish(st).value) else None)
  {
    assert Flush(After(before, st)) == After(before, Flush(st)) by {
      assert st.word.Some? ==> (before + st.tokens) + [TokenOf(st.word.value)]
                               == before + (st.tokens + [TokenOf(st.word.value)]);
    }
  }

  // ---- plain command text ---------------------------------------------------------------

  /** Characters that stand for themselves in an unquoted word. */
  predicate IsPlain(c: char) {
    && c != '\'' && c != '"' && c != '\\' && c != '$' && c != '`' && c != '#' && c != '\0'
    && !IsBlank(c) && !IsOperator(c)
  }

  predicate AllPlain(s: string) {
    forall i :: 0 <= i < |s| ==> IsPlain(s[i])
  }

  lemma {:induction false} PlainExtends(st: Scan, s: string)
    requires st.mode == Bare && AllPlain(s) && s != []
    ensures Run(st, s) == Append(st, s)
    decreases |s|
  {
    assert Step(st, s[0]) == Append(st, [s[0]]);
    if |s| == 1 {
      assert s == [s[0]] && s[1..] == [];
    } else {
      PlainExtends(Append(st, [s[0]]), s[1..]);
      assert (Pending(st).text + [s[0]]) + s[1..] == Pending(st).text + s;
    }
  }
}
