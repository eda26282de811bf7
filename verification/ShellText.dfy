/**
 Command texts written piece by piece, and what a shell reads of them: outside a
 command substitution, and inside one.
 */
module ShellText {
  import opened Wrappers
  import opened Shell

  /** A word, possibly empty, and the blank or operator that ends it. */
  datatype Piece =
    | Plain(word: string, end: char)
    | Quoted(text: string, end: char)
    | EscapedChar(c: char, end: char)
    | Param(before: string, name: string, end: char)
    | QuotedParam(name: string, end: char)
    | Substitution(before: string, body: string, end: char)

  /** The piece as it is written, without its end. */
  function Body(p: Piece): string {
    match p
    case Plain(word, _) => word
    case Quoted(text, _) => Quote(text)
    case EscapedChar(c, _) => ['\\', c]
    case Param(before, name, _) => before + ("$" + name)
    case QuotedParam(name, _) => "\"$" + (name + "\"")
    case Substitution(before, body, _) => before + ("$(" + body + ")")
  }

  /** What a shell makes of it. */
  function PartOf(p: Piece): Option<Part> {
    match p
    case Plain(word, _) => if word == "" then None else Some(Part(word, false, []))
    case Quoted(text, _) => Some(Part(text, false, []))
    case EscapedChar(c, _) => Some(Part([c], false, []))
    case Param(before, name, _) => Some(Part(before + ("$" + name), true, []))
    case QuotedParam(name, _) => Some(Part("$" + name, true, []))
    case Substitution(before, body, _) => Some(Part(before + ("$(" + body + ")"), true, [body]))
  }

  predicate IsEnd(c: char) {
    IsBlank(c) || IsOperator(c)
  }

  /** A parameter as it may stand behind a dollar sign: a name, or one special character. */
  predicate IsParameter(name: string) {
    name != "" && BeginsParameter(name[0]) && forall i :: 0 < i < |name| ==> IsNameChar(name[i])
  }

  const NO_TEXT := Hole(false, 0, "", Open)

  /** Scanning on in the text of a substitution; None where it ends or the scan stops. */
  function HoleRun(h: Hole, text: string): Option<Hole>
    decreases |text|
  {
    if text == [] then Some(h)
    else if Closes(h, text[0]) then None
    else
      var next := HoleStep(h, text[0]);
      if next.None? then None else HoleRun(next.value, text[1..])
  }

  /** A text is the whole body of a substitution when it neither closes it early nor leaves anything open. */
  predicate IsBody(text: string) {
    HoleRun(NO_TEXT, text) == Some(NO_TEXT.(text := text))
  }

  predicate IsPiece(p: Piece) {
    && IsEnd(p.end)
    && match p
       case Plain(word, _) => AllPlain(word)
       case Quoted(text, _) => NulFree(text)
       case EscapedChar(c, _) => c != '\n' && c != '\0'
       case Param(before, name, _) => AllPlain(before) && IsParameter(name)
       case QuotedParam(name, _) => IsParameter(name)
       case Substitution(before, body, _) => AllPlain(before) && IsBody(body)
  }

  function Render(pieces: seq<Piece>): string {
    if pieces == [] then "" else (Body(pieces[0]) + [pieces[0].end]) + Render(pieces[1..])
  }

  function PieceTokens(p: Piece): seq<Token> {
    (if PartOf(p).Some? then [TokenOf(PartOf(p).value)] else []) + (if IsOperator(p.end) then [Operator(p.end)] else [])
  }

  function TokensOf(pieces: seq<Piece>): seq<Token> {
    if pieces == [] then [] else PieceTokens(pieces[0]) + TokensOf(pieces[1..])
  }

  predicate ArePieces(pieces: seq<Piece>) {
    forall i :: 0 <= i < |pieces| ==> IsPiece(pieces[i])
  }

  /** Between words, with these tokens behind. */
  predicate ReadsAs(text: string, tokens: seq<Token>) {
    EndsBetweenWords(text) && Run(START, text).tokens == tokens
  }

  // ---- one piece -------------------------------------------------------------------

  /** Ready for a new word. */
  predicate Ready(st: Scan) {
    st.mode == Bare && st.word.None?
  }

  lemma PlainReads(st: Scan, w: string)
    requires Ready(st) && AllPlain(w)
    ensures Run(st, w) == if w == "" then st else st.(word := Some(Part(w, false, [])))
  {
    if w != "" {
      PlainExtends(st, w);
      assert "" + w == w;
    }
  }

  lemma QuotedReads(st: Scan, text: string)
    requires Ready(st) && NulFree(text)
    ensures Run(st, Quote(text)) == st.(word := Some(Part(text, false, [])))
  {
    QuotedIsLiteral(st, text);
    assert "" + text == text;
  }

  lemma EscapedReads(st: Scan, c: char)
    requires Ready(st) && c != '\n' && c != '\0'
    ensures Run(st, ['\\', c]) == st.(word := Some(Part([c], false, [])))
  {
    One(st, '\\');
    Then(st, ['\\'], c);
    assert ['\\'] + [c] == ['\\', c] && "" + [c] == [c];
  }

  lemma {:induction false} NameExtends(st: Scan, s: string)
    requires (st.mode == Bare || st.mode == Double) && st.word.Some? && forall i :: 0 <= i < |s| ==> IsNameChar(s[i])
    ensures Run(st, s) == st.(word := Some(st.word.value.(text := st.word.value.text + s)))
    decreases |s|
  {
    if s == [] {
      assert st.word.value.text + s == st.word.value.text;
    } else {
      assert IsNameChar(s[0]) && Step(st, s[0]) == Append(st, [s[0]]);
      NameExtends(Append(st, [s[0]]), s[1..]);
      assert (st.word.value.text + [s[0]]) + s[1..] == st.word.value.text + s;
    }
  }

  lemma DollarReads(st: Scan, c: char)
    requires (st.mode == Bare || st.mode == Double) && BeginsParameter(c)
    ensures Run(st, ['$', c]) == Expand(st, ['$', c], [])
  {
    One(st, '$');
    Then(st, ['$'], c);
    assert ['$'] + [c] == ['$', c];
  }

  /** A dollar sign and a parameter, outside or inside double quotes. */
  lemma ParameterReads(st: Scan, name: string)
    requires (st.mode == Bare || st.mode == Double) && IsParameter(name)
    ensures Run(st, "$" + name) == st.(word := Some(Part(Pending(st).text + ("$" + name), true, Pending(st).bodies)))
  {
    var head, tail := ['$', name[0]], name[1..];
    assert "$" + name == head + tail;
    DollarReads(st, name[0]);
    RunConcat(st, head, tail);
    NameExtends(Expand(st, head, []), tail);
    AddsNothing(Pending(st).bodies);
    Associates(Pending(st).text, head, tail);
  }

  lemma ParamReads(st: Scan, before: string, name: string)
    requires Ready(st) && AllPlain(before) && IsParameter(name)
    ensures Run(st, before + ("$" + name)) == st.(word := Some(Part(before + ("$" + name), true, [])))
  {
    RunConcat(st, before, "$" + name);
    PlainReads(st, before);
    ParameterReads(Run(st, before), name);
    assert Pending(Run(st, before)).text == before;
  }

  lemma QuotedParamReads(st: Scan, name: string)
    requires Ready(st) && IsParameter(name)
    ensures Run(st, "\"$" + (name + "\"")) == st.(word := Some(Part("$" + name, true, [])))
  {
    var open := st.(mode := Double, word := Some(Part("", false, [])));
    One(st, '"');
    assert "" + "" == "";
    assert Step(st, '"') == open;
    RunConcat(st, "\"", "$" + name);
    ParameterReads(open, name);
    assert "" + ("$" + name) == "$" + name;
    Then(st, "\"" + ("$" + name), '"');
    assert "\"" + ("$" + name) + ['"'] == "\"$" + (name + "\"");
  }

  lemma {:induction false} InsideRuns(st: Scan, h: Hole, text: string)
    requires st.mode == Inside(h) && HoleRun(h, text).Some?
    ensures Run(st, text) == st.(mode := Inside(HoleRun(h, text).value))
    decreases |text|
  {
    if text != [] {
      var next := HoleStep(h, text[0]).value;
      assert Step(st, text[0]) == st.(mode := Inside(next));
      InsideRuns(st.(mode := Inside(next)), next, text[1..]);
    }
  }

  lemma SubstitutionReads(st: Scan, before: string, body: string)
    requires Ready(st) && AllPlain(before) && IsBody(body)
    ensures Run(st, before + ("$(" + body + ")")) == st.(word := Some(Part(before + ("$(" + body + ")"), true, [body])))
  {
    var now := Run(st, before);
    RunConcat(st, before, "$(" + body + ")");
    PlainReads(st, before);
    One(now, '$');
    Then(now, "$", '(');
    assert "$" + ['('] == "$(";
    var open := now.(mode := Inside(NO_TEXT));
    assert Run(now, "$(") == open;
    RunConcat(now, "$(", body);
    InsideRuns(open, NO_TEXT, body);
    Then(now, "$(" + body, ')');
    assert "$(" + body + [')'] == "$(" + body + ")";
    assert Pending(now).text == before && [] + [body] == [body];
  }

  lemma BodyReads(st: Scan, p: Piece)
    requires Ready(st) && IsPiece(p)
    ensures Run(st, Body(p)) == st.(word := PartOf(p))
  {
    match p
    case Plain(word, _) => PlainReads(st, word);
    case Quoted(text, _) => QuotedReads(st, text);
    case EscapedChar(c, _) => EscapedReads(st, c);
    case Param(before, name, _) => ParamReads(st, before, name);
    case QuotedParam(name, _) => QuotedParamReads(st, name);
    case Substitution(before, body, _) => SubstitutionReads(st, before, body);
  }

  lemma EndReads(st: Scan, p: Piece, tokens: seq<Token>)
    requires IsEnd(p.end) && st == Scan(Bare, PartOf(p), tokens)
    ensures Step(st, p.end) == Scan(Bare, None, tokens + PieceTokens(p))
  {
    if PartOf(p).Some? {
      var token := TokenOf(PartOf(p).value);
      assert (tokens + [token]) + [Operator(p.end)] == tokens + ([token] + [Operator(p.end)]);
      assert [token] + [] == [token];
    } else {
      assert [] + [Operator(p.end)] == [Operator(p.end)]
             && tokens + PieceTokens(p) == if IsOperator(p.end) then tokens + [Operator(p.end)] else tokens;
    }
  }

  lemma PieceReads(text: string, tokens: seq<Token>, p: Piece)
    requires ReadsAs(text, tokens) && IsPiece(p)
    ensures ReadsAs(text + (Body(p) + [p.end]), tokens + PieceTokens(p))
  {
    var st := Run(START, text);
    RunConcat(START, text, Body(p));
    BodyReads(st, p);
    Then(START, text + Body(p), p.end);
    assert text + (Body(p) + [p.end]) == text + Body(p) + [p.end];
    EndReads(Run(st, Body(p)), p, tokens);
  }

  // ---- many pieces -------------------------------------------------------------------

  lemma Associates<T>(a: seq<T>, b: seq<T>, c: seq<T>)
    ensures a + b + c == a + (b + c)
  {
  }

  lemma AddsNothing<T>(a: seq<T>)
    ensures a + [] == a && [] + a == a
  {
  }

  /** Pieces read as their words and operators, whatever stood before. */
  lemma {:induction false} PiecesRead(text: string, tokens: seq<Token>, pieces: seq<Piece>)
    requires ReadsAs(text, tokens) && ArePieces(pieces)
    ensures ReadsAs(text + Render(pieces), tokens + TokensOf(pieces))
    decreases |pieces|
  {
    if pieces == [] {
      AddsNothing(text);
      AddsNothing(tokens);
    } else {
      var first := Body(pieces[0]) + [pieces[0].end];
      PieceReads(text, tokens, pieces[0]);
      PiecesRead(text + first, tokens + PieceTokens(pieces[0]), pieces[1..]);
      Associates(text, first, Render(pieces[1..]));
      Associates(tokens, PieceTokens(pieces[0]), TokensOf(pieces[1..]));
    }
  }

  /** A whole text of pieces has exactly their tokens. */
  lemma TextReads(pieces: seq<Piece>)
    requires ArePieces(pieces)
    ensures ReadsAs(Render(pieces), TokensOf(pieces)) && Tokens(Render(pieces)) == Some(TokensOf(pieces))
  {
    assert ReadsAs("", []);
    PiecesRead("", [], pieces);
    AddsNothing(Render(pieces));
    AddsNothing(TokensOf(pieces));
  }

  lemma {:induction false} RenderJoins(a: seq<Piece>, b: seq<Piece>)
    ensures Render(a + b) == Render(a) + Render(b) && TokensOf(a + b) == TokensOf(a) + TokensOf(b)
  {
    if a == [] {
      AddsNothing(b);
      AddsNothing(Render(b));
      AddsNothing(TokensOf(b));
    } else {
      assert (a + b)[0] == a[0] && (a + b)[1..] == a[1..] + b;
      RenderJoins(a[1..], b);
      Associates(Body(a[0]) + [a[0].end], Render(a[1..]), Render(b));
      Associates(PieceTokens(a[0]), TokensOf(a[1..]), TokensOf(b));
    }
  }

  lemma PiecesJoin(a: seq<Piece>, b: seq<Piece>)
    requires ArePieces(a) && ArePieces(b)
    ensures ArePieces(a + b)
  {
  }

  /** The pieces' text up to and without the last end. */
  function OpenText(pieces: seq<Piece>): string
    requires pieces != []
  {
    Render(pieces[..|pieces| - 1]) + Body(pieces[|pieces| - 1])
  }

  lemma LastReads(front: seq<Piece>, last: Piece)
    requires ArePieces(front) && IsPiece(last) && PartOf(last).Some?
    ensures Tokens(Render(front) + Body(last)) == Some(TokensOf(front) + [TokenOf(PartOf(last).value)])
  {
    TextReads(front);
    RunConcat(START, Render(front), Body(last));
    BodyReads(Run(START, Render(front)), last);
  }

  lemma LastIsNulFree(front: seq<Piece>, last: Piece)
    requires ArePieces(front) && IsPiece(last)
    ensures NulFree(Render(front) + Body(last))
  {
    PiecesAreNulFree(front);
    BodyIsNulFree(last);
    BothNulFree(Render(front), Body(last));
  }

  lemma LastToken(front: seq<Piece>, last: Piece)
    requires IsBlank(last.end) && PartOf(last).Some?
    ensures TokensOf(front + [last]) == TokensOf(front) + [TokenOf(PartOf(last).value)]
  {
    RenderJoins(front, [last]);
    RenderFirst(last, []);
    AddsNothing([TokenOf(PartOf(last).value)]);
  }

  /** The same tokens when the last word ends with the text. */
  lemma OpenTextReads(pieces: seq<Piece>)
    requires pieces != [] && ArePieces(pieces)
    requires var last := pieces[|pieces| - 1]; IsBlank(last.end) && PartOf(last).Some?
    ensures Tokens(OpenText(pieces)) == Some(TokensOf(pieces)) && NulFree(OpenText(pieces))
  {
    var front, last := pieces[..|pieces| - 1], pieces[|pieces| - 1];
    assert pieces == front + [last];
    LastReads(front, last);
    LastToken(front, last);
    LastIsNulFree(front, last);
  }

  // ---- lists of words -------------------------------------------------------------------

  function Words(words: seq<string>): seq<Token> {
    seq(|words|, i requires 0 <= i < |words| => Word(words[i]))
  }

  function PlainPieces(words: seq<string>): seq<Piece> {
    seq(|words|, i requires 0 <= i < |words| => Plain(words[i], ' '))
  }

  predicate ArePlainWords(words: seq<string>) {
    forall i :: 0 <= i < |words| ==> words[i] != "" && AllPlain(words[i])
  }

  lemma {:induction false} PlainPiecesRead(words: seq<string>)
    requires ArePlainWords(words)
    ensures AreInner(PlainPieces(words)) && TokensOf(PlainPieces(words)) == Words(words)
  {
    if words != [] {
      var rest := words[1..];
      PlainPiecesRead(rest);
      assert PlainPieces(words)[1..] == PlainPieces(rest);
      assert Words(words) == [Word(words[0])] + Words(rest);
    }
  }

  lemma RenderFirst(a: Piece, rest: seq<Piece>)
    ensures Render([a] + rest) == (Body(a) + [a.end]) + Render(rest)
            && TokensOf([a] + rest) == PieceTokens(a) + TokensOf(rest)
    ensures Render([a]) == Body(a) + [a.end] && TokensOf([a]) == PieceTokens(a)
  {
    assert ([a] + rest)[1..] == rest && [a][1..] == [];
    AddsNothing(Body(a) + [a.end]);
    AddsNothing(PieceTokens(a));
  }

  lemma {:induction false} ThreePieces(a: Piece, b: Piece, c: Piece)
    ensures Render([a, b, c]) == (Body(a) + [a.end]) + ((Body(b) + [b.end]) + (Body(c) + [c.end]))
    ensures TokensOf([a, b, c]) == PieceTokens(a) + (PieceTokens(b) + PieceTokens(c))
  {
    RenderFirst(a, [b, c]);
    RenderFirst(b, [c]);
    RenderFirst(c, []);
    assert [a] + [b, c] == [a, b, c] && [b] + [c] == [b, c];
  }

  lemma {:induction false} FourTokens(pieces: seq<Piece>, a: Token, b: Token, c: Token, d: Token)
    requires |pieces| == 4
    requires PieceTokens(pieces[0]) == [a] && PieceTokens(pieces[1]) == [b] && PieceTokens(pieces[2]) == [c]
             && PieceTokens(pieces[3]) == [d]
    ensures TokensOf(pieces) == [a, b, c, d]
  {
    assert pieces[1..][1..] == pieces[2..] && pieces[2..][1..] == pieces[3..] && pieces[3..][1..] == [];
    assert TokensOf(pieces[3..]) == [d] + [];
    assert TokensOf(pieces[2..]) == [c] + TokensOf(pieces[3..]);
    assert TokensOf(pieces[1..]) == [b] + TokensOf(pieces[2..]);
  }

  // ---- the substitutions found ----------------------------------------------------------

  /** The texts of all command substitutions among some tokens, in order. */
  function BodiesOf(tokens: seq<Token>): seq<string> {
    if tokens == [] then [] else (if tokens[0].Expanding? then tokens[0].bodies else []) + BodiesOf(tokens[1..])
  }

  lemma {:induction false} BodiesJoin(a: seq<Token>, b: seq<Token>)
    ensures BodiesOf(a + b) == BodiesOf(a) + BodiesOf(b)
  {
    if a == [] {
      AddsNothing(b);
      AddsNothing(BodiesOf(b));
    } else {
      assert (a + b)[0] == a[0] && (a + b)[1..] == a[1..] + b;
      BodiesJoin(a[1..], b);
      Associates(if a[0].Expanding? then a[0].bodies else [], BodiesOf(a[1..]), BodiesOf(b));
    }
  }

  /** The substitutions written in some pieces. */
  function BodiesIn(pieces: seq<Piece>): seq<string> {
    if pieces == [] then [] else (if pieces[0].Substitution? then [pieces[0].body] else []) + BodiesIn(pieces[1..])
  }

  lemma PieceBodies(p: Piece)
    ensures BodiesOf(PieceTokens(p)) == if p.Substitution? then [p.body] else []
  {
    var end := if IsOperator(p.end) then [Operator(p.end)] else [];
    assert BodiesOf(end) == [] by {
      assert end != [] ==> end[1..] == [];
    }
    if PartOf(p).Some? {
      var token := TokenOf(PartOf(p).value);
      assert [token][1..] == [];
      BodiesJoin([token], end);
    } else {
      AddsNothing(end);
    }
  }

  /** A shell finds exactly the substitutions that were written. */
  lemma {:induction false} BodiesAreFound(pieces: seq<Piece>)
    ensures BodiesOf(TokensOf(pieces)) == BodiesIn(pieces)
  {
    if pieces != [] {
      PieceBodies(pieces[0]);
      BodiesAreFound(pieces[1..]);
      BodiesJoin(PieceTokens(pieces[0]), TokensOf(pieces[1..]));
    }
  }

  lemma {:induction false} BodiesInJoin(a: seq<Piece>, b: seq<Piece>)
    ensures BodiesIn(a + b) == BodiesIn(a) + BodiesIn(b)
  {
    if a == [] {
      AddsNothing(b);
      AddsNothing(BodiesIn(b));
    } else {
      assert (a + b)[0] == a[0] && (a + b)[1..] == a[1..] + b;
      BodiesInJoin(a[1..], b);
      Associates(if a[0].Substitution? then [a[0].body] else [], BodiesIn(a[1..]), BodiesIn(b));
    }
  }

  // ---- inside a substitution ---------------------------------------------------------------

  function More(h: Hole, text: string): Hole {
    h.(text := h.text + text)
  }

  lemma {:induction false} HoleConcat(h: Hole, a: string, b: string)
    requires HoleRun(h, a).Some?
    ensures HoleRun(h, a + b) == HoleRun(HoleRun(h, a).value, b)
    decreases |a|
  {
    if a == [] {
      assert a + b == b;
    } else {
      assert (a + b)[0] == a[0] && (a + b)[1..] == a[1..] + b;
      HoleConcat(HoleStep(h, a[0]).value, a[1..], b);
    }
  }

  lemma HoleOne(h: Hole, c: char)
    requires !Closes(h, c)
    ensures HoleRun(h, [c]) == HoleStep(h, c)
  {
    assert [c][1..] == [];
  }

  lemma HoleThen(h: Hole, text: string, c: char)
    requires HoleRun(h, text).Some? && !Closes(HoleRun(h, text).value, c)
    ensures HoleRun(h, text + [c]) == HoleStep(HoleRun(h, text).value, c)
  {
    HoleConcat(h, text, [c]);
    HoleOne(HoleRun(h, text).value, c);
  }

  predicate IsNeutral(c: char) {
    IsPlain(c) || (IsEnd(c) && c != '(' && c != ')')
  }

  lemma {:induction false} NeutralPasses(h: Hole, s: string)
    requires h.quoting == Open && forall i :: 0 <= i < |s| ==> IsNeutral(s[i])
    ensures HoleRun(h, s) == Some(More(h, s))
    decreases |s|
  {
    if s == [] {
      AddsNothing(h.text);
    } else {
      assert IsNeutral(s[0]) && HoleStep(h, s[0]) == Some(More(h, [s[0]]));
      NeutralPasses(More(h, [s[0]]), s[1..]);
      assert [s[0]] + s[1..] == s;
      Associates(h.text, [s[0]], s[1..]);
    }
  }

  /** A single quote in double quotes. */
  const QUOTED_QUOTE := "\"'\""

  lemma QuotedQuotePasses(h: Hole)
    requires h.quoting == Open
    ensures HoleRun(h, QUOTED_QUOTE) == Some(More(h, QUOTED_QUOTE))
  {
    var inner := More(h, "\"").(quoting := InDouble);
    HoleOne(h, '"');
    HoleThen(h, ['"'], '\'');
    HoleThen(h, ['"'] + ['\''], '"');
    assert QUOTED_QUOTE == ['"'] + ['\''] + ['"'];
    assert h.text + "\"" + "'" + "\"" == h.text + QUOTED_QUOTE;
  }

  lemma EscapePasses(h: Hole)
    requires h.quoting == InSingle
    ensures HoleRun(h, QUOTE_ESCAPE) == Some(More(h, QUOTE_ESCAPE))
  {
    var outside := More(h, "'").(quoting := Open);
    HoleOne(h, '\'');
    HoleConcat(h, "'", QUOTED_QUOTE);
    QuotedQuotePasses(outside);
    HoleThen(h, "'" + QUOTED_QUOTE, '\'');
    assert QUOTE_ESCAPE == "'" + QUOTED_QUOTE + "'";
    Associates(h.text, "'", QUOTED_QUOTE);
    Associates(h.text, "'" + QUOTED_QUOTE, "'");
  }

  lemma {:induction false} QuotedBodyPasses(h: Hole, s: string)
    requires h.quoting == InSingle && NulFree(s)
    ensures HoleRun(h, Replace(s, '\'', QUOTE_ESCAPE)) == Some(More(h, Replace(s, '\'', QUOTE_ESCAPE)))
    decreases |s|
  {
    if s == [] {
      AddsNothing(h.text);
    } else {
      var first := if s[0] == '\'' then QUOTE_ESCAPE else [s[0]];
      assert HoleRun(h, first) == Some(More(h, first)) by {
        if s[0] == '\'' {
          EscapePasses(h);
        } else {
          HoleOne(h, s[0]);
        }
      }
      HoleConcat(h, first, Replace(s[1..], '\'', QUOTE_ESCAPE));
      assert NulFree(s[1..]);
      QuotedBodyPasses(More(h, first), s[1..]);
      Associates(h.text, first, Replace(s[1..], '\'', QUOTE_ESCAPE));
    }
  }

  lemma WrappedPasses(h: Hole, body: string)
    requires h.quoting == Open
    requires var inner := More(h, "'").(quoting := InSingle); HoleRun(inner, body) == Some(More(inner, body))
    ensures HoleRun(h, "'" + body + "'") == Some(More(h, "'" + body + "'"))
  {
    HoleOne(h, '\'');
    HoleConcat(h, "'", body);
    HoleThen(h, "'" + body, '\'');
    Associates(h.text, "'", body);
    Associates(h.text, "'" + body, "'");
  }

  /** Quoted text, whatever it holds, neither opens nor closes anything. */
  lemma QuotedPasses(h: Hole, s: string)
    requires h.quoting == Open && NulFree(s)
    ensures HoleRun(h, Quote(s)) == Some(More(h, Quote(s)))
  {
    QuotedBodyPasses(More(h, "'").(quoting := InSingle), s);
    WrappedPasses(h, Replace(s, '\'', QUOTE_ESCAPE));
  }

  /** A piece that a substitution's text may hold anywhere. */
  predicate IsInner(p: Piece) {
    IsPiece(p) && (p.Plain? || p.Quoted?) && p.end != '(' && p.end != ')'
  }

  predicate AreInner(pieces: seq<Piece>) {
    forall i :: 0 <= i < |pieces| ==> IsInner(pieces[i])
  }

  lemma InnerArePieces(pieces: seq<Piece>)
    requires AreInner(pieces)
    ensures ArePieces(pieces)
  {
  }

  lemma InnerJoin(a: seq<Piece>, b: seq<Piece>)
    requires AreInner(a) && AreInner(b)
    ensures AreInner(a + b)
  {
  }

  lemma EndPasses(h: Hole, c: char)
    requires h.quoting == Open && IsEnd(c) && c != '(' && c != ')'
    ensures HoleRun(h, [c]) == Some(More(h, [c]))
  {
    HoleOne(h, c);
  }

  lemma InnerBodyPasses(h: Hole, p: Piece)
    requires h.quoting == Open && IsInner(p)
    ensures HoleRun(h, Body(p)) == Some(More(h, Body(p)))
  {
    if p.Plain? {
      NeutralPasses(h, p.word);
    } else {
      QuotedPasses(h, p.text);
    }
  }

  lemma InnerPasses(h: Hole, p: Piece)
    requires h.quoting == Open && IsInner(p)
    ensures HoleRun(h, Body(p) + [p.end]) == Some(More(h, Body(p) + [p.end]))
  {
    InnerBodyPasses(h, p);
    HoleConcat(h, Body(p), [p.end]);
    EndPasses(More(h, Body(p)), p.end);
    Associates(h.text, Body(p), [p.end]);
  }

  lemma {:induction false} AllInnerPass(h: Hole, pieces: seq<Piece>)
    requires h.quoting == Open && AreInner(pieces)
    ensures HoleRun(h, Render(pieces)) == Some(More(h, Render(pieces)))
    decreases |pieces|
  {
    if pieces == [] {
      AddsNothing(h.text);
    } else {
      var first := Body(pieces[0]) + [pieces[0].end];
      InnerPasses(h, pieces[0]);
      HoleConcat(h, first, Render(pieces[1..]));
      AllInnerPass(More(h, first), pieces[1..]);
      Associates(h.text, first, Render(pieces[1..]));
    }
  }

  const GROUPED := Hole(false, 1, " (", Open)

  lemma GroupOpens()
    ensures HoleRun(NO_TEXT, " (") == Some(GROUPED)
  {
    HoleOne(NO_TEXT, ' ');
    assert "" + [' '] == [' '] && [' '] + ['('] == " (";
    HoleThen(NO_TEXT, [' '], '(');
  }

  /** A command grouped in parentheses is a body, whatever its quoted words hold. */
  lemma GroupIsBody(inner: seq<Piece>, behind: seq<Piece>)
    requires AreInner(inner) && AreInner(behind)
    ensures IsBody(" (" + Render(inner) + ")" + Render(behind))
  {
    GroupOpens();
    HoleConcat(NO_TEXT, " (", Render(inner));
    AllInnerPass(GROUPED, inner);
    HoleThen(NO_TEXT, " (" + Render(inner), ')');
    HoleConcat(NO_TEXT, " (" + Render(inner) + ")", Render(behind));
    AllInnerPass(Hole(false, 0, " (" + Render(inner) + ")", Open), behind);
  }

  // ---- no NUL -------------------------------------------------------------------------

  lemma BothNulFree(a: string, b: string)
    ensures NulFree(a + b) <==> NulFree(a) && NulFree(b)
  {
    assert forall c :: c in a + b <==> c in a || c in b;
  }

  lemma {:induction false} HoleRunIsNulFree(h: Hole, text: string)
    requires HoleRun(h, text).Some?
    ensures NulFree(text)
    decreases |text|
  {
    if text != [] {
      HoleRunIsNulFree(HoleStep(h, text[0]).value, text[1..]);
      assert text == [text[0]] + text[1..];
      BothNulFree([text[0]], text[1..]);
    }
  }

  lemma PlainIsNulFree(s: string)
    requires AllPlain(s)
    ensures NulFree(s)
  {
  }

  lemma ParameterIsNulFree(name: string)
    requires IsParameter(name)
    ensures NulFree(name)
  {
    forall i | 0 <= i < |name| ensures name[i] != '\0' {
      assert i == 0 || IsNameChar(name[i]);
    }
  }

  lemma BodyIsNulFree(p: Piece)
    requires IsPiece(p)
    ensures NulFree(Body(p))
  {
    match p
    case Plain(word, _) => PlainIsNulFree(word);
    case Quoted(text, _) =>
      ReplaceKeepsNulFree(text);
      BothNulFree("'", Replace(text, '\'', QUOTE_ESCAPE));
      BothNulFree("'" + Replace(text, '\'', QUOTE_ESCAPE), "'");
    case EscapedChar(c, _) =>
    case Param(before, name, _) =>
      PlainIsNulFree(before);
      ParameterIsNulFree(name);
      BothNulFree("$", name);
      BothNulFree(before, "$" + name);
    case QuotedParam(name, _) =>
      ParameterIsNulFree(name);
      BothNulFree(name, "\"");
      BothNulFree("\"$", name + "\"");
    case Substitution(before, body, _) =>
      PlainIsNulFree(before);
      HoleRunIsNulFree(NO_TEXT, body);
      BothNulFree("$(", body);
      BothNulFree("$(" + body, ")");
      BothNulFree(before, "$(" + body + ")");
  }

  lemma {:induction false} PiecesAreNulFree(pieces: seq<Piece>)
    requires ArePieces(pieces)
    ensures NulFree(Render(pieces))
    decreases |pieces|
  {
    if pieces != [] {
      BodyIsNulFree(pieces[0]);
      BothNulFree(Body(pieces[0]), [pieces[0].end]);
      PiecesAreNulFree(pieces[1..]);
      BothNulFree(Body(pieces[0]) + [pieces[0].end], Render(pieces[1..]));
    }
  }
}
