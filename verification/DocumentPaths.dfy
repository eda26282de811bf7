/** Which document paths a discovery may read, and the commands it builds for them (backend/src/discovery.rs). */
module DocumentPaths {
  import opened Wrappers
  import opened Text
  import opened Shell
  import opened ShellText

  predicate IsSlash(c: char) {
    c == '/'
  }

  predicate HasParentSegment(path: string) {
    ".." in Split(path, '/')
  }

  predicate ValidProjectRoot(root: string) {
    && StartsWith(root, "/") && root != "/" && |root| <= 4096
    && '\0' !in root && '\n' !in root && '\r' !in root
    && !HasParentSegment(root)
  }

  predicate ForbiddenSegment(segment: string) {
    || segment == ".git" || segment == "node_modules" || segment == "target" || segment == ".env"
    || Contains(segment, "secret") || EndsWith(segment, ".key") || EndsWith(segment, ".pem")
  }

  predicate AllowedFile(segments: seq<string>)
    requires segments != []
  {
    var file := segments[|segments| - 1];
    || file == "agents.md" || file == "docker-compose.yml" || file == "compose.yml"
    || StartsWith(file, "readme.") || StartsWith(file, "project.")
    || ("docs" in segments && EndsWith(file, ".md"))
  }

  /** What a relative path must look like, letter case aside. */
  predicate Readable(relative: string) {
    var segments := Split(Lower(relative), '/');
    && relative != "" && |relative| <= 4096
    && NoneForbidden(segments)
    && AllowedFile(segments)
  }

  predicate NoneForbidden(segments: seq<string>) {
    forall i :: 0 <= i < |segments| ==> !ForbiddenSegment(segments[i])
  }

  function StripPrefix(s: string, prefix: string): Option<string> {
    if StartsWith(s, prefix) then Some(s[|prefix|..]) else None
  }

  function AllowedDocumentPath(root: string, path: string): Option<string> {
    if !ValidProjectRoot(root) || !ValidProjectRoot(path) then None
    else
      var below := StripPrefix(path, TrimEnd(root, IsSlash));
      if below.None? then None
      else
        var relative := StripPrefix(below.value, "/");
        if relative.None? || !Readable(relative.value) then None else relative
  }

  lemma StripsExactly(s: string, prefix: string, rest: string)
    ensures StripPrefix(s, prefix) == Some(rest) <==> s == prefix + rest
  {
    if StartsWith(s, prefix) {
      assert s == prefix + s[|prefix|..];
    }
    if s == prefix + rest {
      assert s[|prefix|..] == rest;
    }
  }

  /** A path is admitted exactly when it is its root without trailing slashes, a slash, and a readable relative path. */
  lemma AdmittedExactly(root: string, path: string, relative: string)
    ensures AllowedDocumentPath(root, path) == Some(relative)
            <==> ValidProjectRoot(root) && ValidProjectRoot(path) && Readable(relative)
                 && path == TrimEnd(root, IsSlash) + ("/" + relative)
  {
    var prefix := TrimEnd(root, IsSlash);
    StripsExactly(path, prefix, "/" + relative);
    StripsExactly("/" + relative, "/", relative);
    var below := StripPrefix(path, prefix);
    if below.Some? {
      var rest := StripPrefix(below.value, "/");
      if rest == Some(relative) {
        StripsExactly(below.value, "/", relative);
      }
    }
  }

  /**
   An admitted path stays below its root: its segments are the root's followed by the relative
   path's, none of them "..".
   */
  lemma AdmittedStaysBelow(root: string, path: string, relative: string)
    requires AllowedDocumentPath(root, path) == Some(relative)
    ensures Split(path, '/') == Split(TrimEnd(root, IsSlash), '/') + Split(relative, '/')
    ensures ".." !in Split(relative, '/') && ".." !in Split(path, '/')
  {
    AdmittedExactly(root, path, relative);
    SplitJoined(TrimEnd(root, IsSlash), '/', relative);
    assert ['/'] + relative == "/" + relative;
  }

  // ---- what a root bounds ----------------------------------------------------------------

  lemma {:induction false} SplitWithout(s: string, sep: char)
    requires sep !in s
    ensures Split(s, sep) == [s]
  {
    if s != [] {
      SplitWithout(s[1..], sep);
      assert [s[0]] + s[1..] == s;
    }
  }

  const EXAMPLE := "agents.md"

  lemma ExampleIsPlain()
    ensures '/' !in EXAMPLE && '\0' !in EXAMPLE && '\n' !in EXAMPLE && '\r' !in EXAMPLE
    ensures Lower(EXAMPLE) == EXAMPLE
  {
    assert forall i :: 0 <= i < |EXAMPLE| ==> LowerChar(EXAMPLE[i]) == EXAMPLE[i];
  }

  lemma ExampleHidesNothing()
    ensures !Contains(EXAMPLE, "secret") && !EndsWith(EXAMPLE, ".key") && !EndsWith(EXAMPLE, ".pem")
  {
    forall k: nat ensures !OccursAt(EXAMPLE, "secret", k) {
      assert k < 4 ==> EXAMPLE[k..][0] != "secret"[0];
    }
    FindsFirst(EXAMPLE, "secret", 0);
    assert EXAMPLE[|EXAMPLE| - 4..][3] == 'd' && ".key"[3] == 'y' && ".pem"[3] == 'm';
  }

  lemma LoneFileSplits(name: string)
    requires '/' !in name
    ensures Split(name, '/') == [name] && Split("/" + name, '/') == ["", name]
  {
    SplitWithout(name, '/');
    SplitJoined("", '/', name);
    assert "" + (['/'] + name) == "/" + name;
    assert [""] + [name] == ["", name];
  }

  lemma LoneFileIsValid(name: string)
    requires 0 < |name| < 4096 && '/' !in name && '\0' !in name && '\n' !in name && '\r' !in name && name != ".."
    ensures ValidProjectRoot("/" + name)
  {
    LoneFileSplits(name);
    assert forall c :: c in "/" + name <==> c == '/' || c in name;
  }

  lemma LoneFileIsReadable(name: string)
    requires 0 < |name| <= 4096 && '/' !in name && Lower(name) == name && NoneForbidden([name]) && AllowedFile([name])
    ensures Readable(name)
  {
    LoneFileSplits(name);
  }

  lemma ExampleIsAllowed()
    ensures NoneForbidden([EXAMPLE]) && AllowedFile([EXAMPLE])
  {
    ExampleHidesNothing();
    assert |EXAMPLE| == 9 && EXAMPLE[0] == 'a';
    assert !ForbiddenSegment(EXAMPLE);
  }

  lemma ExampleIsReadable()
    ensures Readable(EXAMPLE) && ValidProjectRoot("/" + EXAMPLE)
  {
    ExampleIsPlain();
    ExampleIsAllowed();
    assert |EXAMPLE| == 9;
    LoneFileIsValid(EXAMPLE);
    LoneFileIsReadable(EXAMPLE);
  }

  lemma LoneFileLiesOutside(name: string, prefix: string, relative: string)
    requires '/' !in name && prefix != ""
    ensures "/" + name != prefix + ("/" + relative)
  {
    if |prefix| <= |name| {
      assert ("/" + name)[|prefix|] == name[|prefix| - 1] && name[|prefix| - 1] in name;
      assert (prefix + ("/" + relative))[|prefix|] == '/';
    }
  }

  lemma TopIsAdmitted(root: string, relative: string)
    requires ValidProjectRoot(root) && TrimEnd(root, IsSlash) == "" && Readable(relative)
             && ValidProjectRoot("/" + relative)
    ensures AllowedDocumentPath(root, "/" + relative) == Some(relative)
  {
    assert "" + ("/" + relative) == "/" + relative;
    AdmittedExactly(root, "/" + relative, relative);
  }

  /**
   A valid root keeps some readable path out exactly when it is more than slashes; below "//" every
   absolute path is admitted.
   */
  lemma RootBoundsExactlyWhen(root: string)
    requires ValidProjectRoot(root)
    ensures (exists r :: Readable(r) && ValidProjectRoot("/" + r) && AllowedDocumentPath(root, "/" + r).None?)
            <==> TrimEnd(root, IsSlash) != ""
  {
    if TrimEnd(root, IsSlash) == "" {
      forall r | Readable(r) && ValidProjectRoot("/" + r) ensures AllowedDocumentPath(root, "/" + r).Some? {
        TopIsAdmitted(root, r);
      }
    } else {
      ExampleIsPlain();
      ExampleIsReadable();
      forall relative ensures AllowedDocumentPath(root, "/" + EXAMPLE) != Some(relative) {
        LoneFileLiesOutside(EXAMPLE, TrimEnd(root, IsSlash), relative);
        AdmittedExactly(root, "/" + EXAMPLE, relative);
      }
      assert AllowedDocumentPath(root, "/" + EXAMPLE).None?;
    }
  }

  lemma SlashesAreTrimmed()
    ensures TrimEnd("//", IsSlash) == ""
  {
    assert "//"[..1] == "/" && "/"[..0] == "";
  }

  lemma SlashesAreValid()
    ensures ValidProjectRoot("//")
  {
    SplitCons('/', "/", '/');
    SplitCons('/', "", '/');
    assert ['/'] + "/" == "//" && ['/'] + "" == "/";
    assert Split("//", '/') == ["", "", ""];
  }

  /**
   The root "//" is valid, nothing is left of it without its slashes, and a file at the top of the
   file system counts as below it.
   */
  lemma SlashesBoundNothing()
    ensures ValidProjectRoot("//") && TrimEnd("//", IsSlash) == ""
    ensures AllowedDocumentPath("//", "/" + EXAMPLE) == Some(EXAMPLE)
  {
    SlashesAreValid();
    SlashesAreTrimmed();
    ExampleIsReadable();
    TopIsAdmitted("//", EXAMPLE);
  }

  // ---- the commands ----------------------------------------------------------------------

  /** One test of find: a flag and a quoted pattern. */
  datatype Test = Test(flag: string, pattern: string)

  const FIND := ["LC_ALL=C", "find", "--"]
  const LIMITS := ["-maxdepth", "5", "-type", "d"]
  const PRUNED := ["-name", ".git", "-o", "-name", "node_modules", "-o", "-name", "target"]
  const FILES := ["-prune", "-o", "-type", "f"]
  const PRINT := ["-print"]
  const DOCUMENT_TESTS := [
    Test("-iname", "README.md"), Test("-iname", "README.*"), Test("-iname", "PROJECT.md"), Test("-iname", "PROJECT.*"),
    Test("-name", "AGENTS.md"), Test("-path", "*/docs/*.md"), Test("-name", "docker-compose.yml"),
    Test("-name", "compose.yml")]

  function TestPieces(t: Test): seq<Piece> {
    [Plain(t.flag, ' '), Quoted(t.pattern, ' ')]
  }

  const OR := [Plain("-o", ' ')]

  /** The tests with `-o` between them. */
  function AnyOf(tests: seq<Test>): seq<Piece>
    requires tests != []
  {
    if |tests| == 1 then TestPieces(tests[0]) else TestPieces(tests[0]) + (OR + AnyOf(tests[1..]))
  }

  function AnyWords(tests: seq<Test>): seq<string>
    requires tests != []
  {
    if |tests| == 1 then [tests[0].flag, tests[0].pattern]
        else [tests[0].flag, tests[0].pattern] + (["-o"] + AnyWords(tests[1..]))
  }

  const OPEN := [EscapedChar('(', ' ')]
  const CLOSE := [EscapedChar(')', ' ')]

  function Group(pieces: seq<Piece>): seq<Piece> {
    OPEN + (pieces + CLOSE)
  }

  function GroupWords(words: seq<string>): seq<string> {
    ["("] + (words + [")"])
  }

  /** What find is told behind the root, with a blank behind every word. */
  function ArgumentPieces(limits: seq<string>, pruned: seq<string>, files: seq<string>, tests: seq<Test>,
      action: seq<string>): seq<Piece>
    requires tests != []
  {
    PlainPieces(limits) + (Group(PlainPieces(pruned))
                           + (PlainPieces(files) + (Group(AnyOf(tests)) + PlainPieces(action))))
  }

  function Arguments(limits: seq<string>, pruned: seq<string>, files: seq<string>, tests: seq<Test>,
      action: seq<string>): seq<string>
    requires tests != []
  {
    limits + (GroupWords(pruned) + (files + (GroupWords(AnyWords(tests)) + action)))
  }

  function FindPieces(begin: seq<string>, root: string, arguments: seq<Piece>): seq<Piece> {
    PlainPieces(begin) + ([Quoted(root, ' ')] + arguments)
  }

  function ListCommand(root: string): string {
    OpenText(FindPieces(FIND, root, ArgumentPieces(LIMITS, PRUNED, FILES, DOCUMENT_TESTS, PRINT)))
  }

  /** A piece that is one literal word. */
  predicate IsWordPiece(p: Piece) {
    IsPiece(p) && IsBlank(p.end) && PartOf(p).Some?
  }

  /** Pieces that are exactly these words. */
  predicate AreWords(pieces: seq<Piece>, words: seq<string>) {
    (forall i :: 0 <= i < |pieces| ==> IsWordPiece(pieces[i])) && TokensOf(pieces) == Words(words)
  }

  lemma WordsJoin(x: seq<string>, y: seq<string>)
    ensures Words(x + y) == Words(x) + Words(y)
  {
  }

  lemma AreWordsJoin(a: seq<Piece>, x: seq<string>, b: seq<Piece>, y: seq<string>)
    requires AreWords(a, x) && AreWords(b, y)
    ensures AreWords(a + b, x + y)
  {
    RenderJoins(a, b);
    WordsJoin(x, y);
  }

  /** A command text of words reads as those words. */
  lemma WordsRead(pieces: seq<Piece>, words: seq<string>)
    requires pieces != [] && AreWords(pieces, words)
    ensures Tokens(OpenText(pieces)) == Some(Words(words))
  {
    assert IsWordPiece(pieces[|pieces| - 1]);
    OpenTextReads(pieces);
  }

  lemma PlainAreWords(words: seq<string>)
    requires ArePlainWords(words)
    ensures AreWords(PlainPieces(words), words)
  {
    PlainPiecesRead(words);
  }

  lemma OneWord(p: Piece, word: string)
    requires IsPiece(p) && IsBlank(p.end) && PartOf(p) == Some(Part(word, false, []))
    ensures AreWords([p], [word])
  {
    RenderFirst(p, []);
    AddsNothing([Word(word)]);
    assert Words([word]) == [Word(word)];
  }

  predicate IsTest(t: Test) {
    t.flag != "" && AllPlain(t.flag) && NulFree(t.pattern)
  }

  lemma TestAreWords(t: Test)
    requires IsTest(t)
    ensures AreWords(TestPieces(t), [t.flag, t.pattern])
  {
    OneWord(Plain(t.flag, ' '), t.flag);
    OneWord(Quoted(t.pattern, ' '), t.pattern);
    AreWordsJoin([Plain(t.flag, ' ')], [t.flag], [Quoted(t.pattern, ' ')], [t.pattern]);
    assert [Plain(t.flag, ' ')] + [Quoted(t.pattern, ' ')] == TestPieces(t)
           && [t.flag] + [t.pattern] == [t.flag, t.pattern];
  }

  lemma OrIsWord()
    ensures AreWords(OR, ["-o"])
  {
    assert AllPlain("-o");
    OneWord(Plain("-o", ' '), "-o");
  }

  lemma {:induction false} AnyOfAreWords(tests: seq<Test>)
    requires tests != [] && forall i :: 0 <= i < |tests| ==> IsTest(tests[i])
    ensures AreWords(AnyOf(tests), AnyWords(tests))
  {
    TestAreWords(tests[0]);
    if |tests| > 1 {
      AnyOfAreWords(tests[1..]);
      OrIsWord();
      AreWordsJoin(OR, ["-o"], AnyOf(tests[1..]), AnyWords(tests[1..]));
      AreWordsJoin(TestPieces(tests[0]), [tests[0].flag, tests[0].pattern], OR + AnyOf(tests[1..]),
          ["-o"] + AnyWords(tests[1..]));
    }
  }

  lemma FlagsArePlain()
    ensures AllPlain("-iname") && AllPlain("-name") && AllPlain("-path")
  {
  }

  lemma ReadmePatterns()
    ensures NulFree("README.md") && NulFree("README.*") && NulFree("PROJECT.md") && NulFree("PROJECT.*")
  {
  }

  lemma OtherPatterns()
    ensures NulFree("AGENTS.md") && NulFree("*/docs/*.md") && NulFree("docker-compose.yml") && NulFree("compose.yml")
  {
  }

  lemma DocumentTestsAreTests()
    ensures forall i :: 0 <= i < |DOCUMENT_TESTS| ==> IsTest(DOCUMENT_TESTS[i])
  {
    FlagsArePlain();
    ReadmePatterns();
    OtherPatterns();
  }

  lemma FindIsPlain()
    ensures ArePlainWords(FIND)
  {
    assert AllPlain("LC_ALL=C") && AllPlain("find") && AllPlain("--");
  }

  lemma LimitsArePlain()
    ensures ArePlainWords(LIMITS)
  {
    assert AllPlain("-maxdepth") && AllPlain("5") && AllPlain("-type") && AllPlain("d");
  }

  lemma PrunedArePlain()
    ensures ArePlainWords(PRUNED)
  {
    assert AllPlain("-name") && AllPlain(".git") && AllPlain("-o");
    assert AllPlain("node_modules") && AllPlain("target");
  }

  lemma FilesArePlain()
    ensures ArePlainWords(FILES) && ArePlainWords(PRINT)
  {
    assert AllPlain("-prune") && AllPlain("-o") && AllPlain("-type") && AllPlain("f") && AllPlain("-print");
  }

  lemma GroupAreWords(pieces: seq<Piece>, words: seq<string>)
    requires AreWords(pieces, words)
    ensures AreWords(Group(pieces), GroupWords(words))
  {
    OneWord(EscapedChar('(', ' '), "(");
    OneWord(EscapedChar(')', ' '), ")");
    AreWordsJoin(pieces, words, CLOSE, [")"]);
    AreWordsJoin(OPEN, ["("], pieces + CLOSE, words + [")"]);
  }

  lemma ArgumentsAreWords(limits: seq<string>, pruned: seq<string>, files: seq<string>, tests: seq<Test>,
      action: seq<string>)
    requires ArePlainWords(limits) && ArePlainWords(pruned) && ArePlainWords(files) && ArePlainWords(action)
    requires tests != [] && forall i :: 0 <= i < |tests| ==> IsTest(tests[i])
    ensures AreWords(ArgumentPieces(limits, pruned, files, tests, action),
                     Arguments(limits, pruned, files, tests, action))
  {
    PlainAreWords(limits);
    PlainAreWords(pruned);
    PlainAreWords(files);
    PlainAreWords(action);
    AnyOfAreWords(tests);
    GroupAreWords(PlainPieces(pruned), pruned);
    GroupAreWords(AnyOf(tests), AnyWords(tests));
    var found, foundWords := Group(AnyOf(tests)) + PlainPieces(action), GroupWords(AnyWords(tests)) + action;
    AreWordsJoin(Group(AnyOf(tests)), GroupWords(AnyWords(tests)), PlainPieces(action), action);
    AreWordsJoin(PlainPieces(files), files, found, foundWords);
    AreWordsJoin(Group(PlainPieces(pruned)), GroupWords(pruned), PlainPieces(files) + found, files + foundWords);
    AreWordsJoin(PlainPieces(limits), limits, Group(PlainPieces(pruned)) + (PlainPieces(files) + found),
        GroupWords(pruned) + (files + foundWords));
  }

  lemma FindReads(begin: seq<string>, root: string, arguments: seq<Piece>, words: seq<string>)
    requires ArePlainWords(begin) && NulFree(root) && AreWords(arguments, words)
    ensures Tokens(OpenText(FindPieces(begin, root, arguments))) == Some(Words(begin + ([root] + words)))
  {
    PlainAreWords(begin);
    OneWord(Quoted(root, ' '), root);
    AreWordsJoin([Quoted(root, ' ')], [root], arguments, words);
    AreWordsJoin(PlainPieces(begin), begin, [Quoted(root, ' ')] + arguments, [root] + words);
    WordsRead(FindPieces(begin, root, arguments), begin + ([root] + words));
  }

  /**
   The remote find receives exactly these arguments: the root is one of them, behind `--`, whatever
   characters it holds.
   */
  lemma RootIsOneArgument(root: string)
    requires ValidProjectRoot(root)
    ensures Tokens(ListCommand(root))
            == Some(Words(FIND + ([root] + Arguments(LIMITS, PRUNED, FILES, DOCUMENT_TESTS, PRINT))))
  {
    FindIsPlain();
    LimitsArePlain();
    PrunedArePlain();
    FilesArePlain();
    DocumentTestsAreTests();
    ArgumentsAreWords(LIMITS, PRUNED, FILES, DOCUMENT_TESTS, PRINT);
    FindReads(FIND, root, ArgumentPieces(LIMITS, PRUNED, FILES, DOCUMENT_TESTS, PRINT),
        Arguments(LIMITS, PRUNED, FILES, DOCUMENT_TESTS, PRINT));
  }

  lemma TestsInFull()
    ensures AnyWords(DOCUMENT_TESTS)
            == ["-iname", "README.md", "-o", "-iname", "README.*", "-o", "-iname", "PROJECT.md", "-o", "-iname",
                "PROJECT.*", "-o", "-name", "AGENTS.md", "-o", "-path", "*/docs/*.md", "-o", "-name",
                "docker-compose.yml", "-o", "-name", "compose.yml"]
  {
    FourTests(DOCUMENT_TESTS[4..], []);
    FourTests(DOCUMENT_TESTS[..4], DOCUMENT_TESTS[4..]);
    assert DOCUMENT_TESTS == DOCUMENT_TESTS[..4] + DOCUMENT_TESTS[4..];
  }

  lemma FourTests(t: seq<Test>, rest: seq<Test>)
    requires |t| == 4
    ensures AnyWords(t + rest)
            == [t[0].flag, t[0].pattern, "-o", t[1].flag, t[1].pattern, "-o", t[2].flag, t[2].pattern, "-o", t[3].flag,
                t[3].pattern] + (if rest == [] then [] else ["-o"] + AnyWords(rest))
  {
    AnyMore(t[3], rest);
    AnyMore(t[2], [t[3]] + rest);
    AnyMore(t[1], [t[2]] + ([t[3]] + rest));
    AnyMore(t[0], [t[1]] + ([t[2]] + ([t[3]] + rest)));
    assert t + rest == [t[0]] + ([t[1]] + ([t[2]] + ([t[3]] + rest)));
  }

  lemma AnyMore(t: Test, rest: seq<Test>)
    ensures AnyWords([t] + rest) == [t.flag, t.pattern] + (if rest == [] then [] else ["-o"] + AnyWords(rest))
  {
    assert ([t] + rest)[1..] == rest;
  }

  lemma FindWithTests(root: string, tests: seq<string>)
    ensures FIND + ([root] + (LIMITS + (GroupWords(PRUNED) + (FILES + (GroupWords(tests) + PRINT)))))
            == ["LC_ALL=C", "find", "--", root, "-maxdepth", "5", "-type", "d", "(", "-name", ".git", "-o",
                "-name", "node_modules", "-o", "-name", "target", ")", "-prune", "-o", "-type", "f", "("]
               + tests + [")", "-print"]
  {
  }

  /** The remote find looks five levels deep for readable names and leaves three kinds of directories out. */
  lemma FindInFull(root: string)
    requires ValidProjectRoot(root)
    ensures Tokens(ListCommand(root))
            == Some(Words(["LC_ALL=C", "find", "--", root, "-maxdepth", "5", "-type", "d", "(", "-name", ".git", "-o",
                           "-name", "node_modules", "-o", "-name", "target", ")", "-prune", "-o", "-type", "f", "("]
                          + ["-iname", "README.md", "-o", "-iname", "README.*", "-o", "-iname", "PROJECT.md", "-o",
                             "-iname", "PROJECT.*", "-o", "-name", "AGENTS.md", "-o", "-path", "*/docs/*.md", "-o",
                             "-name", "docker-compose.yml", "-o", "-name", "compose.yml"]
                          + [")", "-print"]))
  {
    RootIsOneArgument(root);
    TestsInFull();
    FindWithTests(root, AnyWords(DOCUMENT_TESTS));
  }

  const SHELL := ["LC_ALL=C", "sh", "-c"]

  function ReadPieces(begin: seq<string>, script: string, name: string, path: string): seq<Piece> {
    PlainPieces(begin) + ([Quoted(script, ' ')] + [Plain(name, ' '), Quoted(path, ' ')])
  }

  /** The reading command: an inner shell, its script, and what the script calls "$0" and "$1". */
  function ReadCommand(script: string, path: string): string {
    OpenText(ReadPieces(SHELL, script, "sh", path))
  }

  lemma ReadReads(begin: seq<string>, script: string, name: string, path: string)
    requires ArePlainWords(begin) && NulFree(script) && name != "" && AllPlain(name) && NulFree(path)
    ensures Tokens(OpenText(ReadPieces(begin, script, name, path))) == Some(Words(begin + ([script] + [name, path])))
  {
    PlainAreWords(begin);
    OneWord(Quoted(script, ' '), script);
    TestAreWords(Test(name, path));
    AreWordsJoin([Quoted(script, ' ')], [script], TestPieces(Test(name, path)), [name, path]);
    AreWordsJoin(PlainPieces(begin), begin, [Quoted(script, ' ')] + TestPieces(Test(name, path)),
        [script] + [name, path]);
    WordsRead(ReadPieces(begin, script, name, path), begin + ([script] + [name, path]));
  }

  /** The inner shell receives the fixed script and, as its first positional parameter, the path exactly. */
  lemma PathIsOneArgument(script: string, path: string)
    requires ValidProjectRoot(path) && NulFree(script)
    ensures Tokens(ReadCommand(script, path)) == Some(Words(SHELL + ([script] + ["sh", path])))
  {
    assert AllPlain("LC_ALL=C") && AllPlain("sh") && AllPlain("-c");
    ReadReads(SHELL, script, "sh", path);
  }
}
