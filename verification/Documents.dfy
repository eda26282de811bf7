/** Bounded document collection over a remote shell (backend/src/discovery.rs). */
module Documents {
  import opened Wrappers
  import opened Text
  import opened Decimals
  import opened DocumentPaths
  import KeyOrder

  const MAX_TOTAL_OUTPUT_BYTES := 4 * 1024 * 1024
  const MAX_DOCUMENTS := 32
  const MAX_DOCUMENT_BYTES := 64 * 1024
  const MAX_DOCUMENT_TOTAL_BYTES := 512 * 1024
  const MAX_PROJECT_ROOTS := 8

  datatype Failure = CommandFailed | OutputLimit | InvalidOutput | InvalidDocument

  datatype Reply = Replied(stdout: string, outputBytes: nat) | Failed

  /** The remote host: what it replies to its n-th command. */
  type Remote = (nat, string) -> Reply

  // ---- one document ------------------------------------------------------------------

  datatype Target = Target(root: string, path: string, relative: string)

  datatype Document = Document(number: nat, target: Target, declaredBytes: nat, sha256: string, captured: string,
                               truncated: bool)

  predicate IsContinuation(c: char) {
    '\U{80}' <= c <= '\U{BF}'
  }

  /** The largest position up to `n` that does not cut a character. */
  function FloorCharBoundary(s: string, n: nat): (r: nat)
    requires n <= |s|
    ensures r <= n
    ensures r == 0 || r == |s| || !IsContinuation(s[r])
    ensures forall i :: r < i <= n ==> i < |s| && IsContinuation(s[i])
  {
    if n == |s| || n == 0 || !IsContinuation(s[n]) then n else FloorCharBoundary(s, n - 1)
  }

  predicate IsHexDigit(c: char) {
    IsDigit(c) || 'a' <= c <= 'f' || 'A' <= c <= 'F'
  }

  predicate IsHash(s: string) {
    |s| == 64 && forall i :: 0 <= i < |s| ==> IsHexDigit(s[i])
  }

  /** Cut at the first newline, if there is one. */
  function HeadLine(s: string): (r: (string, Option<string>)) {
    var newline := FindFrom(s, "\n", 0);
    if newline.Some? then (s[..newline.value], Some(s[newline.value + 1..])) else (s, None)
  }

  function Captured(content: string): (r: string)
    ensures r <= content && |r| <= MAX_DOCUMENT_BYTES
  {
    content[..FloorCharBoundary(content, if |content| < MAX_DOCUMENT_BYTES then |content| else MAX_DOCUMENT_BYTES)]
  }

  /** A document of a size line, a hash line and content. */
  function DocumentOf(number: nat, size: string, hash: string, content: string, target: Target): Option<Document> {
    var declared := ParseUnsigned(Trim(size, IsSpace), U64_LIMIT);
    if declared.None? || !IsHash(Trim(hash, IsSpace)) then None
    else
      Some(Document(number, target, declared.value, Lower(Trim(hash, IsSpace)), Captured(content),
                    declared.value > MAX_DOCUMENT_BYTES))
  }

  /** Size line, hash line, then the content. */
  function ParseDocument(number: nat, output: string, target: Target): Option<Document> {
    var (size, afterSize) := HeadLine(output);
    if afterSize.None? then None
    else
      var (hash, content) := HeadLine(afterSize.value);
      DocumentOf(number, size, hash, if content.Some? then content.value else "", target)
  }

  lemma SolidIsTrimmed(s: string)
    requires s != "" && !IsSpace(s[0]) && !IsSpace(s[|s| - 1])
    ensures Trim(s, IsSpace) == s
  {
  }

  lemma HeadLineOf(line: string, rest: string)
    requires '\n' !in line
    ensures HeadLine(line + "\n" + rest) == (line, Some(rest))
  {
    FirstNewline(line, rest);
    assert (line + "\n" + rest)[|line| + 1..] == rest && (line + "\n" + rest)[..|line|] == line;
  }

  /**
   What the remote script prints for a file is read back: its size, its hash in lower case, and the
   content up to the limit.
   */
  lemma PrintedDocumentParses(number: nat, size: nat, hash: string, content: string, target: Target)
    requires size < U64_LIMIT && IsHash(hash)
    ensures ParseDocument(number, Digits(size) + "\n" + (hash + "\n" + content), target)
            == Some(Document(number, target, size, Lower(hash), Captured(content), size > MAX_DOCUMENT_BYTES))
  {
    SizeReads(size);
    HashReads(hash);
    HeadLineOf(Digits(size), hash + "\n" + content);
    HeadLineOf(hash, content);
  }

  lemma SizeReads(size: nat)
    requires size < U64_LIMIT
    ensures '\n' !in Digits(size) && ParseUnsigned(Trim(Digits(size), IsSpace), U64_LIMIT) == Some(size)
  {
    var digits := Digits(size);
    assert IsDigit(digits[0]) && IsDigit(digits[|digits| - 1]);
    assert forall c :: c in digits ==> IsDigit(c);
    SolidIsTrimmed(digits);
    UnsignedRoundTrip(size, U64_LIMIT);
  }

  lemma HashReads(hash: string)
    requires IsHash(hash)
    ensures '\n' !in hash && Trim(hash, IsSpace) == hash
  {
    assert IsHexDigit(hash[0]) && IsHexDigit(hash[63]);
    assert forall c :: c in hash ==> IsHexDigit(c);
    SolidIsTrimmed(hash);
  }

  /** One of four bytes in a row begins a character, since no character is longer. */
  predicate BeginsWithin(s: string, i: nat) {
    i + 4 <= |s| ==> exists k :: i <= k < i + 4 && !IsContinuation(s[k])
  }

  /** At most three bytes are given up to keep characters whole. */
  lemma CapturedIsNearlyAll(content: string)
    requires forall i: nat :: BeginsWithin(content, i)
    ensures |content| <= MAX_DOCUMENT_BYTES ==> Captured(content) == content
    ensures |content| > MAX_DOCUMENT_BYTES ==> MAX_DOCUMENT_BYTES - 3 <= |Captured(content)| <= MAX_DOCUMENT_BYTES
  {
    assert BeginsWithin(content, MAX_DOCUMENT_BYTES - 3);
  }

  /** The output is a line for the size and one for the hash, then the content, if a newline begins it. */
  predicate Shows(output: string, size: string, hash: string, content: string) {
    && '\n' !in size && '\n' !in hash
    && (output == size + "\n" + (hash + "\n" + content) || (output == size + "\n" + hash && content == ""))
  }

  /** What a document says of what was shown. */
  predicate Says(d: Document, size: string, hash: string, content: string) {
    && ParseUnsigned(Trim(size, IsSpace), 0x1_0000_0000_0000_0000) == Some(d.declaredBytes)
    && IsHash(Trim(hash, IsSpace)) && d.sha256 == Lower(Trim(hash, IsSpace))
    && d.captured == Captured(content) && (d.truncated <==> d.declaredBytes > 65_536)
  }

  lemma HeadLineCuts(s: string)
    ensures var (line, rest) := HeadLine(s);
            && '\n' !in line && s == line + (if rest.Some? then "\n" + rest.value else "")
  {
    FindsFirst(s, "\n", 0);
    var (line, rest) := HeadLine(s);
    forall k | 0 <= k < |line| ensures line[k] != '\n' {
      assert !OccursAt(s, "\n", k);
      assert s[k..][0] == line[k];
    }
    if rest.Some? {
      assert s[|line|..] == "\n" + rest.value;
    }
  }

  lemma HoldsNewline(before: string, after: string)
    ensures '\n' in before + "\n" + after
  {
    assert (before + "\n" + after)[|before|] == '\n';
  }

  lemma HeadLineAlone(line: string)
    requires '\n' !in line
    ensures HeadLine(line) == (line, None)
  {
    HeadLineCuts(line);
    forall before, after ensures line != before + "\n" + after {
      HoldsNewline(before, after);
    }
  }

  lemma ShownIsCut(output: string, size: string, hash: string, content: string)
    requires Shows(output, size, hash, content)
    ensures HeadLine(output).0 == size && HeadLine(output).1.Some?
    ensures var (line, rest) := HeadLine(HeadLine(output).1.value);
            line == hash && content == if rest.Some? then rest.value else ""
  {
    if output == size + "\n" + hash && content == "" {
      HeadLineOf(size, hash);
      HeadLineAlone(hash);
    } else {
      HeadLineOf(size, hash + "\n" + content);
      HeadLineOf(hash, content);
    }
  }

  lemma DocumentSays(number: nat, size: string, hash: string, content: string, target: Target, d: Document)
    ensures DocumentOf(number, size, hash, content, target) == Some(d)
            <==> d.number == number && d.target == target && Says(d, size, hash, content)
  {
  }

  lemma OutputShows(output: string)
    requires HeadLine(output).1.Some?
    ensures var (hash, content) := HeadLine(HeadLine(output).1.value);
            Shows(output, HeadLine(output).0, hash, if content.Some? then content.value else "")
  {
    HeadLineCuts(output);
    HeadLineCuts(HeadLine(output).1.value);
  }

  /** Which outputs are documents, and what those say. */
  lemma DocumentsReadExactly(number: nat, output: string, target: Target, d: Document)
    ensures ParseDocument(number, output, target) == Some(d)
            <==> d.number == number && d.target == target
                 && exists size, hash, content :: Shows(output, size, hash, content) && Says(d, size, hash, content)
  {
    if HeadLine(output).1.Some? {
      var (hash, content) := HeadLine(HeadLine(output).1.value);
      OutputShows(output);
      DocumentSays(number, HeadLine(output).0, hash, if content.Some? then content.value else "", target, d);
    }
    forall size, hash, content | Shows(output, size, hash, content) && Says(d, size, hash, content)
      ensures d.number == number && d.target == target ==> ParseDocument(number, output, target) == Some(d)
    {
      ShownIsCut(output, size, hash, content);
      DocumentSays(number, size, hash, content, target, d);
    }
  }

  /** What is captured is the longest beginning of at most 64 KiB that cuts no character in two. */
  lemma CapturedIsLongest(content: string, n: nat)
    requires n <= |content| && n <= 65_536 && (n < |content| ==> !('\U{80}' <= content[n] <= '\U{BF}'))
    ensures n <= |Captured(content)| <= 65_536 && Captured(content) <= content
    ensures var k := |Captured(content)|; 0 < k < |content| ==> !('\U{80}' <= content[k] <= '\U{BF}')
  {
  }

  // ---- budgets -------------------------------------------------------------------------

  function CapturedBytes(documents: seq<Document>): nat {
    if documents == [] then 0 else CapturedBytes(documents[..|documents| - 1]) + |documents[|documents| - 1].captured|
  }

  predicate Full(documents: seq<Document>) {
    |documents| >= MAX_DOCUMENTS || CapturedBytes(documents) >= MAX_DOCUMENT_TOTAL_BYTES
  }

  function Targets(documents: seq<Document>): seq<Target> {
    seq(|documents|, i requires 0 <= i < |documents| => documents[i].target)
  }

  function AdmittedLine(root: string, path: string): seq<Target> {
    var relative := AllowedDocumentPath(root, path);
    if relative.Some? then [Target(root, path, relative.value)] else []
  }

  /** The readable paths among some lines of a root's listing, in order. */
  function Admitted(root: string, lines: seq<string>): seq<Target> {
    if lines == [] then [] else Admitted(root, lines[..|lines| - 1]) + AdmittedLine(root, lines[|lines| - 1])
  }

  /** Behind `start`, exactly the readable paths among the first `n` lines. */
  ghost predicate AdmittedSoFar(targets: seq<Target>, start: seq<Target>, root: string, lines: seq<string>, n: nat) {
    n <= |lines| && targets == start + Admitted(root, lines[..n])
  }

  lemma NoneAdmitted(root: string, lines: seq<string>, start: seq<Target>)
    ensures AdmittedSoFar(start, start, root, lines, 0)
  {
  }

  lemma AdmittedNext(targets: seq<Target>, start: seq<Target>, root: string, lines: seq<string>, n: nat)
    requires n < |lines| && AdmittedSoFar(targets, start, root, lines, n)
    ensures AdmittedSoFar(targets + AdmittedLine(root, lines[n]), start, root, lines, n + 1)
  {
    assert lines[..n + 1][..n] == lines[..n];
  }

  lemma AdmittedEnds(targets: seq<Target>, start: seq<Target>, root: string, lines: seq<string>, n: nat)
    requires AdmittedSoFar(targets, start, root, lines, n)
    ensures targets <= start + Admitted(root, lines)
    ensures n == |lines| ==> targets == start + Admitted(root, lines)
  {
    AdmittedPrefix(root, lines, n);
    assert lines[..|lines|] == lines;
  }

  datatype Listing = Listing(number: nat, root: string, stdout: string)

  function AdmittedIn(listing: Listing): seq<Target> {
    Admitted(listing.root, Lines(listing.stdout))
  }

  /** Every path that an unbounded collection would read. */
  function Planned(listings: seq<Listing>): seq<Target> {
    if listings == [] then [] else Planned(listings[..|listings| - 1]) + AdmittedIn(listings[|listings| - 1])
  }

  predicate IsAdmitted(t: Target) {
    AllowedDocumentPath(t.root, t.path) == Some(t.relative)
  }

  /** A document read within the rules: an admitted path, at most the limit captured, and truncation told truly. */
  predicate IsSound(d: Document) {
    && |d.captured| <= MAX_DOCUMENT_BYTES && IsAdmitted(d.target)
    && (d.truncated <==> d.declaredBytes > MAX_DOCUMENT_BYTES)
  }

  predicate WithinBudgets(documents: seq<Document>) {
    && |documents| <= MAX_DOCUMENTS
    && CapturedBytes(documents) < MAX_DOCUMENT_TOTAL_BYTES + MAX_DOCUMENT_BYTES
    && forall i :: 0 <= i < |documents| ==> IsSound(documents[i])
  }

  /** The limits in numbers. */
  lemma BudgetsInNumbers(documents: seq<Document>)
    ensures WithinBudgets(documents)
            <==> |documents| <= 32 && CapturedBytes(documents) < 589_824
                 && forall i :: 0 <= i < |documents| ==>
                      var d := documents[i];
                      && |d.captured| <= 65_536 && (d.truncated <==> d.declaredBytes > 65_536)
                      && AllowedDocumentPath(d.target.root, d.target.path) == Some(d.target.relative)
    ensures Full(documents) <==> |documents| >= 32 || CapturedBytes(documents) >= 524_288
  {
  }

  lemma OneMoreCaptured(documents: seq<Document>, document: Document)
    ensures CapturedBytes(documents + [document]) == CapturedBytes(documents) + |document.captured|
    ensures Targets(documents + [document]) == Targets(documents) + [document.target]
  {
    assert (documents + [document])[..|documents + [document]| - 1] == documents;
  }

  lemma OneMoreDocument(documents: seq<Document>, document: Document)
    requires WithinBudgets(documents) && !Full(documents) && IsSound(document)
    ensures WithinBudgets(documents + [document])
    ensures Targets(documents + [document]) == Targets(documents) + [document.target]
  {
    OneMoreCaptured(documents, document);
  }

  // ---- where it all comes from -----------------------------------------------------------

  /** The document is what the remote replied to its reading command, under the number that command had. */
  ghost predicate IsRead(remote: Remote, script: string, document: Document) {
    var reply := remote(document.number, ReadCommand(script, document.target.path));
    reply.Replied? && ParseDocument(document.number, reply.stdout, document.target) == Some(document)
  }

  /** Each document was read by a command of its own, in this order, before command number `actions`. */
  ghost predicate AllRead(remote: Remote, script: string, documents: seq<Document>, actions: nat) {
    EachRead(remote, script, documents, actions) && InOrder(documents)
  }

  ghost predicate EachRead(remote: Remote, script: string, documents: seq<Document>, actions: nat) {
    forall i :: 0 <= i < |documents| ==> documents[i].number < actions && IsRead(remote, script, documents[i])
  }

  predicate InOrder(documents: seq<Document>) {
    forall i, j :: 0 <= i < j < |documents| ==> documents[i].number < documents[j].number
  }

  ghost predicate IsListed(remote: Remote, listing: Listing) {
    var reply := remote(listing.number, ListCommand(listing.root));
    reply.Replied? && reply.stdout == listing.stdout
  }

  ghost predicate AllListed(remote: Remote, listings: seq<Listing>, actions: nat) {
    forall i :: 0 <= i < |listings| ==> listings[i].number < actions && IsListed(remote, listings[i])
  }

  lemma OneMoreInOrder(remote: Remote, script: string, documents: seq<Document>, document: Document)
    requires EachRead(remote, script, documents, document.number) && InOrder(documents)
    ensures InOrder(documents + [document])
  {
  }

  lemma OneMoreEach(remote: Remote, script: string, documents: seq<Document>, document: Document, actions: nat)
    requires EachRead(remote, script, documents, actions) && document.number == actions
             && IsRead(remote, script, document)
    ensures EachRead(remote, script, documents + [document], actions + 1)
  {
  }

  lemma OneMoreRead(remote: Remote, script: string, documents: seq<Document>, document: Document, actions: nat)
    requires AllRead(remote, script, documents, actions) && document.number == actions
             && IsRead(remote, script, document)
    ensures AllRead(remote, script, documents + [document], actions + 1)
  {
    OneMoreInOrder(remote, script, documents, document);
    OneMoreEach(remote, script, documents, document, actions);
  }

  lemma OneMoreListed(remote: Remote, listings: seq<Listing>, listing: Listing, actions: nat)
    requires AllListed(remote, listings, actions) && listing.number == actions && IsListed(remote, listing)
    ensures AllListed(remote, listings + [listing], actions + 1)
  {
  }

  lemma LaterRead(remote: Remote, script: string, documents: seq<Document>, was: nat, now: nat)
    requires was <= now && AllRead(remote, script, documents, was)
    ensures AllRead(remote, script, documents, now)
  {
  }

  lemma LaterListed(remote: Remote, listings: seq<Listing>, was: nat, now: nat)
    requires was <= now && AllListed(remote, listings, was)
    ensures AllListed(remote, listings, now)
  {
  }

  // ---- the collection ---------------------------------------------------------------------

  class Discovery {
    var totalOutput: nat
    var actions: nat

    constructor ()
      ensures totalOutput == 0 && actions == 0
    {
      totalOutput, actions := 0, 0;
    }

    /** Runs one remote command; succeeds only while the total output is within its limit. */
    method Action(remote: Remote, command: string) returns (r: Result<string, Failure>)
      modifies this
      ensures actions == old(actions) + 1
      ensures var reply := remote(old(actions), command);
              && (reply.Failed? ==> totalOutput == old(totalOutput))
              && (reply.Replied? ==> totalOutput == Saturated(old(totalOutput) + reply.outputBytes, U64_LIMIT))
              && r == (if totalOutput > MAX_TOTAL_OUTPUT_BYTES then Err(OutputLimit)
                       else if reply.Failed? then Err(CommandFailed)
                       else Ok(reply.stdout))
    {
      var reply := remote(actions, command);
      actions := actions + 1;
      if reply.Replied? {
        totalOutput := Saturated(totalOutput + reply.outputBytes, U64_LIMIT);
      }
      if totalOutput > MAX_TOTAL_OUTPUT_BYTES {
        return Err(OutputLimit);
      }
      if reply.Failed? {
        return Err(CommandFailed);
      }
      return Ok(reply.stdout);
    }

    method ReadDocument(remote: Remote, script: string, target: Target) returns (r: Result<Document, Failure>)
      requires IsAdmitted(target)
      modifies this
      ensures actions == old(actions) + 1
      ensures r.Ok? ==> totalOutput <= MAX_TOTAL_OUTPUT_BYTES
      ensures r.Ok? ==> r.value.number == old(actions) && r.value.target == target && IsRead(remote, script, r.value)
    {
      var number := actions;
      var reply := Action(remote, ReadCommand(script, target.path));
      if reply.Err? {
        return Err(reply.error);
      }
      var parsed := ParseDocument(number, reply.value, target);
      if parsed.None? {
        return Err(InvalidDocument);
      }
      return Ok(parsed.value);
    }

    /** One listed line: passed over unless admitted, else read. */
    method ReadLine(remote: Remote, script: string, root: string, line: string, before: seq<Document>)
      returns (r: Result<seq<Document>, Failure>)
      requires WithinBudgets(before) && !Full(before)
      requires totalOutput <= MAX_TOTAL_OUTPUT_BYTES && AllRead(remote, script, before, actions)
      modifies this
      ensures old(actions) <= actions && (r.Ok? ==> AllRead(remote, script, r.value, actions))
      ensures r.Ok? ==> totalOutput <= MAX_TOTAL_OUTPUT_BYTES && WithinBudgets(r.value)
      ensures r.Ok? ==> Targets(r.value) == Targets(before) + AdmittedLine(root, line)
    {
      var relative := AllowedDocumentPath(root, line);
      if relative.None? {
        assert Targets(before) + AdmittedLine(root, line) == Targets(before);
        return Ok(before);
      }
      var document := ReadDocument(remote, script, Target(root, line, relative.value));
      if document.Err? {
        return Err(document.error);
      }
      OneMoreDocument(before, document.value);
      OneMoreRead(remote, script, before, document.value, old(actions));
      return Ok(before + [document.value]);
    }

    /** Reads a root's listed documents until a budget is used up. */
    method ReadListed(remote: Remote, script: string, root: string, lines: seq<string>, before: seq<Document>)
      returns (r: Result<seq<Document>, Failure>)
      requires WithinBudgets(before)
      requires totalOutput <= MAX_TOTAL_OUTPUT_BYTES && AllRead(remote, script, before, actions)
      modifies this
      ensures old(actions) <= actions && (r.Ok? ==> AllRead(remote, script, r.value, actions))
      ensures r.Ok? ==> totalOutput <= MAX_TOTAL_OUTPUT_BYTES && WithinBudgets(r.value)
      ensures r.Ok? ==> Targets(r.value) <= Targets(before) + Admitted(root, lines)
      ensures r.Ok? && !Full(r.value) ==> Targets(r.value) == Targets(before) + Admitted(root, lines)
    {
      var documents := before;
      var n := 0;
      ghost var start := Targets(before);
      NoneAdmitted(root, lines, start);
      while n < |lines| && !Full(documents)
        invariant n <= |lines|
        invariant totalOutput <= MAX_TOTAL_OUTPUT_BYTES && WithinBudgets(documents)
        invariant old(actions) <= actions && AllRead(remote, script, documents, actions)
        invariant AdmittedSoFar(Targets(documents), start, root, lines, n)
      {
        ghost var was := Targets(documents);
        var read := ReadLine(remote, script, root, lines[n], documents);
        if read.Err? {
          return Err(read.error);
        }
        AdmittedNext(was, start, root, lines, n);
        documents := read.value;
        n := n + 1;
      }
      AdmittedEnds(Targets(documents), start, root, lines, n);
      return Ok(documents);
    }

    method ListRoot(remote: Remote, script: string, root: string, listings: seq<Listing>, before: seq<Document>)
      returns (r: Result<Listing, Failure>)
      requires totalOutput <= MAX_TOTAL_OUTPUT_BYTES
      requires AllRead(remote, script, before, actions) && AllListed(remote, listings, actions)
      modifies this
      ensures r.Ok? ==> totalOutput <= MAX_TOTAL_OUTPUT_BYTES && r.value.root == root
      ensures r.Ok? ==> AllRead(remote, script, before, actions) && AllListed(remote, listings + [r.value], actions)
    {
      if !ValidProjectRoot(root) {
        return Err(InvalidDocument);
      }
      var number := actions;
      var listed := Action(remote, ListCommand(root));
      if listed.Err? {
        return Err(listed.error);
      }
      OneMoreListed(remote, listings, Listing(number, root, listed.value), number);
      LaterRead(remote, script, before, number, actions);
      return Ok(Listing(number, root, listed.value));
    }

    /** Lists one root and reads what it may. */
    method ReadRoot(remote: Remote, script: string, root: string, listings: seq<Listing>, before: seq<Document>)
      returns (r: Result<seq<Document>, Failure>, now: seq<Listing>)
      requires totalOutput <= MAX_TOTAL_OUTPUT_BYTES && WithinBudgets(before) && Targets(before) == Planned(listings)
      requires AllRead(remote, script, before, actions) && AllListed(remote, listings, actions)
      modifies this
      ensures r.Ok? ==> AllRead(remote, script, r.value, actions) && AllListed(remote, now, actions)
      ensures r.Ok? ==> totalOutput <= MAX_TOTAL_OUTPUT_BYTES && WithinBudgets(r.value)
      ensures r.Ok? ==> RootsOf(now) == RootsOf(listings) + [root] && Targets(r.value) <= Planned(now)
      ensures r.Ok? && !Full(r.value) ==> Targets(r.value) == Planned(now)
    {
      var listing := ListRoot(remote, script, root, listings, before);
      if listing.Err? {
        return Err(listing.error), listings;
      }
      OneMoreListing(listings, listing.value);
      now := listings + [listing.value];
      ghost var listedBy := actions;
      r := ReadListed(remote, script, root, Lines(listing.value.stdout), before);
      LaterListed(remote, now, listedBy, actions);
    }

    /** Lists up to eight roots and reads their documents; the listings tell what there was to read. */
    method CollectDocuments(remote: Remote, script: string, allRoots: seq<string>)
      returns (r: Result<seq<Document>, Failure>, listings: seq<Listing>)
      requires totalOutput <= MAX_TOTAL_OUTPUT_BYTES
      modifies this
      ensures r.Ok? ==> totalOutput <= MAX_TOTAL_OUTPUT_BYTES && WithinBudgets(r.value)
      ensures r.Ok? ==> AllRead(remote, script, r.value, actions) && AllListed(remote, listings, actions)
      ensures r.Ok? ==> RootsOf(listings) <= ChosenRoots(allRoots) && Targets(r.value) <= Planned(listings)
      ensures r.Ok? && !Full(r.value) ==>
                RootsOf(listings) == ChosenRoots(allRoots) && Targets(r.value) == Planned(listings)
    {
      var roots := ChosenRoots(allRoots);
      var documents: seq<Document> := [];
      listings := [];
      var i := 0;
      ProgressStarts(documents, listings, roots);
      while i < |roots| && !Full(documents)
        invariant i <= |roots|
        invariant totalOutput <= MAX_TOTAL_OUTPUT_BYTES && WithinBudgets(documents)
        invariant AllRead(remote, script, documents, actions) && AllListed(remote, listings, actions)
        invariant Progress(documents, listings, roots, i)
      {
        ghost var before := listings;
        r, listings := ReadRoot(remote, script, roots[i], listings, documents);
        if r.Err? {
          return;
        }
        ProgressNext(r.value, before, listings, roots, i);
        documents := r.value;
        i := i + 1;
      }
      ProgressEnds(documents, listings, roots, i);
      r := Ok(documents);
    }

    /** A whole discovery: the fixed commands, each of which must succeed and parse, then the documents. */
    method Discover(remote: Remote, fixed: seq<string>, parses: (nat, string) -> bool,
        rootsOf: seq<string> -> seq<string>,
                    script: string)
      returns (r: Result<seq<Document>, Failure>, listings: seq<Listing>)
      requires totalOutput == 0
      modifies this
      ensures r.Ok? ==> totalOutput <= 4_194_304 && WithinBudgets(r.value)
      ensures r.Ok? ==> |r.value| <= 32 && CapturedBytes(r.value) < 589_824
      ensures r.Ok? ==> AllRead(remote, script, r.value, actions) && AllListed(remote, listings, actions)
      ensures r.Ok? ==> |RootsOf(listings)| <= 8 && Targets(r.value) <= Planned(listings)
      ensures r.Ok? && |r.value| < 32 && CapturedBytes(r.value) < 524_288 ==> Targets(r.value) == Planned(listings)
    {
      var outputs: seq<string> := [];
      listings := [];
      for i := 0 to |fixed|
        invariant totalOutput <= MAX_TOTAL_OUTPUT_BYTES
      {
        var output := Action(remote, fixed[i]);
        if output.Err? {
          return Err(output.error), [];
        }
        if !parses(i, output.value) {
          return Err(InvalidOutput), [];
        }
        outputs := outputs + [output.value];
      }
      ChosenAreFew(rootsOf(outputs));
      r, listings := CollectDocuments(remote, script, rootsOf(outputs));
      if r.Ok? {
        BudgetsInNumbers(r.value);
      }
    }
  }

  /** After `i` roots: what was read begins what was planned, and is all of it while there is room. */
  ghost predicate Progress(documents: seq<Document>, listings: seq<Listing>, roots: seq<string>, i: nat) {
    && i <= |roots| && RootsOf(listings) == roots[..i]
    && Targets(documents) <= Planned(listings)
    && (!Full(documents) ==> Targets(documents) == Planned(listings))
  }

  lemma ProgressStarts(documents: seq<Document>, listings: seq<Listing>, roots: seq<string>)
    requires documents == [] && listings == []
    ensures Progress(documents, listings, roots, 0)
  {
  }

  lemma OneMoreRoot(roots: seq<string>, i: nat)
    requires i < |roots|
    ensures roots[..i + 1] == roots[..i] + [roots[i]]
  {
  }

  lemma ProgressNext(documents: seq<Document>, before: seq<Listing>, listings: seq<Listing>, roots: seq<string>, i: nat)
    requires i < |roots| && RootsOf(before) == roots[..i] && RootsOf(listings) == RootsOf(before) + [roots[i]]
    requires Targets(documents) <= Planned(listings)
    requires !Full(documents) ==> Targets(documents) == Planned(listings)
    ensures Progress(documents, listings, roots, i + 1)
  {
    OneMoreRoot(roots, i);
  }

  lemma ProgressEnds(documents: seq<Document>, listings: seq<Listing>, roots: seq<string>, i: nat)
    requires Progress(documents, listings, roots, i)
    ensures RootsOf(listings) <= roots
    ensures i == |roots| ==> RootsOf(listings) == roots
  {
    assert roots[..|roots|] == roots;
  }

  lemma {:induction false} SortKeepsLength(keys: seq<string>)
    ensures |KeyOrder.Sort(keys)| == |keys|
  {
    if keys != [] {
      SortKeepsLength(keys[1..]);
      InsertAddsOne(keys[0], KeyOrder.Sort(keys[1..]));
    }
  }

  lemma {:induction false} InsertAddsOne(key: string, keys: seq<string>)
    requires KeyOrder.Sorted(keys)
    ensures |KeyOrder.Insert(key, keys)| == |keys| + 1
  {
    if keys != [] && !KeyOrder.AtMost(key, keys[0]) {
      InsertAddsOne(key, keys[1..]);
    }
  }

  lemma ChosenAreFew(allRoots: seq<string>)
    ensures |ChosenRoots(allRoots)| <= MAX_PROJECT_ROOTS
  {
    SortKeepsLength(if |allRoots| <= MAX_PROJECT_ROOTS then allRoots else allRoots[..MAX_PROJECT_ROOTS]);
  }

  lemma {:induction false} AdmittedPrefix(root: string, lines: seq<string>, n: nat)
    requires n <= |lines|
    ensures Admitted(root, lines[..n]) <= Admitted(root, lines)
  {
    if n == |lines| {
      assert lines[..n] == lines;
    } else {
      assert lines[..|lines| - 1][..n] == lines[..n];
      AdmittedPrefix(root, lines[..|lines| - 1], n);
    }
  }

  function ChosenRoots(allRoots: seq<string>): seq<string> {
    KeyOrder.Sort(if |allRoots| <= MAX_PROJECT_ROOTS then allRoots else allRoots[..MAX_PROJECT_ROOTS])
  }

  function RootsOf(listings: seq<Listing>): seq<string> {
    seq(|listings|, i requires 0 <= i < |listings| => listings[i].root)
  }

  lemma OneMoreListing(listings: seq<Listing>, listing: Listing)
    ensures RootsOf(listings + [listing]) == RootsOf(listings) + [listing.root]
    ensures Planned(listings + [listing]) == Planned(listings) + Admitted(listing.root, Lines(listing.stdout))
  {
    assert (listings + [listing])[..|listings + [listing]| - 1] == listings;
  }

  /** f puts together what g makes of each element, in order. */
  ghost predicate Gathers<A(!new), B(!new)>(f: seq<A> -> seq<B>, g: A -> seq<B>) {
    f([]) == [] && forall front, last :: f(front + [last]) == f(front) + g(last)
  }

  lemma {:induction false} GatheredAre<A(!new), B(!new)>(f: seq<A> -> seq<B>, g: A -> seq<B>, s: seq<A>, t: B)
    requires Gathers(f, g)
    ensures t in f(s) <==> exists a :: a in s && t in g(a)
  {
    if s != [] {
      var front, last := s[..|s| - 1], s[|s| - 1];
      GatheredAre(f, g, front, t);
      assert front + [last] == s;
    }
  }

  lemma {:induction false} GatheredInOrder<A(!new), B(!new)>(f: seq<A> -> seq<B>, g: A -> seq<B>, a: seq<A>, b: seq<A>)
    requires Gathers(f, g)
    ensures f(a + b) == f(a) + f(b)
  {
    if b == [] {
      assert a + b == a;
    } else {
      var front, last := b[..|b| - 1], b[|b| - 1];
      GatheredInOrder(f, g, a, front);
      assert front + [last] == b && (a + front) + [last] == a + b;
    }
  }

  /** The listing holds the target's path on a line of its own, and it is admitted below that root. */
  predicate Lists(listing: Listing, t: Target) {
    && t.root == listing.root && t.path in Lines(listing.stdout)
    && AllowedDocumentPath(t.root, t.path) == Some(t.relative)
  }

  lemma AdmittedGathers(root: string)
    ensures Gathers((lines: seq<string>) => Admitted(root, lines), (line: string) => AdmittedLine(root, line))
  {
    forall lines: seq<string>, line: string
      ensures Admitted(root, lines + [line]) == Admitted(root, lines) + AdmittedLine(root, line)
    {
      assert (lines + [line])[..|lines + [line]| - 1] == lines;
    }
  }

  lemma PlannedGathers()
    ensures Gathers((listings: seq<Listing>) => Planned(listings), (listing: Listing) => AdmittedIn(listing))
  {
    forall listings: seq<Listing>, listing: Listing
      ensures Planned(listings + [listing]) == Planned(listings) + AdmittedIn(listing)
    {
      OneMoreListing(listings, listing);
    }
  }

  lemma AdmittedOne(root: string, line: string, t: Target)
    ensures t in AdmittedLine(root, line) <==> t.root == root && t.path == line && IsAdmitted(t)
  {
  }

  lemma ListsMeans(listing: Listing, t: Target)
    ensures t in AdmittedIn(listing) <==> Lists(listing, t)
  {
    var lines, root := Lines(listing.stdout), listing.root;
    AdmittedGathers(root);
    GatheredAre((lines: seq<string>) => Admitted(root, lines), (line: string) => AdmittedLine(root, line), lines, t);
    forall line ensures t in AdmittedLine(root, line) <==> t.root == root && t.path == line && IsAdmitted(t) {
      AdmittedOne(root, line, t);
    }
  }

  /** What there is to read: the admitted paths of the listings, and nothing else. */
  lemma PlannedExactly(listings: seq<Listing>, t: Target)
    ensures t in Planned(listings) <==> exists listing :: listing in listings && Lists(listing, t)
  {
    PlannedGathers();
    GatheredAre((listings: seq<Listing>) => Planned(listings), (listing: Listing) => AdmittedIn(listing), listings, t);
    forall listing ensures t in AdmittedIn(listing) <==> Lists(listing, t) {
      ListsMeans(listing, t);
    }
  }

  /** Listings are read in order, and so are the lines of each. */
  lemma PlannedInOrder(a: seq<Listing>, b: seq<Listing>, root: string, x: seq<string>, y: seq<string>)
    ensures Planned(a + b) == Planned(a) + Planned(b)
    ensures Admitted(root, x + y) == Admitted(root, x) + Admitted(root, y)
  {
    PlannedGathers();
    GatheredInOrder((listings: seq<Listing>) => Planned(listings), (listing: Listing) => AdmittedIn(listing), a, b);
    AdmittedGathers(root);
    GatheredInOrder((lines: seq<string>) => Admitted(root, lines), (line: string) => AdmittedLine(root, line), x, y);
  }

  /** Of the roots found, the first eight are listed, in byte order. */
  lemma ChosenExactly(allRoots: seq<string>, root: string)
    ensures root in ChosenRoots(allRoots) <==> exists i :: 0 <= i < |allRoots| && i < 8 && allRoots[i] == root
    ensures KeyOrder.Sorted(ChosenRoots(allRoots)) && |ChosenRoots(allRoots)| <= 8
    ensures |allRoots| <= 8 ==> |ChosenRoots(allRoots)| == |allRoots|
  {
    var first := if |allRoots| <= 8 then allRoots else allRoots[..8];
    SortKeepsLength(first);
    assert root in first <==> exists i :: 0 <= i < |first| && first[i] == root;
  }
}
