/** Which paths a discovery reads, told by their characters and segments alone (backend/src/discovery.rs). */
module PathOutcome {
  import opened Wrappers
  import opened Text
  import opened DocumentPaths

  // ---- segments ---------------------------------------------------------------------------

  /** Segments with a slash between them. */
  function Joined(segments: seq<string>): string
    requires segments != []
  {
    if |segments| == 1 then segments[0] else segments[0] + ("/" + Joined(segments[1..]))
  }

  /** The slash-free segments of a path. */
  ghost predicate AreSegments(segments: seq<string>, path: string) {
    && segments != [] && Joined(segments) == path
    && forall i :: 0 <= i < |segments| ==> '/' !in segments[i]
  }

  lemma {:induction false} JoinedSplits(segments: seq<string>)
    requires segments != [] && forall i :: 0 <= i < |segments| ==> '/' !in segments[i]
    ensures Split(Joined(segments), '/') == segments
  {
    SplitWithout(segments[0], '/');
    if |segments| > 1 {
      JoinedSplits(segments[1..]);
      SplitJoined(segments[0], '/', Joined(segments[1..]));
      assert ['/'] + Joined(segments[1..]) == "/" + Joined(segments[1..]);
      assert [segments[0]] + segments[1..] == segments;
    }
  }

  lemma {:induction false} SplitAreSegments(path: string)
    ensures AreSegments(Split(path, '/'), path)
  {
    if path != "" {
      var rest := Split(path[1..], '/');
      SplitAreSegments(path[1..]);
      assert [path[0]] + path[1..] == path;
      if path[0] == '/' {
        assert ([""] + rest)[1..] == rest;
      } else {
        var segments := [[path[0]] + rest[0]] + rest[1..];
        assert segments[1..] == rest[1..];
        assert |rest| > 1 ==> [path[0]] + (rest[0] + ("/" + Joined(rest[1..]))) == path;
      }
    }
  }

  lemma SegmentsAreSplit(segments: seq<string>, path: string)
    ensures AreSegments(segments, path) <==> segments == Split(path, '/')
  {
    SplitAreSegments(path);
    if AreSegments(segments, path) {
      JoinedSplits(segments);
    }
  }

  // ---- what may be read ---------------------------------------------------------------------

  /** An absolute path of at most 4096 bytes without control characters that would end it, and without "..". */
  ghost predicate IsSane(path: string) {
    && 2 <= |path| <= 4096 && path[0] == '/'
    && (forall i :: 0 <= i < |path| ==> path[i] != '\0' && path[i] != '\n' && path[i] != '\r')
    && exists segments :: AreSegments(segments, path) && ".." !in segments
  }

  lemma SaneMeans(path: string)
    ensures ValidProjectRoot(path) <==> IsSane(path)
  {
    SplitAreSegments(path);
    if segments :| AreSegments(segments, path) && ".." !in segments {
      SegmentsAreSplit(segments, path);
    }
    assert forall i :: 0 <= i < |path| ==> path[i] in path;
    assert path != "" && path[0] == '/' && |path| < 2 ==> path == "/";
  }

  /** The path is the root without the slashes at its end, a slash, and the rest. */
  ghost predicate LiesBelow(root: string, path: string, relative: string) {
    exists prefix, slashes ::
      && root == prefix + slashes && path == prefix + ("/" + relative)
      && (forall i :: 0 <= i < |slashes| ==> slashes[i] == '/')
      && (prefix != "" ==> prefix[|prefix| - 1] != '/')
  }

  lemma {:induction false} TrimmedPrefix(prefix: string, slashes: string)
    requires forall i :: 0 <= i < |slashes| ==> slashes[i] == '/'
    requires prefix != "" ==> prefix[|prefix| - 1] != '/'
    ensures TrimEnd(prefix + slashes, IsSlash) == prefix
    decreases |slashes|
  {
    var s := prefix + slashes;
    if slashes == "" {
      assert s == prefix;
    } else {
      assert s[..|s| - 1] == prefix + slashes[..|slashes| - 1];
      TrimmedPrefix(prefix, slashes[..|slashes| - 1]);
    }
  }

  lemma BelowMeans(root: string, path: string, relative: string)
    ensures path == TrimEnd(root, IsSlash) + ("/" + relative) <==> LiesBelow(root, path, relative)
  {
    var slashes := TrimEndCuts(root, IsSlash);
    if path == TrimEnd(root, IsSlash) + ("/" + relative) {
      assert root == TrimEnd(root, IsSlash) + slashes;
    }
    if prefix, tail :| && root == prefix + tail && path == prefix + ("/" + relative)
                       && (forall i :: 0 <= i < |tail| ==> tail[i] == '/')
                       && (prefix != "" ==> prefix[|prefix| - 1] != '/')
    {
      TrimmedPrefix(prefix, tail);
    }
  }

  /** The same text in lower case. */
  predicate InLowerCase(lower: string, s: string) {
    && |lower| == |s|
    && forall i :: 0 <= i < |s| ==>
         if 'A' <= s[i] <= 'Z' then 'a' <= lower[i] <= 'z' && lower[i] as int - 'a' as int == s[i] as int - 'A' as int
         else lower[i] == s[i]
  }

  lemma LowerMeans(lower: string, s: string)
    ensures InLowerCase(lower, s) <==> lower == Lower(s)
  {
    if InLowerCase(lower, s) {
      forall i | 0 <= i < |s| ensures lower[i] == Lower(s)[i] {
      }
    }
  }

  ghost predicate Begins(s: string, part: string) {
    exists after :: s == part + after
  }

  ghost predicate Ends(s: string, part: string) {
    exists before :: s == before + part
  }

  lemma BeginningMeans(s: string, part: string)
    ensures Begins(s, part) <==> StartsWith(s, part)
  {
    if StartsWith(s, part) {
      assert s == part + s[|part|..];
    }
  }

  lemma EndMeans(s: string, part: string)
    ensures Ends(s, part) <==> EndsWith(s, part)
  {
    if EndsWith(s, part) {
      assert s == s[..|s| - |part|] + part;
    }
  }

  /** Version control, dependencies, build output, environments and keys. */
  ghost predicate IsPrivate(segment: string) {
    || segment in [".git", "node_modules", "target", ".env"]
    || Includes(segment, "secret") || Ends(segment, ".key") || Ends(segment, ".pem")
  }

  /** Instructions, compose files, readme and project files, and Markdown below a `docs` directory. */
  ghost predicate IsDocument(segments: seq<string>)
    requires segments != []
  {
    var file := segments[|segments| - 1];
    || file in ["agents.md", "docker-compose.yml", "compose.yml"]
    || Begins(file, "readme.") || Begins(file, "project.") || ("docs" in segments && Ends(file, ".md"))
  }

  /** In lower case no segment is private, and the last is a document's. */
  ghost predicate MayBeRead(relative: string) {
    && 1 <= |relative| <= 4096
    && exists lower, segments ::
         && InLowerCase(lower, relative) && AreSegments(segments, lower)
         && (forall i :: 0 <= i < |segments| ==> !IsPrivate(segments[i])) && IsDocument(segments)
  }

  lemma PrivateMeans(segment: string)
    ensures ForbiddenSegment(segment) <==> IsPrivate(segment)
  {
    ContainsMeansIncludes(segment, "secret");
    EndMeans(segment, ".key");
    EndMeans(segment, ".pem");
  }

  lemma DocumentMeans(segments: seq<string>)
    requires segments != []
    ensures AllowedFile(segments) <==> IsDocument(segments)
  {
    var file := segments[|segments| - 1];
    BeginningMeans(file, "readme.");
    BeginningMeans(file, "project.");
    EndMeans(file, ".md");
  }

  lemma NonePrivate(segments: seq<string>)
    ensures NoneForbidden(segments) <==> forall i :: 0 <= i < |segments| ==> !IsPrivate(segments[i])
  {
    forall i | 0 <= i < |segments| ensures ForbiddenSegment(segments[i]) <==> IsPrivate(segments[i]) {
      PrivateMeans(segments[i]);
    }
  }

  lemma ReadableMeans(relative: string)
    ensures Readable(relative) <==> MayBeRead(relative)
  {
    var lower := Lower(relative);
    var segments := Split(lower, '/');
    LowerMeans(lower, relative);
    SplitAreSegments(lower);
    NonePrivate(segments);
    DocumentMeans(segments);
    if MayBeRead(relative) {
      var low, parts :| && InLowerCase(low, relative) && AreSegments(parts, low)
                        && (forall i :: 0 <= i < |parts| ==> !IsPrivate(parts[i])) && IsDocument(parts);
      LowerMeans(low, relative);
      SegmentsAreSplit(parts, low);
    }
  }

  /**
   A path is read exactly when it and its root are sane, it lies below the root, and what lies
   between may be read; the answer is that part of it.
   */
  lemma AdmittedExactlyWhen(root: string, path: string, relative: string)
    ensures AllowedDocumentPath(root, path) == Some(relative)
            <==> IsSane(root) && IsSane(path) && LiesBelow(root, path, relative) && MayBeRead(relative)
  {
    AdmittedExactly(root, path, relative);
    SaneMeans(root);
    SaneMeans(path);
    BelowMeans(root, path, relative);
    ReadableMeans(relative);
  }
}
