/**
 Byte strings. Text that the program handles as UTF-8 is a sequence of
 characters standing for its bytes, so lengths are byte lengths.
 */
module Text {
  import opened Wrappers

  predicate IsSpace(c: char) {
    c == ' ' || c == '\t' || c == '\n' || c == '\r' || c == '\U{0B}' || c == '\U{0C}'
  }

  predicate IsLineEnd(c: char) {
    c == '\r' || c == '\n'
  }

  function TrimStart(s: string, drop: char -> bool): string {
    if s != [] && drop(s[0]) then TrimStart(s[1..], drop) else s
  }

  function TrimEnd(s: string, drop: char -> bool): string {
    if s != [] && drop(s[|s| - 1]) then TrimEnd(s[..|s| - 1], drop) else s
  }

  function Trim(s: string, drop: char -> bool): string {
    TrimEnd(TrimStart(s, drop), drop)
  }

  /** Trimming cuts characters to drop off both ends, and all of them. */
  lemma {:induction false} TrimCutsEnds(s: string, drop: char -> bool) returns (left: string, right: string)
    ensures s == left + Trim(s, drop) + right
    ensures forall i :: 0 <= i < |left| ==> drop(left[i])
    ensures forall i :: 0 <= i < |right| ==> drop(right[i])
    ensures Trim(s, drop) != "" ==> !drop(Trim(s, drop)[0]) && !drop(Trim(s, drop)[|Trim(s, drop)| - 1])
  {
    left := TrimStartCuts(s, drop);
    right := TrimEndCuts(TrimStart(s, drop), drop);
    assert Trim(s, drop) != "" ==> Trim(s, drop)[0] == TrimStart(s, drop)[0];
  }

  lemma {:induction false} TrimStartCuts(s: string, drop: char -> bool) returns (left: string)
    ensures s == left + TrimStart(s, drop)
    ensures forall i :: 0 <= i < |left| ==> drop(left[i])
    ensures TrimStart(s, drop) != "" ==> !drop(TrimStart(s, drop)[0])
  {
    if s != "" && drop(s[0]) {
      left := TrimStartCuts(s[1..], drop);
      left := [s[0]] + left;
    } else {
      left := "";
    }
  }

  lemma {:induction false} TrimEndCuts(s: string, drop: char -> bool) returns (right: string)
    ensures s == TrimEnd(s, drop) + right
    ensures forall i :: 0 <= i < |right| ==> drop(right[i])
    ensures TrimEnd(s, drop) != "" ==> !drop(TrimEnd(s, drop)[|TrimEnd(s, drop)| - 1])
  {
    if s != "" && drop(s[|s| - 1]) {
      right := TrimEndCuts(s[..|s| - 1], drop);
      right := right + [s[|s| - 1]];
    } else {
      right := "";
    }
  }

  predicate StartsWith(s: string, prefix: string) {
    prefix <= s
  }

  predicate EndsWith(s: string, suffix: string) {
    |suffix| <= |s| && s[|s| - |suffix|..] == suffix
  }

  /** The first position at or after `from` where `needle` occurs. */
  function FindFrom(s: string, needle: string, from: nat): (r: Option<nat>)
    requires from <= |s|
    ensures r.Some? ==> from <= r.value && r.value + |needle| <= |s|
    decreases |s| - from
  {
    if OccursAt(s, needle, from) then Some(from)
    else if from == |s| then None
    else FindFrom(s, needle, from + 1)
  }

  predicate OccursAt(s: string, needle: string, k: nat) {
    k <= |s| && needle <= s[k..]
  }

  lemma {:induction false} FindsFirst(s: string, needle: string, from: nat)
    requires from <= |s|
    ensures var r := FindFrom(s, needle, from);
            if r.Some? then OccursAt(s, needle, r.value) && forall k :: from <= k < r.value ==> !OccursAt(s, needle, k)
            else forall k :: from <= k ==> !OccursAt(s, needle, k)
    decreases |s| - from
  {
    if !OccursAt(s, needle, from) && from < |s| {
      FindsFirst(s, needle, from + 1);
    }
  }

  lemma FirstOccurrence(s: string, needle: string, k: nat)
    requires OccursAt(s, needle, k) && forall j :: 0 <= j < k ==> !OccursAt(s, needle, j)
    ensures FindFrom(s, needle, 0) == Some(k)
  {
    FindsFirst(s, needle, 0);
  }

  lemma FirstNewline(line: string, rest: string)
    requires '\n' !in line
    ensures FindFrom(line + "\n" + rest, "\n", 0) == Some(|line|)
  {
    var s := line + "\n" + rest;
    assert s[|line|..] == "\n" + rest;
    forall j | 0 <= j < |line| ensures !OccursAt(s, "\n", j) {
      assert s[j..][0] == s[j] == line[j];
    }
    FirstOccurrence(s, "\n", |line|);
  }

  predicate Contains(s: string, needle: string) {
    FindFrom(s, needle, 0).Some?
  }

  ghost predicate Includes(s: string, needle: string) {
    exists before, after :: s == before + needle + after
  }

  /** What is found is what stands somewhere in the text. */
  lemma ContainsMeansIncludes(s: string, needle: string)
    ensures Contains(s, needle) <==> Includes(s, needle)
  {
    FindsFirst(s, needle, 0);
    if Contains(s, needle) {
      var k := FindFrom(s, needle, 0).value;
      assert s == s[..k] + needle + s[k + |needle|..];
    }
    if before, after :| s == before + needle + after {
      IncludedAt(before, needle, after);
    }
  }

  lemma IncludedAt(before: string, needle: string, after: string)
    ensures OccursAt(before + needle + after, needle, |before|)
  {
    var s := before + needle + after;
    assert s[|before|..] == needle + after;
  }

  function LowerChar(c: char): char {
    if 'A' <= c <= 'Z' then ((c as int) + 32) as char else c
  }

  function Lower(s: string): (r: string)
    ensures |r| == |s|
    ensures forall i :: 0 <= i < |s| ==> r[i] == LowerChar(s[i])
  {
    if s == [] then [] else [LowerChar(s[0])] + Lower(s[1..])
  }

  /** The pieces of `s` between occurrences of `sep`: always at least one. */
  function Split(s: string, sep: char): (parts: seq<string>)
    ensures parts != []
  {
    if s == [] then [""]
    else if s[0] == sep then [""] + Split(s[1..], sep)
    else
      var rest := Split(s[1..], sep);
      [[s[0]] + rest[0]] + rest[1..]
  }

  lemma SplitCons(c: char, s: string, sep: char)
    ensures Split([c] + s, sep)
            == if c == sep then [""] + Split(s, sep) else [[c] + Split(s, sep)[0]] + Split(s, sep)[1..]
  {
    assert ([c] + s)[1..] == s;
  }

  lemma HeadJoins(head: char, left: seq<string>, right: seq<string>)
    requires left != []
    ensures [[head] + (left + right)[0]] + (left + right)[1..] == ([[head] + left[0]] + left[1..]) + right
  {
    assert (left + right)[0] == left[0] && (left + right)[1..] == left[1..] + right;
  }

  lemma EmptyHeadJoins(left: seq<string>, right: seq<string>)
    ensures [""] + (left + right) == ([""] + left) + right
  {
  }

  lemma SplitJoinedStep(c: char, rest: string, a: string, sep: char, right: seq<string>)
    requires Split(rest, sep) == Split(a, sep) + right
    ensures Split([c] + rest, sep) == Split([c] + a, sep) + right
  {
    var left := Split(a, sep);
    SplitCons(c, rest, sep);
    SplitCons(c, a, sep);
    EmptyHeadJoins(left, right);
    HeadJoins(c, left, right);
  }

  lemma HeadAndRest(a: string, b: string)
    requires a != []
    ensures [a[0]] + a[1..] == a && [a[0]] + (a[1..] + b) == a + b
  {
  }

  /** Splitting at a separator splits both sides. */
  lemma {:induction false} SplitJoined(a: string, sep: char, b: string)
    ensures Split(a + ([sep] + b), sep) == Split(a, sep) + Split(b, sep)
  {
    if a == [] {
      SplitCons(sep, b, sep);
      assert a + ([sep] + b) == [sep] + b;
    } else {
      SplitJoined(a[1..], sep, b);
      SplitJoinedStep(a[0], a[1..] + ([sep] + b), a[1..], sep, Split(b, sep));
      HeadAndRest(a, [sep] + b);
    }
  }

  /** A line that a newline ended, without the carriage return that may belong to it. */
  function WithoutReturn(line: string): string {
    if EndsWith(line, "\r") then line[..|line| - 1] else line
  }

  /** Lines without their terminators; text after the last newline is a line as it stands, unless empty. */
  function Lines(s: string): seq<string> {
    var parts := Split(s, '\n');
    var last := |parts| - 1;
    seq(last, i requires 0 <= i < last => WithoutReturn(parts[i])) + (if parts[last] == "" then [] else [parts[last]])
  }

  /** The maximal runs of characters that are not white space. */
  function Fields(s: string): seq<string> {
    FieldsWith(s, "")
  }

  function FieldsWith(s: string, word: string): seq<string>
    decreases |s|
  {
    var done := if word == "" then [] else [word];
    if s == [] then done
    else if IsSpace(s[0]) then done + FieldsWith(s[1..], "")
    else FieldsWith(s[1..], word + [s[0]])
  }

  lemma FirstColon(a: string, x: string, i: nat)
    requires ':' !in a && i <= |a|
    ensures (a + ":" + x)[i] == ':' <==> i == |a|
  {
    if i < |a| {
      assert (a + ":" + x)[i] == a[i] && a[i] in a;
    }
  }

  lemma ColonSplitsOnce(a: string, b: string, x: string, y: string)
    requires a + ":" + x == b + ":" + y
    requires ':' !in a && ':' !in b
    ensures a == b && x == y
  {
    var shorter := if |a| < |b| then |a| else |b|;
    FirstColon(a, x, shorter);
    FirstColon(b, y, shorter);
    var s := a + ":" + x;
    assert s == b + ":" + y;
    assert a == s[..|a|] && b == s[..|b|] && x == s[|a| + 1..] && y == s[|b| + 1..];
  }
}
