/**
 What the process summary counts, prints and accepts, told by the lines and fields alone
 (backend/src/monitoring.rs).
 */
module SummaryOutcome {
  import opened Wrappers
  import opened Text
  import opened Decimals
  import opened ProcessSummary

  // ---- the state of a process ---------------------------------------------------------------

  /** The word before the first blank. */
  ghost predicate FirstWord(s: string, word: string) {
    ' ' !in word && (s == word || exists rest :: s == word + " " + rest)
  }

  /** What stands behind the last ") ", or the whole line where there is none. */
  ghost predicate IsTail(line: string, tail: string) {
    !Includes(tail, ") ") && (line == tail || exists name :: line == name + ") " + tail)
  }

  /** A process line whose name is followed by this state. */
  ghost predicate ShowsState(line: string, state: string) {
    exists tail :: IsTail(line, tail) && FirstWord(tail, state)
  }

  lemma {:induction false} WordIsFirst(s: string)
    ensures FirstWord(s, UpToSpace(s))
  {
    if s == "" || s[0] == ' ' {
      assert s != "" ==> s == "" + " " + s[1..];
    } else {
      WordIsFirst(s[1..]);
      var word := UpToSpace(s[1..]);
      assert UpToSpace(s) == [s[0]] + word;
      if rest :| s[1..] == word + " " + rest {
        assert s == [s[0]] + word + " " + rest;
      }
    }
  }

  lemma {:induction false} FirstIsWord(word: string, rest: string)
    requires ' ' !in word && (rest == "" || rest[0] == ' ')
    ensures UpToSpace(word + rest) == word
  {
    if word != "" {
      assert (word + rest)[1..] == word[1..] + rest;
      FirstIsWord(word[1..], rest);
    } else {
      assert word + rest == rest;
    }
  }

  lemma WordMeans(s: string, word: string)
    ensures UpToSpace(s) == word <==> FirstWord(s, word)
  {
    WordIsFirst(s);
    if ' ' !in word && s == word {
      FirstIsWord(word, "");
      assert word + "" == word;
    }
    if rest :| ' ' !in word && s == word + " " + rest {
      FirstIsWord(word, " " + rest);
      assert word + (" " + rest) == s;
    }
  }

  lemma CloseMeans(s: string)
    ensures HasClose(s) <==> Includes(s, ") ")
  {
    if HasClose(s) {
      var i :| 0 <= i < |s| - 1 && s[i] == ')' && s[i + 1] == ' ';
      assert s == s[..i] + ") " + s[i + 2..];
    }
    if before, after :| s == before + ") " + after {
      assert s[|before|] == ')' && s[|before| + 1] == ' ';
    }
  }

  lemma {:induction false} LastClose(line: string, from: nat) returns (name: string, tail: string)
    requires from + 1 < |line| && line[from] == ')' && line[from + 1] == ' '
    ensures line == name + ") " + tail && !HasClose(tail)
    decreases |line| - from
  {
    name, tail := line[..from], line[from + 2..];
    if HasClose(tail) {
      var i :| 0 <= i < |tail| - 1 && tail[i] == ')' && tail[i + 1] == ' ';
      name, tail := LastClose(line, from + 2 + i);
    }
  }

  lemma TailMeans(line: string, tail: string)
    ensures AfterCommandName(line) == tail <==> IsTail(line, tail)
  {
    CloseMeans(tail);
    CloseMeans(line);
    if !HasClose(line) {
      NoClose(line);
      if name :| line == name + ") " + tail {
        assert Includes(line, ") ");
      }
    } else {
      var i :| 0 <= i < |line| - 1 && line[i] == ')' && line[i + 1] == ' ';
      var name, last := LastClose(line, i);
      CommandNameIsSkipped(name, last);
      CloseMeans(last);
      if before :| line == before + ") " + tail && !HasClose(tail) {
        CommandNameIsSkipped(before, tail);
      }
    }
  }

  /** The state is the word behind the command's name, whatever that name holds. */
  lemma StateMeans(line: string, state: string)
    ensures StateOf(line) == state <==> ShowsState(line, state)
  {
    var tail := AfterCommandName(line);
    TailMeans(line, tail);
    WordMeans(tail, state);
    if other :| IsTail(line, other) && FirstWord(other, state) {
      TailMeans(line, other);
    }
  }

  // ---- the counts ----------------------------------------------------------------------------

  /** The positions of the entries of a kind. */
  ghost function Positions(entries: Listing, kind: Option<string> -> bool): set<nat> {
    set i: nat | i < |entries| && kind(entries[i])
  }

  lemma PositionsNext(entries: Listing, kind: Option<string> -> bool)
    requires entries != []
    ensures var n := |entries| - 1;
            |Positions(entries, kind)| == |Positions(entries[..n], kind)| + (if kind(entries[n]) then 1 else 0)
  {
    var n := |entries| - 1;
    var before := Positions(entries[..n], kind);
    assert n !in before;
    assert Positions(entries, kind) == before + (if kind(entries[n]) then {n} else {});
  }

  ghost function Shows(state: string): Option<string> -> bool {
    (entry: Option<string>) => entry.Some? && ShowsState(entry.value, state)
  }

  function CouldBeRead(): Option<string> -> bool {
    (entry: Option<string>) => entry.Some?
  }

  lemma {:induction false} StatesAreCounted(entries: Listing, state: string)
    ensures InState(entries, state) == |Positions(entries, Shows(state))|
  {
    if entries != [] {
      var last := entries[|entries| - 1];
      StatesAreCounted(entries[..|entries| - 1], state);
      PositionsNext(entries, Shows(state));
      if last.Some? {
        StateMeans(last.value, state);
      }
    }
  }

  lemma {:induction false} ReadsAreCounted(entries: Listing)
    ensures ReadCount(entries) == |Positions(entries, CouldBeRead())|
  {
    if entries != [] {
      ReadsAreCounted(entries[..|entries| - 1]);
      PositionsNext(entries, CouldBeRead());
    }
  }

  /** The first k entries are looked at: all, or as many as it takes to read 4096. */
  ghost predicate LooksAt(entries: Listing, k: nat) {
    && k <= |entries|
    && (forall j: nat :: j < k ==> |Positions(entries[..j], CouldBeRead())| < 4096)
    && (k < |entries| ==> |Positions(entries[..k], CouldBeRead())| == 4096)
  }

  lemma StopsMeans(entries: Listing, k: nat)
    ensures StopsAt(entries, k) <==> LooksAt(entries, k)
  {
    forall j: nat | j <= |entries| ensures ReadCount(entries[..j]) == |Positions(entries[..j], CouldBeRead())| {
      ReadsAreCounted(entries[..j]);
    }
  }

  /** Each number counts entries among those looked at. */
  lemma SummaryIsMeant(entries: Listing, k: nat)
    requires StopsAt(entries, k)
    ensures LooksAt(entries, k)
    ensures var c := CountAll(entries[..k]).(truncated := k < |entries|);
            var seen := entries[..k];
            && c.scanned == |Positions(seen, CouldBeRead())| <= 4096 && c.raced == k - c.scanned
            && c.running == |Positions(seen, Shows("R"))| && c.blocked == |Positions(seen, Shows("D"))|
            && c.zombie == |Positions(seen, Shows("Z"))| && (c.truncated <==> k < |entries|)
  {
    StopsMeans(entries, k);
    SummaryOfListing(entries, k);
    CountAllCounts(entries[..k]);
    ReadsAreCounted(entries[..k]);
    StatesAreCounted(entries[..k], "R");
    StatesAreCounted(entries[..k], "D");
    StatesAreCounted(entries[..k], "Z");
  }

  // ---- the line -------------------------------------------------------------------------------

  lemma PairThenMore(first: Pair, second: Pair, rest: seq<Pair>)
    ensures PrintPairs([first] + ([second] + rest))
            == first.key + "=" + first.value + " " + PrintPairs([second] + rest)
  {
    assert ([first] + ([second] + rest))[1..] == [second] + rest;
    assert PrintPair(first) + ([' '] + PrintPairs([second] + rest))
           == first.key + "=" + first.value + " " + PrintPairs([second] + rest);
  }

  lemma PairAlone(p: Pair)
    ensures PrintPairs([p]) == p.key + "=" + p.value + "\n"
  {
    assert [p][1..] == [];
    assert PrintPair(p) + (['\n'] + "") == p.key + "=" + p.value + "\n";
  }

  lemma SixPairs(a: Pair, b: Pair, c: Pair, d: Pair, e: Pair, f: Pair)
    ensures PrintPairs([a, b, c, d, e, f])
            == a.key + "=" + a.value + " " + (b.key + "=" + b.value + " " + (c.key + "=" + c.value + " "
               + (d.key + "=" + d.value + " " + (e.key + "=" + e.value + " " + (f.key + "=" + f.value + "\n")))))
  {
    PairThenMore(a, b, [c, d, e, f]);
    PairThenMore(b, c, [d, e, f]);
    PairThenMore(c, d, [e, f]);
    PairThenMore(d, e, [f]);
    PairThenMore(e, f, []);
    PairAlone(f);
    assert [a] + ([b] + [c, d, e, f]) == [a, b, c, d, e, f] && [b] + ([c] + [d, e, f]) == [b, c, d, e, f];
    assert [c] + ([d] + [e, f]) == [c, d, e, f] && [d] + ([e] + [f]) == [d, e, f] && [e] + ([f] + []) == [e, f];
  }

  /** The printed line, word for word. */
  lemma PrintedText(c: Summary)
    ensures Printed(c)
            == "scanned" + "=" + Digits(c.scanned) + " " + ("running" + "=" + Digits(c.running) + " "
               + ("blocked" + "=" + Digits(c.blocked) + " " + ("zombie" + "=" + Digits(c.zombie) + " "
               + ("raced" + "=" + Digits(c.raced) + " "
               + ("truncated" + "=" + (if c.truncated then "1" else "0") + "\n")))))
  {
    var p := PairsOf(c);
    SixPairs(p[0], p[1], p[2], p[3], p[4], p[5]);
  }

  // ---- the parser -------------------------------------------------------------------------------

  /** The field gives the key this value. */
  predicate Gives(field: string, key: string, value: string) {
    '=' !in key && field == key + "=" + value
  }

  lemma {:induction false} SplitGives(field: string)
    requires SplitOnce(field).Some?
    ensures Gives(field, SplitOnce(field).value.key, SplitOnce(field).value.value)
  {
    if field[0] == '=' {
      assert field == "" + "=" + field[1..];
    } else {
      SplitGives(field[1..]);
      assert field == [field[0]] + field[1..];
    }
  }

  lemma SplitMeans(field: string, key: string, value: string)
    ensures SplitOnce(field) == Some(Pair(key, value)) <==> Gives(field, key, value)
  {
    if SplitOnce(field).Some? {
      SplitGives(field);
    }
    if Gives(field, key, value) {
      SplitsPair(key, value);
    }
  }

  ghost predicate GivesAny(field: string, key: string) {
    exists value :: Gives(field, key, value)
  }

  /** The last field that gives the key a value gives it this one. */
  ghost predicate LastGives(fields: seq<string>, key: string, value: string) {
    exists i :: 0 <= i < |fields| && Gives(fields[i], key, value) && NoneBehind(fields, key, i)
  }

  ghost predicate NoneBehind(fields: seq<string>, key: string, i: int) {
    forall j :: 0 <= j < |fields| && i < j ==> !GivesAny(fields[j], key)
  }

  lemma AnyMeans(field: string, key: string)
    ensures GivesAny(field, key) <==> SplitOnce(field).Some? && SplitOnce(field).value.key == key
  {
    if SplitOnce(field).Some? {
      SplitGives(field);
    }
    if value :| Gives(field, key, value) {
      SplitMeans(field, key, value);
    }
  }

  lemma LastGivesNext(front: seq<string>, last: string, key: string, value: string)
    ensures LastGives(front + [last], key, value)
            <==> if GivesAny(last, key) then Gives(last, key, value) else LastGives(front, key, value)
  {
    var fields := front + [last];
    var n := |front|;
    if Gives(last, key, value) {
      assert NoneBehind(fields, key, n) && fields[n] == last;
    }
    if i :| 0 <= i < |front| && Gives(front[i], key, value) && NoneBehind(front, key, i) && !GivesAny(last, key) {
      assert fields[i] == front[i] && NoneBehind(fields, key, i);
    }
    if i :| 0 <= i < |fields| && Gives(fields[i], key, value) && NoneBehind(fields, key, i) {
      assert fields[n] == last;
      if i < n {
        assert forall j :: 0 <= j < n ==> fields[j] == front[j];
        assert NoneBehind(front, key, i);
      }
    }
  }

  lemma {:induction false} LastValueMeans(fields: seq<string>, key: string, value: string)
    ensures LastValue(fields, key) == Some(value) <==> LastGives(fields, key, value)
  {
    if fields != [] {
      var front, last := fields[..|fields| - 1], fields[|fields| - 1];
      LastValueMeans(front, key, value);
      LastGivesNext(front, last, key, value);
      AnyMeans(last, key);
      SplitMeans(last, key, value);
      assert front + [last] == fields;
    }
  }

  /** The key's number, below 2^32. */
  ghost predicate ReadsNumber(fields: seq<string>, key: string, n: nat) {
    exists value :: LastGives(fields, key, value) && ParseUnsigned(value, 0x1_0000_0000) == Some(n)
  }

  lemma NumberMeans(fields: seq<string>, key: string, n: nat)
    ensures ParseU32(LastValue(fields, key)) == Some(n) <==> ReadsNumber(fields, key, n)
  {
    var found := LastValue(fields, key);
    if found.Some? {
      LastValueMeans(fields, key, found.value);
    }
    if value :| LastGives(fields, key, value) && ParseUnsigned(value, 0x1_0000_0000) == Some(n) {
      LastValueMeans(fields, key, value);
    }
  }

  ghost predicate GivesSome(field: string) {
    exists key :: GivesAny(field, key)
  }

  lemma SomeMeans(field: string)
    ensures GivesSome(field) <==> SplitOnce(field).Some?
  {
    if SplitOnce(field).Some? {
      AnyMeans(field, SplitOnce(field).value.key);
    }
    if key :| GivesAny(field, key) {
      AnyMeans(field, key);
    }
  }

  lemma PairsMean(fields: seq<string>)
    ensures AllPairs(fields) <==> forall i :: 0 <= i < |fields| ==> GivesSome(fields[i])
  {
    forall i | 0 <= i < |fields| ensures SplitOnce(fields[i]).Some? <==> GivesSome(fields[i]) {
      SomeMeans(fields[i]);
    }
  }

  /** The six values say this summary. */
  predicate Agrees(f: Found, c: Summary) {
    && ParseU32(f.scanned) == Some(c.scanned) && ParseU32(f.running) == Some(c.running)
    && ParseU32(f.blocked) == Some(c.blocked) && ParseU32(f.zombie) == Some(c.zombie)
    && ParseU32(f.raced) == Some(c.raced) && f.truncated == Some(if c.truncated then "1" else "0")
    && c.running + c.blocked + c.zombie <= c.scanned <= 4096
  }

  lemma SummaryAgrees(f: Found, c: Summary)
    ensures SummaryOf(f) == Some(c) <==> Agrees(f, c)
  {
  }

  /** The numbers under five keys and the flag under a sixth. */
  ghost predicate TellsUnder(fields: seq<string>, keys: seq<string>, c: Summary)
    requires |keys| == 6
  {
    && ReadsNumber(fields, keys[0], c.scanned) && ReadsNumber(fields, keys[1], c.running)
    && ReadsNumber(fields, keys[2], c.blocked) && ReadsNumber(fields, keys[3], c.zombie)
    && ReadsNumber(fields, keys[4], c.raced) && LastGives(fields, keys[5], if c.truncated then "1" else "0")
    && c.running + c.blocked + c.zombie <= c.scanned <= 4096
  }

  function FoundUnder(fields: seq<string>, keys: seq<string>): Found
    requires |keys| == 6
  {
    Found(LastValue(fields, keys[0]), LastValue(fields, keys[1]), LastValue(fields, keys[2]),
          LastValue(fields, keys[3]), LastValue(fields, keys[4]), LastValue(fields, keys[5]))
  }

  lemma FoundTells(fields: seq<string>, keys: seq<string>, c: Summary)
    requires |keys| == 6
    ensures Agrees(FoundUnder(fields, keys), c) <==> TellsUnder(fields, keys, c)
  {
    NumberMeans(fields, keys[0], c.scanned);
    NumberMeans(fields, keys[1], c.running);
    NumberMeans(fields, keys[2], c.blocked);
    NumberMeans(fields, keys[3], c.zombie);
    NumberMeans(fields, keys[4], c.raced);
    LastValueMeans(fields, keys[5], if c.truncated then "1" else "0");
  }

  /** A summary in fields that all are pairs: five numbers that fit together, and a flag. */
  ghost predicate Tells(fields: seq<string>, c: Summary) {
    && (forall i :: 0 <= i < |fields| ==> GivesSome(fields[i]))
    && TellsUnder(fields, ["scanned", "running", "blocked", "zombie", "raced", "truncated"], c)
  }

  /** Exactly such text is accepted, and as that summary. */
  lemma ParsedExactlyWhen(output: string, c: Summary)
    ensures ParsedSummary(output) == Some(c) <==> Tells(Fields(output), c)
  {
    var fields := Fields(output);
    var keys := ["scanned", "running", "blocked", "zombie", "raced", "truncated"];
    PairsMean(fields);
    assert FoundIn(fields) == FoundUnder(fields, keys);
    SummaryAgrees(FoundIn(fields), c);
    FoundTells(fields, keys, c);
  }
}
