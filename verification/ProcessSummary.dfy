/** The fixed process-summary loop, the line it prints, and its parser (backend/src/monitoring.rs). */
module ProcessSummary {
  import opened Wrappers
  import opened Text
  import opened Decimals

  const ENTRY_LIMIT := 4096

  /** The first line of each /proc/<pid>/stat in listing order; None when it could not be read. */
  type Listing = seq<Option<string>>

  datatype Summary = Summary(scanned: nat, running: nat, blocked: nat, zombie: nat, raced: nat, truncated: bool)

  const ZERO := Summary(0, 0, 0, 0, 0, false)

  // ---- the loop --------------------------------------------------------------------

  /** What is left behind the last occurrence of ") ", or the whole line. */
  function AfterCommandName(line: string): string
    decreases |line|
  {
    if |line| < 2 then line
    else
      var rest := AfterCommandName(line[1..]);
      if |rest| == |line| - 1 && line[0] == ')' && line[1] == ' ' then line[2..]
      else if |rest| == |line| - 1 then line
      else rest
  }

  function UpToSpace(s: string): string {
    if s == [] || s[0] == ' ' then "" else [s[0]] + UpToSpace(s[1..])
  }

  function StateOf(line: string): string {
    UpToSpace(AfterCommandName(line))
  }

  function Examined(c: Summary, entry: Option<string>): Summary {
    match entry
    case None => c.(raced := c.raced + 1)
    case Some(line) =>
      var state := StateOf(line);
      c.(scanned := c.scanned + 1,
         running := c.running + (if state == "R" then 1 else 0),
         blocked := c.blocked + (if state == "D" then 1 else 0),
         zombie := c.zombie + (if state == "Z" then 1 else 0))
  }

  function CountAll(entries: Listing): Summary {
    if entries == [] then ZERO else Examined(CountAll(entries[..|entries| - 1]), entries[|entries| - 1])
  }

  /** Entries whose line shows this state. */
  function InState(entries: Listing, state: string): nat {
    if entries == [] then 0
    else
      var last := entries[|entries| - 1];
      InState(entries[..|entries| - 1], state) + (if last.Some? && StateOf(last.value) == state then 1 else 0)
  }

  function ReadCount(entries: Listing): nat {
    if entries == [] then 0 else ReadCount(entries[..|entries| - 1]) + (if entries[|entries| - 1].Some? then 1 else 0)
  }

  /** The loop stops before entry `k`, or has seen them all. */
  ghost predicate StopsAt(entries: Listing, k: nat) {
    && k <= |entries|
    && (forall j :: 0 <= j < k ==> ReadCount(entries[..j]) < ENTRY_LIMIT)
    && (k < |entries| ==> ReadCount(entries[..k]) == ENTRY_LIMIT)
  }

  lemma {:induction false} CountAllCounts(entries: Listing)
    ensures var c := CountAll(entries);
            && c.scanned == ReadCount(entries) && c.raced == |entries| - ReadCount(entries) && !c.truncated
            && c.running == InState(entries, "R") && c.blocked == InState(entries, "D")
               && c.zombie == InState(entries, "Z")
            && c.running + c.blocked + c.zombie <= c.scanned
  {
    if entries != [] {
      CountAllCounts(entries[..|entries| - 1]);
    }
  }

  method Summarise(entries: Listing) returns (c: Summary, k: nat)
    ensures StopsAt(entries, k)
    ensures c == CountAll(entries[..k]).(truncated := k < |entries|)
  {
    var scanned, running, blocked, zombie, raced, truncated := 0, 0, 0, 0, 0, false;
    k := 0;
    while k < |entries|
      invariant k <= |entries|
      invariant CountAll(entries[..k]) == Summary(scanned, running, blocked, zombie, raced, false)
      invariant !truncated && scanned == ReadCount(entries[..k]) <= ENTRY_LIMIT
      invariant forall j :: 0 <= j < k ==> ReadCount(entries[..j]) < ENTRY_LIMIT
    {
      if scanned >= ENTRY_LIMIT {
        truncated := true;
        break;
      }
      assert entries[..k + 1][..k] == entries[..k];
      var entry := entries[k];
      k := k + 1;
      if entry.None? {
        raced := raced + 1;
        continue;
      }
      var state := StateOf(entry.value);
      if state == "R" {
        running := running + 1;
      } else if state == "D" {
        blocked := blocked + 1;
      } else if state == "Z" {
        zombie := zombie + 1;
      }
      scanned := scanned + 1;
    }
    c := Summary(scanned, running, blocked, zombie, raced, truncated);
  }

  /** The process state is read behind the last ") ", so parentheses and spaces in a command name do not matter. */
  lemma {:induction false} CommandNameIsSkipped(before: string, rest: string)
    requires !HasClose(rest)
    ensures AfterCommandName(before + ") " + rest) == rest
    decreases |before|
  {
    var line := before + ") " + rest;
    if before == [] {
      assert line[1..] == " " + rest && (" " + rest)[1..] == rest && line[2..] == rest;
      NoClose(rest);
      NoClose(" " + rest);
    } else {
      assert line[1..] == before[1..] + ") " + rest;
      CommandNameIsSkipped(before[1..], rest);
    }
  }

  predicate HasClose(s: string) {
    exists i :: 0 <= i < |s| - 1 && s[i] == ')' && s[i + 1] == ' '
  }

  lemma {:induction false} NoClose(s: string)
    requires !HasClose(s)
    ensures AfterCommandName(s) == s
    decreases |s|
  {
    if |s| >= 2 {
      assert forall i :: 0 <= i < |s[1..]| ==> s[1..][i] == s[i + 1];
      NoClose(s[1..]);
    }
  }

  /**
   What the loop reports: it looked at the first k entries, counted each once, and cut the listing
   short exactly when 4096 were read and more remained.
   */
  lemma SummaryOfListing(entries: Listing, k: nat)
    requires StopsAt(entries, k)
    ensures var c := CountAll(entries[..k]).(truncated := k < |entries|);
            && c.scanned + c.raced == k && c.scanned <= ENTRY_LIMIT
            && c.running == InState(entries[..k], "R") && c.blocked == InState(entries[..k], "D")
               && c.zombie == InState(entries[..k], "Z")
            && c.running + c.blocked + c.zombie <= c.scanned
            && (c.truncated <==> exists j :: 0 <= j < |entries| && ReadCount(entries[..j]) == ENTRY_LIMIT)
  {
    CountAllCounts(entries[..k]);
    if k > 0 {
      assert entries[..k][..k - 1] == entries[..k - 1];
      assert ReadCount(entries[..k - 1]) < ENTRY_LIMIT;
    }
    assert k < |entries| ==> ReadCount(entries[..k]) == ENTRY_LIMIT;
  }

  // ---- the printed line ----------------------------------------------------------------

  datatype Pair = Pair(key: string, value: string)

  function PairsOf(c: Summary): seq<Pair> {
    [Pair("scanned", Digits(c.scanned)), Pair("running", Digits(c.running)), Pair("blocked", Digits(c.blocked)),
     Pair("zombie", Digits(c.zombie)), Pair("raced", Digits(c.raced)),
         Pair("truncated", if c.truncated then "1" else "0")]
  }

  function PrintPair(p: Pair): string {
    p.key + "=" + p.value
  }

  /** Pairs separated by blanks, then a newline. */
  function PrintPairs(pairs: seq<Pair>): string {
    if pairs == [] then "" else PrintPair(pairs[0]) + ([Separator(pairs)] + PrintPairs(pairs[1..]))
  }

  function Separator(pairs: seq<Pair>): char {
    if |pairs| == 1 then '\n' else ' '
  }

  function Printed(c: Summary): string {
    PrintPairs(PairsOf(c))
  }

  // ---- the parser ------------------------------------------------------------------------

  /** Split at the first equals sign. */
  function SplitOnce(s: string): Option<Pair> {
    if s == [] then None
    else if s[0] == '=' then Some(Pair("", s[1..]))
    else match SplitOnce(s[1..])
      case None => None
      case Some(p) => Some(p.(key := [s[0]] + p.key))
  }

  /** The value of the last field with this key. */
  function LastValue(fields: seq<string>, key: string): Option<string> {
    if fields == [] then None
    else
      var last := SplitOnce(fields[|fields| - 1]);
      if last.Some? && last.value.key == key then Some(last.value.value) else LastValue(fields[..|fields| - 1], key)
  }

  predicate AllPairs(fields: seq<string>) {
    forall i :: 0 <= i < |fields| ==> SplitOnce(fields[i]).Some?
  }

  function ParseU32(value: Option<string>): Option<nat> {
    if value.None? then None else ParseUnsigned(value.value, U32_LIMIT)
  }

  /** The six values as found, None where a key is missing. */
  datatype Found = Found(
    scanned: Option<string>, running: Option<string>, blocked: Option<string>, zombie: Option<string>,
    raced: Option<string>, truncated: Option<string>)

  function SummaryOf(f: Found): Option<Summary> {
    var scanned := ParseU32(f.scanned);
    if scanned.None? || scanned.value > ENTRY_LIMIT then None
    else
      var running, blocked, zombie := ParseU32(f.running), ParseU32(f.blocked), ParseU32(f.zombie);
      if running.None? || blocked.None? || zombie.None? then None
      else if Saturated(Saturated(running.value + blocked.value, U32_LIMIT) + zombie.value, U32_LIMIT) > scanned.value
          then None
      else
        var raced := ParseU32(f.raced);
        if raced.None? || (f.truncated != Some("0") && f.truncated != Some("1")) then None
        else Some(Summary(scanned.value, running.value, blocked.value, zombie.value, raced.value,
                          f.truncated == Some("1")))
  }

  function FoundIn(fields: seq<string>): Found {
    Found(LastValue(fields, "scanned"), LastValue(fields, "running"), LastValue(fields, "blocked"),
        LastValue(fields, "zombie"),
          LastValue(fields, "raced"), LastValue(fields, "truncated"))
  }

  function ParsedSummary(output: string): Option<Summary> {
    var fields := Fields(output);
    if AllPairs(fields) then SummaryOf(FoundIn(fields)) else None
  }

  ghost predicate Reads(values: map<string, string>, fields: seq<string>) {
    forall key :: Get(values, key) == LastValue(fields, key)
  }

  lemma ReadsNext(values: map<string, string>, fields: seq<string>, field: string)
    requires Reads(values, fields) && SplitOnce(field).Some?
    ensures var p := SplitOnce(field).value; Reads(values[p.key := p.value], fields + [field])
  {
    var p := SplitOnce(field).value;
    forall key ensures Get(values[p.key := p.value], key) == LastValue(fields + [field], key) {
      assert Get(values, key) == LastValue(fields, key);
      assert (fields + [field])[..|fields + [field]| - 1] == fields;
    }
  }

  lemma ReadsFound(values: map<string, string>, fields: seq<string>)
    requires Reads(values, fields)
    ensures FoundIn(fields)
            == Found(Get(values, "scanned"), Get(values, "running"), Get(values, "blocked"), Get(values, "zombie"),
                     Get(values, "raced"), Get(values, "truncated"))
  {
  }

  method ParseProcessSummary(output: string) returns (r: Option<Summary>)
    ensures r == ParsedSummary(output)
    ensures r.Some? ==> r.value.running + r.value.blocked + r.value.zombie <= r.value.scanned <= ENTRY_LIMIT
  {
    var fields := Fields(output);
    var values: map<string, string> := map[];
    for i := 0 to |fields|
      invariant AllPairs(fields[..i]) && Reads(values, fields[..i])
    {
      var p := SplitOnce(fields[i]);
      if p.None? {
        return None;
      }
      ReadsNext(values, fields[..i], fields[i]);
      values := values[p.value.key := p.value.value];
      assert fields[..i + 1] == fields[..i] + [fields[i]];
    }
    assert fields[..|fields|] == fields;
    ReadsFound(values, fields);
    r := SummaryOf(Found(Get(values, "scanned"), Get(values, "running"), Get(values, "blocked"),
                         Get(values, "zombie"), Get(values, "raced"), Get(values, "truncated")));
  }

  // ---- the round trip ----------------------------------------------------------------------

  predicate IsSolid(s: string) {
    s != "" && forall i :: 0 <= i < |s| ==> !IsSpace(s[i])
  }

  lemma {:induction false} FieldsOfWord(word: string, solid: string, c: char, rest: string)
    requires IsSpace(c) && (solid == "" || IsSolid(solid))
    ensures FieldsWith(solid + ([c] + rest), word) == (if word + solid == "" then [] else [word + solid]) + Fields(rest)
    decreases |solid|
  {
    var s := solid + ([c] + rest);
    if solid == "" {
      assert s[0] == c && s[1..] == rest && word + solid == word;
    } else {
      assert s[0] == solid[0] && s[1..] == solid[1..] + ([c] + rest);
      FieldsOfWord(word + [solid[0]], solid[1..], c, rest);
      assert word + [solid[0]] + solid[1..] == word + solid;
    }
  }

  predicate IsPair(p: Pair) {
    '=' !in p.key && IsSolid(PrintPair(p))
  }

  function PrintedFields(pairs: seq<Pair>): seq<string> {
    seq(|pairs|, i requires 0 <= i < |pairs| => PrintPair(pairs[i]))
  }

  lemma FieldThenMore(word: string, c: char, rest: string)
    requires IsSpace(c) && IsSolid(word)
    ensures Fields(word + ([c] + rest)) == [word] + Fields(rest)
  {
    FieldsOfWord("", word, c, rest);
    assert "" + word == word;
  }

  lemma {:induction false} FieldsOfPairs(pairs: seq<Pair>)
    requires forall i :: 0 <= i < |pairs| ==> IsPair(pairs[i])
    ensures Fields(PrintPairs(pairs)) == PrintedFields(pairs)
  {
    if pairs != [] {
      FieldThenMore(PrintPair(pairs[0]), Separator(pairs), PrintPairs(pairs[1..]));
      FieldsOfPairs(pairs[1..]);
      FirstField(pairs);
    }
  }

  lemma FirstField(pairs: seq<Pair>)
    requires pairs != []
    ensures PrintedFields(pairs) == [PrintPair(pairs[0])] + PrintedFields(pairs[1..])
  {
  }

  lemma {:induction false} SplitsPair(key: string, value: string)
    requires '=' !in key
    ensures SplitOnce(key + "=" + value) == Some(Pair(key, value))
  {
    if key == [] {
      assert key + "=" + value == "=" + value && ("=" + value)[1..] == value;
    } else {
      assert (key + "=" + value)[1..] == key[1..] + "=" + value;
      SplitsPair(key[1..], value);
      assert [key[0]] + key[1..] == key;
    }
  }

  predicate DistinctKeys(pairs: seq<Pair>) {
    forall i, j :: 0 <= i < j < |pairs| ==> pairs[i].key != pairs[j].key
  }

  lemma {:induction false} ValueOfPair(pairs: seq<Pair>, i: nat)
    requires i < |pairs| && DistinctKeys(pairs) && forall j :: 0 <= j < |pairs| ==> IsPair(pairs[j])
    ensures LastValue(PrintedFields(pairs), pairs[i].key) == Some(pairs[i].value)
  {
    var last := |pairs| - 1;
    SplitsPair(pairs[last].key, pairs[last].value);
    if i < last {
      assert PrintedFields(pairs)[..last] == PrintedFields(pairs[..last]);
      ValueOfPair(pairs[..last], i);
    }
  }

  lemma PairsAreDistinct(c: Summary)
    ensures DistinctKeys(PairsOf(c))
  {
    assert forall i :: 0 <= i < 6 ==> Tag(PairsOf(c)[i].key) == i;
  }

  function Tag(key: string): int {
    match |key|
    case 7 => if key[0] == 's' then 0 else if key[0] == 'r' then 1 else 2
    case 6 => 3
    case 5 => 4
    case _ => 5
  }

  predicate IsKey(key: string) {
    key != "" && forall i :: 0 <= i < |key| ==> 'a' <= key[i] <= 'z'
  }

  lemma KeysAreKeys()
    ensures IsKey("scanned") && IsKey("running") && IsKey("blocked") && IsKey("zombie") && IsKey("raced")
            && IsKey("truncated")
  {
  }

  lemma NumberPair(key: string, value: string)
    requires IsKey(key) && AllDigits(value)
    ensures IsPair(Pair(key, value))
  {
    var s := key + "=" + value;
    forall i | 0 <= i < |s| ensures !IsSpace(s[i]) {
      assert i < |key| ==> s[i] == key[i];
      assert i > |key| ==> s[i] == value[i - |key| - 1];
    }
    assert forall c :: c in key ==> 'a' <= c <= 'z';
  }

  lemma PrintedValues(c: Summary)
    ensures AllPairs(Fields(Printed(c)))
    ensures FoundIn(Fields(Printed(c)))
            == Found(Some(Digits(c.scanned)), Some(Digits(c.running)), Some(Digits(c.blocked)), Some(Digits(c.zombie)),
                     Some(Digits(c.raced)), Some(if c.truncated then "1" else "0"))
  {
    var pairs := PairsOf(c);
    KeysAreKeys();
    NumberPair("scanned", Digits(c.scanned));
    NumberPair("running", Digits(c.running));
    NumberPair("blocked", Digits(c.blocked));
    NumberPair("zombie", Digits(c.zombie));
    NumberPair("raced", Digits(c.raced));
    NumberPair("truncated", if c.truncated then "1" else "0");
    PairsAreDistinct(c);
    FieldsOfPairs(pairs);
    forall i | 0 <= i < |pairs| ensures SplitOnce(PrintedFields(pairs)[i]).Some? {
      SplitsPair(pairs[i].key, pairs[i].value);
    }
    ValueOfPair(pairs, 0);
    ValueOfPair(pairs, 1);
    ValueOfPair(pairs, 2);
    ValueOfPair(pairs, 3);
    ValueOfPair(pairs, 4);
    ValueOfPair(pairs, 5);
  }

  /**
   The parser gives back exactly the loop's counters, for every listing in which fewer than 2^32
   entries could not be read.
   */
  lemma PrintedSummaryParses(entries: Listing, k: nat)
    requires StopsAt(entries, k)
    ensures var c := CountAll(entries[..k]).(truncated := k < |entries|);
            ParsedSummary(Printed(c)) == if c.raced < U32_LIMIT then Some(c) else None
  {
    var c := CountAll(entries[..k]).(truncated := k < |entries|);
    SummaryOfListing(entries, k);
    PrintedValues(c);
    NumbersParse(c);
  }

  lemma NumbersParse(c: Summary)
    ensures ParseU32(Some(Digits(c.scanned))) == (if c.scanned < U32_LIMIT then Some(c.scanned) else None)
    ensures ParseU32(Some(Digits(c.running))) == (if c.running < U32_LIMIT then Some(c.running) else None)
    ensures ParseU32(Some(Digits(c.blocked))) == (if c.blocked < U32_LIMIT then Some(c.blocked) else None)
    ensures ParseU32(Some(Digits(c.zombie))) == (if c.zombie < U32_LIMIT then Some(c.zombie) else None)
    ensures ParseU32(Some(Digits(c.raced))) == (if c.raced < U32_LIMIT then Some(c.raced) else None)
  {
    UnsignedRoundTrip(c.scanned, U32_LIMIT);
    UnsignedRoundTrip(c.running, U32_LIMIT);
    UnsignedRoundTrip(c.blocked, U32_LIMIT);
    UnsignedRoundTrip(c.zombie, U32_LIMIT);
    UnsignedRoundTrip(c.raced, U32_LIMIT);
  }
}
