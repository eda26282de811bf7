/** Reading /proc/stat and deriving CPU rates from two frames (backend/src/monitoring.rs). */
module CpuParsing {
  import opened Wrappers
  import opened Text
  import opened Decimals
  import opened Metrics
  import opened CpuCounters

  datatype Line = Skipped | Malformed | Row(name: string, ticks: Ticks)

  predicate IsCpuName(name: string) {
    name == "cpu" || (StartsWith(name, "cpu") && |name| > 3 && AllDigits(name[3..]))
  }

  /** The first eight values behind the name; None when one is missing or does not parse. */
  function Eight(fields: seq<string>, n: nat): (r: Option<seq<U64>>)
    requires n <= 8
    ensures r.Some? ==> |r.value| == n
  {
    if n == 0 then Some([])
    else
      match Eight(fields, n - 1)
      case None => None
      case Some(front) =>
        if n >= |fields| then None
        else
          match ParseUnsigned(fields[n], U64_LIMIT)
          case None => None
          case Some(v) => if v < U64_LIMIT then Some(front + [v]) else None
  }

  function TicksOf(v: seq<U64>): Ticks
    requires |v| == 8
  {
    Ticks(v[0], v[1], v[2], v[3], v[4], v[5], v[6], v[7])
  }

  function ReadLine(line: string): Line {
    var fields := Fields(line);
    if fields == [] || !IsCpuName(fields[0]) then Skipped
    else
      var values := Eight(fields, 8);
      if values.None? || CpuTotal(TicksOf(values.value)).None? then Malformed
      else Row(fields[0], TicksOf(values.value))
  }

  /** Ticks of the last row of that name. */
  function LastRow(lines: seq<string>, name: string): Option<Ticks> {
    if lines == [] then None
    else
      var line := ReadLine(lines[|lines| - 1]);
      if line.Row? && line.name == name then Some(line.ticks) else LastRow(lines[..|lines| - 1], name)
  }

  method ReadValues(fields: seq<string>) returns (r: Option<seq<U64>>)
    ensures r == Eight(fields, 8)
  {
    var values: seq<U64> := [];
    for n := 0 to 8
      invariant Eight(fields, n) == Some(values)
    {
      var field := if n + 1 < |fields| then ParseUnsigned(fields[n + 1], U64_LIMIT) else None;
      if field.None? || field.value >= U64_LIMIT {
        StaysMissing(fields, n + 1, 8);
        return None;
      }
      values := values + [field.value];
    }
    return Some(values);
  }

  lemma {:induction false} StaysMissing(fields: seq<string>, m: nat, n: nat)
    requires m <= n <= 8 && Eight(fields, m).None?
    ensures Eight(fields, n).None?
  {
    if m < n {
      StaysMissing(fields, m, n - 1);
    }
  }

  method ReadCpuLine(line: string) returns (r: Line)
    ensures r == ReadLine(line)
  {
    var fields := Fields(line);
    if fields == [] || !IsCpuName(fields[0]) {
      return Skipped;
    }
    var values := ReadValues(fields);
    if values.None? {
      return Malformed;
    }
    var ticks := TicksOf(values.value);
    if CpuTotal(ticks).None? {
      return Malformed;
    }
    return Row(fields[0], ticks);
  }

  ghost predicate Readable(lines: seq<string>) {
    forall i :: 0 <= i < |lines| ==> ReadLine(lines[i]) != Malformed
  }

  /** What the map of cores holds after some lines. */
  ghost predicate Holds(perCpu: map<string, Ticks>, lines: seq<string>) {
    forall name :: Get(perCpu, name) == if name == "cpu" then None else LastRow(lines, name)
  }

  lemma HoldsNext(perCpu: map<string, Ticks>, lines: seq<string>, line: string)
    requires Holds(perCpu, lines)
    ensures var r := ReadLine(line);
            Holds(if r.Row? && r.name != "cpu" then perCpu[r.name := r.ticks] else perCpu, lines + [line])
  {
    var r := ReadLine(line);
    var next := if r.Row? && r.name != "cpu" then perCpu[r.name := r.ticks] else perCpu;
    forall name ensures Get(next, name) == if name == "cpu" then None else LastRow(lines + [line], name) {
      assert Get(perCpu, name) == if name == "cpu" then None else LastRow(lines, name);
      LastRowNext(lines, line, name);
    }
  }

  lemma LastRowNext(lines: seq<string>, line: string, name: string)
    ensures var r := ReadLine(line);
            LastRow(lines + [line], name) == if r.Row? && r.name == name then Some(r.ticks) else LastRow(lines, name)
  {
    assert (lines + [line])[..|lines + [line]| - 1] == lines;
  }

  /** What the loop holds after some lines. */
  ghost predicate FrameOf(aggregate: Option<Ticks>, perCpu: map<string, Ticks>, lines: seq<string>) {
    Readable(lines) && aggregate == LastRow(lines, "cpu") && Holds(perCpu, lines)
  }

  method Absorb(ghost lines: seq<string>, line: string, aggregate: Option<Ticks>, perCpu: map<string, Ticks>)
    returns (ok: bool, aggregate': Option<Ticks>, perCpu': map<string, Ticks>)
    requires FrameOf(aggregate, perCpu, lines)
    ensures ok <==> ReadLine(line) != Malformed
    ensures ok ==> FrameOf(aggregate', perCpu', lines + [line])
  {
    aggregate', perCpu' := aggregate, perCpu;
    var row := ReadCpuLine(line);
    ok := row != Malformed;
    HoldsNext(perCpu, lines, line);
    LastRowNext(lines, line, "cpu");
    if row.Row? {
      if row.name == "cpu" {
        aggregate' := Some(row.ticks);
      } else {
        perCpu' := perCpu[row.name := row.ticks];
      }
    }
  }

  /**
   Accepted exactly when no CPU line is malformed and an aggregate line exists; later rows of a name
   replace earlier ones.
   */
  method ParseProcStat(output: string) returns (r: Result<CpuFrame, ()>)
    ensures r.Ok? <==> Readable(Lines(output)) && LastRow(Lines(output), "cpu").Some?
    ensures r.Ok? ==> Some(r.value.aggregate) == LastRow(Lines(output), "cpu") && Holds(r.value.perCpu, Lines(output))
  {
    var lines := Lines(output);
    var aggregate: Option<Ticks> := None;
    var perCpu: map<string, Ticks> := map[];
    for i := 0 to |lines|
      invariant FrameOf(aggregate, perCpu, lines[..i])
    {
      var ok: bool;
      ok, aggregate, perCpu := Absorb(lines[..i], lines[i], aggregate, perCpu);
      if !ok {
        return Err(());
      }
      assert lines[..i + 1] == lines[..i] + [lines[i]];
    }
    assert lines[..|lines|] == lines;
    if aggregate.None? {
      return Err(());
    }
    return Ok(CpuFrame(aggregate.value, perCpu));
  }

  predicate FrameFits(frame: CpuFrame) {
    Fits(frame.aggregate) && forall name :: name in frame.perCpu ==> Fits(frame.perCpu[name])
  }

  lemma {:induction false} RowsFit(lines: seq<string>, name: string)
    requires LastRow(lines, name).Some?
    ensures Fits(LastRow(lines, name).value)
  {
    var line := ReadLine(lines[|lines| - 1]);
    if line.Row? && line.name == name {
      TotalIsExactSum(line.ticks);
    } else {
      RowsFit(lines[..|lines| - 1], name);
    }
  }

  /** Every tick vector of a parsed frame has a total within 64 bits. */
  lemma ParsedFrameFits(lines: seq<string>, frame: CpuFrame)
    requires Some(frame.aggregate) == LastRow(lines, "cpu") && Holds(frame.perCpu, lines)
    ensures FrameFits(frame)
  {
    RowsFit(lines, "cpu");
    forall name | name in frame.perCpu ensures Fits(frame.perCpu[name]) {
      assert Get(frame.perCpu, name) == Some(frame.perCpu[name]);
      RowsFit(lines, name);
    }
  }

  // ---- deriving rates -----------------------------------------------------------------

  datatype CpuMetrics = CpuMetrics(
    aggregate: CpuRate, perCpu: map<string, FamilyObservation<CpuRate>>,
    onlineCpuCount: Option<nat>, onlineCpuQuality: Quality, windowSeconds: real)

  function CoreRate(previous: CpuFrame, current: CpuFrame, dt: real, name: string): FamilyObservation<CpuRate>
    requires name in current.perCpu
  {
    if name in previous.perCpu then DiffCpuTicks(previous.perCpu[name], current.perCpu[name], dt)
        else Without(CounterReset)
  }

  function DeriveCpu(previous: FamilyObservation<CpuFrame>, current: FamilyObservation<CpuFrame>,
                     bootA: FamilyObservation<BootSample>, bootB: FamilyObservation<BootSample>,
                     online: FamilyObservation<nat>): FamilyObservation<CpuMetrics>
  {
    if bootA.value.None? || bootB.value.None? then Without(FirstUnavailable(bootA.quality, bootB.quality))
    else if previous.value.None? then Without(previous.quality)
    else if current.value.None? then Without(current.quality)
    else if bootA.value.value.bootId != bootB.value.value.bootId then Without(CounterReset)
    else
      var dt := bootB.value.value.uptimeSeconds - bootA.value.value.uptimeSeconds;
      var aggregate := DiffCpuTicks(previous.value.value.aggregate, current.value.value.aggregate, dt);
      if aggregate.value.None? then Without(aggregate.quality)
      else
        var cores := map name | name in current.value.value.perCpu ::
            CoreRate(previous.value.value, current.value.value, dt, name);
        FamilyObservation(Observed, Some(CpuMetrics(aggregate.value.value, cores, online.value, online.quality, dt)))
  }

  predicate GrewIn(previous: Ticks, current: Ticks) {
    Grew(previous, current) && Sum(previous) < Sum(current)
  }

  /**
   CPU is observed exactly when all four sources parsed, the boot is the same, half a second passed
   and the aggregate counters moved only forward.
   */
  lemma CpuObservedExactly(previous: FamilyObservation<CpuFrame>, current: FamilyObservation<CpuFrame>,
                           bootA: FamilyObservation<BootSample>, bootB: FamilyObservation<BootSample>,
                           online: FamilyObservation<nat>)
    requires Consistent(previous) && Consistent(current) && Consistent(bootA) && Consistent(bootB)
    requires previous.value.Some? ==> FrameFits(previous.value.value)
    requires current.value.Some? ==> FrameFits(current.value.value)
    ensures var r := DeriveCpu(previous, current, bootA, bootB, online);
            && Consistent(r)
            && (r.quality == Observed <==>
                  && bootA.value.Some? && bootB.value.Some? && previous.value.Some? && current.value.Some?
                  && bootA.value.value.bootId == bootB.value.value.bootId
                  && bootB.value.value.uptimeSeconds - bootA.value.value.uptimeSeconds >= 0.5
                  && GrewIn(previous.value.value.aggregate, current.value.value.aggregate))
  {
    if bootA.value.Some? && bootB.value.Some? && previous.value.Some? && current.value.Some? {
      QualityHasOneCause(previous.value.value.aggregate, current.value.value.aggregate,
                         bootB.value.value.uptimeSeconds - bootA.value.value.uptimeSeconds);
    }
  }

  /**
   An observed result lists exactly the current cores; a core is observed exactly when frame A has it
   and its counters moved forward.
   */
  lemma CoresObservedExactly(previous: FamilyObservation<CpuFrame>, current: FamilyObservation<CpuFrame>,
                             bootA: FamilyObservation<BootSample>, bootB: FamilyObservation<BootSample>,
                             online: FamilyObservation<nat>,
                             name: string)
    requires Consistent(previous) && Consistent(current) && Consistent(bootA) && Consistent(bootB)
    requires previous.value.Some? ==> FrameFits(previous.value.value)
    requires current.value.Some? ==> FrameFits(current.value.value)
    requires DeriveCpu(previous, current, bootA, bootB, online).quality == Observed
    ensures previous.value.Some? && current.value.Some?
    ensures var cores := DeriveCpu(previous, current, bootA, bootB, online).value.value.perCpu;
            var a, b := previous.value.value.perCpu, current.value.value.perCpu;
            && (name in cores <==> name in b)
            && (name in cores ==> (cores[name].quality == Observed <==> name in a && GrewIn(a[name], b[name])))
  {
    CpuObservedExactly(previous, current, bootA, bootB, online);
    var a, b := previous.value.value.perCpu, current.value.value.perCpu;
    if name in a && name in b {
      QualityHasOneCause(a[name], b[name], bootB.value.value.uptimeSeconds - bootA.value.value.uptimeSeconds);
    }
  }

  // ---- from the raw sources ------------------------------------------------------------

  /** Text that parses: no malformed CPU line, and an aggregate. */
  ghost predicate Parses(text: string) {
    Readable(Lines(text)) && LastRow(Lines(text), "cpu").Some?
  }

  ghost function AggregateIn(text: string): Ticks
    requires Parses(text)
  {
    LastRow(Lines(text), "cpu").value
  }

  /** A core's last row; the aggregate is not a core. */
  ghost function CoreIn(text: string, name: string): Option<Ticks> {
    if name == "cpu" then None else LastRow(Lines(text), name)
  }

  ghost predicate Describes(frame: CpuFrame, text: string) {
    && Parses(text) && frame.aggregate == AggregateIn(text) && FrameFits(frame)
    && forall name :: Get(frame.perCpu, name) == CoreIn(text, name)
  }

  method ReadCpu(source: RawSource) returns (frame: FamilyObservation<CpuFrame>)
    ensures Consistent(frame)
    ensures frame.quality == Observed <==> source.Output? && Parses(source.text)
    ensures frame.quality == Observed ==> Describes(frame.value.value, source.text)
  {
    var parsed: Option<CpuFrame> := None;
    if source.Output? {
      var r := ParseProcStat(source.text);
      if r.Ok? {
        ParsedFrameFits(Lines(source.text), r.value);
        parsed := Some(r.value);
      }
    }
    frame := ParseSource(source, parsed);
  }

  /** Both sources parsed, the boot is the same, and half a second lies between the frames. */
  ghost predicate Comparable(a: RawSource, b: RawSource, bootA: FamilyObservation<BootSample>,
      bootB: FamilyObservation<BootSample>)
  {
    && a.Output? && Parses(a.text) && b.Output? && Parses(b.text)
    && bootA.value.Some? && bootB.value.Some? && bootA.value.value.bootId == bootB.value.value.bootId
    && bootB.value.value.uptimeSeconds - bootA.value.value.uptimeSeconds >= 0.5
  }

  /** From the two /proc/stat texts: when CPU is observed, and which cores are listed and observed. */
  method DeriveCpuFrom(a: RawSource, b: RawSource, bootA: FamilyObservation<BootSample>,
      bootB: FamilyObservation<BootSample>,
                       online: FamilyObservation<nat>)
    returns (r: FamilyObservation<CpuMetrics>)
    requires Consistent(bootA) && Consistent(bootB)
    ensures Consistent(r)
    ensures r.quality == Observed
            <==> Comparable(a, b, bootA, bootB) && GrewIn(AggregateIn(a.text), AggregateIn(b.text))
    ensures r.quality == Observed ==> forall name ::
              name in r.value.value.perCpu <==> CoreIn(b.text, name).Some?
    ensures r.quality == Observed ==> forall name :: name in r.value.value.perCpu ==>
              (r.value.value.perCpu[name].quality == Observed
               <==> CoreIn(a.text, name).Some? && GrewIn(CoreIn(a.text, name).value, CoreIn(b.text, name).value))
  {
    var previous := ReadCpu(a);
    var current := ReadCpu(b);
    r := DeriveCpu(previous, current, bootA, bootB, online);
    CpuObservedExactly(previous, current, bootA, bootB, online);
    if r.quality == Observed {
      forall name
        ensures name in r.value.value.perCpu <==> CoreIn(b.text, name).Some?
        ensures name in r.value.value.perCpu ==>
                  (r.value.value.perCpu[name].quality == Observed
                   <==> CoreIn(a.text, name).Some? && GrewIn(CoreIn(a.text, name).value, CoreIn(b.text, name).value))
      {
        CoresObservedExactly(previous, current, bootA, bootB, online, name);
        assert Get(previous.value.value.perCpu, name) == CoreIn(a.text, name);
        assert Get(current.value.value.perCpu, name) == CoreIn(b.text, name);
      }
    }
  }
}
