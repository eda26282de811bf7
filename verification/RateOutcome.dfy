/**
 What the derived rates say of the two frames: each rate times its window or its base is the growth
 of the counters it is named after (backend/src/monitoring.rs).
 */
module RateOutcome {
  import opened Wrappers
  import opened Text
  import opened Decimals
  import opened Metrics
  import opened CpuCounters
  import opened CpuParsing
  import opened DeviceRates
  import opened NetworkRates
  import KeyOrder

  // ---- reading /proc/stat -----------------------------------------------------------

  /** The number in field k, when there is one below 2^64. */
  function Column(fields: seq<string>): nat -> Option<nat> {
    (k: nat) => if k < |fields| then ParseUnsigned(fields[k], 0x1_0000_0000_0000_0000) else None
  }

  predicate NamesCpu(name: string) {
    |name| >= 3 && name[..3] == "cpu" && forall i :: 3 <= i < |name| ==> '0' <= name[i] <= '9'
  }

  predicate ReadsTicks(column: nat -> Option<nat>, t: Ticks) {
    && column(1) == Some(t.user) && column(2) == Some(t.nice) && column(3) == Some(t.system)
    && column(4) == Some(t.idle) && column(5) == Some(t.iowait) && column(6) == Some(t.irq)
    && column(7) == Some(t.softirq) && column(8) == Some(t.steal)
  }

  function AllTicks(t: Ticks): nat {
    t.user + t.nice + t.system + t.idle + t.iowait + t.irq + t.softirq + t.steal
  }

  ghost predicate ReadsList(column: nat -> Option<nat>, values: seq<U64>) {
    forall k: nat :: k < |values| ==> column(k + 1) == Some(values[k])
  }

  lemma {:induction false} EightReads(fields: seq<string>, n: nat)
    requires n <= 8 && Eight(fields, n).Some?
    ensures ReadsList(Column(fields), Eight(fields, n).value)
  {
    if n > 0 {
      EightReads(fields, n - 1);
    }
  }

  lemma {:induction false} EightIsRead(fields: seq<string>, values: seq<U64>)
    requires |values| <= 8 && ReadsList(Column(fields), values)
    ensures Eight(fields, |values|) == Some(values)
  {
    if values != [] {
      var n := |values| - 1;
      var front, last := values[..n], values[n];
      assert Column(fields)(n + 1) == Some(last);
      assert forall k: nat :: k < n ==> front[k] == values[k];
      EightIsRead(fields, front);
      assert front + [last] == values;
    }
  }

  lemma DigitsBehind(name: string)
    requires |name| >= 3
    ensures AllDigits(name[3..]) <==> forall i :: 3 <= i < |name| ==> '0' <= name[i] <= '9'
  {
    var rest := name[3..];
    if AllDigits(rest) {
      forall i | 3 <= i < |name| ensures '0' <= name[i] <= '9' {
        assert IsDigit(rest[i - 3]);
      }
    }
  }

  lemma NamesCpuMeans(name: string)
    ensures IsCpuName(name) <==> NamesCpu(name)
  {
    if |name| >= 3 {
      DigitsBehind(name);
    }
  }

  lemma TicksInOrder(column: nat -> Option<nat>, v: seq<U64>)
    requires |v| == 8
    ensures ReadsList(column, v) <==> ReadsTicks(column, TicksOf(v))
  {
    if ReadsTicks(column, TicksOf(v)) {
      forall k: nat | k < |v| ensures column(k + 1) == Some(v[k]) {
        assert k < 4 || k >= 4;
      }
    }
  }

  lemma TicksListed(t: Ticks)
    ensures |Listed(t)| == 8 && TicksOf(Listed(t)) == t
  {
  }

  lemma EightMeansTicks(fields: seq<string>, t: Ticks)
    ensures (Eight(fields, 8).Some? && TicksOf(Eight(fields, 8).value) == t) <==> ReadsTicks(Column(fields), t)
  {
    TicksListed(t);
    TicksInOrder(Column(fields), Listed(t));
    if Eight(fields, 8).Some? {
      EightReads(fields, 8);
      TicksInOrder(Column(fields), Eight(fields, 8).value);
    }
    if ReadsTicks(Column(fields), t) {
      EightIsRead(fields, Listed(t));
    }
  }

  /** A line is a row exactly when it is named `cpu`, with digits or none, and holds the eight counters in order. */
  lemma RowsAreRead(line: string, name: string, t: Ticks)
    ensures ReadLine(line) == Row(name, t)
            <==> var fields := Fields(line);
                 fields != [] && fields[0] == name && NamesCpu(name) && ReadsTicks(Column(fields), t)
                 && AllTicks(t) < 0x1_0000_0000_0000_0000
  {
    NamesCpuMeans(name);
    EightMeansTicks(Fields(line), t);
    TotalIsExactSum(t);
  }

  /** Other lines are skipped; a line of that name that is no row spoils the text. */
  lemma OthersAreSkipped(line: string)
    ensures ReadLine(line) == Skipped <==> Fields(line) == [] || !NamesCpu(Fields(line)[0])
    ensures ReadLine(line) == Malformed ==> forall t :: !(ReadsTicks(Column(Fields(line)), t)
                                                          && AllTicks(t) < 0x1_0000_0000_0000_0000)
  {
    if Fields(line) != [] {
      NamesCpuMeans(Fields(line)[0]);
      forall t | ReadsTicks(Column(Fields(line)), t) && AllTicks(t) < 0x1_0000_0000_0000_0000
        ensures ReadLine(line) != Malformed
      {
        EightMeansTicks(Fields(line), t);
        TotalIsExactSum(t);
      }
    }
  }

  ghost predicate IsLastRow(lines: seq<string>, name: string, t: Ticks, i: nat) {
    && i < |lines| && ReadLine(lines[i]) == Row(name, t)
    && forall j :: i < j < |lines| ==> !RowNamed(lines[j], name)
  }

  predicate RowNamed(line: string, name: string) {
    ReadLine(line).Row? && ReadLine(line).name == name
  }

  lemma LastRowIs(lines: seq<string>, name: string, t: Ticks, i: nat)
    requires lines != []
    ensures var n := |lines| - 1;
            IsLastRow(lines, name, t, i)
            <==> if RowNamed(lines[n], name) then i == n && ReadLine(lines[n]).ticks == t
                 else IsLastRow(lines[..n], name, t, i)
  {
    var n := |lines| - 1;
    assert i < n ==> lines[..n][i] == lines[i];
  }

  /** The row that counts for a name is the last. */
  lemma {:induction false} LastRowCounts(lines: seq<string>, name: string, t: Ticks)
    ensures LastRow(lines, name) == Some(t) <==> exists i: nat :: IsLastRow(lines, name, t, i)
  {
    if lines != [] {
      var n := |lines| - 1;
      LastRowCounts(lines[..n], name, t);
      forall i: nat
        ensures IsLastRow(lines, name, t, i)
                <==> if RowNamed(lines[n], name) then i == n && ReadLine(lines[n]).ticks == t
                     else IsLastRow(lines[..n], name, t, i)
      {
        LastRowIs(lines, name, t, i);
      }
      if RowNamed(lines[n], name) && ReadLine(lines[n]).ticks == t {
        assert IsLastRow(lines, name, t, n);
      }
    }
  }

  // ---- CPU ------------------------------------------------------------------------------

  predicate TicksFell(a: Ticks, b: Ticks) {
    || b.user < a.user || b.nice < a.nice || b.system < a.system || b.idle < a.idle || b.irq < a.irq
    || b.softirq < a.softirq || b.steal < a.steal
  }

  /** Why two tick counts give a rate or not. */
  function CpuVerdict(a: Ticks, b: Ticks, dt: real): Quality {
    if dt < 0.5 then InsufficientInterval
    else if TicksFell(a, b) then CounterReset
    else if b.iowait < a.iowait then CounterUnreliable
    else if AllTicks(a) == AllTicks(b) then InsufficientInterval
    else Observed
  }

  /** A percentage that makes `part` of `whole`. */
  predicate IsShare(percentage: real, part: int, whole: int) {
    percentage * whole as real == part as real * 100.0
  }

  lemma PercentIsShare(part: nat, whole: nat)
    requires whole > 0
    ensures IsShare(Percent(part, whole), part, whole)
  {
  }

  /** The rate says what part of the new ticks was busy, waiting and stolen. */
  predicate CpuSays(r: CpuRate, a: Ticks, b: Ticks) {
    && r.totalDeltaTicks == AllTicks(b) - AllTicks(a)
    && IsShare(r.busyPct,
               (b.user - a.user) + (b.nice - a.nice) + (b.system - a.system) + (b.irq - a.irq)
               + (b.softirq - a.softirq) + (b.steal - a.steal), r.totalDeltaTicks)
    && IsShare(r.iowaitPct, b.iowait - a.iowait, r.totalDeltaTicks)
    && IsShare(r.stealPct, b.steal - a.steal, r.totalDeltaTicks)
  }

  lemma VerdictIsMeant(a: Ticks, b: Ticks, dt: real)
    requires Fits(a) && Fits(b)
    ensures DiffCpuTicks(a, b, dt).quality == CpuVerdict(a, b, dt) && Consistent(DiffCpuTicks(a, b, dt))
  {
    QualityHasOneCause(a, b, dt);
  }

  lemma SharesAreMeant(a: Ticks, b: Ticks, dt: real)
    requires Fits(a) && Fits(b) && DiffCpuTicks(a, b, dt).quality == Observed && DiffCpuTicks(a, b, dt).value.Some?
    ensures CpuSays(DiffCpuTicks(a, b, dt).value.value, a, b)
  {
    ObservedRateAddsUp(a, b, dt);
    var d, total := Deltas(a, b), Sum(b) - Sum(a);
    PercentIsShare(d.user + d.nice + d.system + d.irq + d.softirq + d.steal, total);
    PercentIsShare(d.iowait, total);
    PercentIsShare(d.steal, total);
  }

  lemma TicksAreMeant(a: Ticks, b: Ticks, dt: real)
    requires Fits(a) && Fits(b)
    ensures var r := DiffCpuTicks(a, b, dt);
            r.quality == CpuVerdict(a, b, dt) && Consistent(r) && (r.value.Some? ==> CpuSays(r.value.value, a, b))
  {
    VerdictIsMeant(a, b, dt);
    if DiffCpuTicks(a, b, dt).value.Some? {
      SharesAreMeant(a, b, dt);
    }
  }

  /** The source that is missing decides: the boots first, then frame A, then frame B. */
  function Missing<T, U>(bootA: FamilyObservation<BootSample>, bootB: FamilyObservation<BootSample>,
      a: FamilyObservation<T>, b: FamilyObservation<U>): Option<Quality>
  {
    if bootA.quality != Observed then Some(bootA.quality)
    else if bootB.quality != Observed then Some(bootB.quality)
    else if a.quality != Observed then Some(a.quality)
    else if b.quality != Observed then Some(b.quality)
    else None
  }

  /** A core of both frames has its own verdict and rate; one that frame A lacks was reset. */
  ghost predicate CoreSays(core: FamilyObservation<CpuRate>, a: Option<Ticks>, b: Ticks, dt: real) {
    match a
    case None => core == FamilyObservation(CounterReset, None)
    case Some(ticks) =>
      && core.quality == CpuVerdict(ticks, b, dt) && Consistent(core)
      && (core.value.Some? ==> CpuSays(core.value.value, ticks, b))
  }

  /** What CPU metrics say, and when there are none, why. */
  lemma CpuIsMeant(previous: FamilyObservation<CpuFrame>, current: FamilyObservation<CpuFrame>,
      bootA: FamilyObservation<BootSample>, bootB: FamilyObservation<BootSample>, online: FamilyObservation<nat>,
      name: string)
    requires Consistent(previous) && Consistent(current) && Consistent(bootA) && Consistent(bootB)
    requires previous.value.Some? ==> FrameFits(previous.value.value)
    requires current.value.Some? ==> FrameFits(current.value.value)
    ensures var r := DeriveCpu(previous, current, bootA, bootB, online);
            var missing := Missing(bootA, bootB, previous, current);
            if missing.Some? then r == FamilyObservation(missing.value, None)
            else if bootA.value.value.bootId != bootB.value.value.bootId then r == FamilyObservation(CounterReset, None)
            else
              var dt := bootB.value.value.uptimeSeconds - bootA.value.value.uptimeSeconds;
              var a, b := previous.value.value, current.value.value;
              && r.quality == CpuVerdict(a.aggregate, b.aggregate, dt) && Consistent(r)
              && (r.value.Some? ==>
                    && CpuSays(r.value.value.aggregate, a.aggregate, b.aggregate) && r.value.value.windowSeconds == dt
                    && r.value.value.onlineCpuCount == online.value && r.value.value.onlineCpuQuality == online.quality
                    && (name in r.value.value.perCpu <==> name in b.perCpu)
                    && (name in b.perCpu ==>
                          CoreSays(r.value.value.perCpu[name], Get(a.perCpu, name), b.perCpu[name], dt)))
  {
    if Missing(bootA, bootB, previous, current).None? {
      var dt := bootB.value.value.uptimeSeconds - bootA.value.value.uptimeSeconds;
      var a, b := previous.value.value, current.value.value;
      TicksAreMeant(a.aggregate, b.aggregate, dt);
      if name in a.perCpu && name in b.perCpu {
        TicksAreMeant(a.perCpu[name], b.perCpu[name], dt);
      }
    }
  }

  // ---- disks ----------------------------------------------------------------------------

  predicate SameDevice(a: Disk, b: Disk) {
    a.major == b.major && a.minor == b.minor
  }

  predicate DiskFell(a: Disk, b: Disk) {
    || b.readOps < a.readOps || b.readSectors < a.readSectors || b.readMs < a.readMs || b.writeOps < a.writeOps
    || b.writeSectors < a.writeSectors || b.writeMs < a.writeMs || b.ioMs < a.ioMs || b.weightedIoMs < a.weightedIoMs
  }

  /** The last device of frame A with the same numbers. */
  ghost predicate WasDisk(previous: seq<Disk>, device: Disk, i: nat) {
    && i < |previous| && SameDevice(previous[i], device)
    && forall j :: i < j < |previous| ==> !SameDevice(previous[j], device)
  }

  lemma {:induction false} DiskBeforeMeans(previous: seq<Disk>, device: Disk, i: nat)
    requires WasDisk(previous, device, i)
    ensures DiskBefore(previous, NumberOf(device)) == Some(previous[i])
  {
    var last := |previous| - 1;
    if i < last {
      assert !SameDevice(previous[last], device);
      assert WasDisk(previous[..last], device, i);
      DiskBeforeMeans(previous[..last], device, i);
    }
  }

  lemma NoDiskBefore(previous: seq<Disk>, device: Disk)
    requires forall i :: 0 <= i < |previous| ==> !SameDevice(previous[i], device)
    ensures DiskBefore(previous, NumberOf(device)) == None
  {
  }

  function Least(a: nat, b: nat): nat {
    if a < b then a else b
  }

  /** A rate that makes `amount` over a window or base. */
  predicate Makes(rate: real, over: real, amount: real) {
    rate * over == amount
  }

  /** The mean time of an operation, where there were any. */
  predicate AwaitSays(await: Option<real>, ms: int, ops: int) {
    (await.Some? <==> ops > 0) && (await.Some? ==> Makes(await.value, ops as real, ms as real))
  }

  /** Sectors are 512 bytes; times are in milliseconds. */
  predicate DiskSays(m: DiskMetrics, a: Disk, b: Disk, dt: real) {
    && Makes(m.readBytesPerSecond, dt, (b.readSectors - a.readSectors) as real * 512.0)
    && Makes(m.writeBytesPerSecond, dt, (b.writeSectors - a.writeSectors) as real * 512.0)
    && b.readOps >= a.readOps && b.writeOps >= a.writeOps
    && Makes(m.iops, dt, Least(b.readOps - a.readOps + (b.writeOps - a.writeOps), 0xffff_ffff_ffff_ffff) as real)
    && AwaitSays(m.readAwaitMs, b.readMs - a.readMs, b.readOps - a.readOps)
    && AwaitSays(m.writeAwaitMs, b.writeMs - a.writeMs, b.writeOps - a.writeOps)
    && Makes(m.utilPct, dt * 1000.0, (b.ioMs - a.ioMs) as real * 100.0)
    && Makes(m.averageQueueDepth, dt * 1000.0, (b.weightedIoMs - a.weightedIoMs) as real)
  }

  lemma QuotientMakes(a: real, b: real)
    requires b > 0.0
    ensures Makes(Quotient(a, b), b, a)
  {
    QuotientTimesDivisor(a, b);
  }

  lemma QuotientIsAwait(ms: nat, ops: nat)
    ensures AwaitSays(if ops > 0 then Some(Quotient(ms as real, ops as real)) else None, ms, ops)
  {
    if ops > 0 {
      QuotientMakes(ms as real, ops as real);
    }
  }

  lemma DisksAreMeant(a: Disk, b: Disk, dt: real)
    requires dt > 0.0
    ensures var r := DiffDisk(a, b, dt);
            if DiskFell(a, b) then r == FamilyObservation(CounterReset, None)
            else r.quality == Observed && r.value.Some? && DiskSays(r.value.value, a, b, dt)
  {
    if !DiskFell(a, b) {
      QuotientMakes((b.readSectors - a.readSectors) as real * 512.0, dt);
      QuotientMakes((b.writeSectors - a.writeSectors) as real * 512.0, dt);
      QuotientMakes(Saturated(b.readOps - a.readOps + (b.writeOps - a.writeOps), U64_LIMIT) as real, dt);
      QuotientMakes((b.ioMs - a.ioMs) as real * 100.0, dt * 1000.0);
      QuotientMakes((b.weightedIoMs - a.weightedIoMs) as real, dt * 1000.0);
      QuotientIsAwait(b.readMs - a.readMs, b.readOps - a.readOps);
      QuotientIsAwait(b.writeMs - a.writeMs, b.writeOps - a.writeOps);
    }
  }

  function LengthOf(dt: real): real {
    if dt > 0.0 then dt else 0.0
  }

  /** The quality and rates of a device in a window of a known boot. */
  ghost predicate DeviceSays(quality: Quality, metrics: Option<DiskMetrics>, previous: seq<Disk>, device: Disk,
      sameBoot: bool, dt: real)
  {
    if !sameBoot then quality == CounterReset && metrics.None?
    else if dt < 0.5 then quality == InsufficientInterval && metrics.None?
    else
      && ((forall i :: 0 <= i < |previous| ==> !SameDevice(previous[i], device)) ==>
            quality == CounterReset && metrics.None?)
      && (forall i: nat :: WasDisk(previous, device, i) ==> RatedAgainst(quality, metrics, previous[i], device, dt))
  }

  predicate RatedAgainst(quality: Quality, metrics: Option<DiskMetrics>, a: Disk, b: Disk, dt: real) {
    if DiskFell(a, b) then quality == CounterReset && metrics.None?
    else quality == Observed && metrics.Some? && DiskSays(metrics.value, a, b, dt)
  }

  lemma DeviceOfNumber(quality: Quality, metrics: Option<DiskMetrics>, previous: seq<Disk>, device: Disk, dt: real)
    requires dt >= 0.5
    requires var before := DiskBefore(previous, NumberOf(device));
             var o := if before.Some? then DiffDisk(before.value, device, dt) else Without(CounterReset);
             quality == o.quality && metrics == o.value
    ensures DeviceSays(quality, metrics, previous, device, true, dt)
  {
    if forall i :: 0 <= i < |previous| ==> !SameDevice(previous[i], device) {
      NoDiskBefore(previous, device);
    }
    forall i: nat | WasDisk(previous, device, i) ensures RatedAgainst(quality, metrics, previous[i], device, dt) {
      DiskBeforeMeans(previous, device, i);
      DisksAreMeant(previous[i], device, dt);
    }
  }

  lemma DiskIsRated(previous: seq<Disk>, device: Disk, bootA: BootSample, bootB: BootSample)
    ensures var m := DiskMember(previous, device, bootA, bootB);
            DeviceSays(m.quality, m.metrics, previous, device, bootA.bootId == bootB.bootId,
                       bootB.uptimeSeconds - bootA.uptimeSeconds)
  {
    var dt := bootB.uptimeSeconds - bootA.uptimeSeconds;
    if bootA.bootId == bootB.bootId && dt >= 0.5 {
      var m := DiskMember(previous, device, bootA, bootB);
      DeviceOfNumber(m.quality, m.metrics, previous, device, dt);
    }
  }

  /** Which device a member stands for, and of which window. */
  predicate Labels(m: DiskRate, device: Disk, boot: BootSample, dt: real) {
    && m.identity == boot.bootId + ":" + (Digits(device.major) + ":" + Digits(device.minor))
    && m.name == device.name && m.major == device.major && m.minor == device.minor
    && m.windowSeconds == LengthOf(dt)
  }

  lemma DiskIsLabelled(previous: seq<Disk>, device: Disk, bootA: BootSample, bootB: BootSample)
    ensures Labels(DiskMember(previous, device, bootA, bootB), device, bootB,
                   bootB.uptimeSeconds - bootA.uptimeSeconds)
  {
  }

  /** What a disk's member says: which device it is, of which window, and its rates against the device of frame A. */
  lemma DiskIsMeant(previous: seq<Disk>, device: Disk, bootA: BootSample, bootB: BootSample)
    ensures var m := DiskMember(previous, device, bootA, bootB);
            var dt := bootB.uptimeSeconds - bootA.uptimeSeconds;
            && Labels(m, device, bootB, dt)
            && DeviceSays(m.quality, m.metrics, previous, device, bootA.bootId == bootB.bootId, dt)
  {
    DiskIsLabelled(previous, device, bootA, bootB);
    DiskIsRated(previous, device, bootA, bootB);
  }

  // ---- interfaces -----------------------------------------------------------------------

  predicate NetFell(a: Net, b: Net) {
    || b.rxBytes < a.rxBytes || b.rxPackets < a.rxPackets || b.rxErrors < a.rxErrors || b.rxDrops < a.rxDrops
    || b.txBytes < a.txBytes || b.txPackets < a.txPackets || b.txErrors < a.txErrors || b.txDrops < a.txDrops
  }

  /** The share of packets in error or dropped, where there were any. */
  predicate ShareSays(share: Option<real>, bad: nat, packets: nat) {
    && (share.Some? <==> packets > 0)
    && (share.Some? ==> Makes(share.value, packets as real, Least(bad, 0xffff_ffff_ffff_ffff) as real * 100.0))
  }

  /** Bits per second as a share of a known speed of so many million. */
  predicate UtilSays(util: Option<real>, bytesPerSecond: real, speedMbps: Option<U64>) {
    && (util.Some? <==> speedMbps.Some? && speedMbps.value > 0)
    && (util.Some? ==> Makes(util.value, speedMbps.value as real * 1000000.0, bytesPerSecond * 8.0 * 100.0))
  }

  predicate NetSays(m: NetMetrics, a: Net, b: Net, speedMbps: Option<U64>, dt: real) {
    && Makes(m.rxBytesPerSecond, dt, (b.rxBytes - a.rxBytes) as real)
    && Makes(m.txBytesPerSecond, dt, (b.txBytes - a.txBytes) as real)
    && Makes(m.rxPacketsPerSecond, dt, (b.rxPackets - a.rxPackets) as real)
    && Makes(m.txPacketsPerSecond, dt, (b.txPackets - a.txPackets) as real)
    && !NetFell(a, b)
    && ShareSays(m.rxErrorDropPct, b.rxErrors - a.rxErrors + (b.rxDrops - a.rxDrops), b.rxPackets - a.rxPackets)
    && ShareSays(m.txErrorDropPct, b.txErrors - a.txErrors + (b.txDrops - a.txDrops), b.txPackets - a.txPackets)
    && UtilSays(m.rxUtilPct, m.rxBytesPerSecond, speedMbps) && UtilSays(m.txUtilPct, m.txBytesPerSecond, speedMbps)
  }

  lemma ShareIsMeant(bad: nat, packets: U64)
    ensures ShareSays(BadShare(Saturated(bad, U64_LIMIT), packets), bad, packets)
  {
    if packets > 0 {
      QuotientMakes(Saturated(bad, U64_LIMIT) as real * 100.0, packets as real);
    }
  }

  lemma UtilIsMeant(bytesPerSecond: real, speedMbps: Option<U64>)
    ensures UtilSays(Utilisation(bytesPerSecond, speedMbps), bytesPerSecond, speedMbps)
  {
    if speedMbps.Some? && speedMbps.value > 0 {
      QuotientMakes(bytesPerSecond * 8.0 * 100.0, speedMbps.value as real * 1000000.0);
    }
  }

  lemma InterfacesAreMeant(a: Net, b: Net, speedMbps: Option<U64>, dt: real)
    requires dt > 0.0
    ensures var r := DiffNetwork(a, b, speedMbps, dt);
            if NetFell(a, b) then r == FamilyObservation(CounterReset, None)
            else r.quality == Observed && r.value.Some? && NetSays(r.value.value, a, b, speedMbps, dt)
  {
    if !NetFell(a, b) {
      var m := DiffNetwork(a, b, speedMbps, dt).value.value;
      QuotientMakes((b.rxBytes - a.rxBytes) as real, dt);
      QuotientMakes((b.txBytes - a.txBytes) as real, dt);
      QuotientMakes((b.rxPackets - a.rxPackets) as real, dt);
      QuotientMakes((b.txPackets - a.txPackets) as real, dt);
      ShareIsMeant(b.rxErrors - a.rxErrors + (b.rxDrops - a.rxDrops), b.rxPackets - a.rxPackets);
      ShareIsMeant(b.txErrors - a.txErrors + (b.txDrops - a.txDrops), b.txPackets - a.txPackets);
      UtilIsMeant(m.rxBytesPerSecond, speedMbps);
      UtilIsMeant(m.txBytesPerSecond, speedMbps);
    }
  }

  lemma {:induction false} LookupMeans<T>(entries: seq<Entry<T>>, j: nat)
    requires IsMap(entries) && j < |entries|
    ensures Lookup(entries, entries[j].name) == Some(entries[j].value)
  {
    if j > 0 {
      assert KeyOrder.Below(Names(entries)[0], Names(entries)[j]);
      assert entries[0].name != entries[j].name by {
        KeyOrder.BelowIsStrictTotal(entries[j].name, entries[j].name);
      }
      assert Names(entries[1..]) == Names(entries)[1..];
      assert entries[1..][j - 1] == entries[j];
      LookupMeans(entries[1..], j - 1);
    }
  }

  /** Entry i of frame A has the index, and entry j the counters under its name. */
  ghost predicate HadCounters(counters: seq<Entry<Net>>, identities: seq<Entry<Identity>>, ifindex: U32, i: nat,
                              j: nat) {
    && i < |identities| && j < |counters| && identities[i].value.ifindex == ifindex
    && counters[j].name == identities[i].name
  }

  /** The last entry that does. */
  ghost predicate WasInterface(counters: seq<Entry<Net>>, identities: seq<Entry<Identity>>, ifindex: U32, i: nat,
                               j: nat) {
    && HadCounters(counters, identities, ifindex, i, j)
    && forall i': nat, j': nat :: HadCounters(counters, identities, ifindex, i', j') ==> i' <= i
  }

  lemma {:induction false} CountersBeforeMean(counters: OrderedMap<Net>, identities: seq<Entry<Identity>>, ifindex: U32,
      i: nat, j: nat)
    requires WasInterface(counters, identities, ifindex, i, j)
    ensures CountersBefore(counters, identities, ifindex) == Some(counters[j].value)
  {
    var last := |identities| - 1;
    if i == last {
      LookupMeans(counters, j);
    } else {
      var found := Lookup(counters, identities[last].name);
      if identities[last].value.ifindex == ifindex && found.Some? {
        var k :| 0 <= k < |counters| && counters[k].name == identities[last].name;
        assert HadCounters(counters, identities, ifindex, last, k);
      }
      forall i': nat, j': nat | HadCounters(counters, identities[..last], ifindex, i', j') ensures i' <= i {
        assert HadCounters(counters, identities, ifindex, i', j');
      }
      CountersBeforeMean(counters, identities[..last], ifindex, i, j);
    }
  }

  lemma NoCountersBefore(counters: seq<Entry<Net>>, identities: seq<Entry<Identity>>, ifindex: U32)
    requires forall i: nat, j: nat :: !HadCounters(counters, identities, ifindex, i, j)
    ensures CountersBefore(counters, identities, ifindex) == None
  {
    if CountersBefore(counters, identities, ifindex).Some? {
      var i :| 0 <= i < |identities| && Lends(identities[i], counters, ifindex);
      var j :| 0 <= j < |counters| && counters[j].name == identities[i].name;
      assert HadCounters(counters, identities, ifindex, i, j);
    }
  }

  /** The quality and rates of an interface of known identity. */
  ghost predicate InterfaceSays(m: InterfaceRate, previous: NetFrame, current: Net, identity: Identity, sameBoot: bool,
      dt: real)
  {
    if !sameBoot then m.quality == CounterReset && m.metrics.None?
    else if dt < 0.5 then m.quality == InsufficientInterval && m.metrics.None?
    else
      && ((forall i: nat, j: nat :: !HadCounters(previous.counters, previous.identities, identity.ifindex, i, j)) ==>
            m.quality == CounterReset && m.metrics.None?)
      && (forall i: nat, j: nat :: WasInterface(previous.counters, previous.identities, identity.ifindex, i, j) ==>
            if NetFell(previous.counters[j].value, current) then m.quality == CounterReset && m.metrics.None?
            else m.quality == Observed && m.metrics.Some?
                 && NetSays(m.metrics.value, previous.counters[j].value, current, identity.speedMbps, dt))
  }

  lemma InterfaceOfIndex(m: InterfaceRate, previous: NetFrame, current: Net, identity: Identity, dt: real)
    requires dt >= 0.5
    requires var before := CountersBefore(previous.counters, previous.identities, identity.ifindex);
             var observation := if before.Some? then DiffNetwork(before.value, current, identity.speedMbps, dt)
                                else Without(CounterReset);
             m.quality == observation.quality && m.metrics == observation.value
    ensures InterfaceSays(m, previous, current, identity, true, dt)
  {
    if forall i: nat, j: nat :: !HadCounters(previous.counters, previous.identities, identity.ifindex, i, j) {
      NoCountersBefore(previous.counters, previous.identities, identity.ifindex);
    }
    forall i: nat, j: nat | WasInterface(previous.counters, previous.identities, identity.ifindex, i, j)
      ensures if NetFell(previous.counters[j].value, current) then m.quality == CounterReset && m.metrics.None?
              else m.quality == Observed && m.metrics.Some?
                   && NetSays(m.metrics.value, previous.counters[j].value, current, identity.speedMbps, dt)
    {
      CountersBeforeMean(previous.counters, previous.identities, identity.ifindex, i, j);
      InterfacesAreMeant(previous.counters[j].value, current, identity.speedMbps, dt);
    }
  }

  /**
   What an interface's member says: who it is in frame B, and its rates against the last entry of
   frame A with the same index, under whatever name.
   */
  lemma InterfaceIsMeant(previous: NetFrame, current: Entry<Net>, identities: OrderedMap<Identity>, bootA: BootSample,
      bootB: BootSample, n: nat)
    requires n < |identities| && identities[n].name == current.name
    ensures var m := InterfaceMember(previous, current, identities, bootA, bootB);
            var identity := identities[n].value;
            var dt := bootB.uptimeSeconds - bootA.uptimeSeconds;
            && m.identity == bootB.bootId + ":" + Digits(identity.ifindex) && m.name == current.name
            && m.ifindex == identity.ifindex && m.iflink == identity.iflink && m.operstate == identity.operstate
            && m.speedMbps == identity.speedMbps && m.windowSeconds == LengthOf(dt)
            && InterfaceSays(m, previous, current.value, identity, bootA.bootId == bootB.bootId, dt)
  {
    LookupMeans(identities, n);
    var dt := bootB.uptimeSeconds - bootA.uptimeSeconds;
    if bootA.bootId == bootB.bootId && dt >= 0.5 {
      InterfaceOfIndex(InterfaceMember(previous, current, identities, bootA, bootB), previous, current.value,
                       identities[n].value, dt);
    }
  }

  /** An interface that frame B cannot identify is listed, but not rated. */
  lemma UnidentifiedIsListed(previous: NetFrame, current: Entry<Net>, identities: seq<Entry<Identity>>,
      bootA: BootSample, bootB: BootSample)
    requires forall n :: 0 <= n < |identities| ==> identities[n].name != current.name
    ensures var dt := bootB.uptimeSeconds - bootA.uptimeSeconds;
            InterfaceMember(previous, current, identities, bootA, bootB)
            == InterfaceRate(bootB.bootId + ":unknown:" + current.name, current.name, 0, None, "unknown", None,
                             ParseFailed, LengthOf(dt), None)
  {
  }

  /** A network family without one of its sources: the boots come first, then the counters, then the identities. */
  lemma MissingSourceDecides(s: NetSources)
    requires Consistent(s.bootA) && Consistent(s.bootB) && Consistent(s.countersA) && Consistent(s.countersB)
    requires Consistent(s.identityA) && Consistent(s.identityB)
    ensures var sources := Missing(s.bootA, s.bootB, s.countersA, s.countersB);
            MissingSource(s) == if sources.Some? then sources
                                else if s.identityA.quality != Observed then Some(s.identityA.quality)
                                else if s.identityB.quality != Observed then Some(s.identityB.quality)
                                else None
  {
  }

  /** A family is as good as its best member, else as its first; without members it is unsupported. */
  lemma FamilyIsMeant<T>(members: seq<T>, quality: T -> Quality)
    ensures var r := FamilyFromMembers(members, quality);
            && (members == [] ==> r == FamilyObservation(Unsupported, None))
            && (members != [] ==> r.value == Some(members))
            && (r.quality == Observed <==> exists i :: 0 <= i < |members| && quality(members[i]) == Observed)
            && (members != [] && r.quality != Observed ==> r.quality == quality(members[0]))
  {
    FamilyObservedExactly(members, quality);
  }
}
