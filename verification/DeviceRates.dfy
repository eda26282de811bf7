/**
 Joining two counter frames on device identity (backend/src/monitoring.rs). Rates are reals: rounding
 is not modelled.
 */
module DeviceRates {
  import opened Wrappers
  import opened Decimals
  import opened Metrics
  import Text

  function Quotient(a: real, b: real): real
    requires b > 0.0
  {
    a / b
  }

  lemma QuotientIsNonNegative(a: real, b: real)
    requires a >= 0.0 && b > 0.0
    ensures Quotient(a, b) >= 0.0
  {
  }

  /** What a rate or mean amounts to over a window or a number of events. */
  function Over(rate: real, weight: real): real {
    rate * weight
  }

  lemma QuotientTimesDivisor(a: real, b: real)
    requires b > 0.0
    ensures Over(Quotient(a, b), b) == a
  {
  }

  /** A quotient over two parts is the mean of the parts' quotients, weighted by their divisors. */
  lemma QuotientsCombine(a: real, b: real, a': real, b': real)
    requires b > 0.0 && b' > 0.0
    ensures Over(Quotient(a + a', b + b'), b + b') == Over(Quotient(a, b), b) + Over(Quotient(a', b'), b')
  {
    QuotientTimesDivisor(a, b);
    QuotientTimesDivisor(a', b');
    QuotientTimesDivisor(a + a', b + b');
  }

  // ---- families --------------------------------------------------------------------

  predicate AnyObserved<T>(members: seq<T>, quality: T -> Quality) {
    exists i :: 0 <= i < |members| && quality(members[i]) == Observed
  }

  /** Observed when some member is, else the first member's quality; an empty family is unsupported. */
  function FamilyFromMembers<T>(members: seq<T>, quality: T -> Quality): FamilyObservation<seq<T>> {
    if members == [] then Without(Unsupported)
    else if AnyObserved(members, quality) then FamilyObservation(Observed, Some(members))
    else FamilyObservation(quality(members[0]), Some(members))
  }

  /** Members are listed whenever there are any, also in a family that is not observed. */
  lemma FamilyObservedExactly<T>(members: seq<T>, quality: T -> Quality)
    ensures FamilyFromMembers(members, quality).quality == Observed <==> AnyObserved(members, quality)
    ensures FamilyFromMembers(members, quality).value == if members == [] then None else Some(members)
  {
    if members != [] && quality(members[0]) == Observed {
      assert AnyObserved(members, quality);
    }
  }

  function Window(dt: real): real {
    if dt < 0.0 then 0.0 else dt
  }

  // ---- disks -------------------------------------------------------------------------

  datatype Disk = Disk(
    major: U32, minor: U32, name: string, readOps: U64, readSectors: U64, readMs: U64, writeOps: U64, writeSectors: U64,
    writeMs: U64, ioMs: U64, weightedIoMs: U64)

  datatype DiskMetrics = DiskMetrics(
    readBytesPerSecond: real, writeBytesPerSecond: real, iops: real, readAwaitMs: Option<real>,
    writeAwaitMs: Option<real>,
    utilPct: real, averageQueueDepth: real)

  datatype DiskRate = DiskRate(
    identity: string, name: string, major: U32, minor: U32, quality: Quality, windowSeconds: real,
    metrics: Option<DiskMetrics>)

  function DiskQuality(rate: DiskRate): Quality {
    rate.quality
  }

  predicate DiskDecreased(previous: Disk, current: Disk) {
    || current.readOps < previous.readOps || current.readSectors < previous.readSectors
       || current.readMs < previous.readMs
    || current.writeOps < previous.writeOps || current.writeSectors < previous.writeSectors
       || current.writeMs < previous.writeMs
    || current.ioMs < previous.ioMs || current.weightedIoMs < previous.weightedIoMs
  }

  /** Reads and writes between two frames. */
  function Operations(previous: Disk, current: Disk): nat
    requires !DiskDecreased(previous, current)
  {
    current.readOps - previous.readOps + (current.writeOps - previous.writeOps)
  }

  function DiffDisk(previous: Disk, current: Disk, dt: real): FamilyObservation<DiskMetrics>
    requires dt > 0.0
  {
    if DiskDecreased(previous, current) then Without(CounterReset)
    else
      var readOps, writeOps := current.readOps - previous.readOps, current.writeOps - previous.writeOps;
      var readMs, writeMs := current.readMs - previous.readMs, current.writeMs - previous.writeMs;
      FamilyObservation(Observed, Some(DiskMetrics(
        Quotient((current.readSectors - previous.readSectors) as real * 512.0, dt),
        Quotient((current.writeSectors - previous.writeSectors) as real * 512.0, dt),
        Quotient(Saturated(readOps + writeOps, U64_LIMIT) as real, dt),
        if readOps > 0 then Some(Quotient(readMs as real, readOps as real)) else None,
        if writeOps > 0 then Some(Quotient(writeMs as real, writeOps as real)) else None,
        Quotient((current.ioMs - previous.ioMs) as real * 100.0, dt * 1000.0),
        Quotient((current.weightedIoMs - previous.weightedIoMs) as real, dt * 1000.0))))
  }

  /** What identifies a block device. */
  datatype DeviceNumber = DeviceNumber(major: U32, minor: U32)

  function NumberOf(disk: Disk): DeviceNumber {
    DeviceNumber(disk.major, disk.minor)
  }

  /** The last listed device with this number. */
  function DiskBefore(previous: seq<Disk>, number: DeviceNumber): (r: Option<Disk>)
    ensures r.Some? <==> exists i :: 0 <= i < |previous| && NumberOf(previous[i]) == number
    ensures r.Some? ==> r.value in previous && NumberOf(r.value) == number
  {
    if previous == [] then None
    else
      var last := |previous| - 1;
      if NumberOf(previous[last]) == number then Some(previous[last])
      else
        var rest := DiskBefore(previous[..last], number);
        assert forall i :: 0 <= i < last ==> previous[..last][i] == previous[i];
        rest
  }

  function DiskIdentity(boot: BootSample, device: Disk): string {
    boot.bootId + ":" + (Digits(device.major) + ":" + Digits(device.minor))
  }

  function DiskMember(previous: seq<Disk>, device: Disk, bootA: BootSample, bootB: BootSample): DiskRate {
    var dt := bootB.uptimeSeconds - bootA.uptimeSeconds;
    var before := DiskBefore(previous, NumberOf(device));
    var observation :=
      if bootA.bootId != bootB.bootId then Without(CounterReset)
      else if !ValidInterval(dt) then Without(InsufficientInterval)
      else if before.Some? then DiffDisk(before.value, device, dt)
      else Without(CounterReset);
    DiskRate(DiskIdentity(bootB, device), device.name, device.major, device.minor, observation.quality, Window(dt),
        observation.value)
  }

  /** Devices by number; a later device under the same number replaces an earlier one. */
  ghost predicate IndexesDisks(byNumber: map<DeviceNumber, Disk>, previous: seq<Disk>) {
    forall number :: Get(byNumber, number) == DiskBefore(previous, number)
  }

  lemma IndexNextDisk(byNumber: map<DeviceNumber, Disk>, previous: seq<Disk>, next: Disk)
    requires IndexesDisks(byNumber, previous)
    ensures IndexesDisks(byNumber[NumberOf(next) := next], previous + [next])
  {
    forall number ensures Get(byNumber[NumberOf(next) := next], number) == DiskBefore(previous + [next], number) {
      assert Get(byNumber, number) == DiskBefore(previous, number);
      assert (previous + [next])[..|previous + [next]| - 1] == previous;
    }
  }

  method IndexDisks(previous: seq<Disk>) returns (byNumber: map<DeviceNumber, Disk>)
    ensures IndexesDisks(byNumber, previous)
  {
    byNumber := map[];
    for i := 0 to |previous|
      invariant IndexesDisks(byNumber, previous[..i])
    {
      IndexNextDisk(byNumber, previous[..i], previous[i]);
      byNumber := byNumber[NumberOf(previous[i]) := previous[i]];
      assert previous[..i + 1] == previous[..i] + [previous[i]];
    }
    assert previous[..|previous|] == previous;
  }

  method RateDisk(byNumber: map<DeviceNumber, Disk>, ghost previous: seq<Disk>, device: Disk, bootA: BootSample,
      bootB: BootSample)
    returns (rate: DiskRate)
    requires IndexesDisks(byNumber, previous)
    ensures rate == DiskMember(previous, device, bootA, bootB)
  {
    var dt := bootB.uptimeSeconds - bootA.uptimeSeconds;
    assert Get(byNumber, NumberOf(device)) == DiskBefore(previous, NumberOf(device));
    var observation: FamilyObservation<DiskMetrics>;
    if bootA.bootId != bootB.bootId {
      observation := Without(CounterReset);
    } else if !ValidInterval(dt) {
      observation := Without(InsufficientInterval);
    } else if NumberOf(device) in byNumber {
      observation := DiffDisk(byNumber[NumberOf(device)], device, dt);
    } else {
      observation := Without(CounterReset);
    }
    rate := DiskRate(DiskIdentity(bootB, device), device.name, device.major, device.minor, observation.quality,
                     Window(dt), observation.value);
  }

  /** One member per current device, in their order. */
  ghost predicate AreDiskMembers(members: seq<DiskRate>, previous: seq<Disk>, current: seq<Disk>, bootA: BootSample,
      bootB: BootSample)
  {
    |members| == |current| && forall i :: 0 <= i < |current| ==>
                                            members[i] == DiskMember(previous, current[i], bootA, bootB)
  }

  method DeriveDiskIo(previous: FamilyObservation<seq<Disk>>, current: FamilyObservation<seq<Disk>>,
                      bootA: FamilyObservation<BootSample>, bootB: FamilyObservation<BootSample>)
    returns (r: FamilyObservation<seq<DiskRate>>)
    ensures bootA.value.None? || bootB.value.None? ==> r == Without(FirstUnavailable(bootA.quality, bootB.quality))
    ensures bootA.value.Some? && bootB.value.Some? && previous.value.None? ==> r == Without(previous.quality)
    ensures bootA.value.Some? && bootB.value.Some? && previous.value.Some? && current.value.None? ==>
              r == Without(current.quality)
    ensures bootA.value.Some? && bootB.value.Some? && previous.value.Some? && current.value.Some? ==>
              exists members :: && AreDiskMembers(members, previous.value.value, current.value.value,
                                                  bootA.value.value, bootB.value.value)
                                && r == FamilyFromMembers(members, DiskQuality)
  {
    if bootA.value.None? || bootB.value.None? {
      return Without(FirstUnavailable(bootA.quality, bootB.quality));
    }
    if previous.value.None? {
      return Without(previous.quality);
    }
    if current.value.None? {
      return Without(current.quality);
    }
    var byNumber := IndexDisks(previous.value.value);
    var devices := current.value.value;
    var rates: seq<DiskRate> := [];
    for i := 0 to |devices|
      invariant AreDiskMembers(rates, previous.value.value, devices[..i], bootA.value.value, bootB.value.value)
    {
      var rate := RateDisk(byNumber, previous.value.value, devices[i], bootA.value.value, bootB.value.value);
      rates := rates + [rate];
    }
    assert devices[..|devices|] == devices;
    return FamilyFromMembers(rates, DiskQuality);
  }

  /**
   A disk's rate is observed exactly when the boot is the same, half a second passed, frame A lists
   its numbers, and no counter fell; then every rate is non-negative.
   */
  lemma DiskObservedExactly(previous: seq<Disk>, device: Disk, bootA: BootSample, bootB: BootSample)
    ensures var m := DiskMember(previous, device, bootA, bootB);
            && (m.quality == Observed <==>
                  && bootA.bootId == bootB.bootId && bootB.uptimeSeconds - bootA.uptimeSeconds >= 0.5
                  && (exists i :: 0 <= i < |previous| && NumberOf(previous[i]) == NumberOf(device))
                  && !DiskDecreased(DiskBefore(previous, NumberOf(device)).value, device))
            && (m.metrics.Some? <==> m.quality == Observed)
            && (m.metrics.Some? ==> NonNegativeDisk(m.metrics.value))
  {
    var dt := bootB.uptimeSeconds - bootA.uptimeSeconds;
    var before := DiskBefore(previous, NumberOf(device));
    if bootA.bootId == bootB.bootId && ValidInterval(dt) && before.Some? {
      DiskRatesAreNonNegative(before.value, device, dt);
    }
  }

  predicate NonNegative(o: Option<real>) {
    o.Some? ==> o.value >= 0.0
  }

  predicate NonNegativeDisk(m: DiskMetrics) {
    && m.readBytesPerSecond >= 0.0 && m.writeBytesPerSecond >= 0.0 && m.iops >= 0.0
    && NonNegative(m.readAwaitMs) && NonNegative(m.writeAwaitMs) && m.utilPct >= 0.0 && m.averageQueueDepth >= 0.0
  }

  lemma DiskRatesAreNonNegative(previous: Disk, current: Disk, dt: real)
    requires dt > 0.0
    ensures var r := DiffDisk(previous, current, dt);
            && (r.value.Some? <==> !DiskDecreased(previous, current)) && Consistent(r)
               && r.quality in {Observed, CounterReset}
            && (r.value.Some? ==> NonNegativeDisk(r.value.value))
  {
    if !DiskDecreased(previous, current) {
      QuotientIsNonNegative((current.readSectors - previous.readSectors) as real * 512.0, dt);
      QuotientIsNonNegative((current.writeSectors - previous.writeSectors) as real * 512.0, dt);
      QuotientIsNonNegative(Saturated(Operations(previous, current), U64_LIMIT) as real, dt);
      QuotientIsNonNegative((current.ioMs - previous.ioMs) as real * 100.0, dt * 1000.0);
      QuotientIsNonNegative((current.weightedIoMs - previous.weightedIoMs) as real, dt * 1000.0);
      if current.readOps > previous.readOps {
        QuotientIsNonNegative((current.readMs - previous.readMs) as real, (current.readOps - previous.readOps) as real);
      }
      if current.writeOps > previous.writeOps {
        QuotientIsNonNegative((current.writeMs - previous.writeMs) as real,
            (current.writeOps - previous.writeOps) as real);
      }
    }
  }

  lemma NoDiskFellAcross(a: Disk, b: Disk, c: Disk)
    requires !DiskDecreased(a, b) && !DiskDecreased(b, c)
    ensures !DiskDecreased(a, c)
  {
  }

  /**
   Over two adjoining windows a disk's byte rates are the time-weighted means of the parts, so
   skipping a sample loses nothing but detail.
   */
  lemma DiskRatesCombine(a: Disk, b: Disk, c: Disk, s: real, t: real)
    requires s > 0.0 && t > 0.0 && !DiskDecreased(a, b) && !DiskDecreased(b, c)
    ensures !DiskDecreased(a, c)
    ensures var ab, bc, ac := DiffDisk(a, b, s).value.value, DiffDisk(b, c, t).value.value,
                              DiffDisk(a, c, s + t).value.value;
            && Over(ac.readBytesPerSecond, s + t) == Over(ab.readBytesPerSecond, s) + Over(bc.readBytesPerSecond, t)
            && Over(ac.writeBytesPerSecond, s + t) == Over(ab.writeBytesPerSecond, s) + Over(bc.writeBytesPerSecond, t)
  {
    NoDiskFellAcross(a, b, c);
    QuotientsCombine((b.readSectors - a.readSectors) as real * 512.0, s,
        (c.readSectors - b.readSectors) as real * 512.0, t);
    QuotientsCombine((b.writeSectors - a.writeSectors) as real * 512.0, s,
        (c.writeSectors - b.writeSectors) as real * 512.0, t);
  }

  /** Sums that saturating 64-bit arithmetic adds up exactly. */
  predicate AddsUp(a: nat, b: nat) {
    a + b < U64_LIMIT || a == 0 || b == 0
  }

  /**
   A long window never counts more operations than its parts, and as many exactly when saturation
   cuts none or one part had none.
   */
  lemma IopsCombine(a: Disk, b: Disk, c: Disk, s: real, t: real)
    requires s > 0.0 && t > 0.0 && !DiskDecreased(a, b) && !DiskDecreased(b, c)
    ensures !DiskDecreased(a, c)
    ensures var ab, bc, ac := DiffDisk(a, b, s).value.value, DiffDisk(b, c, t).value.value,
                              DiffDisk(a, c, s + t).value.value;
            && Over(ac.iops, s + t) <= Over(ab.iops, s) + Over(bc.iops, t)
            && (Over(ac.iops, s + t) == Over(ab.iops, s) + Over(bc.iops, t)
                <==> AddsUp(Operations(a, b), Operations(b, c)))
  {
    NoDiskFellAcross(a, b, c);
    QuotientTimesDivisor(Saturated(Operations(a, b), U64_LIMIT) as real, s);
    QuotientTimesDivisor(Saturated(Operations(b, c), U64_LIMIT) as real, t);
    QuotientTimesDivisor(Saturated(Operations(a, c), U64_LIMIT) as real, s + t);
    SaturatedSplits(Operations(a, b), Operations(b, c), U64_LIMIT);
  }

  /** Likewise utilisation and queue depth, which are per millisecond. */
  lemma DiskLoadsCombine(a: Disk, b: Disk, c: Disk, s: real, t: real)
    requires s > 0.0 && t > 0.0 && !DiskDecreased(a, b) && !DiskDecreased(b, c)
    ensures !DiskDecreased(a, c)
    ensures var ab, bc, ac := DiffDisk(a, b, s).value.value, DiffDisk(b, c, t).value.value,
                              DiffDisk(a, c, s + t).value.value;
            && Over(ac.utilPct, s * 1000.0 + t * 1000.0) == Over(ab.utilPct, s * 1000.0) + Over(bc.utilPct, t * 1000.0)
            && Over(ac.averageQueueDepth, s * 1000.0 + t * 1000.0)
               == Over(ab.averageQueueDepth, s * 1000.0) + Over(bc.averageQueueDepth, t * 1000.0)
  {
    NoDiskFellAcross(a, b, c);
    assert (s + t) * 1000.0 == s * 1000.0 + t * 1000.0;
    QuotientsCombine((b.ioMs - a.ioMs) as real * 100.0, s * 1000.0, (c.ioMs - b.ioMs) as real * 100.0, t * 1000.0);
    QuotientsCombine((b.weightedIoMs - a.weightedIoMs) as real, s * 1000.0, (c.weightedIoMs - b.weightedIoMs) as real,
        t * 1000.0);
  }

  /** An await over both windows is the mean of the parts weighted by their operations, when both had some. */
  lemma AwaitsCombine(a: Disk, b: Disk, c: Disk, s: real, t: real)
    requires s > 0.0 && t > 0.0 && !DiskDecreased(a, b) && !DiskDecreased(b, c)
    ensures !DiskDecreased(a, c)
    ensures var ab, bc, ac := DiffDisk(a, b, s).value.value, DiffDisk(b, c, t).value.value,
                              DiffDisk(a, c, s + t).value.value;
            && (a.readOps < b.readOps < c.readOps ==>
                  && ab.readAwaitMs.Some? && bc.readAwaitMs.Some? && ac.readAwaitMs.Some?
                  && Over(ac.readAwaitMs.value, (b.readOps - a.readOps) as real + (c.readOps - b.readOps) as real)
                     == Over(ab.readAwaitMs.value, (b.readOps - a.readOps) as real)
                        + Over(bc.readAwaitMs.value, (c.readOps - b.readOps) as real))
            && (a.writeOps < b.writeOps < c.writeOps ==>
                  && ab.writeAwaitMs.Some? && bc.writeAwaitMs.Some? && ac.writeAwaitMs.Some?
                  && Over(ac.writeAwaitMs.value, (b.writeOps - a.writeOps) as real + (c.writeOps - b.writeOps) as real)
                     == Over(ab.writeAwaitMs.value, (b.writeOps - a.writeOps) as real)
                        + Over(bc.writeAwaitMs.value, (c.writeOps - b.writeOps) as real))
  {
    NoDiskFellAcross(a, b, c);
    if a.readOps < b.readOps < c.readOps {
      QuotientsCombine((b.readMs - a.readMs) as real, (b.readOps - a.readOps) as real, (c.readMs - b.readMs) as real,
          (c.readOps - b.readOps) as real);
    }
    if a.writeOps < b.writeOps < c.writeOps {
      QuotientsCombine((b.writeMs - a.writeMs) as real, (b.writeOps - a.writeOps) as real,
          (c.writeMs - b.writeMs) as real, (c.writeOps - b.writeOps) as real);
    }
  }

  /** Identity strings tell devices apart: they agree only on the same boot and the same numbers. */
  lemma DiskIdentityTellsDevices(bootA: BootSample, a: Disk, bootB: BootSample, b: Disk)
    requires ':' !in bootA.bootId && ':' !in bootB.bootId
    ensures DiskIdentity(bootA, a) == DiskIdentity(bootB, b)
            <==> bootA.bootId == bootB.bootId && NumberOf(a) == NumberOf(b)
  {
    if DiskIdentity(bootA, a) == DiskIdentity(bootB, b) {
      Text.ColonSplitsOnce(bootA.bootId, bootB.bootId, Digits(a.major) + ":" + Digits(a.minor),
                           Digits(b.major) + ":" + Digits(b.minor));
      DigitsHoldNoColon(a.major);
      DigitsHoldNoColon(b.major);
      Text.ColonSplitsOnce(Digits(a.major), Digits(b.major), Digits(a.minor), Digits(b.minor));
      ValueOfDigits(a.major);
      ValueOfDigits(b.major);
      ValueOfDigits(a.minor);
      ValueOfDigits(b.minor);
    }
  }

  lemma DigitsHoldNoColon(n: nat)
    ensures ':' !in Digits(n)
  {
    assert forall c :: c in Digits(n) ==> IsDigit(c);
  }
}
