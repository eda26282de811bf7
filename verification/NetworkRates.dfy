/** Joining two frames of network counters on interface index (backend/src/monitoring.rs). */
module NetworkRates {
  import opened Wrappers
  import opened Decimals
  import opened Metrics
  import opened DeviceRates
  import KeyOrder

  /** One entry of an ordered map; a map is its entries in ascending order of name. */
  datatype Entry<T> = Entry(name: string, value: T)

  function Names<T>(entries: seq<Entry<T>>): seq<string> {
    seq(|entries|, i requires 0 <= i < |entries| => entries[i].name)
  }

  ghost predicate IsMap<T>(entries: seq<Entry<T>>) {
    KeyOrder.Ascending(Names(entries))
  }

  type OrderedMap<T> = entries: seq<Entry<T>> | IsMap(entries) witness []

  function Lookup<T>(entries: seq<Entry<T>>, name: string): (r: Option<T>)
    ensures r.Some? <==> exists i :: 0 <= i < |entries| && entries[i].name == name
  {
    if entries == [] then None
    else if entries[0].name == name then Some(entries[0].value)
    else
      assert forall i :: 0 < i < |entries| ==> entries[i] == entries[1..][i - 1];
      Lookup(entries[1..], name)
  }

  datatype Net = Net(
    rxBytes: U64, rxPackets: U64, rxErrors: U64, rxDrops: U64, txBytes: U64, txPackets: U64, txErrors: U64,
    txDrops: U64)

  datatype Identity = Identity(ifindex: U32, iflink: Option<U32>, operstate: string, speedMbps: Option<U64>)

  datatype NetMetrics = NetMetrics(
    rxBytesPerSecond: real, txBytesPerSecond: real, rxPacketsPerSecond: real, txPacketsPerSecond: real,
    rxErrorDropPct: Option<real>, txErrorDropPct: Option<real>, rxUtilPct: Option<real>, txUtilPct: Option<real>)

  datatype InterfaceRate = InterfaceRate(
    identity: string, name: string, ifindex: U32, iflink: Option<U32>, operstate: string, speedMbps: Option<U64>,
    quality: Quality, windowSeconds: real, metrics: Option<NetMetrics>)

  function InterfaceQuality(rate: InterfaceRate): Quality {
    rate.quality
  }

  predicate NetDecreased(previous: Net, current: Net) {
    || current.rxBytes < previous.rxBytes || current.rxPackets < previous.rxPackets
    || current.rxErrors < previous.rxErrors || current.rxDrops < previous.rxDrops
    || current.txBytes < previous.txBytes || current.txPackets < previous.txPackets
    || current.txErrors < previous.txErrors || current.txDrops < previous.txDrops
  }

  /** Errors and drops between two readings. */
  function Bad(errors: nat, drops: nat, errors': nat, drops': nat): nat
    requires errors <= errors' && drops <= drops'
  {
    errors' - errors + (drops' - drops)
  }

  function BadShare(bad: U64, packets: U64): Option<real> {
    if packets > 0 then Some(Quotient(bad as real * 100.0, packets as real)) else None
  }

  function Utilisation(bytesPerSecond: real, speedMbps: Option<U64>): Option<real> {
    if speedMbps.Some? && speedMbps.value > 0 then
      Some(Quotient(bytesPerSecond * 8.0 * 100.0, speedMbps.value as real * 1000000.0))
    else None
  }

  function DiffNetwork(previous: Net, current: Net, speedMbps: Option<U64>, dt: real): FamilyObservation<NetMetrics>
    requires dt > 0.0
  {
    if NetDecreased(previous, current) then Without(CounterReset)
    else
      var rxPackets, txPackets := current.rxPackets - previous.rxPackets, current.txPackets - previous.txPackets;
      var rxBad := Saturated(Bad(previous.rxErrors, previous.rxDrops, current.rxErrors, current.rxDrops), U64_LIMIT);
      var txBad := Saturated(Bad(previous.txErrors, previous.txDrops, current.txErrors, current.txDrops), U64_LIMIT);
      var rxBytesPerSecond := Quotient((current.rxBytes - previous.rxBytes) as real, dt);
      var txBytesPerSecond := Quotient((current.txBytes - previous.txBytes) as real, dt);
      FamilyObservation(Observed, Some(NetMetrics(
        rxBytesPerSecond, txBytesPerSecond, Quotient(rxPackets as real, dt), Quotient(txPackets as real, dt),
        BadShare(rxBad, rxPackets), BadShare(txBad, txPackets),
        Utilisation(rxBytesPerSecond, speedMbps), Utilisation(txBytesPerSecond, speedMbps))))
  }

  predicate NonNegativeNet(m: NetMetrics) {
    && m.rxBytesPerSecond >= 0.0 && m.txBytesPerSecond >= 0.0 && m.rxPacketsPerSecond >= 0.0
       && m.txPacketsPerSecond >= 0.0
    && NonNegative(m.rxErrorDropPct) && NonNegative(m.txErrorDropPct) && NonNegative(m.rxUtilPct)
       && NonNegative(m.txUtilPct)
  }

  lemma SharesAreNonNegative(bad: U64, packets: U64, bytesPerSecond: real, speedMbps: Option<U64>)
    requires bytesPerSecond >= 0.0
    ensures NonNegative(BadShare(bad, packets)) && NonNegative(Utilisation(bytesPerSecond, speedMbps))
  {
    if packets > 0 {
      QuotientIsNonNegative(bad as real * 100.0, packets as real);
    }
    if speedMbps.Some? && speedMbps.value > 0 {
      QuotientIsNonNegative(bytesPerSecond * 8.0 * 100.0, speedMbps.value as real * 1000000.0);
    }
  }

  lemma NetRatesAreNonNegative(previous: Net, current: Net, speedMbps: Option<U64>, dt: real)
    requires dt > 0.0
    ensures var r := DiffNetwork(previous, current, speedMbps, dt);
            && (r.value.Some? <==> !NetDecreased(previous, current)) && Consistent(r)
            && (r.value.Some? ==> NonNegativeNet(r.value.value))
  {
    if !NetDecreased(previous, current) {
      var m := DiffNetwork(previous, current, speedMbps, dt).value.value;
      QuotientIsNonNegative((current.rxBytes - previous.rxBytes) as real, dt);
      QuotientIsNonNegative((current.txBytes - previous.txBytes) as real, dt);
      QuotientIsNonNegative((current.rxPackets - previous.rxPackets) as real, dt);
      QuotientIsNonNegative((current.txPackets - previous.txPackets) as real, dt);
      SharesAreNonNegative(Saturated(Bad(previous.rxErrors, previous.rxDrops, current.rxErrors, current.rxDrops),
                                     U64_LIMIT),
                           current.rxPackets - previous.rxPackets, m.rxBytesPerSecond, speedMbps);
      SharesAreNonNegative(Saturated(Bad(previous.txErrors, previous.txDrops, current.txErrors, current.txDrops),
                                     U64_LIMIT),
                           current.txPackets - previous.txPackets, m.txBytesPerSecond, speedMbps);
    }
  }

  lemma NoNetFellAcross(a: Net, b: Net, c: Net)
    requires !NetDecreased(a, b) && !NetDecreased(b, c)
    ensures !NetDecreased(a, c)
  {
  }

  /** Over two adjoining windows an interface's rates are the time-weighted means of the parts. */
  lemma NetRatesCombine(a: Net, b: Net, c: Net, speedMbps: Option<U64>, s: real, t: real)
    requires s > 0.0 && t > 0.0 && !NetDecreased(a, b) && !NetDecreased(b, c)
    ensures !NetDecreased(a, c)
    ensures var ab, bc := DiffNetwork(a, b, speedMbps, s).value.value, DiffNetwork(b, c, speedMbps, t).value.value;
            var ac := DiffNetwork(a, c, speedMbps, s + t).value.value;
            && Over(ac.rxBytesPerSecond, s + t) == Over(ab.rxBytesPerSecond, s) + Over(bc.rxBytesPerSecond, t)
            && Over(ac.txBytesPerSecond, s + t) == Over(ab.txBytesPerSecond, s) + Over(bc.txBytesPerSecond, t)
            && Over(ac.rxPacketsPerSecond, s + t) == Over(ab.rxPacketsPerSecond, s) + Over(bc.rxPacketsPerSecond, t)
            && Over(ac.txPacketsPerSecond, s + t) == Over(ab.txPacketsPerSecond, s) + Over(bc.txPacketsPerSecond, t)
  {
    NoNetFellAcross(a, b, c);
    QuotientsCombine((b.rxBytes - a.rxBytes) as real, s, (c.rxBytes - b.rxBytes) as real, t);
    QuotientsCombine((b.txBytes - a.txBytes) as real, s, (c.txBytes - b.txBytes) as real, t);
    QuotientsCombine((b.rxPackets - a.rxPackets) as real, s, (c.rxPackets - b.rxPackets) as real, t);
    QuotientsCombine((b.txPackets - a.txPackets) as real, s, (c.txPackets - b.txPackets) as real, t);
  }

  /**
   The share over two windows is at most the mean of the parts weighted by their packets, and equal
   to it exactly when `exact`.
   */
  predicate SharesCombine(first: Option<real>, packets: nat, second: Option<real>, packets': nat, both: Option<real>,
                          exact: bool) {
    && first.Some? && second.Some? && both.Some?
    && Over(both.value, packets as real + packets' as real)
       <= Over(first.value, packets as real) + Over(second.value, packets' as real)
    && (exact <==>
          Over(both.value, packets as real + packets' as real)
          == Over(first.value, packets as real) + Over(second.value, packets' as real))
  }

  lemma BadSharesCombine(bad: nat, packets: U64, bad': nat, packets': U64)
    requires packets + packets' < U64_LIMIT && packets > 0 && packets' > 0
    ensures SharesCombine(BadShare(Saturated(bad, U64_LIMIT), packets), packets,
                          BadShare(Saturated(bad', U64_LIMIT), packets'), packets',
                          BadShare(Saturated(bad + bad', U64_LIMIT), packets + packets'), AddsUp(bad, bad'))
  {
    QuotientTimesDivisor(Saturated(bad, U64_LIMIT) as real * 100.0, packets as real);
    QuotientTimesDivisor(Saturated(bad', U64_LIMIT) as real * 100.0, packets' as real);
    QuotientTimesDivisor(Saturated(bad + bad', U64_LIMIT) as real * 100.0, (packets + packets') as real);
    SaturatedSplits(bad, bad', U64_LIMIT);
  }

  /** Received packets, both windows having some: exact unless the 64-bit count of bad ones saturates. */
  lemma RxSharesCombine(a: Net, b: Net, c: Net, speedMbps: Option<U64>, s: real, t: real)
    requires s > 0.0 && t > 0.0 && !NetDecreased(a, b) && !NetDecreased(b, c) && a.rxPackets < b.rxPackets < c.rxPackets
    ensures !NetDecreased(a, c)
    ensures var bad, bad' := Bad(a.rxErrors, a.rxDrops, b.rxErrors, b.rxDrops),
                             Bad(b.rxErrors, b.rxDrops, c.rxErrors, c.rxDrops);
            SharesCombine(DiffNetwork(a, b, speedMbps, s).value.value.rxErrorDropPct, b.rxPackets - a.rxPackets,
                          DiffNetwork(b, c, speedMbps, t).value.value.rxErrorDropPct, c.rxPackets - b.rxPackets,
                          DiffNetwork(a, c, speedMbps, s + t).value.value.rxErrorDropPct, AddsUp(bad, bad'))
  {
    NoNetFellAcross(a, b, c);
    BadSharesCombine(Bad(a.rxErrors, a.rxDrops, b.rxErrors, b.rxDrops), b.rxPackets - a.rxPackets,
                     Bad(b.rxErrors, b.rxDrops, c.rxErrors, c.rxDrops), c.rxPackets - b.rxPackets);
  }

  /** Sent packets likewise. */
  lemma TxSharesCombine(a: Net, b: Net, c: Net, speedMbps: Option<U64>, s: real, t: real)
    requires s > 0.0 && t > 0.0 && !NetDecreased(a, b) && !NetDecreased(b, c) && a.txPackets < b.txPackets < c.txPackets
    ensures !NetDecreased(a, c)
    ensures var bad, bad' := Bad(a.txErrors, a.txDrops, b.txErrors, b.txDrops),
                             Bad(b.txErrors, b.txDrops, c.txErrors, c.txDrops);
            SharesCombine(DiffNetwork(a, b, speedMbps, s).value.value.txErrorDropPct, b.txPackets - a.txPackets,
                          DiffNetwork(b, c, speedMbps, t).value.value.txErrorDropPct, c.txPackets - b.txPackets,
                          DiffNetwork(a, c, speedMbps, s + t).value.value.txErrorDropPct, AddsUp(bad, bad'))
  {
    NoNetFellAcross(a, b, c);
    BadSharesCombine(Bad(a.txErrors, a.txDrops, b.txErrors, b.txDrops), b.txPackets - a.txPackets,
                     Bad(b.txErrors, b.txDrops, c.txErrors, c.txDrops), c.txPackets - b.txPackets);
  }

  /** A link is used to the full exactly when its bits per second reach its capacity, and in proportion below. */
  lemma UtilisationMeansShare(bytesPerSecond: real, speedMbps: U64)
    requires speedMbps > 0
    ensures Utilisation(bytesPerSecond, Some(speedMbps)).Some?
    ensures Over(Utilisation(bytesPerSecond, Some(speedMbps)).value, speedMbps as real * 1000000.0)
            == bytesPerSecond * 8.0 * 100.0
    ensures Utilisation(bytesPerSecond, Some(speedMbps)).value <= 100.0
            <==> bytesPerSecond * 8.0 <= speedMbps as real * 1000000.0
  {
    var capacity, u := speedMbps as real * 1000000.0, Utilisation(bytesPerSecond, Some(speedMbps)).value;
    QuotientTimesDivisor(bytesPerSecond * 8.0 * 100.0, capacity);
    assert (100.0 - u) * capacity == 100.0 * (capacity - bytesPerSecond * 8.0);
  }

  // ---- the join ----------------------------------------------------------------------

  /** Frame A as read: counters by name, identities by name. */
  datatype NetFrame = NetFrame(counters: OrderedMap<Net>, identities: OrderedMap<Identity>)

  /** An entry of frame A that lends its counters to an interface index. */
  predicate Lends(entry: Entry<Identity>, counters: seq<Entry<Net>>, ifindex: U32) {
    entry.value.ifindex == ifindex && Lookup(counters, entry.name).Some?
  }

  /** Counters of the last interface with this index, whatever its name. */
  function CountersBefore(counters: seq<Entry<Net>>, identities: seq<Entry<Identity>>, ifindex: U32): (r: Option<Net>)
    ensures r.Some? <==> exists i :: 0 <= i < |identities| && Lends(identities[i], counters, ifindex)
  {
    if identities == [] then None
    else
      var last := |identities| - 1;
      if Lends(identities[last], counters, ifindex) then Lookup(counters, identities[last].name)
      else
        assert forall i :: 0 <= i < last ==> identities[..last][i] == identities[i];
        CountersBefore(counters, identities[..last], ifindex)
  }

  function Unknown(boot: BootSample, name: string, dt: real): InterfaceRate {
    InterfaceRate(boot.bootId + ":unknown:" + name, name, 0, None, "unknown", None, ParseFailed, Window(dt), None)
  }

  function InterfaceMember(previous: NetFrame, current: Entry<Net>, identities: seq<Entry<Identity>>,
      bootA: BootSample, bootB: BootSample):
    InterfaceRate
  {
    var dt := bootB.uptimeSeconds - bootA.uptimeSeconds;
    var found := Lookup(identities, current.name);
    if found.None? then Unknown(bootB, current.name, dt)
    else
      var identity := found.value;
      var before := CountersBefore(previous.counters, previous.identities, identity.ifindex);
      var observation :=
        if bootA.bootId != bootB.bootId then Without(CounterReset)
        else if !ValidInterval(dt) then Without(InsufficientInterval)
        else if before.Some? then DiffNetwork(before.value, current.value, identity.speedMbps, dt)
        else Without(CounterReset);
      InterfaceRate(bootB.bootId + ":" + Digits(identity.ifindex), current.name, identity.ifindex, identity.iflink,
                    identity.operstate, identity.speedMbps, observation.quality, Window(dt), observation.value)
  }

  ghost predicate IndexesCounters(byIndex: map<U32, Net>, counters: seq<Entry<Net>>, identities: seq<Entry<Identity>>) {
    forall ifindex: U32 :: Get(byIndex, ifindex) == CountersBefore(counters, identities, ifindex)
  }

  lemma IndexNext(byIndex: map<U32, Net>, counters: seq<Entry<Net>>, identities: seq<Entry<Identity>>,
      entry: Entry<Identity>)
    requires IndexesCounters(byIndex, counters, identities)
    ensures var found := Lookup(counters, entry.name);
            IndexesCounters(if found.Some? then byIndex[entry.value.ifindex := found.value] else byIndex, counters,
                identities + [entry])
  {
    var found := Lookup(counters, entry.name);
    var next := if found.Some? then byIndex[entry.value.ifindex := found.value] else byIndex;
    forall ifindex: U32 ensures Get(next, ifindex) == CountersBefore(counters, identities + [entry], ifindex) {
      assert Get(byIndex, ifindex) == CountersBefore(counters, identities, ifindex);
      assert (identities + [entry])[..|identities + [entry]| - 1] == identities;
    }
  }

  method IndexCounters(counters: seq<Entry<Net>>, identities: seq<Entry<Identity>>) returns (byIndex: map<U32, Net>)
    ensures IndexesCounters(byIndex, counters, identities)
  {
    byIndex := map[];
    for i := 0 to |identities|
      invariant IndexesCounters(byIndex, counters, identities[..i])
    {
      IndexNext(byIndex, counters, identities[..i], identities[i]);
      var found := Lookup(counters, identities[i].name);
      if found.Some? {
        byIndex := byIndex[identities[i].value.ifindex := found.value];
      }
      assert identities[..i + 1] == identities[..i] + [identities[i]];
    }
    assert identities[..|identities|] == identities;
  }

  method RateInterface(byIndex: map<U32, Net>, ghost previous: NetFrame, current: Entry<Net>,
      identities: seq<Entry<Identity>>,
                       bootA: BootSample, bootB: BootSample)
    returns (rate: InterfaceRate)
    requires IndexesCounters(byIndex, previous.counters, previous.identities)
    ensures rate == InterfaceMember(previous, current, identities, bootA, bootB)
  {
    var dt := bootB.uptimeSeconds - bootA.uptimeSeconds;
    var found := Lookup(identities, current.name);
    if found.None? {
      return Unknown(bootB, current.name, dt);
    }
    var identity := found.value;
    assert Get(byIndex, identity.ifindex) == CountersBefore(previous.counters, previous.identities, identity.ifindex);
    var observation: FamilyObservation<NetMetrics>;
    if bootA.bootId != bootB.bootId {
      observation := Without(CounterReset);
    } else if !ValidInterval(dt) {
      observation := Without(InsufficientInterval);
    } else if identity.ifindex in byIndex {
      observation := DiffNetwork(byIndex[identity.ifindex], current.value, identity.speedMbps, dt);
    } else {
      observation := Without(CounterReset);
    }
    rate := InterfaceRate(bootB.bootId + ":" + Digits(identity.ifindex), current.name, identity.ifindex,
                          identity.iflink,
                          identity.operstate, identity.speedMbps, observation.quality, Window(dt), observation.value);
  }

  /** One member per current interface, in the same order. */
  ghost predicate AreInterfaceMembers(members: seq<InterfaceRate>, previous: NetFrame, current: seq<Entry<Net>>,
                                      identities: seq<Entry<Identity>>, bootA: BootSample, bootB: BootSample)
  {
    && |members| == |current|
    && forall i :: 0 <= i < |current| ==> members[i] == InterfaceMember(previous, current[i], identities, bootA, bootB)
  }

  /** Members in strictly ascending order of name, so each name once. */
  ghost predicate AscendByName(members: seq<InterfaceRate>) {
    forall i, j :: 0 <= i < j < |members| ==> KeyOrder.Below(members[i].name, members[j].name)
  }

  lemma MembersAscend(members: seq<InterfaceRate>, previous: NetFrame, current: OrderedMap<Net>,
      identities: seq<Entry<Identity>>,
                      bootA: BootSample, bootB: BootSample)
    requires AreInterfaceMembers(members, previous, current, identities, bootA, bootB)
    ensures AscendByName(members)
  {
    forall i, j | 0 <= i < j < |members| ensures KeyOrder.Below(members[i].name, members[j].name) {
      InterfaceObservedExactly(previous, current[i], identities, bootA, bootB);
      InterfaceObservedExactly(previous, current[j], identities, bootA, bootB);
      assert KeyOrder.Below(Names(current)[i], Names(current)[j]);
    }
  }

  /** All six sources in the order in which the first missing one decides the family. */
  datatype NetSources = NetSources(
    bootA: FamilyObservation<BootSample>, bootB: FamilyObservation<BootSample>,
    countersA: FamilyObservation<OrderedMap<Net>>, countersB: FamilyObservation<OrderedMap<Net>>,
    identityA: FamilyObservation<OrderedMap<Identity>>, identityB: FamilyObservation<OrderedMap<Identity>>)

  function MissingSource(s: NetSources): Option<Quality> {
    if s.bootA.value.None? || s.bootB.value.None? then Some(FirstUnavailable(s.bootA.quality, s.bootB.quality))
    else if s.countersA.value.None? then Some(s.countersA.quality)
    else if s.countersB.value.None? then Some(s.countersB.quality)
    else if s.identityA.value.None? then Some(s.identityA.quality)
    else if s.identityB.value.None? then Some(s.identityB.quality)
    else None
  }

  method DeriveNetwork(s: NetSources) returns (r: FamilyObservation<seq<InterfaceRate>>)
    ensures MissingSource(s).Some? ==> r == Without(MissingSource(s).value)
    ensures MissingSource(s).None? ==>
              exists members :: && AreInterfaceMembers(members,
                                                       NetFrame(s.countersA.value.value, s.identityA.value.value),
                                                       s.countersB.value.value, s.identityB.value.value,
                                                       s.bootA.value.value, s.bootB.value.value)
                                && AscendByName(members) && r == FamilyFromMembers(members, InterfaceQuality)
  {
    var missing := MissingSource(s);
    if missing.Some? {
      return Without(missing.value);
    }
    var bootA, bootB := s.bootA.value.value, s.bootB.value.value;
    var current, identities := s.countersB.value.value, s.identityB.value.value;
    ghost var previous := NetFrame(s.countersA.value.value, s.identityA.value.value);
    var byIndex := IndexCounters(s.countersA.value.value, s.identityA.value.value);
    var rates: seq<InterfaceRate> := [];
    for i := 0 to |current|
      invariant AreInterfaceMembers(rates, previous, current[..i], identities, bootA, bootB)
    {
      var rate := RateInterface(byIndex, previous, current[i], identities, bootA, bootB);
      rates := rates + [rate];
    }
    assert current[..|current|] == current;
    MembersAscend(rates, previous, current, identities, bootA, bootB);
    return FamilyFromMembers(rates, InterfaceQuality);
  }

  /**
   An interface's rate is observed exactly when frame B knows its index, the boot is the same, half a
   second passed, frame A lists that index with counters under any name, and no counter fell.
   */
  lemma InterfaceObservedExactly(previous: NetFrame, current: Entry<Net>, identities: seq<Entry<Identity>>,
      bootA: BootSample, bootB: BootSample)
    ensures var m := InterfaceMember(previous, current, identities, bootA, bootB);
            var found := Lookup(identities, current.name);
            && (m.quality == Observed <==>
                  && found.Some? && bootA.bootId == bootB.bootId && bootB.uptimeSeconds - bootA.uptimeSeconds >= 0.5
                  && (exists i :: 0 <= i < |previous.identities|
                                  && Lends(previous.identities[i], previous.counters, found.value.ifindex))
                  && !NetDecreased(CountersBefore(previous.counters, previous.identities, found.value.ifindex).value,
                                   current.value))
            && (m.metrics.Some? <==> m.quality == Observed)
            && (m.metrics.Some? ==> NonNegativeNet(m.metrics.value))
            && m.name == current.name
  {
    var found := Lookup(identities, current.name);
    var dt := bootB.uptimeSeconds - bootA.uptimeSeconds;
    if found.Some? {
      var before := CountersBefore(previous.counters, previous.identities, found.value.ifindex);
      if ValidInterval(dt) && before.Some? {
        NetRatesAreNonNegative(before.value, current.value, found.value.speedMbps, dt);
      }
    }
  }

  /** Among interfaces of frame A sharing an index, the counters are those of the greatest name. */
  lemma {:induction false} GreatestNameWins(counters: seq<Entry<Net>>, identities: seq<Entry<Identity>>, ifindex: U32)
      returns (i: nat)
    requires IsMap(identities) && CountersBefore(counters, identities, ifindex).Some?
    ensures i < |identities| && Lends(identities[i], counters, ifindex)
    ensures CountersBefore(counters, identities, ifindex) == Lookup(counters, identities[i].name)
    ensures forall j :: 0 <= j < |identities| && Lends(identities[j], counters, ifindex) && j != i ==>
              KeyOrder.Below(identities[j].name, identities[i].name)
  {
    var last := |identities| - 1;
    if Lends(identities[last], counters, ifindex) {
      i := last;
      forall j | 0 <= j < last ensures KeyOrder.Below(identities[j].name, identities[last].name) {
        assert KeyOrder.Below(Names(identities)[j], Names(identities)[last]);
      }
    } else {
      var front := identities[..last];
      assert forall j :: 0 <= j < last ==> Names(front)[j] == Names(identities)[j];
      i := GreatestNameWins(counters, front, ifindex);
      forall j | 0 <= j < |identities| && Lends(identities[j], counters, ifindex) && j != i
        ensures KeyOrder.Below(identities[j].name, identities[i].name)
      {
        assert front[j] == identities[j];
      }
    }
  }

  /** An interface renamed between the frames keeps its rate: only the index decides, when frame A has it once. */
  lemma RenameIsFollowed(previous: NetFrame, current: Entry<Net>, identities: seq<Entry<Identity>>, bootA: BootSample,
      bootB: BootSample,
                         oldName: string)
    requires Lookup(identities, current.name).Some? && bootA.bootId == bootB.bootId
             && bootB.uptimeSeconds - bootA.uptimeSeconds >= 0.5
    requires Lookup(previous.counters, oldName).Some?
    requires exists i :: 0 <= i < |previous.identities| && previous.identities[i].name == oldName
                         && Lends(previous.identities[i], previous.counters,
                                  Lookup(identities, current.name).value.ifindex)
    requires forall i :: 0 <= i < |previous.identities|
                         && previous.identities[i].value.ifindex == Lookup(identities, current.name).value.ifindex
                         ==> previous.identities[i].name == oldName
    ensures var identity := Lookup(identities, current.name).value;
            var m := InterfaceMember(previous, current, identities, bootA, bootB);
            var diff := DiffNetwork(Lookup(previous.counters, oldName).value, current.value, identity.speedMbps,
                                    bootB.uptimeSeconds - bootA.uptimeSeconds);
            m.quality == diff.quality && m.metrics == diff.value
  {
    OnlyLender(previous.counters, previous.identities, Lookup(identities, current.name).value.ifindex, oldName);
  }

  lemma {:induction false} OnlyLender(counters: seq<Entry<Net>>, identities: seq<Entry<Identity>>, ifindex: U32,
      name: string)
    requires CountersBefore(counters, identities, ifindex).Some?
    requires forall i :: 0 <= i < |identities| && identities[i].value.ifindex == ifindex ==> identities[i].name == name
    ensures CountersBefore(counters, identities, ifindex) == Lookup(counters, name)
  {
    var last := |identities| - 1;
    if !Lends(identities[last], counters, ifindex) {
      OnlyLender(counters, identities[..last], ifindex, name);
    }
  }
}
