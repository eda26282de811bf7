/**
 The catalog's writers: every INSERT and UPDATE of a discovery run, in place on
 the tables, inside one transaction (backend/src/catalog.rs).
 */
module CatalogStore {
  import opened Wrappers
  import opened Evidence
  import opened CatalogTables
  import opened ResourceLinks
  import opened Catalog

  // ---- single writes as values -----------------------------------------------

  /** UPDATE project_targets ... WHERE deployment_id = ? AND state <> 'archived'. */
  function ObserveTargets(targets: map<string, Target>, o: Observation, now: Time): map<string, Target> {
    map g | g in targets ::
      var t := targets[g];
      if t.deploymentId == o.deploymentId && t.standing.state != Archived && o.state != Unknown
      then t.(standing := ObserveTarget(t.standing, o), updatedAt := now)
      else t
  }

  function WithObservation(t: Tables, k: Key, o: Observation, name: string, now: Time): Tables
    requires k in t.deployments
  {
    var d := t.deployments[k];
    t.(deployments := t.deployments[k := d.(displayName := name, standing := Observe(d.standing, o), updatedAt := now)],
       observations := t.observations + [o],
       targets := ObserveTargets(t.targets, o, now),
       nextId := t.nextId + 1)
  }

  function WithDeployment(t: Tables, k: Key, name: string, now: Time): Tables {
    t.(deployments := t.deployments[k := Deployment(t.nextId, name, NEW_STANDING, now)], nextId := t.nextId + 1)
  }

  lemma InsertFollows(t: Tables, k: Key, name: string, now: Time)
    requires Intact(t) && k !in t.deployments
    ensures Follows(t, WithDeployment(t, k, name, now))
    ensures forall runId :: Count(t.observations, t.nextId, runId) == 0
  {
    var t' := WithDeployment(t, k, name, now);
    forall j, l | SameId(t'.deployments, j, l) ensures j == l {
      assert j != k && l != k ==> SameId(t.deployments, j, l);
    }
    UnattachedIsUnseen(t.observations, t.nextId, t.nextId);
    forall runId ensures Count(t.observations, t.nextId, runId) == 0 {
      UnseenHasNoRows(t.observations, t.nextId, runId);
    }
  }

  lemma SameIdStays(deployments: map<Key, Deployment>, k: Key, d: Deployment, j: Key, l: Key)
    requires k in deployments && deployments[k].id == d.id
    ensures SameId(deployments[k := d], j, l) <==> SameId(deployments, j, l)
  {
  }

  lemma CountAfterOne(observations: seq<Observation>, o: Observation, id: nat, runId: string)
    ensures Count(observations + [o], id, runId)
            == Count(observations, id, runId) + if o.deploymentId == id && o.runId == runId then 1 else 0
  {
    assert (observations + [o])[..|observations|] == observations;
  }

  lemma OneMoreAttached(observations: seq<Observation>, o: Observation, nextId: nat)
    requires Attached(observations, nextId) && o.id == nextId && o.deploymentId < nextId
    ensures Attached(observations + [o], nextId + 1)
  {
  }

  lemma ObservationKeepsIntact(t: Tables, k: Key, o: Observation, name: string, now: Time)
    requires Intact(t) && k in t.deployments
    requires o.id == t.nextId && o.deploymentId == t.deployments[k].id
    requires Count(t.observations, o.deploymentId, o.runId) == 0
    ensures Intact(WithObservation(t, k, o, name, now))
  {
    var t' := WithObservation(t, k, o, name, now);
    forall j, l | SameId(t'.deployments, j, l) ensures j == l {
      SameIdStays(t.deployments, k, t'.deployments[k], j, l);
    }
    forall id, runId ensures Count(t'.observations, id, runId) <= 1 {
      CountAfterOne(t.observations, o, id, runId);
    }
    OneMoreAttached(t.observations, o, t.nextId);
  }

  lemma ReplayOne(s: Standing, target: TargetStanding, o: Observation, id: nat)
    ensures Replay(s, [o], id) == if o.deploymentId == id then Observe(s, o) else s
    ensures ReplayTarget(target, [o], id) == if o.deploymentId == id then ObserveTarget(target, o) else target
    ensures Latest([o], id) == if o.deploymentId == id then Some(o) else None
    ensures LatestDecisive([o], id) == if o.deploymentId == id && o.state != Unknown then Some(o.state) else None
  {
    assert [o][..0] == [];
  }

  lemma ObservationFollows(t: Tables, k: Key, o: Observation, name: string, now: Time)
    requires Intact(t) && k in t.deployments
    requires o.id == t.nextId && o.deploymentId == t.deployments[k].id && o.key == k
    requires Count(t.observations, o.deploymentId, o.runId) == 0
    ensures Follows(t, WithObservation(t, k, o, name, now)) && Stamped(t, WithObservation(t, k, o, name, now), now)
  {
    var t' := WithObservation(t, k, o, name, now);
    ObservationKeepsIntact(t, k, o, name, now);
    assert Since(t, t') == [o];
    forall j | j in t'.deployments
      ensures t'.deployments[j].standing == Replay(StandingIn(t, j), [o], t'.deployments[j].id)
      ensures Latest([o], t'.deployments[j].id) == None ==> t'.deployments[j] == t.deployments[j]
      ensures Latest([o], t'.deployments[j].id).Some? ==> t'.deployments[j].updatedAt == now
    {
      ReplayOne(t.deployments[j].standing, TargetStanding(Archived, None), o, t'.deployments[j].id);
      assert j != k && t.deployments[j].id == o.deploymentId ==> SameId(t.deployments, j, k);
    }
    forall g | g in t'.targets
      ensures t'.targets[g].standing == ReplayTarget(t.targets[g].standing, [o], t'.targets[g].deploymentId)
      ensures Latest([o], t'.targets[g].deploymentId) == None ==> t'.targets[g] == t.targets[g]
      ensures t'.targets[g].updatedAt == if TargetMoved(t.targets[g], [o]) then now else t.targets[g].updatedAt
    {
      ReplayOne(NEW_STANDING, t.targets[g].standing, o, t'.targets[g].deploymentId);
    }
  }

  /** The name a deployment is shown under afterwards. */
  function NameFor(t: Tables, k: Key, finding: Finding): string {
    if finding.name.Some? then finding.name.value
    else if k in t.deployments then t.deployments[k].displayName
    else ""
  }

  /** One persist: insert the deployment if it is new, then record unless this run already did. */
  function Recorded(t: Tables, k: Key, runId: string, finding: Finding, now: Time): Tables {
    var name := NameFor(t, k, finding);
    var t1 := if k in t.deployments then t else WithDeployment(t, k, name, now);
    var id := t1.deployments[k].id;
    if Count(t1.observations, id, runId) > 0 then t1
    else
      var o := Observation(t1.nextId, id, k, runId, finding.state, finding.status, finding.at);
      WithObservation(t1, k, o, name, now)
  }

  lemma RecordedAddsOne(t: Tables, k: Key, runId: string, finding: Finding, now: Time)
    requires finding.name.Some? || k in t.deployments
    requires Intact(t) && Grows(t, Recorded(t, k, runId, finding, now))
    ensures AddsOne(t, Recorded(t, k, runId, finding, now), k, runId, finding)
  {
    if k !in t.deployments {
      InsertFollows(t, k, NameFor(t, k, finding), now);
    }
  }

  lemma RecordedFollows(t: Tables, k: Key, runId: string, finding: Finding, now: Time)
    requires Intact(t) && (finding.name.Some? || k in t.deployments)
    ensures var t' := Recorded(t, k, runId, finding, now);
            Follows(t, t') && AddsOne(t, t', k, runId, finding) && Stamped(t, t', now)
  {
    var name := NameFor(t, k, finding);
    var t1 := if k in t.deployments then t else WithDeployment(t, k, name, now);
    var id := t1.deployments[k].id;
    if k in t.deployments {
      FollowsRefl(t);
      NothingStamped(t, now);
    } else {
      InsertFollows(t, k, name, now);
      InsertStamped(t, k, name, now);
    }
    if Count(t1.observations, id, runId) == 0 {
      var o := Observation(t1.nextId, id, k, runId, finding.state, finding.status, finding.at);
      ObservationFollows(t1, k, o, name, now);
      StampedTransitive(t, t1, WithObservation(t1, k, o, name, now), now);
    }
    RecordedAddsOne(t, k, runId, finding, now);
  }

  lemma NothingStamped(t: Tables, now: Time)
    requires Grows(t, t)
    ensures Stamped(t, t, now)
  {
  }

  lemma InsertStamped(t: Tables, k: Key, name: string, now: Time)
    requires k !in t.deployments && Grows(t, WithDeployment(t, k, name, now))
    ensures Stamped(t, WithDeployment(t, k, name, now), now)
  {
  }

  /** The keys a run decides: sighted ones, and existing ones under a covered provider. */
  ghost predicate Decided(run: Run, done: map<Key, Finding>) {
    forall k :: k in done ==> OutcomeOf(run, k) == Some(done[k])
  }

  /** Every sighted deployment except those still in `keys` is done, as observed. */
  ghost predicate SeenExcept(run: Run, done: map<Key, Finding>, keys: set<(Provider, string)>) {
    && (forall k :: k in done <==> IsSeen(OutcomeOf(run, k)) && (k.provider, k.externalId) !in keys)
    && Decided(run, done)
  }

  lemma SeenStep(run: Run, done: map<Key, Finding>, keys: set<(Provider, string)>, key: (Provider, string))
    requires SeenExcept(run, done, keys) && key in keys && Sighting(run, key.0, key.1).Some?
    ensures var k := Key(run.host, key.0, key.1);
            var finding := SeenAs(run, key.0, Sighting(run, key.0, key.1).value, CoverageOf(run, key.0));
            k !in done && SeenExcept(run, done[k := finding], keys - {key})
  {
    var k := Key(run.host, key.0, key.1);
    assert IsSeen(OutcomeOf(run, k));
  }

  /** `done` is `before` with the keys in `more` decided too. */
  ghost predicate Extends(before: map<Key, Finding>, done: map<Key, Finding>, more: set<Key>) {
    && (forall k :: k in done <==> k in before || k in more)
    && (forall k :: k in before ==> done[k] == before[k])
  }

  /** All sighted keys are in, and the provider's other keys are not in yet. */
  ghost predicate AwaitsAbsent(run: Run, before: map<Key, Finding>, provider: Provider) {
    && Decided(run, before)
    && (forall k :: IsSeen(OutcomeOf(run, k)) ==> k in before)
    && (forall k :: k in before && k.provider == provider ==> before[k].state == Observed)
  }

  function OfProvider(keys: set<Key>, host: string, provider: Provider): set<Key> {
    set k | k in keys && k.host == host && k.provider == provider
  }

  ghost predicate Parted(all: set<Key>, more: set<Key>, rest: set<Key>) {
    more !! rest && more + rest == all
  }

  lemma PartedStep(all: set<Key>, more: set<Key>, rest: set<Key>, k: Key)
    requires Parted(all, more, rest) && k in rest
    ensures Parted(all, more + {k}, rest - {k}) && k !in more && k in all
  {
  }

  /** Every sighted deployment has its row. */
  ghost predicate Stored(run: Run, observed: map<(Provider, string), Item>, deployments: map<Key, Deployment>) {
    forall p, x :: (p, x) in observed ==> Key(run.host, p, x) in deployments
  }

  ghost predicate PartedKeys(all: set<(Provider, string)>, more: set<(Provider, string)>,
      rest: set<(Provider, string)>)
  {
    more !! rest && more + rest == all
  }

  lemma PartedKeysStep(all: set<(Provider, string)>, more: set<(Provider, string)>, rest: set<(Provider, string)>,
      d: (Provider, string))
    requires PartedKeys(all, more, rest) && d in rest
    ensures PartedKeys(all, more + {d}, rest - {d}) && d !in more && d in all
  {
  }

  lemma AbsentStep(run: Run, before: map<Key, Finding>, done: map<Key, Finding>, more: set<Key>,
                   provider: Provider, coverage: Coverage, k: Key)
    requires AwaitsAbsent(run, before, provider) && Decided(run, done) && Extends(before, done, more) && k !in more
    requires k.provider == provider && k.host == run.host && CoverageOf(run, provider) == Some(coverage)
    ensures Sighting(run, provider, k.externalId).Some? ==> Extends(before, done, more + {k})
    ensures Sighting(run, provider, k.externalId).None? ==>
              && k !in done
              && Decided(run, done[k := AbsentAs(coverage)])
              && Extends(before, done[k := AbsentAs(coverage)], more + {k})
  {
    if Sighting(run, provider, k.externalId).Some? {
      assert IsSeen(OutcomeOf(run, k));
    } else {
      assert OutcomeOf(run, k) == Some(AbsentAs(coverage));
    }
  }

  /** The sighted keys and the covered providers' keys are decided; no other is. */
  ghost predicate CoveredThrough(run: Run, done: map<Key, Finding>, keys: set<Key>, covered: seq<Provider>) {
    && Decided(run, done)
    && (forall k :: IsSeen(OutcomeOf(run, k)) ==> k in done)
    && (forall k :: k in done && k.provider !in covered ==> done[k].state == Observed)
    && (forall k :: k in keys && k.provider in covered && OutcomeOf(run, k).Some? ==> k in done)
  }

  /** After the sighted deployments alone, nothing is covered yet. */
  lemma SeenIsCovered(t0: Tables, t: Tables, run: Run, done: map<Key, Finding>, now: Time)
    requires Progress(t0, t, run.id, done, now) && Decided(run, done)
    requires forall k :: k in done <==> IsSeen(OutcomeOf(run, k))
    ensures CoveredThrough(run, done, t.deployments.Keys, [])
    ensures SightedKeys(run, t0.deployments.Keys, t.deployments.Keys)
    ensures forall p, x :: Sighting(run, p, x).Some? ==> Key(run.host, p, x) in t.deployments
  {
    forall p, x | Sighting(run, p, x).Some? ensures Key(run.host, p, x) in t.deployments {
      assert IsSeen(OutcomeOf(run, Key(run.host, p, x)));
    }
  }

  lemma CoveredStep(run: Run, before: map<Key, Finding>, done: map<Key, Finding>, keys: set<Key>,
                    covered: seq<Provider>, provider: Provider)
    requires CoveredThrough(run, before, keys, covered) && Decided(run, done)
    requires if CoverageOf(run, provider).Some? then Extends(before, done, OfProvider(keys, run.host, provider))
        else done == before
    ensures CoveredThrough(run, done, keys, covered + [provider])
  {
  }

  ghost predicate SightedKeys(run: Run, before: set<Key>, keys: set<Key>) {
    forall k :: k in keys <==> k in before || IsSeen(OutcomeOf(run, k))
  }

  /** Once every provider is covered, the progress made is the whole effect of the run. */
  lemma CoveredIsEffect(t0: Tables, t: Tables, run: Run, done: map<Key, Finding>, keys: set<Key>, now: Time)
    requires Progress(t0, t, run.id, done, now) && t.deployments.Keys == keys
    requires CoveredThrough(run, done, keys, [Compose, Docker, Systemd])
    requires SightedKeys(run, t0.deployments.Keys, keys)
    ensures Effect(t0, t, run) && Stamped(t0, t, now)
  {
    forall k | k in t.deployments ensures Get(done, k) == OutcomeOf(run, k) {
      assert k.provider in [Compose, Docker, Systemd] by {
        match k.provider case Compose => case Docker => case Systemd =>
      }
    }
    forall k | k in t.deployments ensures SettledIn(t0, t, k, run.id, OutcomeOf(run, k)) {
      assert SettledIn(t0, t, k, run.id, Get(done, k));
    }
  }

  class CatalogDatabase {
    var hosts: map<string, string>
    var deployments: map<Key, Deployment>
    var observations: seq<Observation>
    var targets: map<string, Target>
    var nextId: nat
    var resources: map<ResourceKey, nat>
    var links: map<LinkKey, Link>
    var nextResourceId: nat

    function Value(): Tables
      reads this
    {
      Tables(deployments, observations, targets, nextId)
    }

    function LinkValue(): LinkTables
      reads this
    {
      LinkTables(resources, links, nextResourceId)
    }

    ghost predicate Valid()
      reads this
    {
      Intact(Value()) && IntactLinks(LinkValue())
    }

    /** INSERT ... ON CONFLICT(deployment_id, discovery_run_id) DO NOTHING. */
    method InsertObservation(o: Observation) returns (inserted: bool)
      modifies `observations, `nextId
      ensures inserted <==> Count(old(observations), o.deploymentId, o.runId) == 0
      ensures observations == if inserted then old(observations) + [o] else old(observations)
      ensures nextId == if inserted then old(nextId) + 1 else old(nextId)
    {
      inserted := Count(observations, o.deploymentId, o.runId) == 0;
      if inserted {
        observations := observations + [o];
        nextId := nextId + 1;
      }
    }

    /** INSERT ... ON CONFLICT(host_id, provider_kind, external_id) DO NOTHING. */
    method InsertDeployment(k: Key, name: string, now: Time)
      requires Intact(Value())
      modifies `deployments, `nextId
      ensures Value() == if k in old(deployments) then old(Value())
          else WithDeployment(old(Value()), k, name, now)
      ensures Intact(Value()) && k in deployments
    {
      if k !in deployments {
        InsertFollows(Value(), k, name, now);
        deployments := deployments[k := Deployment(nextId, name, NEW_STANDING, now)];
        nextId := nextId + 1;
      }
    }

    method PersistObservedDeployment(run: Run, k: Key, item: Item, coverage: Option<Coverage>, now: Time)
      requires Intact(Value())
      modifies `deployments, `observations, `targets, `nextId
      ensures Value() == Recorded(old(Value()), k, run.id, SeenAs(run, k.provider, item, coverage), now)
    {
      var name := DisplayName(k.provider, item);
      var observedAt := if item.observedAt.Some? then item.observedAt.value else run.finishedAt;
      InsertDeployment(k, name, now);
      var d := deployments[k];
      var status := if coverage.Some? then Some(coverage.value.status) else None;
      var o := Observation(nextId, d.id, k, run.id, Observed, status, observedAt);
      var inserted := InsertObservation(o);
      if inserted {
        var state := if d.standing.state == Stale then Unassigned else d.standing.state;
        deployments := deployments[k := Deployment(d.id, name, Standing(state, Some(o.id), Some(observedAt), Fresh),
                                                   now)];
        targets := ObserveTargets(targets, o, now);
      }
    }

    method PersistMissingObservation(runId: string, k: Key, coverage: Coverage, now: Time)
      requires Intact(Value()) && k in deployments
      modifies `deployments, `observations, `targets, `nextId
      ensures Value() == Recorded(old(Value()), k, runId,
                                  Finding(Missing, Some(coverage.status), coverage.observedAt, None),
                                  now)
    {
      var d := deployments[k];
      var o := Observation(nextId, d.id, k, runId, Missing, Some(coverage.status), coverage.observedAt);
      var inserted := InsertObservation(o);
      if inserted {
        var state := if d.standing.state == Ignored then Ignored else Stale;
        var standing := Standing(state, Some(o.id), d.standing.lastObservedAt, Outdated);
        deployments := deployments[k := d.(standing := standing, updatedAt := now)];
        targets := ObserveTargets(targets, o, now);
      }
    }

    method PersistUnknownObservation(runId: string, k: Key, coverage: Coverage, now: Time)
      requires Intact(Value()) && k in deployments
      modifies `deployments, `observations, `nextId
      ensures Value() == Recorded(old(Value()), k, runId,
                                  Finding(Unknown, Some(coverage.status), coverage.observedAt, None),
                                  now)
    {
      var d := deployments[k];
      var o := Observation(nextId, d.id, k, runId, Unknown, Some(coverage.status), coverage.observedAt);
      var inserted := InsertObservation(o);
      if inserted {
        deployments := deployments[k := d.(standing := d.standing.(latest := Some(o.id), freshness := Unreachable),
                                           updatedAt := now)];
        assert targets == ObserveTargets(targets, o, now);
      }
    }

    method ObserveOne(run: Run, k: Key, item: Item, coverage: Option<Coverage>, now: Time,
                      ghost t0: Tables, ghost before: map<Key, Finding>)
      requires Progress(t0, Value(), run.id, before, now) && k !in before
      modifies `deployments, `observations, `targets, `nextId
      ensures Progress(t0, Value(), run.id, before[k := SeenAs(run, k.provider, item, coverage)], now)
    {
      ghost var t := Value();
      ghost var finding := SeenAs(run, k.provider, item, coverage);
      PersistObservedDeployment(run, k, item, coverage, now);
      RecordedFollows(t, k, run.id, finding, now);
      ProgressStep(t0, t, Value(), run.id, before, k, finding, now);
    }

    /** A ready provider proves absence; any other leaves it open. */
    method PersistAbsence(run: Run, k: Key, coverage: Coverage, now: Time)
      requires Intact(Value()) && k in deployments
      modifies `deployments, `observations, `targets, `nextId
      ensures Value() == Recorded(old(Value()), k, run.id, AbsentAs(coverage), now)
      ensures deployments.Keys == old(deployments.Keys)
    {
      if coverage.status == Ready {
        PersistMissingObservation(run.id, k, coverage, now);
      } else {
        PersistUnknownObservation(run.id, k, coverage, now);
      }
    }

    method MissOne(run: Run, k: Key, coverage: Coverage, now: Time, ghost t0: Tables, ghost before: map<Key, Finding>)
      requires Progress(t0, Value(), run.id, before, now) && k !in before && k in deployments
      modifies `deployments, `observations, `targets, `nextId
      ensures Progress(t0, Value(), run.id, before[k := AbsentAs(coverage)], now)
      ensures deployments.Keys == old(deployments.Keys)
    {
      ghost var t := Value();
      PersistAbsence(run, k, coverage, now);
      RecordedFollows(t, k, run.id, AbsentAs(coverage), now);
      ProgressStep(t0, t, Value(), run.id, before, k, AbsentAs(coverage), now);
    }

    /** Every observed deployment, then nothing else, is settled. */
    method PersistAllObserved(run: Run, observed: map<(Provider, string), Item>, coverage: map<Provider, Coverage>,
        now: Time)
      returns (ghost done: map<Key, Finding>)
      requires Intact(Value())
      requires Sees(run, observed)
      modifies `deployments, `observations, `targets, `nextId
      ensures Progress(old(Value()), Value(), run.id, done, now)
      requires CoversAs(run, coverage)
      ensures forall k :: k in done <==> IsSeen(OutcomeOf(run, k))
      ensures Decided(run, done)
    {
      done := map[];
      ghost var t0 := Value();
      FollowsRefl(t0);
      NothingStamped(t0, now);
      var keys := observed.Keys;
      while keys != {}
        invariant keys <= observed.Keys
        invariant Progress(t0, Value(), run.id, done, now)
        invariant SeenExcept(run, done, keys)
        decreases keys
      {
        var key :| key in keys;
        var k := Key(run.host, key.0, key.1);
        var known := if key.0 in coverage then Some(coverage[key.0]) else None;
        assert key == (key.0, key.1) && Get(observed, (key.0, key.1)) == Some(observed[key]);
        assert Get(coverage, key.0) == CoverageOf(run, key.0);
        SeenStep(run, done, keys, key);
        ObserveOne(run, k, observed[key], known, now, t0, done);
        done := done[k := SeenAs(run, key.0, observed[key], known)];
        keys := keys - {key};
      }
    }

    /** Existing deployments of one covered provider that this run did not see. */
    method PersistAllAbsent(run: Run, observed: map<(Provider, string), Item>, provider: Provider, coverage: Coverage,
                            now: Time, ghost t0: Tables, ghost before: map<Key, Finding>)
      returns (ghost done: map<Key, Finding>)
      requires Progress(t0, Value(), run.id, before, now) && AwaitsAbsent(run, before, provider)
      requires Sees(run, observed)
      requires CoverageOf(run, provider) == Some(coverage)
      modifies `deployments, `observations, `targets, `nextId
      ensures Progress(t0, Value(), run.id, done, now) && Decided(run, done)
      ensures deployments.Keys == old(deployments.Keys)
      ensures Extends(before, done, OfProvider(deployments.Keys, run.host, provider))
    {
      done := before;
      var existing := OfProvider(deployments.Keys, run.host, provider);
      var rest := existing;
      ghost var more: set<Key> := {};
      while rest != {}
        invariant Parted(existing, more, rest) && deployments.Keys == old(deployments.Keys)
        invariant Progress(t0, Value(), run.id, done, now)
        invariant Decided(run, done) && Extends(before, done, more)
        decreases rest
      {
        var k :| k in rest;
        PartedStep(existing, more, rest, k);
        AbsentStep(run, before, done, more, provider, coverage, k);
        rest, more := rest - {k}, more + {k};
        if (provider, k.externalId) in observed {
          continue;
        }
        MissOne(run, k, coverage, now, t0, done);
        done := done[k := AbsentAs(coverage)];
      }
      assert more == existing;
    }

    /** UPDATE ... SET state = 'stale' for each relation whose provider is ready. */
    method SweepLinks(run: Run, coverage: map<Provider, Coverage>)
      requires CoversAs(run, coverage)
      modifies `links
      ensures links == SweptTable(run, deployments, old(links))
    {
      var kinds := [Network, Volume, Image, Document];
      SweepAll(run, deployments, links);
      for n := 0 to |kinds|
        invariant links == PartlySwept(run, deployments, old(links), kinds[..n])
      {
        assert kinds[..n + 1] == kinds[..n] + [kinds[n]];
        SweepNext(run, deployments, old(links), kinds[..n], kinds[n]);
        var provider := if kinds[n] == Document then Compose else Docker;
        if provider in coverage && coverage[provider].status == Ready {
          links := SweepRelation(run.host, deployments, links, kinds[n]);
        }
      }
      assert kinds[..|kinds|] == kinds;
    }

    /** The resource row for one item: inserted with a new id, or the existing one. */
    method UpsertResource(workspace: string, item: Item) returns (id: nat)
      requires IntactLinks(LinkValue())
      modifies `resources, `nextResourceId
      ensures IntactLinks(LinkValue())
      ensures Retains(old(resources), resources)
      ensures KeyOfResource(workspace, item) in resources && resources[KeyOfResource(workspace, item)] == id
      ensures resources.Keys == old(resources.Keys) + {KeyOfResource(workspace, item)}
    {
      var key := KeyOfResource(workspace, item);
      if key !in resources {
        resources := resources[key := nextResourceId];
        nextResourceId := nextResourceId + 1;
      }
      id := resources[key];
    }

    /** Item n links to every observed deployment it matches. */
    method LinkItem(run: Run, workspace: string, observed: map<(Provider, string), Item>, n: nat, resourceId: nat,
                    ghost swept: map<LinkKey, Link>)
      requires FoldedThrough(Scope(run, workspace, deployments, resources), swept, links, n)
      requires n < |ResourceItems(run)| && DistinctIds(deployments)
      requires Get(resources, KeyOfResource(workspace, ResourceItems(run)[n].1)) == Some(resourceId)
      requires Sees(run, observed) && Stored(run, observed, deployments)
      modifies `links
      ensures FoldedThrough(Scope(run, workspace, deployments, resources), swept, links, n + 1)
    {
      var (kind, item) := ResourceItems(run)[n];
      ghost var scope := Scope(run, workspace, deployments, resources);
      ghost var seen: set<(Provider, string)> := {};
      var rest := observed.Keys;
      ItemStarts(scope, links, n);
      while rest != {}
        invariant PartedKeys(observed.Keys, seen, rest)
        invariant ItemThrough(scope, old(links), links, n, seen)
        decreases rest
      {
        var d :| d in rest;
        assert d in observed && (d.0, d.1) == d;
        if DeploymentMatches(run, kind, item, d.0, observed[d]) {
          var key := LinkKey(deployments[Key(run.host, d.0, d.1)].id, resourceId, Uses(kind));
          LinksDeployment(scope, old(links), links, n, seen, d, key);
          links := links[key := Upserted(Get(links, key), EvidenceRefs(run.id, item), item.observedAt)];
        } else {
          SkipsDeployment(scope, old(links), links, n, seen, d);
        }
        PartedKeysStep(observed.Keys, seen, rest, d);
        seen, rest := seen + {d}, rest - {d};
      }
      ItemEnds(scope, swept, old(links), links, n, seen);
    }

    /** Item n is stored and linked. */
    method StoreAndLink(run: Run, workspace: string, observed: map<(Provider, string), Item>, n: nat,
        ghost swept: map<LinkKey, Link>, ghost before: map<ResourceKey, nat>)
      requires IntactLinks(LinkValue()) && DistinctIds(deployments) && n < |ResourceItems(run)|
      requires Retains(before, resources) && StoredThrough(run, workspace, before, resources, n)
      requires Sees(run, observed) && Stored(run, observed, deployments)
      requires FoldedThrough(Scope(run, workspace, deployments, resources), swept, links, n)
      modifies `resources, `links, `nextResourceId
      ensures IntactLinks(LinkValue())
      ensures Retains(before, resources) && StoredThrough(run, workspace, before, resources, n + 1)
      ensures FoldedThrough(Scope(run, workspace, deployments, resources), swept, links, n + 1)
    {
      ghost var scope := Scope(run, workspace, deployments, resources);
      var id := UpsertResource(workspace, ResourceItems(run)[n].1);
      ThroughRetained(scope, resources, swept, links, n);
      StoredNext(run, workspace, before, scope.resources, resources, n);
      LinkItem(run, workspace, observed, n, id, swept);
    }

    /** Every resource item is stored and linked, in order. */
    method LinkResources(run: Run, workspace: string, observed: map<(Provider, string), Item>)
      requires IntactLinks(LinkValue()) && DistinctIds(deployments)
      requires Sees(run, observed) && Stored(run, observed, deployments)
      modifies `resources, `links, `nextResourceId
      ensures IntactLinks(LinkValue()) && Retains(old(resources), resources)
      ensures StoredThrough(run, workspace, old(resources), resources, |ResourceItems(run)|)
      ensures FoldedThrough(Scope(run, workspace, deployments, resources), old(links), links, |ResourceItems(run)|)
    {
      var items := ResourceItems(run);
      ThroughStarts(Scope(run, workspace, deployments, resources), links);
      StoredStarts(run, workspace, resources);
      for n := 0 to |items|
        invariant IntactLinks(LinkValue())
        invariant Retains(old(resources), resources) && StoredThrough(run, workspace, old(resources), resources, n)
        invariant FoldedThrough(Scope(run, workspace, deployments, resources), old(links), links, n)
      {
        StoreAndLink(run, workspace, observed, n, old(links), old(resources));
      }
    }

    method PersistResourceEvidence(run: Run, workspace: string, observed: map<(Provider, string), Item>,
        coverage: map<Provider, Coverage>)
      requires IntactLinks(LinkValue()) && DistinctIds(deployments)
      requires Sees(run, observed) && Stored(run, observed, deployments) && CoversAs(run, coverage)
      modifies `resources, `links, `nextResourceId
      ensures IntactLinks(LinkValue())
      ensures LinkEffect(run, workspace, deployments, old(LinkValue()), LinkValue())
    {
      ghost var t0 := LinkValue();
      SweepLinks(run, coverage);
      LinkResources(run, workspace, observed);
      ThroughEnds(Scope(run, workspace, deployments, resources), t0, LinkValue());
    }

    /** The absent deployments of one provider, when the run covers it. */
    method CoverProvider(run: Run, observed: map<(Provider, string), Item>, provider: Provider,
        coverage: map<Provider, Coverage>,
                         now: Time, ghost t0: Tables, ghost before: map<Key, Finding>,
                         ghost covered: seq<Provider>)
      returns (ghost done: map<Key, Finding>)
      requires Progress(t0, Value(), run.id, before, now) && CoveredThrough(run, before, deployments.Keys, covered)
      requires provider !in covered
      requires Sees(run, observed)
      requires CoversAs(run, coverage)
      modifies `deployments, `observations, `targets, `nextId
      ensures Progress(t0, Value(), run.id, done, now)
              && CoveredThrough(run, done, deployments.Keys, covered + [provider])
      ensures deployments.Keys == old(deployments.Keys)
    {
      done := before;
      if provider in coverage {
        done := PersistAllAbsent(run, observed, provider, coverage[provider], now, t0, before);
      }
      CoveredStep(run, before, done, deployments.Keys, covered, provider);
    }

    /** The absent deployments of every covered provider. */
    method CoverProviders(run: Run, observed: map<(Provider, string), Item>, coverage: map<Provider, Coverage>,
                          now: Time, ghost t0: Tables, ghost before: map<Key, Finding>)
      returns (ghost done: map<Key, Finding>)
      requires Progress(t0, Value(), run.id, before, now) && CoveredThrough(run, before, deployments.Keys, [])
      requires Sees(run, observed)
      requires CoversAs(run, coverage)
      modifies `deployments, `observations, `targets, `nextId
      ensures Progress(t0, Value(), run.id, done, now)
              && CoveredThrough(run, done, deployments.Keys, [Compose, Docker, Systemd])
      ensures deployments.Keys == old(deployments.Keys)
    {
      done := before;
      var kinds := [Compose, Docker, Systemd];
      for i := 0 to |kinds|
        invariant Progress(t0, Value(), run.id, done, now) && deployments.Keys == old(deployments.Keys)
        invariant CoveredThrough(run, done, deployments.Keys, kinds[..i])
      {
        assert kinds[..i + 1] == kinds[..i] + [kinds[i]];
        done := CoverProvider(run, observed, kinds[i], coverage, now, t0, done, kinds[..i]);
      }
      assert kinds[..|kinds|] == kinds;
    }

    /** Deployments, observations and targets: first what the run saw, then what it proves absent or leaves unknown. */
    method PersistDeployments(run: Run, observed: map<(Provider, string), Item>, coverage: map<Provider, Coverage>,
        now: Time)
      requires Intact(Value())
      requires Sees(run, observed)
      requires CoversAs(run, coverage)
      modifies `deployments, `observations, `targets, `nextId
      ensures Effect(old(Value()), Value(), run) && Stamped(old(Value()), Value(), now)
      ensures Stored(run, observed, deployments)
    {
      ghost var t0 := Value();
      ghost var done := PersistAllObserved(run, observed, coverage, now);
      ghost var keys := deployments.Keys;
      SeenIsCovered(t0, Value(), run, done, now);
      done := CoverProviders(run, observed, coverage, now, t0, done);
      CoveredIsEffect(t0, Value(), run, done, keys, now);
    }

    /**
     Persists one discovery run. The caller's transaction makes it atomic, so an
     unknown host leaves every table as it was.
     */
    method PersistDiscoverySuccess(run: Run, now: Time) returns (result: Result<(), CatalogError>)
      requires Valid()
      modifies this
      ensures Valid() && hosts == old(hosts)
      ensures run.host !in hosts ==>
                result == Err(UnknownHost) && Value() == old(Value()) && LinkValue() == old(LinkValue())
      ensures run.host in hosts ==>
                && result.Ok?
                && Effect(old(Value()), Value(), run)
                && Stamped(old(Value()), Value(), now)
                && LinkEffect(run, hosts[run.host], deployments, old(LinkValue()), LinkValue())
    {
      if run.host !in hosts {
        return Err(UnknownHost);
      }
      var observed := ObservedDeployments(run);
      var coverage := ProviderCoverage(run, observed);
      PersistDeployments(run, observed, coverage, now);
      PersistResourceEvidence(run, hosts[run.host], observed, coverage);
      result := Ok(());
    }
  }
}
