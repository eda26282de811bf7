/**
 The deployment catalog: one discovery run updates deployments, observations,
 project targets and resource links in place (backend/src/catalog.rs).
 */
module Catalog {
  import opened Wrappers
  import opened Evidence
  import opened CatalogTables

  datatype CatalogError = UnknownHost

  // ---- what a run decides about a deployment ---------------------------------

  /** What a run records about a deployment; without a name the stored one stays. */
  datatype Finding = Finding(state: ObservationState, status: Option<Status>, at: Time, name: Option<string>)

  function SeenAs(run: Run, provider: Provider, item: Item, coverage: Option<Coverage>): Finding {
    Finding(Observed,
            if coverage.Some? then Some(coverage.value.status) else None,
            if item.observedAt.Some? then item.observedAt.value else run.finishedAt,
            Some(DisplayName(provider, item)))
  }

  function AbsentAs(coverage: Coverage): Finding {
    Finding(if coverage.status == Ready then Missing else Unknown, Some(coverage.status), coverage.observedAt, None)
  }

  /** Observed when seen; missing or unknown when only its provider reported; nothing otherwise. */
  function OutcomeOf(run: Run, k: Key): Option<Finding> {
    if k.host != run.host then None
    else match Sighting(run, k.provider, k.externalId)
      case Some(item) => Some(SeenAs(run, k.provider, item, CoverageOf(run, k.provider)))
      case None =>
        match CoverageOf(run, k.provider)
        case None => None
        case Some(c) => Some(AbsentAs(c))
  }

  predicate IsSeen(outcome: Option<Finding>) {
    outcome.Some? && outcome.value.state == Observed
  }

  /** The row says what was found. */
  predicate Says(o: Observation, runId: string, finding: Finding) {
    o.runId == runId && o.state == finding.state && o.providerStatus == finding.status && o.observedAt == finding.at
  }

  /** The deployment is shown under the name found, or as before. */
  predicate NamedAs(t0: Tables, t: Tables, k: Key, finding: Finding)
    requires k in t.deployments
  {
    match finding.name
    case Some(name) => t.deployments[k].displayName == name
    case None => k in t0.deployments && t.deployments[k].displayName == t0.deployments[k].displayName
  }

  /** At most one row was added: k's for this run, unless k already had one. */
  ghost predicate AddsOne(t0: Tables, t1: Tables, k: Key, runId: string, finding: Finding) {
    && Grows(t0, t1)
    && t1.deployments.Keys == t0.deployments.Keys + {k}
    && var id := t1.deployments[k].id;
       if Count(t0.observations, id, runId) > 0 then t1 == t0
       else
         && |t1.observations| == |t0.observations| + 1
         && var o := t1.observations[|t0.observations|];
            o.deploymentId == id && o.key == k && Says(o, runId, finding) && NamedAs(t0, t1, k, finding)
  }

  /** The rows of one deployment after the run: `before` counts its rows for this run beforehand. */
  predicate Settled(added: seq<Observation>, before: nat, id: nat, runId: string, outcome: Option<Finding>) {
    var latest := Latest(added, id);
    match outcome
    case None => latest == None
    case Some(finding) =>
      if before > 0 then latest == None
      else latest.Some? && Says(latest.value, runId, finding) && Count(added, id, runId) == 1
  }

  /** Every added row belongs to this run and to a deployment in the table. */
  ghost predicate FromRun(added: seq<Observation>, deployments: map<Key, Deployment>, runId: string) {
    forall i :: 0 <= i < |added| ==>
      && added[i].runId == runId
      && added[i].key in deployments && deployments[added[i].key].id == added[i].deploymentId
  }

  ghost predicate SettledIn(t0: Tables, t: Tables, k: Key, runId: string, outcome: Option<Finding>)
    requires |t0.observations| <= |t.observations| && k in t.deployments
  {
    var id := t.deployments[k].id;
    && Settled(Since(t0, t), Count(t0.observations, id, runId), id, runId, outcome)
    && (outcome.Some? && Latest(Since(t0, t), id).Some? ==> NamedAs(t0, t, k, outcome.value))
  }

  /** The rows added so far: those of the keys in `done`, and no others. */
  ghost predicate Covers(t0: Tables, t: Tables, runId: string, done: map<Key, Finding>)
    requires |t0.observations| <= |t.observations|
  {
    && FromRun(Since(t0, t), t.deployments, runId)
    && t.deployments.Keys == t0.deployments.Keys + done.Keys
    && forall k :: k in t.deployments ==> SettledIn(t0, t, k, runId, Get(done, k))
  }

  /** Partway through a run. */
  ghost predicate Progress(t0: Tables, t: Tables, runId: string, done: map<Key, Finding>, now: Time) {
    Follows(t0, t) && Covers(t0, t, runId, done) && Stamped(t0, t, now)
  }

  /** What a whole run does to the tables. */
  ghost predicate Effect(t0: Tables, t1: Tables, run: Run) {
    && Follows(t0, t1)
    && FromRun(Since(t0, t1), t1.deployments, run.id)
    && (forall k :: k in t1.deployments <==> k in t0.deployments || IsSeen(OutcomeOf(run, k)))
    && forall k :: k in t1.deployments ==> SettledIn(t0, t1, k, run.id, OutcomeOf(run, k))
  }

  lemma SettledStep(added: seq<Observation>, o: Observation, before: nat, id: nat, runId: string,
                    outcome: Option<Finding>, finding: Finding)
    requires Settled(added, before, id, runId, outcome)
    requires Says(o, runId, finding)
    ensures o.deploymentId != id ==> Settled(added + [o], before, id, runId, outcome)
    ensures o.deploymentId == id && outcome == None && before == 0 ==>
              Settled(added + [o], before, id, runId, Some(finding))
  {
    assert (added + [o])[..|added + [o]| - 1] == added;
    if Latest(added, id) == None {
      UnseenHasNoRows(added, id, runId);
    }
  }

  lemma NewKeyIsUnseen(t0: Tables, t: Tables, t': Tables, k: Key, runId: string)
    requires Grows(t0, t) && Grows(t, t') && k in t'.deployments && k !in t.deployments
    ensures Latest(Since(t0, t), t'.deployments[k].id) == None
    ensures Count(t0.observations, t'.deployments[k].id, runId) == 0
  {
    var id := t'.deployments[k].id;
    UnattachedIsUnseen(Since(t0, t), t.nextId, id);
    UnattachedIsUnseen(t0.observations, t0.nextId, id);
    UnseenHasNoRows(t0.observations, id, runId);
  }

  /** One more row, or none when the run already had one: a deployment's rows stay settled. */
  lemma SettledNext(base: seq<Observation>, added: seq<Observation>, added': seq<Observation>, idK: nat, id: nat,
                    runId: string, was: Option<Finding>, finding: Finding)
    requires Settled(added, Count(base, id, runId), id, runId, was)
    requires id == idK ==> was == None
    requires Count(base + added, idK, runId) > 0 ==> added' == added
    requires Count(base + added, idK, runId) == 0 ==>
               |added'| == |added| + 1 && added'[..|added|] == added
               && added'[|added|].deploymentId == idK && Says(added'[|added|], runId, finding)
    ensures Settled(added', Count(base, id, runId), id, runId, if id == idK then Some(finding) else was)
  {
    CountAppends(base, added, idK, runId);
    if Latest(added, id) == None {
      UnseenHasNoRows(added, id, runId);
    }
    if Count(base + added, idK, runId) == 0 {
      assert added' == added + [added'[|added|]];
      SettledStep(added, added'[|added|], Count(base, id, runId), id, runId, was, finding);
    }
  }

  lemma AddedRows(t0: Tables, t: Tables, t': Tables, k: Key, runId: string, finding: Finding)
    requires t0.observations <= t.observations && AddsOne(t, t', k, runId, finding)
    ensures t0.observations <= t'.observations
    ensures t.observations == t0.observations + Since(t0, t)
    ensures var idK, added, added' := t'.deployments[k].id, Since(t0, t), Since(t0, t');
            if Count(t.observations, idK, runId) > 0 then added' == added
            else |added'| == |added| + 1 && added'[..|added|] == added
                 && added'[|added|].deploymentId == idK && added'[|added|].key == k
                 && Says(added'[|added|], runId, finding)
  {
  }

  lemma RowsSettle(t0: Tables, t: Tables, t': Tables, runId: string, done: map<Key, Finding>, k: Key,
                   finding: Finding, j: Key)
    requires Grows(t0, t) && Covers(t0, t, runId, done) && k !in done
    requires AddsOne(t, t', k, runId, finding) && j in t'.deployments
    ensures |t0.observations| <= |t'.observations|
    ensures var id := t'.deployments[j].id;
            Settled(Since(t0, t'), Count(t0.observations, id, runId), id, runId, Get(done[k := finding], j))
  {
    var id, idK := t'.deployments[j].id, t'.deployments[k].id;
    AddedRows(t0, t, t', k, runId, finding);
    if j !in t.deployments {
      NewKeyIsUnseen(t0, t, t', j, runId);
    }
    assert Settled(Since(t0, t), Count(t0.observations, id, runId), id, runId, Get(done, j)) by {
      if j in t.deployments {
        assert SettledIn(t0, t, j, runId, Get(done, j));
      }
    }
    assert id == idK ==> SameId(t'.deployments, j, k);
    assert Get(done[k := finding], j) == if id == idK then Some(finding) else Get(done, j);
    SettledNext(t0.observations, Since(t0, t), Since(t0, t'), idK, id, runId, Get(done, j), finding);
  }

  /** A row that gets no observation is not touched. */
  lemma OthersUntouched(t: Tables, t': Tables, k: Key, runId: string, finding: Finding, j: Key)
    requires Follows(t, t') && AddsOne(t, t', k, runId, finding) && j in t.deployments && j != k
    ensures t'.deployments[j] == t.deployments[j]
  {
    var added := Since(t, t');
    if added != [] {
      assert added == [t'.observations[|t.observations|]] && added[..0] == [];
      assert t'.deployments[j].id == t'.deployments[k].id ==> SameId(t'.deployments, j, k);
    }
    assert Latest(added, t'.deployments[j].id) == None;
  }

  lemma NameSettles(t0: Tables, t: Tables, t': Tables, runId: string, done: map<Key, Finding>, k: Key, finding: Finding)
    requires Follows(t0, t) && Covers(t0, t, runId, done) && k !in done && AddsOne(t, t', k, runId, finding)
    ensures k in t'.deployments && |t0.observations| <= |t'.observations|
    ensures Latest(Since(t0, t'), t'.deployments[k].id).Some? ==> NamedAs(t0, t', k, finding)
  {
    var id := t'.deployments[k].id;
    if k in t.deployments {
      assert SettledIn(t0, t, k, runId, None);
      assert Latest(Since(t0, t), id) == None && k in t0.deployments && t.deployments[k] == t0.deployments[k];
    }
    if Count(t.observations, id, runId) > 0 && k !in t.deployments {
      NewKeyIsUnseen(t0, t, t', k, runId);
    }
  }

  lemma CoversSettles(t0: Tables, t: Tables, t': Tables, runId: string, done: map<Key, Finding>, k: Key,
                      finding: Finding, j: Key)
    requires Follows(t0, t) && Covers(t0, t, runId, done) && k !in done
    requires Follows(t, t') && AddsOne(t, t', k, runId, finding) && j in t'.deployments
    ensures |t0.observations| <= |t'.observations|
    ensures SettledIn(t0, t', j, runId, Get(done[k := finding], j))
  {
    RowsSettle(t0, t, t', runId, done, k, finding, j);
    if j == k {
      NameSettles(t0, t, t', runId, done, k, finding);
    } else {
      NameStays(t0, t, t', runId, done, k, finding, j);
    }
  }

  lemma NameStays(t0: Tables, t: Tables, t': Tables, runId: string, done: map<Key, Finding>, k: Key,
                  finding: Finding, j: Key)
    requires Follows(t0, t) && Covers(t0, t, runId, done) && k !in done && j != k
    requires Follows(t, t') && AddsOne(t, t', k, runId, finding) && j in t'.deployments
    ensures |t0.observations| <= |t'.observations|
    ensures var outcome := Get(done, j);
            outcome.Some? && Latest(Since(t0, t'), t'.deployments[j].id).Some? ==> NamedAs(t0, t', j, outcome.value)
  {
    AddedRows(t0, t, t', k, runId, finding);
    OthersUntouched(t, t', k, runId, finding, j);
    assert SettledIn(t0, t, j, runId, Get(done, j));
    SameRows(t0, t, t', k, runId, finding, j);
  }

  lemma SameRows(t0: Tables, t: Tables, t': Tables, k: Key, runId: string, finding: Finding, j: Key)
    requires t0.observations <= t.observations && AddsOne(t, t', k, runId, finding) && j in t.deployments && j != k
    ensures t0.observations <= t'.observations
    ensures Latest(Since(t0, t'), t'.deployments[j].id) == Latest(Since(t0, t), t'.deployments[j].id)
  {
    AddedRows(t0, t, t', k, runId, finding);
    assert t'.deployments[j].id == t'.deployments[k].id ==> SameId(t'.deployments, j, k);
  }

  lemma CoversFromRun(t0: Tables, t: Tables, t': Tables, runId: string, k: Key, finding: Finding)
    requires t0.observations <= t.observations && FromRun(Since(t0, t), t.deployments, runId)
    requires AddsOne(t, t', k, runId, finding)
    ensures |t0.observations| <= |t'.observations|
    ensures FromRun(Since(t0, t'), t'.deployments, runId)
  {
    AddedRows(t0, t, t', k, runId, finding);
    var added, added' := Since(t0, t), Since(t0, t');
    forall i | 0 <= i < |added'|
      ensures added'[i].runId == runId && added'[i].key in t'.deployments
      ensures t'.deployments[added'[i].key].id == added'[i].deploymentId
    {
      assert i < |added| ==> added'[i] == added[i];
    }
  }

  lemma CoversAll(t0: Tables, t: Tables, t': Tables, runId: string, done: map<Key, Finding>, k: Key,
      finding: Finding)
    requires Follows(t0, t) && Covers(t0, t, runId, done) && k !in done
    requires Follows(t, t') && AddsOne(t, t', k, runId, finding)
    ensures |t0.observations| <= |t'.observations|
    ensures forall j :: j in t'.deployments ==> SettledIn(t0, t', j, runId, Get(done[k := finding], j))
  {
    forall j | j in t'.deployments
      ensures |t0.observations| <= |t'.observations| && SettledIn(t0, t', j, runId, Get(done[k := finding], j))
    {
      CoversSettles(t0, t, t', runId, done, k, finding, j);
    }
  }

  lemma KeysNext(before: set<Key>, now: set<Key>, next: set<Key>, done: map<Key, Finding>, k: Key,
      finding: Finding)
    requires now == before + done.Keys && next == now + {k}
    ensures next == before + done[k := finding].Keys
  {
  }

  /** Recording one more key's observation moves the run forward. */
  lemma ProgressStep(t0: Tables, t: Tables, t': Tables, runId: string, done: map<Key, Finding>, k: Key,
      finding: Finding, now: Time)
    requires Progress(t0, t, runId, done, now) && k !in done
    requires Follows(t, t') && AddsOne(t, t', k, runId, finding) && Stamped(t, t', now)
    ensures Progress(t0, t', runId, done[k := finding], now)
  {
    CoversFromRun(t0, t, t', runId, k, finding);
    CoversAll(t0, t, t', runId, done, k, finding);
    KeysNext(t0.deployments.Keys, t.deployments.Keys, t'.deployments.Keys, done, k, finding);
    StampedTransitive(t0, t, t', now);
  }

  // ---- safety over every sequence of runs -------------------------------------

  ghost predicate IsHistory(states: seq<Tables>, runs: seq<Run>) {
    && |states| == |runs| + 1
    && Intact(states[0])
    && forall i :: 0 <= i < |runs| ==> Effect(states[i], states[i + 1], runs[i])
  }

  lemma {:induction false} HistoryFollows(states: seq<Tables>, runs: seq<Run>, n: nat)
    requires IsHistory(states, runs) && n <= |runs|
    ensures Follows(states[0], states[n])
  {
    if n == 0 {
      FollowsRefl(states[0]);
    } else {
      HistoryFollows(states, runs, n - 1);
      FollowsTransitive(states[0], states[n - 1], states[n]);
    }
  }

  /**
   After any sequence of runs, from any intact catalog: ignored deployments stay
   ignored; any other deployment is stale exactly when its latest decisive
   observation is missing; freshness is that of its latest observation.
   */
  lemma DeploymentsAgreeWithHistory(states: seq<Tables>, runs: seq<Run>, k: Key)
    requires IsHistory(states, runs) && k in states[|runs|].deployments
    ensures Follows(states[0], states[|runs|])
    ensures var end := states[|runs|];
            var history, start, row := Since(states[0], end), StandingIn(states[0], k), end.deployments[k];
            && states[0].observations <= end.observations
            && (k in states[0].deployments ==> row.id == states[0].deployments[k].id)
            && (start.state == Ignored <==> row.standing.state == Ignored)
            && (start.state != Ignored ==>
                  (row.standing.state == Stale <==> match LatestDecisive(history, row.id)
                                                    case Some(d) => d == Missing
                                                    case None => start.state == Stale))
            && match Latest(history, row.id)
               case Some(o) => row.standing.latest == Some(o.id) && row.standing.freshness == FreshnessFor(o.state)
               case None => row.standing == start
  {
    HistoryFollows(states, runs, |runs|);
    ReplayInClosedForm(StandingIn(states[0], k), Since(states[0], states[|runs|]), states[|runs|].deployments[k].id);
  }

  /** A project target keeps its state while archived, and otherwise follows the latest decisive observation. */
  lemma TargetsAgreeWithHistory(states: seq<Tables>, runs: seq<Run>, g: string)
    requires IsHistory(states, runs) && g in states[0].targets
    ensures Follows(states[0], states[|runs|]) && g in states[|runs|].targets
    ensures var history := Since(states[0], states[|runs|]);
            var start, row := states[0].targets[g], states[|runs|].targets[g];
            && row.deploymentId == start.deploymentId
            && if start.standing.state == Archived then row.standing == start.standing
               else row.standing.state == match LatestDecisive(history, start.deploymentId)
                                          case Some(Missing) => StaleTarget
                                          case Some(_) => Confirmed
                                          case None => start.standing.state
  {
    HistoryFollows(states, runs, |runs|);
    ReplayTargetInClosedForm(states[0].targets[g].standing, Since(states[0], states[|runs|]),
        states[0].targets[g].deploymentId);
  }

  /**
   A run under a fresh id leaves every deployment it covers with exactly one
   observation of that id, missing only when every result of its provider is
   ready; a deployment it does not cover gets none.
   */
  lemma OneObservationEach(t0: Tables, t1: Tables, run: Run, k: Key)
    requires Effect(t0, t1, run) && k in t1.deployments
    requires Count(t0.observations, t1.deployments[k].id, run.id) == 0
    ensures var id := t1.deployments[k].id;
            match OutcomeOf(run, k)
            case None => Count(t1.observations, id, run.id) == 0
            case Some(finding) =>
              && Count(t1.observations, id, run.id) == 1
              && Latest(t1.observations, id).Some?
              && Says(Latest(t1.observations, id).value, run.id, finding)
    ensures OutcomeOf(run, k).Some? && OutcomeOf(run, k).value.state == Missing ==>
              forall r :: r in run.providerResults && r.provider == Some(k.provider) ==> r.status == Ready
  {
    var id, added := t1.deployments[k].id, Since(t0, t1);
    assert t1.observations == t0.observations + added;
    CountAppends(t0.observations, added, id, run.id);
    LatestOfJoin(t0.observations, added, id);
    if Latest(added, id) == None {
      UnseenHasNoRows(added, id, run.id);
    }
    assert SettledIn(t0, t1, k, run.id, OutcomeOf(run, k));
    ReadyCoverageNeedsEveryResultReady(run, k.provider);
  }

  /** A settled deployment has its row for the run, so the same run settles it again without adding one. */
  lemma SettledTwice(base: seq<Observation>, added: seq<Observation>, again: seq<Observation>, id: nat, runId: string,
                     outcome: Option<Finding>)
    requires Settled(added, Count(base, id, runId), id, runId, outcome)
    requires Settled(again, Count(base + added, id, runId), id, runId, outcome)
    ensures Latest(again, id) == None
  {
    CountAppends(base, added, id, runId);
  }

  lemma UnseenMeansNoRows(added: seq<Observation>, deployments: map<Key, Deployment>, runId: string)
    requires FromRun(added, deployments, runId)
    requires forall k :: k in deployments ==> Latest(added, deployments[k].id) == None
    ensures added == []
  {
    if added != [] {
      LastIsLatest(added);
    }
  }

  lemma LastIsLatest(history: seq<Observation>)
    requires history != []
    ensures Latest(history, history[|history| - 1].deploymentId) == Some(history[|history| - 1])
  {
  }

  lemma EffectAt(t0: Tables, t1: Tables, run: Run, k: Key)
    requires Effect(t0, t1, run) && k in t1.deployments
    ensures SettledIn(t0, t1, k, run.id, OutcomeOf(run, k))
  {
  }

  lemma EffectSettles(t0: Tables, t1: Tables, run: Run, k: Key)
    requires Effect(t0, t1, run) && k in t1.deployments
    ensures t1.observations == t0.observations + Since(t0, t1)
    ensures var id := t1.deployments[k].id; Settled(Since(t0, t1), Count(t0.observations, id, run.id), id, run.id,
                                                    OutcomeOf(run, k))
  {
    EffectAt(t0, t1, run, k);
  }

  lemma ReplayKeepsKey(t0: Tables, t1: Tables, t2: Tables, run: Run, k: Key)
    requires Effect(t0, t1, run) && Effect(t1, t2, run) && k in t2.deployments
    ensures k in t1.deployments && t1.deployments[k].id == t2.deployments[k].id
  {
  }

  lemma ReplayAddsNoRow(t0: Tables, t1: Tables, t2: Tables, run: Run, k: Key)
    requires Effect(t0, t1, run) && Effect(t1, t2, run) && k in t2.deployments
    ensures Latest(Since(t1, t2), t2.deployments[k].id) == None
  {
    ReplayKeepsKey(t0, t1, t2, run, k);
    EffectSettles(t0, t1, run, k);
    EffectSettles(t1, t2, run, k);
    SettledTwice(t0.observations, Since(t0, t1), Since(t1, t2), t2.deployments[k].id, run.id, OutcomeOf(run, k));
  }

  lemma ReplayAddsNoRows(t0: Tables, t1: Tables, t2: Tables, run: Run)
    requires Effect(t0, t1, run) && Effect(t1, t2, run)
    ensures Since(t1, t2) == []
  {
    forall k | k in t2.deployments ensures Latest(Since(t1, t2), t2.deployments[k].id) == None {
      ReplayAddsNoRow(t0, t1, t2, run, k);
    }
    UnseenMeansNoRows(Since(t1, t2), t2.deployments, run.id);
  }

  lemma NoRowsNoChange(t1: Tables, t2: Tables)
    requires Follows(t1, t2) && Since(t1, t2) == []
    requires forall k :: k in t2.deployments ==> k in t1.deployments
    ensures t2.deployments == t1.deployments && t2.observations == t1.observations && t2.targets == t1.targets
  {
    assert t2.observations == t1.observations + Since(t1, t2);
    assert t2.deployments.Keys == t1.deployments.Keys;
  }

  /** Replaying the run that was just persisted changes no deployment, observation or target row. */
  lemma ReplayIsIdle(t0: Tables, t1: Tables, t2: Tables, run: Run)
    requires Effect(t0, t1, run) && Effect(t1, t2, run)
    ensures t2.deployments == t1.deployments && t2.observations == t1.observations && t2.targets == t1.targets
  {
    ReplayAddsNoRows(t0, t1, t2, run);
    NoRowsNoChange(t1, t2);
  }
}
