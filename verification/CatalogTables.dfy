/**
 The catalog's tables as values, what one observation does to them, and the
 fold over the observation history that they must agree with
 (backend/src/catalog.rs, backend/migrations/0014_catalog.sql).
 */
module CatalogTables {
  import opened Wrappers
  import opened Evidence

  datatype ObservationState = Observed | Missing | Unknown

  /** UNIQUE(host_id, provider_kind, external_id). */
  datatype Key = Key(host: string, provider: Provider, externalId: string)

  /** A row of `deployment_observations`, with its deployment's identity; rows are never updated. */
  datatype Observation = Observation(
    id: nat, deploymentId: nat, key: Key, runId: string, state: ObservationState, providerStatus: Option<Status>,
    observedAt: Time)

  datatype CatalogState = Seen | Unassigned | Stale | Ignored

  datatype Freshness = Fresh | Outdated | Unreachable

  /** The columns of a deployment that observations move. */
  datatype Standing = Standing(state: CatalogState, latest: Option<nat>, lastObservedAt: Option<Time>,
                               freshness: Freshness)

  datatype Deployment = Deployment(id: nat, displayName: string, standing: Standing, updatedAt: Time)

  datatype TargetState = Confirmed | StaleTarget | Archived

  datatype TargetStanding = TargetStanding(state: TargetState, lastObservedAt: Option<Time>)

  datatype Target = Target(deploymentId: nat, standing: TargetStanding, updatedAt: Time)

  datatype Tables = Tables(
    deployments: map<Key, Deployment>, observations: seq<Observation>, targets: map<string, Target>, nextId: nat)

  const NEW_STANDING := Standing(Seen, None, None, Fresh)

  // ---- one observation --------------------------------------------------------

  function Observe(s: Standing, o: Observation): Standing {
    match o.state
    case Observed => Standing(if s.state == Stale then Unassigned else s.state, Some(o.id), Some(o.observedAt), Fresh)
    case Missing => Standing(if s.state == Ignored then Ignored else Stale, Some(o.id), s.lastObservedAt, Outdated)
    case Unknown => Standing(s.state, Some(o.id), s.lastObservedAt, Unreachable)
  }

  function ObserveTarget(s: TargetStanding, o: Observation): TargetStanding {
    if s.state == Archived then s
    else match o.state
      case Observed =>
        TargetStanding(Confirmed, if s.lastObservedAt.None? || s.lastObservedAt.value < o.observedAt
            then Some(o.observedAt) else s.lastObservedAt)
      case Missing => TargetStanding(StaleTarget, s.lastObservedAt)
      case Unknown => s
  }

  // ---- the fold over history ------------------------------------------------

  function Replay(s: Standing, history: seq<Observation>, id: nat): Standing {
    if history == [] then s
    else
      var before := Replay(s, history[..|history| - 1], id);
      var last := history[|history| - 1];
      if last.deploymentId == id then Observe(before, last) else before
  }

  function ReplayTarget(s: TargetStanding, history: seq<Observation>, id: nat): TargetStanding {
    if history == [] then s
    else
      var before := ReplayTarget(s, history[..|history| - 1], id);
      var last := history[|history| - 1];
      if last.deploymentId == id then ObserveTarget(before, last) else before
  }

  /** The newest observation of a deployment. */
  function Latest(history: seq<Observation>, id: nat): Option<Observation> {
    if history == [] then None
    else if history[|history| - 1].deploymentId == id then Some(history[|history| - 1])
    else Latest(history[..|history| - 1], id)
  }

  /** The newest observation that decides presence: unknown ones are skipped. */
  function LatestDecisive(history: seq<Observation>, id: nat): Option<ObservationState> {
    if history == [] then None
    else
      var last := history[|history| - 1];
      if last.deploymentId == id && last.state != Unknown then Some(last.state)
      else LatestDecisive(history[..|history| - 1], id)
  }

  function FreshnessFor(state: ObservationState): Freshness {
    match state case Observed => Fresh case Missing => Outdated case Unknown => Unreachable
  }

  lemma {:induction false} ReplayAppends(s: Standing, t: TargetStanding, a: seq<Observation>, b: seq<Observation>,
      id: nat)
    ensures Replay(s, a + b, id) == Replay(Replay(s, a, id), b, id)
    ensures ReplayTarget(t, a + b, id) == ReplayTarget(ReplayTarget(t, a, id), b, id)
  {
    if b == [] {
      assert a + b == a;
    } else {
      assert (a + b)[..|a + b| - 1] == a + b[..|b| - 1];
      ReplayAppends(s, t, a, b[..|b| - 1], id);
    }
  }

  lemma {:induction false} ReplayIgnoresOthers(s: Standing, t: TargetStanding, history: seq<Observation>, id: nat)
    requires Latest(history, id) == None
    ensures Replay(s, history, id) == s && ReplayTarget(t, history, id) == t
  {
    if history != [] {
      ReplayIgnoresOthers(s, t, history[..|history| - 1], id);
    }
  }

  /** The fold in closed form: presence follows the latest decisive observation, freshness the latest of all. */
  lemma {:induction false} ReplayInClosedForm(s: Standing, history: seq<Observation>, id: nat)
    ensures var r := Replay(s, history, id);
            && (s.state == Ignored <==> r.state == Ignored)
            && (s.state != Ignored ==>
                  (r.state == Stale <==> match LatestDecisive(history, id)
                                         case Some(d) => d == Missing
                                         case None => s.state == Stale))
            && match Latest(history, id)
               case Some(o) => r.latest == Some(o.id) && r.freshness == FreshnessFor(o.state)
               case None => r == s
  {
    if history != [] {
      ReplayInClosedForm(s, history[..|history| - 1], id);
    }
  }

  /** The same for a project target: archived never changes, unknown never matters. */
  lemma {:induction false} ReplayTargetInClosedForm(s: TargetStanding, history: seq<Observation>, id: nat)
    ensures var r := ReplayTarget(s, history, id);
            if s.state == Archived then r == s
            else r.state == match LatestDecisive(history, id)
                            case Some(Missing) => StaleTarget
                            case Some(_) => Confirmed
                            case None => s.state
  {
    if history != [] {
      ReplayTargetInClosedForm(s, history[..|history| - 1], id);
    }
  }

  // ---- integrity of the tables ------------------------------------------------

  /** How many rows a deployment has for a run. */
  function Count(history: seq<Observation>, id: nat, runId: string): nat {
    if history == [] then 0
    else
      var last := history[|history| - 1];
      Count(history[..|history| - 1], id, runId) + (if last.deploymentId == id && last.runId == runId then 1 else 0)
  }

  lemma {:induction false} CountAppends(a: seq<Observation>, b: seq<Observation>, id: nat, runId: string)
    ensures Count(a + b, id, runId) == Count(a, id, runId) + Count(b, id, runId)
  {
    if b == [] {
      assert a + b == a;
    } else {
      assert (a + b)[..|a + b| - 1] == a + b[..|b| - 1];
      CountAppends(a, b[..|b| - 1], id, runId);
    }
  }

  lemma {:induction false} UnseenHasNoRows(history: seq<Observation>, id: nat, runId: string)
    requires Latest(history, id) == None
    ensures Count(history, id, runId) == 0
  {
    if history != [] {
      UnseenHasNoRows(history[..|history| - 1], id, runId);
    }
  }

  /** Every row names a deployment id already handed out. */
  ghost predicate Attached(history: seq<Observation>, nextId: nat) {
    forall i :: 0 <= i < |history| ==> history[i].id < nextId && history[i].deploymentId < nextId
  }

  predicate SameId(deployments: map<Key, Deployment>, k: Key, l: Key) {
    k in deployments && l in deployments && deployments[k].id == deployments[l].id
  }

  /** Primary keys, UNIQUE(deployment_id, discovery_run_id), and ids from one supply. */
  ghost predicate Intact(t: Tables) {
    && (forall k :: k in t.deployments ==> t.deployments[k].id < t.nextId)
    && (forall k, l :: SameId(t.deployments, k, l) ==> k == l)
    && Attached(t.observations, t.nextId)
    && (forall id, runId :: Count(t.observations, id, runId) <= 1)
  }

  function StandingIn(t: Tables, k: Key): Standing {
    if k in t.deployments then t.deployments[k].standing else NEW_STANDING
  }

  function Since(start: Tables, t: Tables): seq<Observation>
    requires |start.observations| <= |t.observations|
  {
    t.observations[|start.observations|..]
  }

  /** `t` is `start` plus some history: rows are added, never dropped, and keep their ids. */
  ghost predicate Grows(start: Tables, t: Tables) {
    && Intact(start) && Intact(t)
    && start.nextId <= t.nextId
    && start.observations <= t.observations
    && start.deployments.Keys <= t.deployments.Keys
    && start.targets.Keys == t.targets.Keys
    && forall k :: k in t.deployments ==>
         if k in start.deployments then t.deployments[k].id == start.deployments[k].id
             else start.nextId <= t.deployments[k].id
  }

  /** Every moved column is the fold of the history added since; a row without any is untouched. */
  ghost predicate Agrees(start: Tables, t: Tables)
    requires Grows(start, t)
  {
    var added := Since(start, t);
    && (forall k :: k in t.deployments ==>
          && t.deployments[k].standing == Replay(StandingIn(start, k), added, t.deployments[k].id)
          && (k in start.deployments && Latest(added, t.deployments[k].id) == None ==>
                t.deployments[k] == start.deployments[k]))
    && (forall g :: g in t.targets ==>
          && t.targets[g].deploymentId == start.targets[g].deploymentId
          && t.targets[g].standing == ReplayTarget(start.targets[g].standing, added, t.targets[g].deploymentId)
          && (Latest(added, t.targets[g].deploymentId) == None ==> t.targets[g] == start.targets[g]))
  }

  ghost predicate Follows(start: Tables, t: Tables) {
    Grows(start, t) && Agrees(start, t)
  }

  lemma {:induction false} LatestOfJoin(a: seq<Observation>, b: seq<Observation>, id: nat)
    ensures Latest(a + b, id) == if Latest(b, id).Some? then Latest(b, id) else Latest(a, id)
  {
    if b == [] {
      assert a + b == a;
    } else {
      assert (a + b)[..|a + b| - 1] == a + b[..|b| - 1];
      LatestOfJoin(a, b[..|b| - 1], id);
    }
  }

  lemma {:induction false} UnattachedIsUnseen(history: seq<Observation>, nextId: nat, id: nat)
    requires Attached(history, nextId) && nextId <= id
    ensures Latest(history, id) == None
  {
    if history != [] {
      UnattachedIsUnseen(history[..|history| - 1], nextId, id);
    }
  }

  lemma FollowsRefl(t: Tables)
    requires Intact(t)
    ensures Follows(t, t)
  {
  }

  /** Agreement with history composes, so it holds over any chain of runs. */
  lemma FollowsTransitive(a: Tables, b: Tables, c: Tables)
    requires Follows(a, b) && Follows(b, c)
    ensures Follows(a, c)
  {
    var ab, bc := Since(a, b), Since(b, c);
    assert Since(a, c) == ab + bc;
    forall k | k in c.deployments
      ensures c.deployments[k].standing == Replay(StandingIn(a, k), ab + bc, c.deployments[k].id)
    {
      var id := c.deployments[k].id;
      ReplayAppends(StandingIn(a, k), TargetStanding(Archived, None), ab, bc, id);
      if k !in b.deployments {
        UnattachedIsUnseen(ab, b.nextId, id);
        ReplayIgnoresOthers(NEW_STANDING, TargetStanding(Archived, None), ab, id);
      }
    }
    forall k | k in a.deployments && Latest(ab + bc, c.deployments[k].id) == None
      ensures c.deployments[k] == a.deployments[k]
    {
      LatestOfJoin(ab, bc, a.deployments[k].id);
    }
    forall g | g in c.targets
      ensures c.targets[g].standing == ReplayTarget(a.targets[g].standing, ab + bc, c.targets[g].deploymentId)
      ensures Latest(ab + bc, c.targets[g].deploymentId) == None ==> c.targets[g] == a.targets[g]
    {
      ReplayAppends(NEW_STANDING, a.targets[g].standing, ab, bc, c.targets[g].deploymentId);
      LatestOfJoin(ab, bc, c.targets[g].deploymentId);
    }
  }

  // ---- time stamps ------------------------------------------------------------

  predicate TargetMoved(start: Target, added: seq<Observation>) {
    start.standing.state != Archived && LatestDecisive(added, start.deploymentId).Some?
  }

  /**
   Rows that got an observation, new rows and moved targets carry the time of the change, other
   targets their old one.
   */
  ghost predicate Stamped(start: Tables, t: Tables, now: Time)
    requires Grows(start, t)
  {
    var added := Since(start, t);
    && (forall k :: k in t.deployments && (k !in start.deployments || Latest(added, t.deployments[k].id).Some?) ==>
          t.deployments[k].updatedAt == now)
    && (forall g :: g in t.targets ==>
          t.targets[g].updatedAt == if TargetMoved(start.targets[g], added) then now else start.targets[g].updatedAt)
  }

  lemma {:induction false} DecisiveOfJoin(a: seq<Observation>, b: seq<Observation>, id: nat)
    ensures LatestDecisive(a + b, id) == if LatestDecisive(b, id).Some? then LatestDecisive(b, id)
        else LatestDecisive(a, id)
  {
    if b == [] {
      assert a + b == a;
    } else {
      assert (a + b)[..|a + b| - 1] == a + b[..|b| - 1];
      DecisiveOfJoin(a, b[..|b| - 1], id);
    }
  }

  lemma DeploymentsStamped(a: Tables, b: Tables, c: Tables, now: Time, k: Key)
    requires Follows(a, b) && Follows(b, c) && Stamped(a, b, now) && Stamped(b, c, now) && k in c.deployments
    ensures |a.observations| <= |c.observations|
    ensures k !in a.deployments || Latest(Since(a, c), c.deployments[k].id).Some? ==> c.deployments[k].updatedAt == now
  {
    assert Since(a, c) == Since(a, b) + Since(b, c);
    LatestOfJoin(Since(a, b), Since(b, c), c.deployments[k].id);
  }

  lemma TargetsStamped(a: Tables, b: Tables, c: Tables, now: Time, g: string)
    requires Follows(a, b) && Follows(b, c) && Stamped(a, b, now) && Stamped(b, c, now) && g in c.targets
    ensures |a.observations| <= |c.observations| && g in a.targets
    ensures c.targets[g].updatedAt == if TargetMoved(a.targets[g], Since(a, c)) then now else a.targets[g].updatedAt
  {
    assert Since(a, c) == Since(a, b) + Since(b, c);
    DecisiveOfJoin(Since(a, b), Since(b, c), a.targets[g].deploymentId);
    ReplayTargetInClosedForm(a.targets[g].standing, Since(a, b), a.targets[g].deploymentId);
  }

  lemma StampedTransitive(a: Tables, b: Tables, c: Tables, now: Time)
    requires Follows(a, b) && Follows(b, c) && Stamped(a, b, now) && Stamped(b, c, now)
    ensures Follows(a, c) && Stamped(a, c, now)
  {
    FollowsTransitive(a, b, c);
    forall k | k in c.deployments && (k !in a.deployments || Latest(Since(a, c), c.deployments[k].id).Some?)
      ensures c.deployments[k].updatedAt == now
    {
      DeploymentsStamped(a, b, c, now, k);
    }
    forall g | g in c.targets
      ensures c.targets[g].updatedAt == if TargetMoved(a.targets[g], Since(a, c)) then now else a.targets[g].updatedAt
    {
      TargetsStamped(a, b, c, now, g);
    }
  }
}
