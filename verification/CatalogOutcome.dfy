/**
 What one discovery run does to one deployment, told from the run's own lists and results
 alone (backend/src/catalog.rs).
 */
module CatalogOutcome {
  import opened Wrappers
  import opened Text
  import opened Evidence
  import opened CatalogTables
  import opened Catalog

  // ---- what the run lists -----------------------------------------------------

  predicate SaysNothing(item: Item, key: string) {
    key !in item.metadata.fields || Trim(item.metadata.fields[key], IsSpace) == ""
  }

  /** The list a provider's deployments are in. */
  function ListOf(run: Run, provider: Provider): seq<Item> {
    match provider
    case Compose => run.composeProjects
    case Docker => run.containers
    case Systemd => run.systemdUnits
  }

  /** Position i of that list is a deployment: any project or unit, and a container that no compose project owns. */
  predicate IsListed(run: Run, provider: Provider, i: nat) {
    && i < |ListOf(run, provider)|
    && (provider == Docker ==>
          && SaysNothing(run.containers[i], "compose_project")
          && SaysNothing(run.containers[i], "compose_service"))
  }

  predicate ListedAs(run: Run, provider: Provider, externalId: string, i: nat) {
    IsListed(run, provider, i) && ListOf(run, provider)[i].externalId == externalId
  }

  ghost predicate Mentions(run: Run, provider: Provider, externalId: string) {
    exists i: nat :: ListedAs(run, provider, externalId, i)
  }

  predicate FirstListed(run: Run, provider: Provider, externalId: string, i: nat) {
    ListedAs(run, provider, externalId, i) && forall j: nat :: j < i ==> !ListedAs(run, provider, externalId, j)
  }

  /**
   The named field if it says anything, else the external id; white space around it is cut, and all
   behind 512 characters.
   */
  function ShownName(field: string, item: Item): string {
    var text := Trim(if SaysNothing(item, field) then item.externalId else item.metadata.fields[field], IsSpace);
    if text == "" then "unknown deployment" else if |text| > 512 then text[..512] else text
  }

  lemma NameIsShown(provider: Provider, item: Item)
    ensures DisplayName(provider, item) == ShownName(if provider == Systemd then "unit" else "name", item)
  {
    match provider case Compose => case Docker => case Systemd =>
  }

  // ---- what its provider results say --------------------------------------------

  predicate ResultNames(run: Run, provider: Provider, i: nat) {
    i < |run.providerResults| && run.providerResults[i].provider == Some(provider)
  }

  ghost predicate HasResult(run: Run, provider: Provider) {
    exists i: nat :: ResultNames(run, provider, i)
  }

  predicate NotReadyAt(run: Run, provider: Provider, i: nat) {
    ResultNames(run, provider, i) && run.providerResults[i].status != Ready
  }

  ghost predicate NotReady(run: Run, provider: Provider) {
    exists i: nat :: NotReadyAt(run, provider, i)
  }

  /**
   A result names it, or there are no results and it is one of the two providers of older runs, or it
   has a deployment.
   */
  ghost predicate SpeaksOf(run: Run, provider: Provider) {
    || HasResult(run, provider)
    || (run.providerResults == [] && provider != Systemd)
    || exists i: nat :: IsListed(run, provider, i)
  }

  lemma {:induction false} StandaloneKeeps(items: seq<Item>, item: Item)
    ensures item in Standalone(items) <==> item in items && SaysNothing(item, "compose_project")
                                           && SaysNothing(item, "compose_service")
  {
    if items != [] {
      StandaloneKeeps(items[1..], item);
      assert item in items <==> item == items[0] || item in items[1..];
    }
  }

  lemma ItemsAreListed(run: Run, provider: Provider, item: Item)
    ensures item in ItemsOf(run, provider)
            <==> exists i: nat :: IsListed(run, provider, i) && ListOf(run, provider)[i] == item
  {
    StandaloneKeeps(run.containers, item);
    if item in ItemsOf(run, provider) {
      var i :| 0 <= i < |ListOf(run, provider)| && ListOf(run, provider)[i] == item;
      assert IsListed(run, provider, i);
    }
  }

  lemma {:induction false} FirstWithIdFinds(items: seq<Item>, externalId: string)
    ensures FirstWithId(items, externalId).Some? <==> exists item :: item in items && item.externalId == externalId
  {
    if items != [] {
      FirstWithIdFinds(items[1..], externalId);
      assert forall item :: item in items <==> item == items[0] || item in items[1..];
      if items[0].externalId == externalId {
        assert items[0] in items;
      }
    }
  }

  /** Nothing is sighted under an identity exactly when the run lists nothing there. */
  lemma SightedExactlyWhenMentioned(run: Run, provider: Provider, externalId: string)
    ensures Sighting(run, provider, externalId).Some? <==> Mentions(run, provider, externalId)
  {
    FirstWithIdFinds(ItemsOf(run, provider), externalId);
    if Mentions(run, provider, externalId) {
      var i: nat :| ListedAs(run, provider, externalId, i);
      ItemsAreListed(run, provider, ListOf(run, provider)[i]);
    }
    if item :| item in ItemsOf(run, provider) && item.externalId == externalId {
      ItemsAreListed(run, provider, item);
      var i: nat :| IsListed(run, provider, i) && ListOf(run, provider)[i] == item;
      assert ListedAs(run, provider, externalId, i);
    }
  }

  predicate Passes(item: Item, externalId: string, standalone: bool) {
    && item.externalId == externalId
    && (standalone ==> SaysNothing(item, "compose_project") && SaysNothing(item, "compose_service"))
  }

  lemma {:induction false} FirstIsFound(items: seq<Item>, externalId: string, standalone: bool, i: nat)
    requires i < |items| && Passes(items[i], externalId, standalone)
    requires forall j: nat :: j < i ==> !Passes(items[j], externalId, standalone)
    ensures FirstWithId(if standalone then Standalone(items) else items, externalId) == Some(items[i])
  {
    if i > 0 {
      assert !Passes(items[0], externalId, standalone) && items[1..][i - 1] == items[i];
      FirstIsFound(items[1..], externalId, standalone, i - 1);
    }
  }

  lemma FirstListedIsSighted(run: Run, provider: Provider, externalId: string, i: nat)
    requires FirstListed(run, provider, externalId, i)
    ensures Sighting(run, provider, externalId) == Some(ListOf(run, provider)[i])
  {
    var items, standalone := ListOf(run, provider), provider == Docker;
    assert ListedAs(run, provider, externalId, i);
    forall j: nat | j < i ensures !Passes(items[j], externalId, standalone) {
      assert !ListedAs(run, provider, externalId, j);
    }
    FirstIsFound(items, externalId, standalone, i);
  }

  // ---- what the coverage says ---------------------------------------------------

  lemma ResultsAreNamed(run: Run, provider: Provider, r: ProviderResult)
    ensures r in Matching(run.providerResults, provider) <==>
              exists i: nat :: ResultNames(run, provider, i) && run.providerResults[i] == r
  {
    MatchingKeepsExactly(run.providerResults, provider);
    if r in Matching(run.providerResults, provider) {
      var i :| 0 <= i < |run.providerResults| && run.providerResults[i] == r;
      assert ResultNames(run, provider, i);
    }
  }

  lemma CoveredExactlyWhenSpokenOf(run: Run, provider: Provider)
    ensures CoverageOf(run, provider).Some? <==> SpeaksOf(run, provider)
  {
    var matching := Matching(run.providerResults, provider);
    if HasResult(run, provider) {
      var i: nat :| ResultNames(run, provider, i);
      ResultsAreNamed(run, provider, run.providerResults[i]);
    }
    if matching != [] {
      assert matching[0] in matching;
      ResultsAreNamed(run, provider, matching[0]);
      assert HasResult(run, provider);
    }
    if i: nat :| IsListed(run, provider, i) {
      ItemsAreListed(run, provider, ListOf(run, provider)[i]);
    }
    if ItemsOf(run, provider) != [] {
      ItemsAreListed(run, provider, ItemsOf(run, provider)[0]);
    }
  }

  lemma ReadyExactlyWhenNoneIsNot(run: Run, provider: Provider)
    requires CoverageOf(run, provider).Some?
    ensures CoverageOf(run, provider).value.status == Ready <==> !NotReady(run, provider)
  {
    var matching := Matching(run.providerResults, provider);
    MergedReadyMeansAllReady(matching);
    if NotReady(run, provider) {
      var i: nat :| NotReadyAt(run, provider, i);
      ResultsAreNamed(run, provider, run.providerResults[i]);
    }
    if r :| r in matching && r.status != Ready {
      ResultsAreNamed(run, provider, r);
      var i: nat :| ResultNames(run, provider, i) && run.providerResults[i] == r;
      assert NotReadyAt(run, provider, i);
    }
  }

  predicate FirstNotReady(run: Run, provider: Provider, i: nat) {
    NotReadyAt(run, provider, i) && forall j: nat :: j < i ==> !NotReadyAt(run, provider, j)
  }

  lemma {:induction false} FirstUpTo(run: Run, provider: Provider, last: nat) returns (i: nat)
    requires NotReadyAt(run, provider, last)
    ensures FirstNotReady(run, provider, i)
  {
    if j: nat :| j < last && NotReadyAt(run, provider, j) {
      i := FirstUpTo(run, provider, j);
    } else {
      i := last;
    }
  }

  lemma {:induction false} FirstBadDecides(results: seq<ProviderResult>, provider: Provider, i: nat)
    requires i < |results| && results[i].provider == Some(provider) && results[i].status != Ready
    requires forall j: nat :: j < i && results[j].provider == Some(provider) ==> results[j].status == Ready
    ensures MergedStatus(Matching(results, provider)) == results[i].status
  {
    if i > 0 {
      assert results[1..][i - 1] == results[i];
      assert results[0].provider == Some(provider) ==> results[0].status == Ready;
      FirstBadDecides(results[1..], provider, i - 1);
    }
  }

  /** The status recorded is that of the first result that is not ready. */
  lemma FirstNotReadyDecides(run: Run, provider: Provider, i: nat)
    requires FirstNotReady(run, provider, i)
    ensures CoverageOf(run, provider).Some? && CoverageOf(run, provider).value.status == run.providerResults[i].status
  {
    assert NotReadyAt(run, provider, i);
    forall j: nat | j < i && run.providerResults[j].provider == Some(provider)
      ensures run.providerResults[j].status == Ready
    {
      assert !NotReadyAt(run, provider, j);
      assert ResultNames(run, provider, j);
    }
    FirstBadDecides(run.providerResults, provider, i);
    ResultsAreNamed(run, provider, run.providerResults[i]);
  }

  predicate TimedResult(run: Run, provider: Provider, i: nat) {
    ResultNames(run, provider, i) && run.providerResults[i].observedAt.Some?
  }

  lemma {:induction false} LatestIsGreatest(results: seq<ProviderResult>)
    ensures LatestResult(results).None? <==> forall r :: r in results ==> r.observedAt.None?
    ensures LatestResult(results).Some? ==>
              && (exists r :: r in results && r.observedAt == LatestResult(results))
              && forall r :: r in results && r.observedAt.Some? ==> r.observedAt.value <= LatestResult(results).value
  {
    if results != [] {
      LatestIsGreatest(results[1..]);
      assert forall r :: r in results <==> r == results[0] || r in results[1..];
      assert results[0] in results;
    }
  }

  /** A result's time covers the provider from the latest result that has one, or from the end of the run. */
  ghost predicate CoverTime(run: Run, provider: Provider, at: Time) {
    if exists i: nat :: TimedResult(run, provider, i) then
      && (exists i: nat :: TimedResult(run, provider, i) && run.providerResults[i].observedAt.value == at)
      && forall i: nat :: TimedResult(run, provider, i) ==> run.providerResults[i].observedAt.value <= at
    else at == run.finishedAt
  }

  lemma CoverageTime(run: Run, provider: Provider)
    requires CoverageOf(run, provider).Some?
    ensures CoverTime(run, provider, CoverageOf(run, provider).value.observedAt)
  {
    var matching := Matching(run.providerResults, provider);
    LatestIsGreatest(matching);
    forall i: nat | TimedResult(run, provider, i)
      ensures run.providerResults[i] in matching
    {
      ResultsAreNamed(run, provider, run.providerResults[i]);
    }
    if LatestResult(matching).Some? {
      var r :| r in matching && r.observedAt == LatestResult(matching);
      ResultsAreNamed(run, provider, r);
      var i: nat :| ResultNames(run, provider, i) && run.providerResults[i] == r;
      assert TimedResult(run, provider, i);
    }
  }

  // ---- what becomes of the deployment ---------------------------------------------

  lemma {:induction false} OneRowReplays(s: Standing, target: TargetStanding, added: seq<Observation>, id: nat,
                                         runId: string)
    requires forall i :: 0 <= i < |added| ==> added[i].runId == runId
    requires Count(added, id, runId) == 1
    ensures Latest(added, id).Some?
    ensures Replay(s, added, id) == Observe(s, Latest(added, id).value)
    ensures ReplayTarget(target, added, id) == ObserveTarget(target, Latest(added, id).value)
  {
    var front, last := added[..|added| - 1], added[|added| - 1];
    if last.deploymentId == id {
      NoRowsUnseen(front, id, runId);
      ReplayIgnoresOthers(s, target, front, id);
    } else {
      OneRowReplays(s, target, front, id, runId);
    }
  }

  lemma {:induction false} NoRowsUnseen(added: seq<Observation>, id: nat, runId: string)
    requires forall i :: 0 <= i < |added| ==> added[i].runId == runId
    requires Count(added, id, runId) == 0
    ensures Latest(added, id) == None
  {
    if added != [] {
      NoRowsUnseen(added[..|added| - 1], id, runId);
    }
  }

  /** The newest row of the deployment is this run's only one. */
  predicate HasRow(t: Tables, k: Key, runId: string, row: Observation)
    requires k in t.deployments
  {
    && Latest(t.observations, t.deployments[k].id) == Some(row)
    && row.runId == runId && Count(t.observations, t.deployments[k].id, runId) == 1
  }

  /** No earlier attempt of this run left a row. */
  predicate Untold(t0: Tables, t1: Tables, k: Key, runId: string)
    requires k in t1.deployments
  {
    Count(t0.observations, t1.deployments[k].id, runId) == 0
  }

  /** A finding becomes a row, and the deployment and its targets follow the row. */
  lemma FindingBecomesRow(t0: Tables, t1: Tables, run: Run, k: Key) returns (row: Observation)
    requires Effect(t0, t1, run) && k in t1.deployments && Untold(t0, t1, k, run.id) && OutcomeOf(run, k).Some?
    ensures HasRow(t1, k, run.id, row) && Says(row, run.id, OutcomeOf(run, k).value)
    ensures NamedAs(t0, t1, k, OutcomeOf(run, k).value)
    ensures t1.deployments[k].standing == Observe(StandingIn(t0, k), row)
    ensures forall g :: g in t0.targets && t0.targets[g].deploymentId == t1.deployments[k].id ==>
              g in t1.targets && t1.targets[g].standing == ObserveTarget(t0.targets[g].standing, row)
  {
    var id, added := t1.deployments[k].id, Since(t0, t1);
    EffectAt(t0, t1, run, k);
    row := Latest(added, id).value;
    assert t1.observations == t0.observations + added;
    CountAppends(t0.observations, added, id, run.id);
    LatestOfJoin(t0.observations, added, id);
    OneRowReplays(StandingIn(t0, k), TargetStanding(Archived, None), added, id, run.id);
    forall g | g in t0.targets && t0.targets[g].deploymentId == id
      ensures g in t1.targets && t1.targets[g].standing == ObserveTarget(t0.targets[g].standing, row)
    {
      OneRowReplays(StandingIn(t0, k), t0.targets[g].standing, added, id, run.id);
    }
  }

  lemma NothingFound(t0: Tables, t1: Tables, run: Run, k: Key)
    requires Effect(t0, t1, run) && k in t1.deployments
    requires OutcomeOf(run, k).None? || !Untold(t0, t1, k, run.id)
    ensures k in t0.deployments && t1.deployments[k] == t0.deployments[k]
    ensures Count(t1.observations, t1.deployments[k].id, run.id) == Count(t0.observations, t1.deployments[k].id, run.id)
  {
    var id, added := t1.deployments[k].id, Since(t0, t1);
    EffectAt(t0, t1, run, k);
    assert t1.observations == t0.observations + added;
    CountAppends(t0.observations, added, id, run.id);
    UnseenHasNoRows(added, id, run.id);
    if k !in t0.deployments {
      UnattachedIsUnseen(t0.observations, t0.nextId, id);
      UnseenHasNoRows(t0.observations, id, run.id);
    }
  }

  // ---- the verdicts -----------------------------------------------------------------

  const NEVER_SEEN := Standing(Seen, None, None, Fresh)

  /** The standing before the run; a deployment it is the first to list starts as never seen. */
  function StoodAt(t0: Tables, k: Key): Standing {
    if k in t0.deployments then t0.deployments[k].standing else NEVER_SEEN
  }

  /**
   A deployment of the host that the run lists is observed: it is fresh, last observed when the
   row says, and no longer stale.
   */
  lemma ListedIsObserved(t0: Tables, t1: Tables, run: Run, k: Key) returns (row: Observation)
    requires Effect(t0, t1, run) && k in t1.deployments && k.host == run.host && Untold(t0, t1, k, run.id)
    requires Mentions(run, k.provider, k.externalId)
    ensures HasRow(t1, k, run.id, row) && row.state == Observed
    ensures var was := StoodAt(t0, k);
            t1.deployments[k].standing
            == Standing(if was.state == Stale then Unassigned else was.state, Some(row.id), Some(row.observedAt), Fresh)
  {
    SightedExactlyWhenMentioned(run, k.provider, k.externalId);
    row := FindingBecomesRow(t0, t1, run, k);
  }

  /**
   A deployment of the host that the run does not list is missing when the run speaks of its
   provider and no result of the provider is anything but ready: it goes stale unless ignored.
   */
  lemma ReadyProviderProvesAbsence(t0: Tables, t1: Tables, run: Run, k: Key) returns (row: Observation)
    requires Effect(t0, t1, run) && k in t1.deployments && k.host == run.host && Untold(t0, t1, k, run.id)
    requires !Mentions(run, k.provider, k.externalId)
    requires SpeaksOf(run, k.provider) && !NotReady(run, k.provider)
    ensures HasRow(t1, k, run.id, row) && row.state == Missing && row.providerStatus == Some(Ready)
    ensures CoverTime(run, k.provider, row.observedAt)
    ensures k in t0.deployments && t1.deployments[k].displayName == t0.deployments[k].displayName
    ensures var was := StoodAt(t0, k);
            t1.deployments[k].standing
            == Standing(if was.state == Ignored then Ignored else Stale, Some(row.id), was.lastObservedAt, Outdated)
  {
    SightedExactlyWhenMentioned(run, k.provider, k.externalId);
    CoveredExactlyWhenSpokenOf(run, k.provider);
    ReadyExactlyWhenNoneIsNot(run, k.provider);
    CoverageTime(run, k.provider);
    row := FindingBecomesRow(t0, t1, run, k);
  }

  /** One result that is not ready leaves it open: only freshness and the latest row move. */
  lemma UnreadyProviderProvesNothing(t0: Tables, t1: Tables, run: Run, k: Key) returns (row: Observation, i: nat)
    requires Effect(t0, t1, run) && k in t1.deployments && k.host == run.host && Untold(t0, t1, k, run.id)
    requires !Mentions(run, k.provider, k.externalId)
    requires NotReady(run, k.provider)
    ensures HasRow(t1, k, run.id, row) && row.state == Unknown
    ensures FirstNotReady(run, k.provider, i)
    ensures row.providerStatus == Some(run.providerResults[i].status) && CoverTime(run, k.provider, row.observedAt)
    ensures k in t0.deployments && t1.deployments[k].displayName == t0.deployments[k].displayName
    ensures t1.deployments[k].standing == StoodAt(t0, k).(latest := Some(row.id), freshness := Unreachable)
  {
    SightedExactlyWhenMentioned(run, k.provider, k.externalId);
    var last: nat :| NotReadyAt(run, k.provider, last);
    i := FirstUpTo(run, k.provider, last);
    FirstNotReadyDecides(run, k.provider, i);
    CoverageTime(run, k.provider);
    row := FindingBecomesRow(t0, t1, run, k);
  }

  /** Another host's deployment, one the run says nothing about, or one it already told of, keeps its row as it was. */
  lemma UnspokenIsUntouched(t0: Tables, t1: Tables, run: Run, k: Key)
    requires Effect(t0, t1, run) && k in t1.deployments
    requires || k.host != run.host
             || (!Mentions(run, k.provider, k.externalId) && !SpeaksOf(run, k.provider))
             || !Untold(t0, t1, k, run.id)
    ensures k in t0.deployments && t1.deployments[k] == t0.deployments[k]
    ensures Count(t1.observations, t1.deployments[k].id, run.id) == Count(t0.observations, t1.deployments[k].id, run.id)
  {
    SightedExactlyWhenMentioned(run, k.provider, k.externalId);
    CoveredExactlyWhenSpokenOf(run, k.provider);
    NothingFound(t0, t1, run, k);
  }

  /** Deployments come from nowhere but the run's lists, and none goes. */
  lemma RowsComeFromLists(t0: Tables, t1: Tables, run: Run, k: Key)
    requires Effect(t0, t1, run)
    ensures k in t1.deployments <==>
              k in t0.deployments || (k.host == run.host && Mentions(run, k.provider, k.externalId))
  {
    SightedExactlyWhenMentioned(run, k.provider, k.externalId);
  }

  /** The row and the name shown come from the first listed item. */
  lemma FirstListedDescribes(t0: Tables, t1: Tables, run: Run, k: Key, i: nat, row: Observation)
    requires Effect(t0, t1, run) && k in t1.deployments && k.host == run.host && Untold(t0, t1, k, run.id)
    requires FirstListed(run, k.provider, k.externalId, i) && HasRow(t1, k, run.id, row)
    ensures var item := ListOf(run, k.provider)[i];
            && row.observedAt == (if item.observedAt.Some? then item.observedAt.value else run.finishedAt)
            && t1.deployments[k].displayName == ShownName(if k.provider == Systemd then "unit" else "name", item)
    ensures !NotReady(run, k.provider) ==> row.providerStatus == Some(Ready)
    ensures forall j: nat :: FirstNotReady(run, k.provider, j) ==>
                               row.providerStatus == Some(run.providerResults[j].status)
  {
    FirstListedIsSighted(run, k.provider, k.externalId, i);
    NameIsShown(k.provider, ListOf(run, k.provider)[i]);
    assert IsListed(run, k.provider, i);
    CoveredExactlyWhenSpokenOf(run, k.provider);
    ReadyExactlyWhenNoneIsNot(run, k.provider);
    forall j: nat | FirstNotReady(run, k.provider, j)
      ensures CoverageOf(run, k.provider).value.status == run.providerResults[j].status
    {
      FirstNotReadyDecides(run, k.provider, j);
    }
    var found := FindingBecomesRow(t0, t1, run, k);
  }

  /** A target that is not archived follows the row: confirmed and as recent as ever observed, stale, or as it was. */
  lemma TargetsFollowTheRow(t0: Tables, t1: Tables, run: Run, k: Key, row: Observation, g: string)
    requires Effect(t0, t1, run) && k in t1.deployments && Untold(t0, t1, k, run.id) && HasRow(t1, k, run.id, row)
    requires g in t0.targets && t0.targets[g].deploymentId == t1.deployments[k].id
    ensures g in t1.targets && t1.targets[g].deploymentId == t0.targets[g].deploymentId
    ensures var was, now := t0.targets[g].standing, t1.targets[g].standing;
            if was.state == Archived || row.state == Unknown then now == was
            else if row.state == Missing then now == was.(state := StaleTarget)
            else now.state == Confirmed && now.lastObservedAt == Some(Later(was.lastObservedAt, row.observedAt))
  {
    RowMovesTarget(t0, t1, run, k, row, g);
    TargetMovesAs(t0.targets[g].standing, row);
  }

  lemma RowMovesTarget(t0: Tables, t1: Tables, run: Run, k: Key, row: Observation, g: string)
    requires Effect(t0, t1, run) && k in t1.deployments && Untold(t0, t1, k, run.id) && HasRow(t1, k, run.id, row)
    requires g in t0.targets && t0.targets[g].deploymentId == t1.deployments[k].id
    ensures g in t1.targets && t1.targets[g].deploymentId == t0.targets[g].deploymentId
    ensures t1.targets[g].standing == ObserveTarget(t0.targets[g].standing, row)
  {
    if OutcomeOf(run, k).None? {
      NothingFound(t0, t1, run, k);
    } else {
      var found := FindingBecomesRow(t0, t1, run, k);
    }
  }

  lemma TargetMovesAs(was: TargetStanding, row: Observation)
    ensures var now := ObserveTarget(was, row);
            if was.state == Archived || row.state == Unknown then now == was
            else if row.state == Missing then now == was.(state := StaleTarget)
            else now.state == Confirmed && now.lastObservedAt == Some(Later(was.lastObservedAt, row.observedAt))
  {
  }

  function Later(was: Option<Time>, at: Time): Time {
    if was.Some? && at < was.value then was.value else at
  }
}
