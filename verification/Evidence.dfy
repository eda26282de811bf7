/**
 One discovery run's evidence as the catalog reads it (backend/src/contracts.rs
 and the pure readers of backend/src/catalog.rs).
 */
module Evidence {
  import opened Wrappers
  import opened Text

  /** Instants compare like their RFC 3339 text. */
  type Time = nat

  datatype Provider = Compose | Docker | Systemd

  datatype Status = Ready | Unavailable | PermissionDenied | TimedOut | Failed

  /** A JSON document: its string-valued members and its serialised, lower-cased text. */
  datatype Metadata = Metadata(fields: map<string, string>, rendered: string)

  datatype Item = Item(externalId: string, source: string, observedAt: Option<Time>, metadata: Metadata)

  /** `provider` is None for kinds the catalog does not track. */
  datatype ProviderResult = ProviderResult(provider: Option<Provider>, status: Status, observedAt: Option<Time>)

  datatype ResourceKind = Network | Volume | Image | Document

  datatype Run = Run(
    id: string,
    host: string,
    composeProjects: seq<Item>,
    systemdUnits: seq<Item>,
    containers: seq<Item>,
    resources: map<ResourceKind, seq<Item>>,
    providerResults: seq<ProviderResult>,
    finishedAt: Time)

  function Field(item: Item, key: string): string {
    if key in item.metadata.fields then item.metadata.fields[key] else ""
  }

  predicate IsBlank(s: string) {
    Trim(s, IsSpace) == []
  }

  function BoundedText(s: string, limit: nat): string {
    var trimmed := Trim(s, IsSpace);
    var bounded := if |trimmed| <= limit then trimmed else trimmed[..limit];
    if bounded == [] then "unknown deployment" else bounded
  }

  function PreferredName(provider: Provider): string {
    match provider case Compose => "name" case Systemd => "unit" case Docker => "name"
  }

  function DisplayName(provider: Provider, item: Item): string {
    var preferred := Field(item, PreferredName(provider));
    BoundedText(if IsBlank(preferred) then item.externalId else preferred, 512)
  }

  /** A container that no compose project owns. */
  predicate StandaloneContainer(item: Item) {
    IsBlank(Field(item, "compose_project")) && IsBlank(Field(item, "compose_service"))
  }

  function Standalone(items: seq<Item>): seq<Item> {
    if items == [] then []
    else if StandaloneContainer(items[0]) then [items[0]] + Standalone(items[1..])
    else Standalone(items[1..])
  }

  /** The evidence items that are deployments of a provider. */
  function ItemsOf(run: Run, provider: Provider): seq<Item> {
    match provider
    case Compose => run.composeProjects
    case Systemd => run.systemdUnits
    case Docker => Standalone(run.containers)
  }

  function FirstWithId(items: seq<Item>, externalId: string): Option<Item> {
    if items == [] then None
    else if items[0].externalId == externalId then Some(items[0])
    else FirstWithId(items[1..], externalId)
  }

  /** What the run saw under this identity, if anything: the first item wins. */
  function Sighting(run: Run, provider: Provider, externalId: string): Option<Item> {
    FirstWithId(ItemsOf(run, provider), externalId)
  }

  lemma {:induction false} FirstWithIdSnoc(items: seq<Item>, last: Item, externalId: string)
    ensures FirstWithId(items + [last], externalId) ==
            if FirstWithId(items, externalId).Some? then FirstWithId(items, externalId)
            else if last.externalId == externalId then Some(last) else None
  {
    if items != [] {
      assert (items + [last])[1..] == items[1..] + [last];
      FirstWithIdSnoc(items[1..], last, externalId);
    }
  }

  method InsertObserved(deployments: map<(Provider, string), Item>, provider: Provider, items: seq<Item>)
    returns (result: map<(Provider, string), Item>)
    requires forall x :: (provider, x) !in deployments
    ensures forall p, x :: p != provider ==> ((p, x) in result <==> (p, x) in deployments)
    ensures forall p, x :: p != provider && (p, x) in deployments ==> result[(p, x)] == deployments[(p, x)]
    ensures forall x :: (provider, x) in result <==> FirstWithId(items, x).Some?
    ensures forall x :: (provider, x) in result ==> Some(result[(provider, x)]) == FirstWithId(items, x)
  {
    result := deployments;
    for i := 0 to |items|
      invariant forall p, x :: p != provider ==> ((p, x) in result <==> (p, x) in deployments)
      invariant forall p, x :: p != provider && (p, x) in deployments ==> result[(p, x)] == deployments[(p, x)]
      invariant forall x :: (provider, x) in result <==> FirstWithId(items[..i], x).Some?
      invariant forall x :: (provider, x) in result ==> Some(result[(provider, x)]) == FirstWithId(items[..i], x)
    {
      assert items[..i + 1] == items[..i] + [items[i]];
      forall x {
        FirstWithIdSnoc(items[..i], items[i], x);
      }
      if (provider, items[i].externalId) !in result {
        result := result[(provider, items[i].externalId) := items[i]];
      }
    }
    assert items[..|items|] == items;
  }

  /** The map holds exactly the run's sightings. */
  ghost predicate Sees(run: Run, observed: map<(Provider, string), Item>) {
    forall p, x :: Get(observed, (p, x)) == Sighting(run, p, x)
  }

  /** Every deployment the run observed, each once, with the first item that named it. */
  method ObservedDeployments(run: Run) returns (observed: map<(Provider, string), Item>)
    ensures Sees(run, observed)
  {
    observed := InsertObserved(map[], Compose, run.composeProjects);
    observed := InsertObserved(observed, Systemd, run.systemdUnits);
    observed := InsertObserved(observed, Docker, Standalone(run.containers));
  }

  // ---- provider coverage ----------------------------------------------------

  datatype Coverage = Coverage(status: Status, observedAt: Time)

  function Matching(results: seq<ProviderResult>, provider: Provider): seq<ProviderResult> {
    if results == [] then []
    else if results[0].provider == Some(provider) then [results[0]] + Matching(results[1..], provider)
    else Matching(results[1..], provider)
  }

  /** The first result that is not ready decides; otherwise the provider is ready. */
  function MergedStatus(results: seq<ProviderResult>): Status {
    if results == [] then Ready
    else if results[0].status != Ready then results[0].status
    else MergedStatus(results[1..])
  }

  function LatestResult(results: seq<ProviderResult>): Option<Time> {
    if results == [] then None
    else match (results[0].observedAt, LatestResult(results[1..]))
      case (None, rest) => rest
      case (Some(t), None) => Some(t)
      case (Some(t), Some(u)) => Some(if t < u then u else t)
  }

  function MergeCoverage(matching: seq<ProviderResult>, finishedAt: Time): Coverage {
    Coverage(MergedStatus(matching), match LatestResult(matching) case Some(t) => t case None => finishedAt)
  }

  lemma {:induction false} MergedReadyMeansAllReady(results: seq<ProviderResult>)
    ensures MergedStatus(results) == Ready <==> forall r :: r in results ==> r.status == Ready
  {
    if results != [] {
      MergedReadyMeansAllReady(results[1..]);
      assert results == [results[0]] + results[1..];
    }
  }

  lemma {:induction false} MatchingKeepsExactly(results: seq<ProviderResult>, provider: Provider)
    ensures forall r :: r in Matching(results, provider) <==> r in results && r.provider == Some(provider)
  {
    if results != [] {
      MatchingKeepsExactly(results[1..], provider);
      assert results == [results[0]] + results[1..];
    }
  }

  /** How a run covers a provider: None when it says nothing about it at all. */
  function CoverageOf(run: Run, provider: Provider): Option<Coverage> {
    var matching := Matching(run.providerResults, provider);
    if (run.providerResults == [] && provider != Systemd) || (run.providerResults != [] && matching != []) then
      Some(MergeCoverage(matching, run.finishedAt))
    else if ItemsOf(run, provider) != [] then Some(Coverage(Ready, run.finishedAt))
    else None
  }

  /** The map holds exactly the run's coverage. */
  ghost predicate CoversAs(run: Run, coverage: map<Provider, Coverage>) {
    forall p :: Get(coverage, p) == CoverageOf(run, p)
  }

  /** The coverage map is filled from provider results, then from what was observed without any. */
  method ProviderCoverage(run: Run, observed: map<(Provider, string), Item>) returns (coverage: map<Provider, Coverage>)
    requires Sees(run, observed)
    ensures CoversAs(run, coverage)
  {
    coverage := map[];
    if run.providerResults == [] {
      coverage := coverage[Docker := Coverage(Ready, run.finishedAt)];
      coverage := coverage[Compose := Coverage(Ready, run.finishedAt)];
    } else {
      var kinds := [Compose, Docker, Systemd];
      for i := 0 to |kinds|
        invariant forall p :: p in coverage <==> p in kinds[..i] && Matching(run.providerResults, p) != []
        invariant forall p :: p in coverage ==>
                    coverage[p] == MergeCoverage(Matching(run.providerResults, p), run.finishedAt)
      {
        var matching := Matching(run.providerResults, kinds[i]);
        if matching == [] {
          continue;
        }
        coverage := coverage[kinds[i] := MergeCoverage(matching, run.finishedAt)];
      }
      forall p: Provider ensures p in kinds {
        assert kinds[0] == Compose && kinds[1] == Docker && kinds[2] == Systemd;
        match p case Compose => case Docker => case Systemd =>
      }
      assert kinds[..|kinds|] == kinds;
    }
    var merged := coverage;
    var keys := observed.Keys;
    while keys != {}
      invariant keys <= observed.Keys
      invariant forall p :: p in merged ==> p in coverage && coverage[p] == merged[p]
      invariant forall p :: p in coverage && p !in merged ==>
                  coverage[p] == Coverage(Ready, run.finishedAt) && exists x :: (p, x) in observed
      invariant forall p, x :: (p, x) in observed.Keys - keys ==> p in coverage
      decreases keys
    {
      var key :| key in keys;
      keys := keys - {key};
      if key.0 !in coverage {
        assert (key.0, key.1) in observed;
        coverage := coverage[key.0 := Coverage(Ready, run.finishedAt)];
      }
    }
    forall p: Provider ensures (p in coverage <==> CoverageOf(run, p).Some?)
    && (p in coverage ==> Some(coverage[p]) == CoverageOf(run, p)) {
      SomeSighting(run, p);
      if x :| Sighting(run, p, x).Some? {
        assert (p, x) in observed.Keys - keys;
      }
    }
  }

  lemma SomeSighting(run: Run, provider: Provider)
    ensures (exists x :: Sighting(run, provider, x).Some?) <==> ItemsOf(run, provider) != []
  {
    var items := ItemsOf(run, provider);
    if items != [] {
      assert Sighting(run, provider, items[0].externalId).Some?;
    }
  }

  /** Absence counts as proof only when every result for the provider is ready. */
  lemma ReadyCoverageNeedsEveryResultReady(run: Run, provider: Provider)
    ensures CoverageOf(run, provider).Some? && CoverageOf(run, provider).value.status == Ready ==>
              forall r :: r in run.providerResults && r.provider == Some(provider) ==> r.status == Ready
    ensures (exists r :: r in run.providerResults && r.provider == Some(provider) && r.status != Ready) ==>
              CoverageOf(run, provider).Some? && CoverageOf(run, provider).value.status != Ready
  {
    MatchingKeepsExactly(run.providerResults, provider);
    MergedReadyMeansAllReady(Matching(run.providerResults, provider));
    if r :| r in run.providerResults && r.provider == Some(provider) && r.status != Ready {
      assert r in Matching(run.providerResults, provider);
    }
  }

  // ---- deployments that use a resource ----------------------------------------

  function ReferenceKeys(kind: ResourceKind): seq<string> {
    match kind
    case Network => ["name", "id"]
    case Volume => ["name", "id"]
    case Image => ["id", "repository", "repo", "tag"]
    case Document => ["relative_path", "path"]
  }

  predicate References(text: string, kind: ResourceKind, resource: Item) {
    exists key :: key in ReferenceKeys(kind) && !IsBlank(Field(resource, key))
                  && Contains(text, Lower(Field(resource, key)))
  }

  function OwnedText(containers: seq<Item>, project: string): string {
    if containers == [] then ""
    else
      var rest := OwnedText(containers[1..], project);
      if "compose_project" in containers[0].metadata.fields && Field(containers[0], "compose_project") == project
      then containers[0].metadata.rendered + rest
      else rest
  }

  /** Names match only inside one run; being on the same host is never enough. */
  predicate DeploymentMatches(run: Run, kind: ResourceKind, resource: Item, provider: Provider, deployment: Item) {
    match provider
    case Systemd => false
    case Docker => References(deployment.metadata.rendered, kind, resource)
    case Compose =>
      var name := Field(deployment, "name");
      || References(deployment.metadata.rendered + OwnedText(run.containers, name), kind, resource)
      || exists key :: key in ReferenceKeys(kind) && !IsBlank(Field(resource, key)) && Field(resource, key) == name
  }
}
