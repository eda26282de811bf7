/**
 Which resources a deployment uses, as the catalog records it: a sweep that a
 ready provider permits, then one upsert per match (backend/src/catalog.rs).
 */
module ResourceLinks {
  import opened Wrappers
  import opened Evidence
  import opened CatalogTables

  datatype LinkState = LinkObserved | LinkConfirmed | LinkStale | LinkArchived

  datatype Origin = FromEvidence | UserDeclared | Derived

  datatype Link = Link(state: LinkState, origin: Origin, sourceRefs: seq<string>, observedAt: Option<Time>,
                       revision: int)

  /** Discovery only writes `uses_...` relations; the table may hold others. */
  datatype Relation = Uses(kind: ResourceKind) | OtherRelation(name: string)

  /** UNIQUE(deployment_id, resource_entity_id, relation_kind). */
  datatype LinkKey = LinkKey(deploymentId: nat, resourceId: nat, relation: Relation)

  /** UNIQUE(workspace_id, source, external_id). */
  datatype ResourceKey = ResourceKey(workspace: string, source: string, externalId: string)

  datatype LinkTables = LinkTables(resources: map<ResourceKey, nat>, links: map<LinkKey, Link>, nextId: nat)

  function OwningProvider(relation: Relation): Option<Provider> {
    match relation
    case Uses(Document) => Some(Compose)
    case Uses(_) => Some(Docker)
    case OtherRelation(_) => None
  }

  /** The provider behind this relation proves absence in this run. */
  predicate OwnerReady(run: Run, relation: Relation) {
    match OwningProvider(relation)
    case None => false
    case Some(p) => CoverageOf(run, p).Some? && CoverageOf(run, p).value.status == Ready
  }

  predicate OnHost(deployments: map<Key, Deployment>, host: string, deploymentId: nat) {
    exists k :: k in deployments && k.host == host && deployments[k].id == deploymentId
  }

  /** The sweep: observed links of the host go stale before the evidence is applied. */
  function Swept(run: Run, deployments: map<Key, Deployment>, key: LinkKey, link: Link): Link {
    if OwnerReady(run, key.relation) && link.origin == FromEvidence && link.state == LinkObserved
       && OnHost(deployments, run.host, key.deploymentId)
    then link.(state := LinkStale, revision := link.revision + 1)
    else link
  }

  /** The upsert: what user decisions protect, and what evidence overwrites. */
  function Upserted(existing: Option<Link>, sourceRefs: seq<string>, observedAt: Option<Time>): Link {
    match existing
    case None => Link(LinkObserved, FromEvidence, sourceRefs, observedAt, 1)
    case Some(l) => Link(
      if l.origin == UserDeclared || l.state == LinkConfirmed || l.state == LinkArchived then l.state else LinkObserved,
      if l.origin == UserDeclared then UserDeclared else FromEvidence,
      if l.origin == UserDeclared then l.sourceRefs else sourceRefs,
      observedAt,
      l.revision + 1)
  }

  // ---- the evidence behind a link -------------------------------------------

  function Tagged(kind: ResourceKind, items: seq<Item>): seq<(ResourceKind, Item)> {
    seq(|items|, i requires 0 <= i < |items| => (kind, items[i]))
  }

  function Listed(run: Run, kind: ResourceKind): seq<(ResourceKind, Item)> {
    if kind in run.resources then Tagged(kind, run.resources[kind]) else []
  }

  /** Networks, volumes, images, documents, in that order. */
  function ResourceItems(run: Run): seq<(ResourceKind, Item)> {
    Listed(run, Network) + Listed(run, Volume) + Listed(run, Image) + Listed(run, Document)
  }

  function KeyOfResource(workspace: string, item: Item): ResourceKey {
    ResourceKey(workspace, BoundedText(item.source, 128), BoundedText(item.externalId, 512))
  }

  /** What decides which links a run's evidence names. */
  datatype Scope = Scope(run: Run, workspace: string, deployments: map<Key, Deployment>, resources: map<ResourceKey,
                         nat>)

  /** Item i of this run's resources refers to the deployment the run observed under (p, x). */
  predicate MatchesAt(run: Run, i: nat, p: Provider, x: string)
    requires i < |ResourceItems(run)|
  {
    && Sighting(run, p, x).Some?
    && DeploymentMatches(run, ResourceItems(run)[i].0, ResourceItems(run)[i].1, p, Sighting(run, p, x).value)
  }

  /** The row that item i and deployment (p, x) name. */
  predicate NamesRow(s: Scope, key: LinkKey, i: nat, p: Provider, x: string)
    requires i < |ResourceItems(s.run)|
  {
    && Key(s.run.host, p, x) in s.deployments && s.deployments[Key(s.run.host, p, x)].id == key.deploymentId
    && Get(s.resources, KeyOfResource(s.workspace, ResourceItems(s.run)[i].1)) == Some(key.resourceId)
    && key.relation == Uses(ResourceItems(s.run)[i].0)
  }

  predicate HitBy(s: Scope, key: LinkKey, i: nat, p: Provider, x: string)
    requires i < |ResourceItems(s.run)|
  {
    MatchesAt(s.run, i, p, x) && NamesRow(s, key, i, p, x)
  }

  /** Item i matches the deployment and resource of this link. */
  ghost predicate Hit(s: Scope, key: LinkKey, i: nat)
    requires i < |ResourceItems(s.run)|
  {
    exists p, x :: HitBy(s, key, i, p, x)
  }

  /** Which items do. */
  ghost function Hits(s: Scope, key: LinkKey): nat -> bool {
    (i: nat) => i < |ResourceItems(s.run)| && Hit(s, key, i)
  }

  /** How many of the first n positions hold. */
  ghost function CountOf(hits: nat -> bool, n: nat): nat {
    if n == 0 then 0 else CountOf(hits, n - 1) + (if hits(n - 1) then 1 else 0)
  }

  /** The last of them. */
  ghost function LastOf(hits: nat -> bool, n: nat): (i: nat)
    requires CountOf(hits, n) > 0
    ensures i < n && hits(i)
    ensures forall j: nat :: i < j < n ==> !hits(j)
  {
    if hits(n - 1) then n - 1 else LastOf(hits, n - 1)
  }

  ghost predicate SomeOf(hits: nat -> bool, n: nat) {
    exists i: nat :: i < n && hits(i)
  }

  lemma {:induction false} CountedExactlyWhenSome(hits: nat -> bool, n: nat)
    ensures CountOf(hits, n) > 0 <==> SomeOf(hits, n)
  {
    if n > 0 {
      CountedExactlyWhenSome(hits, n - 1);
    }
  }

  /** Some item of the run matches. */
  ghost predicate Evidenced(s: Scope, key: LinkKey) {
    SomeOf(Hits(s, key), |ResourceItems(s.run)|)
  }

  // ---- one run's effect -------------------------------------------------------

  /** discovery run, evidence item and source, as written beside a link. */
  function EvidenceRefs(runId: string, item: Item): seq<string> {
    ["discovery:" + runId, "evidence:" + item.externalId, item.source]
  }

  /** The upsert for item i. */
  function UpsertedFor(run: Run, i: nat, existing: Option<Link>): Link
    requires i < |ResourceItems(run)|
  {
    var item := ResourceItems(run)[i].1;
    Upserted(existing, EvidenceRefs(run.id, item), item.observedAt)
  }

  /** A link after the first n items: one upsert for each that matches it, in item order. */
  ghost function Folded(run: Run, hits: nat -> bool, base: Option<Link>, n: nat): Option<Link>
    requires n <= |ResourceItems(run)|
  {
    if n == 0 then base
    else
      var before := Folded(run, hits, base, n - 1);
      if hits(n - 1) then Some(UpsertedFor(run, n - 1, before)) else before
  }

  function RevisionOf(link: Option<Link>): int {
    if link.Some? then link.value.revision else 0
  }

  /** Only the revision remembers how many upserts there were. */
  lemma UpsertedAgain(base: Option<Link>, refs: seq<string>, at: Option<Time>, refs': seq<string>, at': Option<Time>,
      count: nat)
    requires count > 0
    ensures Upserted(Some(Upserted(base, refs, at).(revision := RevisionOf(base) + count)), refs', at')
            == Upserted(base, refs', at').(revision := RevisionOf(base) + count + 1)
    ensures Upserted(base, refs, at).revision == RevisionOf(base) + 1
  {
  }

  lemma UpsertedForAgain(run: Run, i: nat, j: nat, base: Option<Link>, count: nat)
    requires i < |ResourceItems(run)| && j < |ResourceItems(run)| && count > 0
    ensures var once := UpsertedFor(run, i, base).(revision := RevisionOf(base) + count);
            UpsertedFor(run, j, Some(once)) == UpsertedFor(run, j, base).(revision := RevisionOf(base) + count + 1)
    ensures UpsertedFor(run, j, base).revision == RevisionOf(base) + 1
  {
    var a, b := ResourceItems(run)[i].1, ResourceItems(run)[j].1;
    UpsertedAgain(base, EvidenceRefs(run.id, a), a.observedAt, EvidenceRefs(run.id, b), b.observedAt, count);
  }

  /** The fold in closed form: the last matching item's upsert, and one revision for every matching item. */
  lemma {:induction false} LinksInClosedForm(run: Run, hits: nat -> bool, base: Option<Link>, n: nat)
    requires n <= |ResourceItems(run)|
    ensures var count := CountOf(hits, n);
            Folded(run, hits, base, n)
            == if count == 0 then base
               else Some(UpsertedFor(run, LastOf(hits, n), base).(revision := RevisionOf(base) + count))
  {
    if n > 0 {
      LinksInClosedForm(run, hits, base, n - 1);
      if hits(n - 1) {
        var count := CountOf(hits, n - 1);
        UpsertedForAgain(run, if count > 0 then LastOf(hits, n - 1) else n - 1, n - 1, base,
            if count > 0 then count else 1);
      }
    }
  }

  function SweptTable(run: Run, deployments: map<Key, Deployment>, links: map<LinkKey, Link>): map<LinkKey, Link> {
    map key | key in links :: Swept(run, deployments, key, links[key])
  }

  /** The UPDATE for one relation, when its provider is ready. */
  function SweepRelation(host: string, deployments: map<Key, Deployment>, links: map<LinkKey, Link>,
      kind: ResourceKind): map<LinkKey, Link>
  {
    map key | key in links ::
      if key.relation == Uses(kind) && links[key].origin == FromEvidence && links[key].state == LinkObserved
         && OnHost(deployments, host, key.deploymentId)
      then links[key].(state := LinkStale, revision := links[key].revision + 1)
      else links[key]
  }

  /** The sweep after the relations in `kinds` only. */
  function PartlySwept(run: Run, deployments: map<Key, Deployment>, links: map<LinkKey, Link>,
      kinds: seq<ResourceKind>): map<LinkKey, Link>
  {
    map key | key in links ::
      if key.relation.Uses? && key.relation.kind in kinds then Swept(run, deployments, key, links[key]) else links[key]
  }

  lemma SweepNext(run: Run, deployments: map<Key, Deployment>, links: map<LinkKey, Link>, kinds: seq<ResourceKind>,
      kind: ResourceKind)
    requires kind !in kinds
    ensures PartlySwept(run, deployments, links, kinds + [kind]) ==
            if OwnerReady(run, Uses(kind))
            then SweepRelation(run.host, deployments, PartlySwept(run, deployments, links, kinds), kind)
            else PartlySwept(run, deployments, links, kinds)
  {
  }

  lemma SweepAll(run: Run, deployments: map<Key, Deployment>, links: map<LinkKey, Link>)
    ensures PartlySwept(run, deployments, links, []) == links
    ensures PartlySwept(run, deployments, links, [Network, Volume, Image, Document])
            == SweptTable(run, deployments, links)
  {
    forall kind: ResourceKind ensures kind in [Network, Volume, Image, Document] {
      match kind case Network => case Volume => case Image => case Document =>
    }
  }

  /** Resources only gain rows; existing ids stand. */
  ghost predicate Retains(resources: map<ResourceKey, nat>, resources': map<ResourceKey, nat>) {
    forall r :: r in resources ==> r in resources' && resources'[r] == resources[r]
  }

  /** The resources are those before, and one for each of the first n items. */
  ghost predicate StoredThrough(run: Run, workspace: string, before: map<ResourceKey, nat>, now: map<ResourceKey, nat>,
      n: nat)
  {
    forall r :: r in now <==> r in before || FiledBy(run, workspace, n, r)
  }

  /** One of the first n items is. */
  ghost predicate FiledBy(run: Run, workspace: string, n: nat, r: ResourceKey) {
    exists i: nat :: i < n && i < |ResourceItems(run)| && Files(run, workspace, i, r)
  }

  /** Item i is stored under this key. */
  predicate Files(run: Run, workspace: string, i: nat, r: ResourceKey)
    requires i < |ResourceItems(run)|
  {
    KeyOfResource(workspace, ResourceItems(run)[i].1) == r
  }

  lemma StoredStarts(run: Run, workspace: string, before: map<ResourceKey, nat>)
    ensures Retains(before, before) && StoredThrough(run, workspace, before, before, 0)
  {
  }

  lemma StoredNext(run: Run, workspace: string, before: map<ResourceKey, nat>, was: map<ResourceKey, nat>,
      now: map<ResourceKey, nat>, n: nat)
    requires n < |ResourceItems(run)| && StoredThrough(run, workspace, before, was, n)
    requires now.Keys == was.Keys + {KeyOfResource(workspace, ResourceItems(run)[n].1)}
    ensures StoredThrough(run, workspace, before, now, n + 1)
  {
    forall r ensures r in now <==> r in before || FiledBy(run, workspace, n + 1, r) {
      assert r in now <==> r in was || Files(run, workspace, n, r);
    }
  }

  function SweptLink(run: Run, deployments: map<Key, Deployment>, links: map<LinkKey, Link>,
      key: LinkKey): Option<Link>
  {
    Get(SweptTable(run, deployments, links), key)
  }

  /** Every link is the swept one with the run's matches folded in, and no resource id moves. */
  ghost predicate LinkEffect(run: Run, workspace: string, deployments: map<Key, Deployment>, t0: LinkTables,
      t1: LinkTables)
  {
    && Retains(t0.resources, t1.resources)
    && StoredThrough(run, workspace, t0.resources, t1.resources, |ResourceItems(run)|)
    && forall key {:trigger Get(t1.links, key)} ::
         Get(t1.links, key)
         == Folded(run, Hits(Scope(run, workspace, deployments, t1.resources), key),
                   SweptLink(run, deployments, t0.links, key), |ResourceItems(run)|)
  }

  lemma LinkIsFolded(run: Run, workspace: string, deployments: map<Key, Deployment>, t0: LinkTables, t1: LinkTables,
      key: LinkKey)
    requires LinkEffect(run, workspace, deployments, t0, t1)
    ensures Get(t1.links, key)
            == Folded(run, Hits(Scope(run, workspace, deployments, t1.resources), key),
                      SweptLink(run, deployments, t0.links, key), |ResourceItems(run)|)
  {
  }

  /**
   What a run leaves of a link: nothing new without a match, else the last matching item's upsert,
   revised once per match.
   */
  ghost function Outcome(run: Run, hits: nat -> bool, base: Option<Link>): Option<Link> {
    var n := |ResourceItems(run)|;
    if CountOf(hits, n) == 0 then base
    else Some(UpsertedFor(run, LastOf(hits, n), base).(revision := RevisionOf(base) + CountOf(hits, n)))
  }

  /** The links in closed form: which item wrote last, and how far the revision moved. */
  lemma LinkEffectInClosedForm(run: Run, workspace: string, deployments: map<Key, Deployment>, t0: LinkTables,
      t1: LinkTables, key: LinkKey)
    requires LinkEffect(run, workspace, deployments, t0, t1)
    ensures var hits := Hits(Scope(run, workspace, deployments, t1.resources), key);
            && Get(t1.links, key) == Outcome(run, hits, SweptLink(run, deployments, t0.links, key))
            && (SomeOf(hits, |ResourceItems(run)|) <==> CountOf(hits, |ResourceItems(run)|) > 0)
  {
    var hits := Hits(Scope(run, workspace, deployments, t1.resources), key);
    LinkIsFolded(run, workspace, deployments, t0, t1, key);
    OutcomeIsFolded(run, hits, SweptLink(run, deployments, t0.links, key));
  }

  lemma OutcomeIsFolded(run: Run, hits: nat -> bool, base: Option<Link>)
    ensures Folded(run, hits, base, |ResourceItems(run)|) == Outcome(run, hits, base)
    ensures SomeOf(hits, |ResourceItems(run)|) <==> CountOf(hits, |ResourceItems(run)|) > 0
  {
    LinksInClosedForm(run, hits, base, |ResourceItems(run)|);
    CountedExactlyWhenSome(hits, |ResourceItems(run)|);
  }

  /** Resource ids come from one supply. */
  ghost predicate IntactLinks(t: LinkTables) {
    && (forall r :: r in t.resources ==> t.resources[r] < t.nextId)
    && (forall r, s :: r in t.resources && s in t.resources && t.resources[r] == t.resources[s] ==> r == s)
  }

  /**
   After a run whose owning provider is ready, an observed-origin link of the
   host that is observed or stale is observed exactly when this run's evidence
   matches it.
   */
  lemma ReadyProviderDecidesLinks(
    run: Run, workspace: string, deployments: map<Key, Deployment>, t0: LinkTables, t1: LinkTables, key: LinkKey)
    requires LinkEffect(run, workspace, deployments, t0, t1)
    requires OwnerReady(run, key.relation) && OnHost(deployments, run.host, key.deploymentId)
    requires key in t1.links && t1.links[key].origin == FromEvidence
    requires t1.links[key].state == LinkObserved || t1.links[key].state == LinkStale
    ensures t1.links[key].state == LinkObserved <==>
            Evidenced(Scope(run, workspace, deployments, t1.resources), key)
  {
    LinkEffectInClosedForm(run, workspace, deployments, t0, t1, key);
  }

  /** Without a ready owning provider no link goes stale. */
  lemma UnreadyProviderStalesNothing(
    run: Run, workspace: string, deployments: map<Key, Deployment>, t0: LinkTables, t1: LinkTables, key: LinkKey)
    requires LinkEffect(run, workspace, deployments, t0, t1)
    requires !OwnerReady(run, key.relation)
    requires key in t1.links && t1.links[key].state == LinkStale
    ensures key in t0.links && t0.links[key].state == LinkStale
  {
    LinkEffectInClosedForm(run, workspace, deployments, t0, t1, key);
  }

  /**
   Confirmed and archived states, everything a user declared, and every link of
   another host survive any run; no link is ever removed.
   */
  lemma UserDecisionsSurvive(
    run: Run, workspace: string, deployments: map<Key, Deployment>, t0: LinkTables, t1: LinkTables, key: LinkKey)
    requires LinkEffect(run, workspace, deployments, t0, t1)
    requires key in t0.links
    ensures key in t1.links && t0.links[key].revision <= t1.links[key].revision
    ensures t0.links[key].state == LinkConfirmed || t0.links[key].state == LinkArchived ==>
              t1.links[key].state == t0.links[key].state
    ensures t0.links[key].origin == UserDeclared ==>
              && t1.links[key].origin == UserDeclared
              && t1.links[key].state == t0.links[key].state
              && t1.links[key].sourceRefs == t0.links[key].sourceRefs
    ensures !OnHost(deployments, run.host, key.deploymentId) ==> t1.links[key] == t0.links[key]
  {
    LinkEffectInClosedForm(run, workspace, deployments, t0, t1, key);
    if !OnHost(deployments, run.host, key.deploymentId) {
      NothingElsewhere(Scope(run, workspace, deployments, t1.resources), key);
    }
  }

  lemma NothingElsewhere(s: Scope, key: LinkKey)
    requires !OnHost(s.deployments, s.run.host, key.deploymentId)
    ensures !Evidenced(s, key)
  {
    forall i, p, x | 0 <= i < |ResourceItems(s.run)| ensures !HitBy(s, key, i, p, x) {
      assert Key(s.run.host, p, x).host == s.run.host;
    }
  }

  // ---- partway through a run's upserts ---------------------------------------

  /** The resources of the first n items have their rows. */
  ghost predicate Known(s: Scope, n: nat)
    requires n <= |ResourceItems(s.run)|
  {
    forall i :: 0 <= i < n ==> KeyOfResource(s.workspace, ResourceItems(s.run)[i].1) in s.resources
  }

  /** Deployments are told apart by their ids. */
  ghost predicate DistinctIds(deployments: map<Key, Deployment>) {
    forall k, l :: SameId(deployments, k, l) ==> k == l
  }

  /** After the first n items every link is the swept one with their matches folded in. */
  ghost predicate FoldedThrough(s: Scope, swept: map<LinkKey, Link>, links: map<LinkKey, Link>, n: nat) {
    && n <= |ResourceItems(s.run)| && Known(s, n)
    && forall key {:trigger Get(links, key)} :: Get(links, key) == Folded(s.run, Hits(s, key), Get(swept, key), n)
  }

  lemma ThroughStarts(s: Scope, links: map<LinkKey, Link>)
    ensures FoldedThrough(s, links, links, 0)
  {
  }

  lemma ThroughEnds(s: Scope, t0: LinkTables, t1: LinkTables)
    requires Retains(t0.resources, t1.resources) && s.resources == t1.resources
    requires FoldedThrough(s, SweptTable(s.run, s.deployments, t0.links), t1.links, |ResourceItems(s.run)|)
    requires StoredThrough(s.run, s.workspace, t0.resources, t1.resources, |ResourceItems(s.run)|)
    ensures LinkEffect(s.run, s.workspace, s.deployments, t0, t1)
  {
    assert s == Scope(s.run, s.workspace, s.deployments, t1.resources);
  }

  lemma HitRetained(s: Scope, resources: map<ResourceKey, nat>, key: LinkKey, n: nat, i: nat)
    requires n <= |ResourceItems(s.run)| && Known(s, n) && Retains(s.resources, resources) && i < n
    ensures Hits(s.(resources := resources), key)(i) <==> Hits(s, key)(i)
  {
    assert KeyOfResource(s.workspace, ResourceItems(s.run)[i].1) in s.resources;
    forall p, x ensures HitBy(s.(resources := resources), key, i, p, x) <==> HitBy(s, key, i, p, x) {
    }
    assert Hit(s.(resources := resources), key, i) <==> Hit(s, key, i);
  }

  lemma {:induction false} SameHitsFoldSame(run: Run, some: nat -> bool, other: nat -> bool, base: Option<Link>, n: nat)
    requires n <= |ResourceItems(run)| && forall i :: 0 <= i < n ==> (some(i) <==> other(i))
    ensures Folded(run, some, base, n) == Folded(run, other, base, n)
  {
    if n > 0 {
      SameHitsFoldSame(run, some, other, base, n - 1);
    }
  }

  lemma ThroughRetained(s: Scope, resources: map<ResourceKey, nat>, swept: map<LinkKey, Link>,
      links: map<LinkKey, Link>, n: nat)
    requires FoldedThrough(s, swept, links, n) && Retains(s.resources, resources)
    ensures FoldedThrough(s.(resources := resources), swept, links, n)
  {
    forall key ensures Get(links, key) == Folded(s.run, Hits(s.(resources := resources), key), Get(swept, key), n) {
      forall i | 0 <= i < n ensures Hits(s.(resources := resources), key)(i) <==> Hits(s, key)(i) {
        HitRetained(s, resources, key, n, i);
      }
      SameHitsFoldSame(s.run, Hits(s.(resources := resources), key), Hits(s, key), Get(swept, key), n);
    }
  }

  /** One of the deployments in `seen` makes item i match this link. */
  ghost predicate HitAmong(s: Scope, key: LinkKey, i: nat, seen: set<(Provider, string)>)
    requires i < |ResourceItems(s.run)|
  {
    exists d :: d in seen && HitBy(s, key, i, d.0, d.1)
  }

  function UpsertedIf(run: Run, i: nat, existing: Option<Link>, hit: bool): Option<Link>
    requires i < |ResourceItems(run)|
  {
    if hit then Some(UpsertedFor(run, i, existing)) else existing
  }

  /** Partway through item i: the links that a deployment in `seen` hits are upserted once. */
  ghost predicate ItemThrough(s: Scope, before: map<LinkKey, Link>, links: map<LinkKey, Link>, i: nat,
      seen: set<(Provider, string)>)
  {
    && i < |ResourceItems(s.run)|
    && forall key {:trigger Get(links, key)} ::
         Get(links, key) == UpsertedIf(s.run, i, Get(before, key), HitAmong(s, key, i, seen))
  }

  lemma ItemStarts(s: Scope, before: map<LinkKey, Link>, i: nat)
    requires i < |ResourceItems(s.run)|
    ensures ItemThrough(s, before, before, i, {})
  {
  }

  /** A link can be hit through one deployment only, since ids tell deployments apart. */
  lemma HitByOne(s: Scope, key: LinkKey, i: nat, d: (Provider, string), e: (Provider, string))
    requires i < |ResourceItems(s.run)| && DistinctIds(s.deployments)
    requires HitBy(s, key, i, d.0, d.1) && NamesRow(s, key, i, e.0, e.1)
    ensures d == e
  {
    assert SameId(s.deployments, Key(s.run.host, d.0, d.1), Key(s.run.host, e.0, e.1));
  }

  lemma OtherLinkUnmoved(s: Scope, key: LinkKey, i: nat, seen: set<(Provider, string)>, d: (Provider, string))
    requires i < |ResourceItems(s.run)| && !HitBy(s, key, i, d.0, d.1)
    ensures HitAmong(s, key, i, seen + {d}) <==> HitAmong(s, key, i, seen)
  {
  }

  lemma SkipsDeployment(s: Scope, before: map<LinkKey, Link>, links: map<LinkKey, Link>, i: nat,
      seen: set<(Provider, string)>, d: (Provider, string))
    requires ItemThrough(s, before, links, i, seen) && !MatchesAt(s.run, i, d.0, d.1)
    ensures ItemThrough(s, before, links, i, seen + {d})
  {
    forall key ensures Get(links, key) == UpsertedIf(s.run, i, Get(before, key), HitAmong(s, key, i, seen + {d})) {
      OtherLinkUnmoved(s, key, i, seen, d);
    }
  }

  lemma SameRow(s: Scope, key: LinkKey, other: LinkKey, i: nat, d: (Provider, string))
    requires i < |ResourceItems(s.run)| && HitBy(s, key, i, d.0, d.1)
    ensures HitBy(s, other, i, d.0, d.1) ==> other == key
  {
  }

  /** The one link that item i and a matching deployment name is upserted. */
  lemma LinksDeployment(s: Scope, before: map<LinkKey, Link>, links: map<LinkKey, Link>, i: nat,
      seen: set<(Provider, string)>,
                        d: (Provider, string), key: LinkKey)
    requires ItemThrough(s, before, links, i, seen) && d !in seen && DistinctIds(s.deployments)
    requires HitBy(s, key, i, d.0, d.1)
    ensures ItemThrough(s, before, links[key := UpsertedFor(s.run, i, Get(links, key))], i, seen + {d})
  {
    var links' := links[key := UpsertedFor(s.run, i, Get(links, key))];
    assert HitAmong(s, key, i, seen + {d});
    assert !HitAmong(s, key, i, seen) by {
      forall e | e in seen && HitBy(s, key, i, e.0, e.1) ensures d == e {
        HitByOne(s, key, i, d, e);
      }
    }
    forall other ensures Get(links', other)
                         == UpsertedIf(s.run, i, Get(before, other), HitAmong(s, other, i, seen + {d})) {
      if other != key {
        SameRow(s, key, other, i, d);
        OtherLinkUnmoved(s, other, i, seen, d);
        assert Get(links', other) == Get(links, other);
      }
    }
  }

  lemma ItemEnds(s: Scope, swept: map<LinkKey, Link>, before: map<LinkKey, Link>, links: map<LinkKey, Link>, i: nat,
      seen: set<(Provider, string)>)
    requires FoldedThrough(s, swept, before, i) && ItemThrough(s, before, links, i, seen)
    requires forall p, x :: Sighting(s.run, p, x).Some? ==> (p, x) in seen
    requires KeyOfResource(s.workspace, ResourceItems(s.run)[i].1) in s.resources
    ensures FoldedThrough(s, swept, links, i + 1)
  {
    forall key ensures Get(links, key) == Folded(s.run, Hits(s, key), Get(swept, key), i + 1) {
      assert Get(before, key) == Folded(s.run, Hits(s, key), Get(swept, key), i);
      HitSomewhere(s, key, i, seen);
    }
  }

  lemma HitSomewhere(s: Scope, key: LinkKey, i: nat, seen: set<(Provider, string)>)
    requires i < |ResourceItems(s.run)|
    requires forall p, x :: Sighting(s.run, p, x).Some? ==> (p, x) in seen
    ensures Hit(s, key, i) <==> HitAmong(s, key, i, seen)
  {
    if Hit(s, key, i) {
      var p, x :| HitBy(s, key, i, p, x);
      assert (p, x) in seen && HitBy(s, key, i, (p, x).0, (p, x).1);
    }
  }
}
