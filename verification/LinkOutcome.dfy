/**
 Which resource links a run confirms, leaves or makes stale, told from its own lists and
 results alone (backend/src/catalog.rs).
 */
module LinkOutcome {
  import opened Wrappers
  import opened Text
  import opened Evidence
  import opened CatalogTables
  import opened CatalogOutcome
  import opened ResourceLinks

  // ---- references -----------------------------------------------------------------

  /** The item says this value under this field. */
  predicate Says(item: Item, field: string, value: string) {
    field in item.metadata.fields && item.metadata.fields[field] == value && Trim(value, IsSpace) != ""
  }

  /** A name by which providers refer to a resource. */
  predicate GoesBy(kind: ResourceKind, resource: Item, value: string) {
    match kind
    case Network | Volume => Says(resource, "name", value) || Says(resource, "id", value)
    case Image =>
      || Says(resource, "id", value) || Says(resource, "repository", value) || Says(resource, "repo", value)
      || Says(resource, "tag", value)
    case Document => Says(resource, "relative_path", value) || Says(resource, "path", value)
  }

  /** The texts of the containers that the project owns, one behind the other. */
  function ContainersOf(containers: seq<Item>, project: string): string {
    if containers == [] then ""
    else
      var fields := containers[0].metadata.fields;
      (if "compose_project" in fields
       && fields["compose_project"] == project then containers[0].metadata.rendered else "")
      + ContainersOf(containers[1..], project)
  }

  function ProjectName(deployment: Item): string {
    if "name" in deployment.metadata.fields then deployment.metadata.fields["name"] else ""
  }

  /**
   A container refers to a resource when its text holds one of the resource's names; a compose
   project also through the containers it owns, or by bearing such a name itself; a unit never does.
   */
  ghost predicate RefersTo(run: Run, kind: ResourceKind, resource: Item, provider: Provider, deployment: Item) {
    match provider
    case Systemd => false
    case Docker =>
      exists value :: GoesBy(kind, resource, value) && Includes(deployment.metadata.rendered, Lower(value))
    case Compose =>
      var name := ProjectName(deployment);
      exists value :: GoesBy(kind, resource, value)
                      && (value == name || Includes(deployment.metadata.rendered + ContainersOf(run.containers, name),
                                                  Lower(value)))
  }

  lemma {:induction false} OwnedIsConcatenated(containers: seq<Item>, project: string)
    ensures OwnedText(containers, project) == ContainersOf(containers, project)
  {
    if containers != [] {
      OwnedIsConcatenated(containers[1..], project);
      assert "" + ContainersOf(containers[1..], project) == ContainersOf(containers[1..], project);
    }
  }

  lemma KeyGivesName(kind: ResourceKind, resource: Item, key: string)
    requires key in ReferenceKeys(kind) && !IsBlank(Field(resource, key))
    ensures GoesBy(kind, resource, Field(resource, key))
  {
    match kind case Network => case Volume => case Image => case Document =>
  }

  lemma NameHasKey(kind: ResourceKind, resource: Item, value: string) returns (key: string)
    requires GoesBy(kind, resource, value)
    ensures key in ReferenceKeys(kind) && !IsBlank(Field(resource, key)) && Field(resource, key) == value
  {
    match kind
    case Network | Volume => key := if Says(resource, "name", value) then "name" else "id";
    case Image =>
      key := if Says(resource, "id", value) then "id"
             else if Says(resource, "repository", value) then "repository"
             else if Says(resource, "repo", value) then "repo"
             else "tag";
    case Document => key := if Says(resource, "relative_path", value) then "relative_path" else "path";
  }

  lemma ReferenceMeans(text: string, kind: ResourceKind, resource: Item)
    ensures References(text, kind, resource)
            <==> exists value :: GoesBy(kind, resource, value) && Includes(text, Lower(value))
  {
    if References(text, kind, resource) {
      var key :| key in ReferenceKeys(kind) && !IsBlank(Field(resource, key))
      && Contains(text, Lower(Field(resource, key)));
      KeyGivesName(kind, resource, key);
      ContainsMeansIncludes(text, Lower(Field(resource, key)));
    }
    if value :| GoesBy(kind, resource, value) && Includes(text, Lower(value)) {
      var key := NameHasKey(kind, resource, value);
      ContainsMeansIncludes(text, Lower(value));
    }
  }

  lemma BearsMeans(kind: ResourceKind, resource: Item, name: string)
    ensures (exists key :: key in ReferenceKeys(kind) && !IsBlank(Field(resource, key)) && Field(resource, key) == name)
            <==> GoesBy(kind, resource, name)
  {
    if key :| key in ReferenceKeys(kind) && !IsBlank(Field(resource, key)) && Field(resource, key) == name {
      KeyGivesName(kind, resource, key);
    }
    if GoesBy(kind, resource, name) {
      var key := NameHasKey(kind, resource, name);
    }
  }

  lemma MatchMeansRefers(run: Run, kind: ResourceKind, resource: Item, provider: Provider, deployment: Item)
    ensures DeploymentMatches(run, kind, resource, provider, deployment)
            <==> RefersTo(run, kind, resource, provider, deployment)
  {
    match provider
    case Systemd =>
    case Docker => ReferenceMeans(deployment.metadata.rendered, kind, resource);
    case Compose =>
      var name := ProjectName(deployment);
      OwnedIsConcatenated(run.containers, name);
      ReferenceMeans(deployment.metadata.rendered + OwnedText(run.containers, name), kind, resource);
      BearsMeans(kind, resource, name);
  }

  // ---- which items reach which link ---------------------------------------------------

  function KindList(run: Run, kind: ResourceKind): seq<Item> {
    if kind in run.resources then run.resources[kind] else []
  }

  /** Item i of all resources in a row: networks first, then volumes, images and documents. */
  function ResourceAt(run: Run, i: nat): Option<(ResourceKind, Item)> {
    var networks, volumes := |KindList(run, Network)|, |KindList(run, Volume)|;
    var images, documents := |KindList(run, Image)|, |KindList(run, Document)|;
    if i < networks then Some((Network, KindList(run, Network)[i]))
    else if i < networks + volumes then Some((Volume, KindList(run, Volume)[i - networks]))
    else if i < networks + volumes + images then Some((Image, KindList(run, Image)[i - networks - volumes]))
    else if i < networks + volumes + images + documents then
      Some((Document, KindList(run, Document)[i - networks - volumes - images]))
    else None
  }

  function ResourceCount(run: Run): nat {
    |KindList(run, Network)| + |KindList(run, Volume)| + |KindList(run, Image)| + |KindList(run, Document)|
  }

  lemma ItemsInRow(run: Run, i: nat)
    ensures |ResourceItems(run)| == ResourceCount(run)
    ensures ResourceAt(run, i).Some? <==> i < |ResourceItems(run)|
    ensures i < |ResourceItems(run)| ==> ResourceAt(run, i) == Some(ResourceItems(run)[i])
  {
  }

  /** Text cut to a column: white space around it goes, then all behind the limit. */
  function Column(s: string, limit: nat): string {
    var text := Trim(s, IsSpace);
    var cut := if |text| > limit then text[..limit] else text;
    if cut == "" then "unknown deployment" else cut
  }

  lemma ColumnIsBounded(s: string, limit: nat)
    ensures BoundedText(s, limit) == Column(s, limit)
  {
  }

  /** The deployment of the host behind k, which the run lists, refers to item i, and the link joins the two. */
  ghost predicate ReachesBy(s: Scope, key: LinkKey, i: nat, k: Key, j: nat) {
    && ResourceAt(s.run, i).Some?
    && k.host == s.run.host && k in s.deployments && s.deployments[k].id == key.deploymentId
    && FirstListed(s.run, k.provider, k.externalId, j)
    && var (kind, item) := ResourceAt(s.run, i).value;
       && RefersTo(s.run, kind, item, k.provider, ListOf(s.run, k.provider)[j])
       && key.relation == Uses(kind)
       && Get(s.resources, ResourceKey(s.workspace, Column(item.source, 128), Column(item.externalId, 512)))
          == Some(key.resourceId)
  }

  ghost predicate Reaches(s: Scope, key: LinkKey, i: nat) {
    exists k, j: nat :: ReachesBy(s, key, i, k, j)
  }

  lemma FirstUpTo(run: Run, provider: Provider, externalId: string, last: nat) returns (j: nat)
    requires ListedAs(run, provider, externalId, last)
    ensures FirstListed(run, provider, externalId, j)
    decreases last
  {
    if n: nat :| n < last && ListedAs(run, provider, externalId, n) {
      j := FirstUpTo(run, provider, externalId, n);
    } else {
      j := last;
    }
  }

  lemma SightedIsFirst(run: Run, provider: Provider, externalId: string) returns (j: nat)
    requires Sighting(run, provider, externalId).Some?
    ensures FirstListed(run, provider, externalId, j)
    ensures ListOf(run, provider)[j] == Sighting(run, provider, externalId).value
  {
    SightedExactlyWhenMentioned(run, provider, externalId);
    var last: nat :| ListedAs(run, provider, externalId, last);
    j := FirstUpTo(run, provider, externalId, last);
    FirstListedIsSighted(run, provider, externalId, j);
  }

  lemma HitByReaches(s: Scope, key: LinkKey, i: nat, p: Provider, x: string)
    requires i < |ResourceItems(s.run)| && HitBy(s, key, i, p, x)
    ensures Reaches(s, key, i)
  {
    var item := ResourceItems(s.run)[i].1;
    ItemsInRow(s.run, i);
    ColumnIsBounded(item.source, 128);
    ColumnIsBounded(item.externalId, 512);
    var j := SightedIsFirst(s.run, p, x);
    MatchMeansRefers(s.run, ResourceItems(s.run)[i].0, item, p, Sighting(s.run, p, x).value);
    assert ReachesBy(s, key, i, Key(s.run.host, p, x), j);
  }

  lemma ReachesHits(s: Scope, key: LinkKey, i: nat, k: Key, j: nat)
    requires ReachesBy(s, key, i, k, j)
    ensures i < |ResourceItems(s.run)| && HitBy(s, key, i, k.provider, k.externalId)
  {
    ItemsInRow(s.run, i);
    var item := ResourceItems(s.run)[i].1;
    ColumnIsBounded(item.source, 128);
    ColumnIsBounded(item.externalId, 512);
    FirstListedIsSighted(s.run, k.provider, k.externalId, j);
    MatchMeansRefers(s.run, ResourceItems(s.run)[i].0, item, k.provider, ListOf(s.run, k.provider)[j]);
    assert k == Key(s.run.host, k.provider, k.externalId);
  }

  lemma HitMeansReaches(s: Scope, key: LinkKey, i: nat)
    ensures Hits(s, key)(i) <==> Reaches(s, key, i)
  {
    if i < |ResourceItems(s.run)| && Hit(s, key, i) {
      var p, x :| HitBy(s, key, i, p, x);
      HitByReaches(s, key, i, p, x);
    }
    if Reaches(s, key, i) {
      var k, j: nat :| ReachesBy(s, key, i, k, j);
      ReachesHits(s, key, i, k, j);
    }
  }

  // ---- what becomes of a link ---------------------------------------------------------

  /** The provider that vouches for a relation. */
  ghost predicate Vouches(run: Run, relation: Relation) {
    relation.Uses? && var provider := if relation.kind == Document then Compose else Docker;
                      SpeaksOf(run, provider) && !NotReady(run, provider)
  }

  /** Before the evidence counts, what was observed on the host is doubted where its provider could tell. */
  ghost predicate Doubted(s: Scope, key: LinkKey, was: Link) {
    && Vouches(s.run, key.relation) && was.origin == FromEvidence && was.state == LinkObserved
    && OnRunHost(s, key)
  }

  ghost predicate OnRunHost(s: Scope, key: LinkKey) {
    exists k :: k in s.deployments && k.host == s.run.host && s.deployments[k].id == key.deploymentId
  }

  lemma OwnerReadyMeansVouches(run: Run, relation: Relation)
    ensures OwnerReady(run, relation) <==> Vouches(run, relation)
  {
    if relation.Uses? {
      var provider := if relation.kind == Document then Compose else Docker;
      CoveredExactlyWhenSpokenOf(run, provider);
      if SpeaksOf(run, provider) {
        ReadyExactlyWhenNoneIsNot(run, provider);
      }
    }
  }

  /** No item reaches the link: it is as before, or stale and one revision on when it was doubted. */
  ghost predicate LeftAlone(s: Scope, key: LinkKey, was: Option<Link>, now: Option<Link>) {
    if was.Some? && Doubted(s, key, was.value)
    then now == Some(was.value.(state := LinkStale, revision := was.value.revision + 1))
    else now == was
  }

  /** How many of the first n items reach the link. */
  ghost function ReachCount(s: Scope, key: LinkKey, n: nat): nat {
    if n == 0 then 0 else ReachCount(s, key, n - 1) + (if Reaches(s, key, n - 1) then 1 else 0)
  }

  /**
   Items reach the link, `last` the last of them: it is observed from that item, with what a user
   declared, confirmed or archived kept, and a revision on for each item and for the doubt.
   */
  ghost predicate Renewed(s: Scope, key: LinkKey, was: Option<Link>, now: Option<Link>, last: nat)
    requires ResourceAt(s.run, last).Some?
  {
    var item := ResourceAt(s.run, last).value.1;
    var count := ReachCount(s, key, ResourceCount(s.run));
    now.Some? && now.value.observedAt == item.observedAt
    && match was
       case None =>
         && now.value.state == LinkObserved && now.value.origin == FromEvidence && now.value.revision == count
         && now.value.sourceRefs == ["discovery:" + s.run.id, "evidence:" + item.externalId, item.source]
       case Some(l) =>
         && now.value.state == (if l.origin == UserDeclared
                                || l.state in [LinkConfirmed, LinkArchived] then l.state else LinkObserved)
         && now.value.origin == (if l.origin == UserDeclared then UserDeclared else FromEvidence)
         && now.value.sourceRefs
            == (if l.origin == UserDeclared then l.sourceRefs
                else ["discovery:" + s.run.id, "evidence:" + item.externalId, item.source])
         && now.value.revision == l.revision + count + (if Doubted(s, key, l) then 1 else 0)
  }

  lemma SweptMeansDoubted(s: Scope, links: map<LinkKey, Link>, key: LinkKey)
    ensures SweptLink(s.run, s.deployments, links, key)
            == match Get(links, key)
               case None => None
               case Some(l) =>
                 Some(if Doubted(s, key, l) then l.(state := LinkStale, revision := l.revision + 1) else l)
  {
    OwnerReadyMeansVouches(s.run, key.relation);
  }

  lemma {:induction false} CountsAgree(s: Scope, key: LinkKey, n: nat)
    ensures CountOf(Hits(s, key), n) == ReachCount(s, key, n)
  {
    if n > 0 {
      HitMeansReaches(s, key, n - 1);
      CountsAgree(s, key, n - 1);
    }
  }

  ghost predicate LastReaching(s: Scope, key: LinkKey, last: nat) {
    Reaches(s, key, last) && forall i: nat :: i > last ==> !Reaches(s, key, i)
  }

  lemma NoneCounted(s: Scope, key: LinkKey)
    requires forall i: nat :: !Reaches(s, key, i)
    ensures CountOf(Hits(s, key), |ResourceItems(s.run)|) == 0
  {
    var hits, n := Hits(s, key), |ResourceItems(s.run)|;
    CountedExactlyWhenSome(hits, n);
    forall i: nat | i < n ensures !hits(i) {
      HitMeansReaches(s, key, i);
    }
  }

  lemma LastIsLast(s: Scope, key: LinkKey, last: nat)
    requires LastReaching(s, key, last)
    ensures CountOf(Hits(s, key), |ResourceItems(s.run)|) > 0
    ensures LastOf(Hits(s, key), |ResourceItems(s.run)|) == last && ResourceAt(s.run, last).Some?
  {
    var hits, n := Hits(s, key), |ResourceItems(s.run)|;
    HitMeansReaches(s, key, last);
    ItemsInRow(s.run, last);
    CountedExactlyWhenSome(hits, n);
    assert SomeOf(hits, n);
    HitMeansReaches(s, key, LastOf(hits, n));
  }

  lemma RenewedByLast(s: Scope, links: map<LinkKey, Link>, key: LinkKey, last: nat)
    requires LastReaching(s, key, last)
    ensures ResourceAt(s.run, last).Some?
    ensures Renewed(s, key, Get(links, key),
                    Outcome(s.run, Hits(s, key), SweptLink(s.run, s.deployments, links, key)), last)
  {
    LastIsLast(s, key, last);
    ItemsInRow(s.run, last);
    CountsAgree(s, key, |ResourceItems(s.run)|);
    SweptMeansDoubted(s, links, key);
  }

  /**
   Every link after a run: left alone or doubted where no item of the run reaches it, else renewed by
   the last that does.
   */
  lemma LinksFollowTheEvidence(run: Run, workspace: string, deployments: map<Key, Deployment>, t0: LinkTables,
      t1: LinkTables, key: LinkKey)
    requires LinkEffect(run, workspace, deployments, t0, t1)
    ensures var s := Scope(run, workspace, deployments, t1.resources);
            && ((forall i: nat :: !Reaches(s, key, i)) ==> LeftAlone(s, key, Get(t0.links, key), Get(t1.links, key)))
            && forall last: nat :: LastReaching(s, key, last) ==>
                 ResourceAt(run, last).Some? && Renewed(s, key, Get(t0.links, key), Get(t1.links, key), last)
  {
    var s := Scope(run, workspace, deployments, t1.resources);
    LinkEffectInClosedForm(run, workspace, deployments, t0, t1, key);
    if forall i: nat :: !Reaches(s, key, i) {
      NoneCounted(s, key);
      SweptMeansDoubted(s, t0.links, key);
    }
    forall last: nat | LastReaching(s, key, last)
      ensures ResourceAt(run, last).Some? && Renewed(s, key, Get(t0.links, key), Get(t1.links, key), last)
    {
      RenewedByLast(s, t0.links, key, last);
    }
  }

  /** The resources stored after a run: those before, and one for each item, by source and cut id. */
  lemma ResourcesFollowTheItems(run: Run, workspace: string, deployments: map<Key, Deployment>, t0: LinkTables,
      t1: LinkTables, r: ResourceKey)
    requires LinkEffect(run, workspace, deployments, t0, t1)
    ensures r in t0.resources ==> r in t1.resources && t1.resources[r] == t0.resources[r]
    ensures r in t1.resources <==> r in t0.resources || exists i: nat :: StoredFor(run, workspace, i, r)
  {
    var n := |ResourceItems(run)|;
    if i: nat :| StoredFor(run, workspace, i, r) {
      FilesMeansStored(run, workspace, i, r);
      assert FiledBy(run, workspace, n, r);
    }
    if FiledBy(run, workspace, n, r) {
      var i: nat :| i < n && Files(run, workspace, i, r);
      FilesMeansStored(run, workspace, i, r);
    }
  }

  ghost predicate StoredFor(run: Run, workspace: string, i: nat, r: ResourceKey) {
    && ResourceAt(run, i).Some?
    && var item := ResourceAt(run, i).value.1;
       r == ResourceKey(workspace, Column(item.source, 128), Column(item.externalId, 512))
  }

  lemma FilesMeansStored(run: Run, workspace: string, i: nat, r: ResourceKey)
    ensures i < |ResourceItems(run)| && Files(run, workspace, i, r) <==> StoredFor(run, workspace, i, r)
  {
    ItemsInRow(run, i);
    if i < |ResourceItems(run)| {
      var item := ResourceItems(run)[i].1;
      ColumnIsBounded(item.source, 128);
      ColumnIsBounded(item.externalId, 512);
    }
  }
}
