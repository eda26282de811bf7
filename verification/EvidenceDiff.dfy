/**
 The second-scan diff of backend/src/discovery_diff.rs: a classification of every
 fact in either of two scans, which is also a patch between them.
 */
module EvidenceDiff {
  import opened Wrappers
  import opened KeyOrder
  import Text

  datatype Kind =
    | HostIdentity | DockerEngine | ComposeProject | SystemdUnit | Container
    | Image | Network | Volume | Document | HealthCheck

  /** `digest` stands for the SHA-256 of the fact's canonical JSON. */
  datatype Fact = Fact(kind: Kind, externalId: string, digest: string)

  type Scan = map<string, Fact>

  function KindName(kind: Kind): string {
    match kind
    case HostIdentity => "host_identity"
    case DockerEngine => "docker_engine"
    case ComposeProject => "compose_project"
    case SystemdUnit => "systemd_unit"
    case Container => "container"
    case Image => "image"
    case Network => "network"
    case Volume => "volume"
    case Document => "document"
    case HealthCheck => "health_check"
  }

  function FactKey(fact: Fact): string {
    KindName(fact.kind) + ":" + fact.externalId
  }

  /** Facts by key; a later fact under the same key replaces an earlier one. */
  function ScanOf(facts: seq<Fact>): (scan: Scan)
    ensures forall k :: k in scan ==> scan[k] in facts && FactKey(scan[k]) == k
    ensures forall f :: f in facts ==> FactKey(f) in scan
  {
    if facts == [] then map[]
    else
      var last := facts[|facts| - 1];
      ScanOf(facts[..|facts| - 1])[FactKey(last) := last]
  }

  /** Among facts that share a key the last one is kept, and each key is the key of its fact. */
  lemma {:induction false} LastFactWins(facts: seq<Fact>, i: nat)
    requires i < |facts| && forall j :: i < j < |facts| ==> FactKey(facts[j]) != FactKey(facts[i])
    ensures FactKey(facts[i]) in ScanOf(facts) && ScanOf(facts)[FactKey(facts[i])] == facts[i]
  {
    if i < |facts| - 1 {
      assert facts[..|facts| - 1][i] == facts[i];
      LastFactWins(facts[..|facts| - 1], i);
    }
  }

  // ---- conflicts with what the user confirmed ---------------------------------

  datatype NodeState = Confirmed | Suggested | Archived

  datatype Node = Node(id: string, title: string, projectId: Option<string>, state: NodeState, sourceRefs: seq<string>)

  datatype Conflict = IgnoredAgain | ArchivedAgain | NameDiffers | ProjectDiffers

  function MatchingNode(nodes: seq<Node>, externalId: string): Option<Node> {
    if nodes == [] then None
    else if ("evidence:" + externalId) in nodes[0].sourceRefs then Some(nodes[0])
    else MatchingNode(nodes[1..], externalId)
  }

  function NodeById(nodes: seq<Node>, id: string): Option<Node> {
    if nodes == [] then None
    else if nodes[0].id == id then Some(nodes[0])
    else NodeById(nodes[1..], id)
  }

  /** The first reason why a node contradicts the confirmed graph, if any. */
  function VerdictOn(current: Node, confirmed: Option<seq<Node>>): Option<Conflict> {
    if current.state == Archived then Some(IgnoredAgain)
    else if confirmed.None? then None
    else match NodeById(confirmed.value, current.id)
      case None => None
      case Some(kept) =>
        if kept.state == Archived then Some(ArchivedAgain)
        else if kept.title != current.title then Some(NameDiffers)
        else if kept.projectId != current.projectId then Some(ProjectDiffers)
        else None
  }

  /** The same of a fact, by the first node that names it. */
  function ConflictOf(fact: Fact, deterministic: seq<Node>, confirmed: Option<seq<Node>>): Option<Conflict> {
    match MatchingNode(deterministic, fact.externalId)
    case None => None
    case Some(current) => VerdictOn(current, confirmed)
  }

  // ---- the diff -----------------------------------------------------------------

  datatype ChangeKind = Added | Changed | Missing | Conflicting | Unchanged

  datatype DiffItem = DiffItem(
    key: string, kind: Kind, externalId: string, change: ChangeKind, conflict: Option<Conflict>,
    previousDigest: Option<string>, currentDigest: Option<string>, evidenceRefs: seq<string>)

  datatype Counts = Counts(added: nat, changed: nat, missing: nat, conflict: nat, same: nat)

  function Total(c: Counts): nat {
    c.added + c.changed + c.missing + c.conflict + c.same
  }

  function Increment(c: Counts, change: ChangeKind): (r: Counts)
    ensures Total(r) == Total(c) + 1
  {
    match change
    case Added => c.(added := c.added + 1)
    case Changed => c.(changed := c.changed + 1)
    case Missing => c.(missing := c.missing + 1)
    case Conflicting => c.(conflict := c.conflict + 1)
    case Unchanged => c.(same := c.same + 1)
  }

  function DigestAt(scan: Scan, key: string): Option<string> {
    if key in scan then Some(scan[key].digest) else None
  }

  function Digests(scan: Scan): map<string, string> {
    map key | key in scan :: scan[key].digest
  }

  function Tally(items: seq<DiffItem>, change: ChangeKind): nat {
    if items == [] then 0
    else Tally(items[..|items| - 1], change) + (if items[|items| - 1].change == change then 1 else 0)
  }

  method UnionKeys(previous: Scan, current: Scan) returns (keys: seq<string>)
    ensures Ascending(keys)
    ensures forall k :: k in keys <==> k in previous || k in current
  {
    keys := [];
    var rest := previous.Keys;
    while rest != {}
      invariant rest <= previous.Keys
      invariant forall k :: k in keys <==> k in previous.Keys - rest
    {
      var k :| k in rest;
      keys := keys + [k];
      rest := rest - {k};
    }
    rest := current.Keys;
    while rest != {}
      invariant rest <= current.Keys
      invariant forall k :: k in keys <==> k in previous || k in current.Keys - rest
    {
      var k :| k in rest;
      keys := keys + [k];
      rest := rest - {k};
    }
    keys := Dedup(Sort(keys));
  }

  /** What an item says about its key. */
  ghost predicate Describes(item: DiffItem, previous: Scan, current: Scan, conflict: Option<Conflict>) {
    && (item.key in previous || item.key in current)
    && item.previousDigest == DigestAt(previous, item.key)
    && item.currentDigest == DigestAt(current, item.key)
    && (item.change == Missing <==> item.key !in current)
    && (item.change == Conflicting <==> item.key in current && conflict.Some?)
    && (item.change == Added <==> item.key !in previous && conflict.None?)
    && (item.change == Unchanged
        <==> item.key in previous && conflict.None? && item.previousDigest == item.currentDigest)
    && item.conflict == (if item.key in current then conflict else None)
    && (var shown := if item.key in current then current[item.key] else previous[item.key];
        item.kind == shown.kind && item.externalId == shown.externalId)
  }

  function ConflictAt(current: Scan, key: string, deterministic: seq<Node>,
      confirmed: Option<seq<Node>>): Option<Conflict>
  {
    if key in current then ConflictOf(current[key], deterministic, confirmed) else None
  }

  function Keys(items: seq<DiffItem>): (keys: seq<string>)
    ensures |keys| == |items|
    ensures forall i :: 0 <= i < |items| ==> keys[i] == items[i].key
  {
    seq(|items|, i requires 0 <= i < |items| => items[i].key)
  }

  ghost predicate AllDescribed(items: seq<DiffItem>, previous: Scan, current: Scan, deterministic: seq<Node>,
      confirmed: Option<seq<Node>>)
  {
    forall i :: 0 <= i < |items| ==>
      Describes(items[i], previous, current, ConflictAt(current, items[i].key, deterministic, confirmed))
  }

  /** Items in ascending key order, one for every key of either scan. */
  ghost predicate IsDiff(items: seq<DiffItem>, previous: Scan, current: Scan, deterministic: seq<Node>,
      confirmed: Option<seq<Node>>)
  {
    && Ascending(Keys(items))
    && (forall k :: k in Keys(items) <==> k in previous || k in current)
    && AllDescribed(items, previous, current, deterministic, confirmed)
  }

  function RefsOf(item: DiffItem, runId: string, previousRunId: Option<string>, current: Scan): seq<string> {
    (if previousRunId.Some? then ["discovery:" + previousRunId.value] else [])
    + (if item.key in current then ["discovery:" + runId] else [])
    + ["evidence:" + item.externalId]
  }

  method Classify(key: string, runId: string, previousRunId: Option<string>, previous: Scan, current: Scan,
                  deterministic: seq<Node>, confirmed: Option<seq<Node>>)
    returns (item: DiffItem)
    requires key in previous || key in current
    ensures item.key == key
    ensures Describes(item, previous, current, ConflictAt(current, key, deterministic, confirmed))
    ensures item.evidenceRefs == RefsOf(item, runId, previousRunId, current)
  {
    var before, now := Get(previous, key), Get(current, key);
    var previousDigest, currentDigest := DigestAt(previous, key), DigestAt(current, key);
    var conflict := if now.Some? then ConflictOf(now.value, deterministic, confirmed) else None;
    var change: ChangeKind;
    var shown: Fact;
    if now.Some? && conflict.Some? {
      change, shown := Conflicting, now.value;
    } else if now.Some? && before.None? {
      change, shown := Added, now.value;
    } else if now.None? {
      change, shown := Missing, before.value;
    } else {
      change, shown := if previousDigest == currentDigest then Unchanged else Changed, now.value;
    }
    var evidenceRefs: seq<string> := [];
    if previousRunId.Some? {
      evidenceRefs := evidenceRefs + ["discovery:" + previousRunId.value];
    }
    if now.Some? {
      evidenceRefs := evidenceRefs + ["discovery:" + runId];
    }
    evidenceRefs := evidenceRefs + ["evidence:" + shown.externalId];
    item := DiffItem(key, shown.kind, shown.externalId, change, conflict, previousDigest, currentDigest, evidenceRefs);
  }

  lemma TallySnoc(items: seq<DiffItem>, item: DiffItem, change: ChangeKind)
    ensures Tally(items + [item], change) == Tally(items, change) + (if item.change == change then 1 else 0)
  {
    assert (items + [item])[..|items + [item]| - 1] == items;
  }

  /** The counts are those of the items. */
  ghost predicate Counted(counts: Counts, items: seq<DiffItem>) {
    && Total(counts) == |items|
    && counts == Counts(Tally(items, Added), Tally(items, Changed), Tally(items, Missing), Tally(items, Conflicting),
                        Tally(items, Unchanged))
  }

  lemma CountedStep(counts: Counts, items: seq<DiffItem>, item: DiffItem)
    requires Counted(counts, items)
    ensures Counted(Increment(counts, item.change), items + [item])
  {
    TallySnoc(items, item, Added);
    TallySnoc(items, item, Changed);
    TallySnoc(items, item, Missing);
    TallySnoc(items, item, Conflicting);
    TallySnoc(items, item, Unchanged);
  }

  /** The items written for the first keys. */
  ghost predicate Follow(items: seq<DiffItem>, keys: seq<string>, runId: string, previousRunId: Option<string>,
                         previous: Scan, current: Scan, deterministic: seq<Node>, confirmed: Option<seq<Node>>)
  {
    && Keys(items) == keys
    && AllDescribed(items, previous, current, deterministic, confirmed)
    && forall i :: 0 <= i < |items| ==> items[i].evidenceRefs == RefsOf(items[i], runId, previousRunId, current)
  }

  lemma FollowStep(items: seq<DiffItem>, keys: seq<string>, item: DiffItem, runId: string,
      previousRunId: Option<string>,
                   previous: Scan, current: Scan, deterministic: seq<Node>, confirmed: Option<seq<Node>>)
    requires Follow(items, keys, runId, previousRunId, previous, current, deterministic, confirmed)
    requires Describes(item, previous, current, ConflictAt(current, item.key, deterministic, confirmed))
    requires item.evidenceRefs == RefsOf(item, runId, previousRunId, current)
    ensures Follow(items + [item], keys + [item.key], runId, previousRunId, previous, current, deterministic, confirmed)
  {
    assert Keys(items + [item]) == Keys(items) + [item.key];
    forall i | 0 <= i < |items + [item]|
      ensures Describes((items + [item])[i], previous, current,
                        ConflictAt(current, (items + [item])[i].key, deterministic, confirmed))
      ensures (items + [item])[i].evidenceRefs == RefsOf((items + [item])[i], runId, previousRunId, current)
    {
      assert i < |items| ==> (items + [item])[i] == items[i];
    }
  }

  method AppendNext(keys: seq<string>, key: string, oldCounts: Counts, oldItems: seq<DiffItem>,
                    runId: string, previousRunId: Option<string>, previous: Scan, current: Scan,
                    deterministic: seq<Node>, confirmed: Option<seq<Node>>)
    returns (counts: Counts, items: seq<DiffItem>)
    requires key in previous || key in current
    requires Follow(oldItems, keys, runId, previousRunId, previous, current, deterministic, confirmed)
    requires Counted(oldCounts, oldItems)
    ensures Follow(items, keys + [key], runId, previousRunId, previous, current, deterministic, confirmed)
    ensures Counted(counts, items)
  {
    var item := Classify(key, runId, previousRunId, previous, current, deterministic, confirmed);
    CountedStep(oldCounts, oldItems, item);
    FollowStep(oldItems, keys, item, runId, previousRunId, previous, current, deterministic, confirmed);
    counts := Increment(oldCounts, item.change);
    items := oldItems + [item];
  }

  method ItemsFor(keys: seq<string>, runId: string, previousRunId: Option<string>, previous: Scan, current: Scan,
                  deterministic: seq<Node>, confirmed: Option<seq<Node>>)
    returns (counts: Counts, items: seq<DiffItem>)
    requires forall n :: 0 <= n < |keys| ==> keys[n] in previous || keys[n] in current
    ensures Follow(items, keys, runId, previousRunId, previous, current, deterministic, confirmed)
    ensures Counted(counts, items)
  {
    counts := Counts(0, 0, 0, 0, 0);
    items := [];
    for n := 0 to |keys|
      invariant Follow(items, keys[..n], runId, previousRunId, previous, current, deterministic, confirmed)
      invariant Counted(counts, items)
    {
      counts, items := AppendNext(keys[..n], keys[n], counts, items, runId, previousRunId, previous, current,
                                  deterministic, confirmed);
      assert keys[..n + 1] == keys[..n] + [keys[n]];
    }
    assert keys[..|keys|] == keys;
  }

  method CreateDiff(runId: string, previousRunId: Option<string>, previous: Scan, current: Scan,
                    deterministic: seq<Node>, confirmed: Option<seq<Node>>)
    returns (counts: Counts, items: seq<DiffItem>)
    ensures IsDiff(items, previous, current, deterministic, confirmed)
    ensures Counted(counts, items)
    ensures forall i :: 0 <= i < |items| ==>
      items[i].evidenceRefs == (if previousRunId.Some? then ["discovery:" + previousRunId.value] else [])
                               + (if items[i].key in current then ["discovery:" + runId] else [])
                               + ["evidence:" + items[i].externalId]
  {
    var keys := UnionKeys(previous, current);
    forall n | 0 <= n < |keys| ensures keys[n] in previous || keys[n] in current {
      assert keys[n] in keys;
    }
    counts, items := ItemsFor(keys, runId, previousRunId, previous, current, deterministic, confirmed);
  }

  // ---- the diff as a patch ----------------------------------------------------

  function ApplyItem(digests: map<string, string>, key: string, digest: Option<string>): map<string, string> {
    match digest
    case Some(d) => digests[key := d]
    case None => digests - {key}
  }

  /** Set each item's key to its current digest, or delete it when absent. */
  function Apply(items: seq<DiffItem>, digests: map<string, string>): map<string, string> {
    if items == [] then digests
    else
      var last := items[|items| - 1];
      ApplyItem(Apply(items[..|items| - 1], digests), last.key, last.currentDigest)
  }

  /** The same with previous digests. */
  function Revert(items: seq<DiffItem>, digests: map<string, string>): map<string, string> {
    if items == [] then digests
    else
      var last := items[|items| - 1];
      ApplyItem(Revert(items[..|items| - 1], digests), last.key, last.previousDigest)
  }

  ghost predicate Distinct(items: seq<DiffItem>) {
    forall i, j :: 0 <= i < j < |items| ==> items[i].key != items[j].key
  }

  lemma {:induction false} ApplyAt(items: seq<DiffItem>, digests: map<string, string>, key: string)
    requires Distinct(items)
    ensures forall i :: 0 <= i < |items| && items[i].key == key ==>
              && Get(Apply(items, digests), key) == items[i].currentDigest
              && Get(Revert(items, digests), key) == items[i].previousDigest
    ensures (forall i :: 0 <= i < |items| ==> items[i].key != key) ==>
              && Get(Apply(items, digests), key) == Get(digests, key)
              && Get(Revert(items, digests), key) == Get(digests, key)
  {
    if items != [] {
      var n := |items| - 1;
      var front := items[..n];
      ApplyAt(front, digests, key);
      forall i | 0 <= i < n ensures items[i] == front[i] && items[i].key != items[n].key {
      }
    }
  }

  lemma SameMap(a: map<string, string>, b: map<string, string>)
    requires forall key :: Get(a, key) == Get(b, key)
    ensures a == b
  {
    forall key ensures key in a <==> key in b {
      assert Get(a, key) == Get(b, key);
    }
    forall key | key in a ensures a[key] == b[key] {
      assert Get(a, key) == Get(b, key);
    }
  }

  lemma DiffKeysDistinct(items: seq<DiffItem>)
    requires Ascending(Keys(items))
    ensures Distinct(items)
  {
    forall i, j | 0 <= i < j < |items| ensures items[i].key != items[j].key {
      assert Below(Keys(items)[i], Keys(items)[j]);
      BelowIsStrictTotal(items[i].key, items[j].key);
    }
  }

  lemma ItemFor(items: seq<DiffItem>, previous: Scan, current: Scan, deterministic: seq<Node>,
      confirmed: Option<seq<Node>>, key: string)
    returns (i: nat)
    requires IsDiff(items, previous, current, deterministic, confirmed) && key in Keys(items)
    ensures i < |items| && items[i].key == key
    ensures items[i].previousDigest == Get(Digests(previous), key)
            && items[i].currentDigest == Get(Digests(current), key)
  {
    i :| 0 <= i < |items| && Keys(items)[i] == key;
    assert Describes(items[i], previous, current, ConflictAt(current, key, deterministic, confirmed));
  }

  lemma PatchAt(items: seq<DiffItem>, previous: Scan, current: Scan, deterministic: seq<Node>,
      confirmed: Option<seq<Node>>, key: string)
    requires IsDiff(items, previous, current, deterministic, confirmed)
    ensures Get(Apply(items, Digests(previous)), key) == Get(Digests(current), key)
    ensures Get(Revert(items, Digests(current)), key) == Get(Digests(previous), key)
  {
    DiffKeysDistinct(items);
    ApplyAt(items, Digests(previous), key);
    ApplyAt(items, Digests(current), key);
    if key in Keys(items) {
      var i := ItemFor(items, previous, current, deterministic, confirmed, key);
    } else {
      forall i | 0 <= i < |items| ensures items[i].key != key {
        assert Keys(items)[i] in Keys(items);
      }
    }
  }

  /**
   Applied to the previous scan's digests a diff gives exactly the current ones, and reverting gives
   back the previous.
   */
  lemma DiffIsPatch(items: seq<DiffItem>, previous: Scan, current: Scan, deterministic: seq<Node>,
      confirmed: Option<seq<Node>>)
    requires IsDiff(items, previous, current, deterministic, confirmed)
    ensures Apply(items, Digests(previous)) == Digests(current)
    ensures Revert(items, Digests(current)) == Digests(previous)
  {
    forall key
      ensures Get(Apply(items, Digests(previous)), key) == Get(Digests(current), key)
      ensures Get(Revert(items, Digests(current)), key) == Get(Digests(previous), key)
    {
      PatchAt(items, previous, current, deterministic, confirmed, key);
    }
    SameMap(Apply(items, Digests(previous)), Digests(current));
    SameMap(Revert(items, Digests(current)), Digests(previous));
  }

  /** One stored diff: the scan, the graphs it was compared with, and the items. */
  datatype Stored = Stored(scan: Scan, deterministic: seq<Node>, confirmed: Option<seq<Node>>, items: seq<DiffItem>)

  function ScanBefore(steps: seq<Stored>, i: nat): Scan
    requires i < |steps|
  {
    if i == 0 then map[] else steps[i - 1].scan
  }

  ghost predicate LinkIsDiff(before: Scan, link: Stored) {
    IsDiff(link.items, before, link.scan, link.deterministic, link.confirmed)
  }

  /** Oldest first; each diff compares with the scan before it, the first with nothing. */
  ghost predicate IsChain(steps: seq<Stored>) {
    forall i :: 0 <= i < |steps| ==> LinkIsDiff(ScanBefore(steps, i), steps[i])
  }

  lemma LinkIsPatch(before: Scan, link: Stored)
    requires LinkIsDiff(before, link)
    ensures Apply(link.items, Digests(before)) == Digests(link.scan)
  {
    DiffIsPatch(link.items, before, link.scan, link.deterministic, link.confirmed);
  }

  lemma ChainPrefix(steps: seq<Stored>, n: nat)
    requires IsChain(steps) && n <= |steps|
    ensures IsChain(steps[..n])
  {
    forall i | 0 <= i < n ensures LinkIsDiff(ScanBefore(steps[..n], i), steps[..n][i]) {
      assert LinkIsDiff(ScanBefore(steps, i), steps[i]);
      assert steps[..n][i] == steps[i] && ScanBefore(steps[..n], i) == ScanBefore(steps, i);
    }
  }

  function ApplyAll(steps: seq<Stored>): map<string, string> {
    if steps == [] then map[] else Apply(steps[|steps| - 1].items, ApplyAll(steps[..|steps| - 1]))
  }

  /** Folding the stored diffs of any chain of runs, from nothing, rebuilds the latest scan's digests. */
  lemma {:induction false} DiffsRebuildLatestScan(steps: seq<Stored>)
    requires IsChain(steps)
    ensures ApplyAll(steps) == if steps == [] then map[] else Digests(steps[|steps| - 1].scan)
  {
    if steps != [] {
      var n := |steps| - 1;
      ChainPrefix(steps, n);
      DiffsRebuildLatestScan(steps[..n]);
      assert n == 0 ==> Digests(ScanBefore(steps, n)) == map[];
      LinkIsPatch(ScanBefore(steps, n), steps[n]);
    }
  }

  /** The items depend on nothing but the two scans and the two graphs: same keys in the same order, same verdicts. */
  lemma DiffIsDetermined(a: seq<DiffItem>, b: seq<DiffItem>, previous: Scan, current: Scan, deterministic: seq<Node>,
      confirmed: Option<seq<Node>>)
    requires IsDiff(a, previous, current, deterministic, confirmed)
             && IsDiff(b, previous, current, deterministic, confirmed)
    ensures |a| == |b|
    ensures forall i :: 0 <= i < |a| ==> a[i].(evidenceRefs := []) == b[i].(evidenceRefs := [])
  {
    AscendingIsUnique(Keys(a), Keys(b));
    forall i | 0 <= i < |a| ensures a[i].(evidenceRefs := []) == b[i].(evidenceRefs := []) {
      assert Keys(a)[i] == Keys(b)[i];
      OneDescription(a[i], b[i], previous, current, ConflictAt(current, a[i].key, deterministic, confirmed));
    }
  }

  lemma OneDescription(a: DiffItem, b: DiffItem, previous: Scan, current: Scan, conflict: Option<Conflict>)
    requires a.key == b.key && Describes(a, previous, current, conflict) && Describes(b, previous, current, conflict)
    ensures a.(evidenceRefs := []) == b.(evidenceRefs := [])
  {
  }

  /** A fact that is gone is never reported as a conflict, whatever the graphs say. */
  lemma MissingIsNeverConflict(items: seq<DiffItem>, previous: Scan, current: Scan, deterministic: seq<Node>,
      confirmed: Option<seq<Node>>, i: nat)
    requires IsDiff(items, previous, current, deterministic, confirmed) && i < |items|
    ensures items[i].currentDigest.None? <==> items[i].change == Missing
    ensures items[i].conflict.Some? <==> items[i].change == Conflicting
    ensures items[i].change == Missing ==> items[i].conflict.None?
  {
    assert Describes(items[i], previous, current, ConflictAt(current, items[i].key, deterministic, confirmed));
  }

  // ---- the diff told from the scans and graphs alone ----------------------------

  /** The first node that names this evidence. */
  ghost predicate FirstReferring(nodes: seq<Node>, externalId: string, i: nat) {
    && i < |nodes| && ("evidence:" + externalId) in nodes[i].sourceRefs
    && forall j :: 0 <= j < i ==> ("evidence:" + externalId) !in nodes[j].sourceRefs
  }

  ghost predicate FirstNamed(nodes: seq<Node>, id: string, i: nat) {
    i < |nodes| && nodes[i].id == id && forall j :: 0 <= j < i ==> nodes[j].id != id
  }

  /** A kept node contradicts the node the scan gives: archived, else by title, else by project. */
  predicate Opposes(kept: Node, node: Node, reason: Conflict) {
    match reason
    case IgnoredAgain => false
    case ArchivedAgain => kept.state == Archived
    case NameDiffers => kept.state != Archived && kept.title != node.title
    case ProjectDiffers => kept.state != Archived && kept.title == node.title && kept.projectId != node.projectId
  }

  /** The node is archived already, or the confirmed node of its id opposes it. */
  ghost predicate Against(node: Node, confirmed: Option<seq<Node>>, reason: Conflict) {
    if node.state == Archived then reason == IgnoredAgain
    else confirmed.Some? && exists j: nat :: FirstNamed(confirmed.value, node.id, j)
                                             && Opposes(confirmed.value[j], node, reason)
  }

  /** The first node that names the fact stands against what was confirmed. */
  ghost predicate Contradicts(fact: Fact, deterministic: seq<Node>, confirmed: Option<seq<Node>>, reason: Conflict) {
    exists i: nat :: FirstReferring(deterministic, fact.externalId, i) && Against(deterministic[i], confirmed, reason)
  }

  lemma {:induction false} MatchingIsFirst(nodes: seq<Node>, externalId: string, i: nat)
    requires FirstReferring(nodes, externalId, i)
    ensures MatchingNode(nodes, externalId) == Some(nodes[i])
  {
    if i > 0 {
      assert nodes[0] in nodes;
      assert nodes[1..][i - 1] == nodes[i];
      MatchingIsFirst(nodes[1..], externalId, i - 1);
    }
  }

  lemma {:induction false} MatchedIsReferred(nodes: seq<Node>, externalId: string) returns (i: nat)
    requires MatchingNode(nodes, externalId).Some?
    ensures FirstReferring(nodes, externalId, i)
  {
    if ("evidence:" + externalId) in nodes[0].sourceRefs {
      i := 0;
    } else {
      var k := MatchedIsReferred(nodes[1..], externalId);
      i := k + 1;
      assert forall j :: 1 <= j < i ==> nodes[j] == nodes[1..][j - 1];
    }
  }

  lemma {:induction false} NamedIsFirst(nodes: seq<Node>, id: string, i: nat)
    requires FirstNamed(nodes, id, i)
    ensures NodeById(nodes, id) == Some(nodes[i])
  {
    if i > 0 {
      assert nodes[1..][i - 1] == nodes[i];
      NamedIsFirst(nodes[1..], id, i - 1);
    }
  }

  lemma {:induction false} FoundIsNamed(nodes: seq<Node>, id: string) returns (i: nat)
    requires NodeById(nodes, id).Some?
    ensures FirstNamed(nodes, id, i)
  {
    if nodes[0].id == id {
      i := 0;
    } else {
      var k := FoundIsNamed(nodes[1..], id);
      i := k + 1;
      assert forall j :: 1 <= j < i ==> nodes[j] == nodes[1..][j - 1];
    }
  }

  lemma VerdictsExactly(node: Node, confirmed: Option<seq<Node>>, reason: Conflict)
    ensures VerdictOn(node, confirmed) == Some(reason) <==> Against(node, confirmed, reason)
  {
    if node.state != Archived && confirmed.Some? {
      if NodeById(confirmed.value, node.id).Some? {
        var i := FoundIsNamed(confirmed.value, node.id);
        NamedIsFirst(confirmed.value, node.id, i);
      }
      if j: nat :| FirstNamed(confirmed.value, node.id, j) && Opposes(confirmed.value[j], node, reason) {
        NamedIsFirst(confirmed.value, node.id, j);
      }
    }
  }

  /** Which facts conflict, and why: the first node that names the fact, against the confirmed node of the same id. */
  lemma ConflictsExactly(fact: Fact, deterministic: seq<Node>, confirmed: Option<seq<Node>>, reason: Conflict)
    ensures ConflictOf(fact, deterministic, confirmed) == Some(reason)
            <==> Contradicts(fact, deterministic, confirmed, reason)
  {
    if MatchingNode(deterministic, fact.externalId).Some? {
      var i := MatchedIsReferred(deterministic, fact.externalId);
      MatchingIsFirst(deterministic, fact.externalId, i);
      VerdictsExactly(deterministic[i], confirmed, reason);
    }
    if i: nat :| FirstReferring(deterministic, fact.externalId, i) && Against(deterministic[i], confirmed, reason) {
      MatchingIsFirst(deterministic, fact.externalId, i);
      VerdictsExactly(deterministic[i], confirmed, reason);
    }
  }

  /** What a change says about a fact before and a fact now. */
  ghost predicate Means(change: ChangeKind, before: Option<Fact>, now: Option<Fact>, opposed: bool) {
    match change
    case Missing => now.None?
    case Conflicting => now.Some? && opposed
    case Added => before.None? && now.Some? && !opposed
    case Changed => before.Some? && now.Some? && !opposed && before.value.digest != now.value.digest
    case Unchanged => before.Some? && now.Some? && !opposed && before.value.digest == now.value.digest
  }

  ghost predicate Opposed(fact: Option<Fact>, deterministic: seq<Node>, confirmed: Option<seq<Node>>) {
    fact.Some? && exists reason :: Contradicts(fact.value, deterministic, confirmed, reason)
  }

  /**
   Every item's verdict: which change it is, for which reason, about the fact that is there now or,
   when it is gone, the one there before.
   */
  lemma ItemsAreMeant(items: seq<DiffItem>, previous: Scan, current: Scan, deterministic: seq<Node>,
      confirmed: Option<seq<Node>>, i: nat)
    requires IsDiff(items, previous, current, deterministic, confirmed) && i < |items|
    ensures var item := items[i]; var before, now := Get(previous, item.key), Get(current, item.key);
            && (before.Some? || now.Some?)
            && Means(item.change, before, now, Opposed(now, deterministic, confirmed))
            && (forall reason :: item.conflict == Some(reason)
                  <==> now.Some? && Contradicts(now.value, deterministic, confirmed, reason))
            && (var shown := if now.Some? then now.value else before.value;
                item.kind == shown.kind && item.externalId == shown.externalId)
            && item.previousDigest == (if before.Some? then Some(before.value.digest) else None)
            && item.currentDigest == (if now.Some? then Some(now.value.digest) else None)
  {
    var key := items[i].key;
    assert Describes(items[i], previous, current, ConflictAt(current, key, deterministic, confirmed));
    forall reason | key in current
      ensures ConflictAt(current, key, deterministic, confirmed) == Some(reason)
              <==> Contradicts(current[key], deterministic, confirmed, reason)
    {
      ConflictsExactly(current[key], deterministic, confirmed, reason);
    }
  }

  /** The positions of one change's items. */
  function PositionsOf(items: seq<DiffItem>, change: ChangeKind): set<nat> {
    set i: nat | i < |items| && items[i].change == change
  }

  lemma PositionsNext(items: seq<DiffItem>, item: DiffItem, change: ChangeKind)
    ensures PositionsOf(items + [item], change)
            == PositionsOf(items, change) + (if item.change == change then {|items|} else {})
    ensures |items| !in PositionsOf(items, change)
  {
  }

  /** A count is the number of positions that hold its change. */
  lemma {:induction false} TallyCounts(items: seq<DiffItem>, change: ChangeKind)
    ensures Tally(items, change) == |PositionsOf(items, change)|
  {
    if items != [] {
      var rest, last := items[..|items| - 1], items[|items| - 1];
      TallyCounts(rest, change);
      PositionsNext(rest, last, change);
      assert rest + [last] == items;
    }
  }

  // ---- keys identify facts ----------------------------------------------------

  /** A kind's name is told by its length and first character. */
  function NamedKind(name: string): Option<Kind> {
    match |name|
    case 13 => Some(if name[0] == 'h' then HostIdentity else DockerEngine)
    case 15 => Some(ComposeProject)
    case 12 => Some(if name[0] == 's' then SystemdUnit else HealthCheck)
    case 9 => Some(Container)
    case 5 => Some(Image)
    case 7 => Some(Network)
    case 6 => Some(Volume)
    case 8 => Some(Document)
    case _ => None
  }

  lemma NamesTellKinds(kind: Kind)
    ensures NamedKind(KindName(kind)) == Some(kind)
  {
    match kind
    case _ =>
  }

  /** Two facts share a key only when they agree on kind and external id, whatever characters the id holds. */
  lemma KeyIdentifiesFact(f: Fact, g: Fact)
    ensures FactKey(f) == FactKey(g) <==> f.kind == g.kind && f.externalId == g.externalId
  {
    if FactKey(f) == FactKey(g) {
      NamesHoldNoColon(f.kind);
      NamesHoldNoColon(g.kind);
      Text.ColonSplitsOnce(KindName(f.kind), KindName(g.kind), f.externalId, g.externalId);
      NamesTellKinds(f.kind);
      NamesTellKinds(g.kind);
    }
  }

  lemma NamesHoldNoColon(kind: Kind)
    ensures ':' !in KindName(kind)
  {
    match kind
    case HostIdentity =>
    case _ =>
  }
}
