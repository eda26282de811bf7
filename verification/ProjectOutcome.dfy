/**
 What a removal and an export leave of every stored graph, told node by node and edge by
 edge (backend/src/data_management.rs).
 */
module ProjectOutcome {
  import opened Wrappers
  import opened ProjectGraphs
  import opened ProjectRemoval

  // ---- parts of a list ------------------------------------------------------------

  /**
   `part` is what stands at the positions `at`, in ascending order, and those are the positions where
   `keep` holds.
   */
  ghost predicate IsPart<T>(whole: seq<T>, part: seq<T>, at: seq<nat>, keep: T -> bool) {
    && |at| == |part|
    && (forall i :: 0 <= i < |at| ==> at[i] < |whole| && part[i] == whole[at[i]] && keep(part[i]))
    && (forall i, j :: 0 <= i < j < |at| ==> at[i] < at[j])
    && (forall n: nat :: n < |whole| && keep(whole[n]) ==> n in at)
  }

  ghost predicate IsPartOf<T>(whole: seq<T>, part: seq<T>, keep: T -> bool) {
    exists at: seq<nat> :: IsPart(whole, part, at, keep)
  }

  lemma {:induction false} RetainIsPart<T(!new)>(whole: seq<T>, keep: T -> bool) returns (at: seq<nat>)
    ensures IsPart(whole, Retain(whole, keep), at, keep)
  {
    if whole == [] {
      at := [];
    } else {
      var n := |whole| - 1;
      at := RetainIsPart(whole[..n], keep);
      PartGrows(whole, Retain(whole[..n], keep), at, keep);
      if keep(whole[n]) {
        at := at + [n];
      }
    }
  }

  lemma PartGrows<T(!new)>(whole: seq<T>, part: seq<T>, at: seq<nat>, keep: T -> bool)
    requires whole != [] && IsPart(whole[..|whole| - 1], part, at, keep)
    ensures var n := |whole| - 1;
            if keep(whole[n]) then IsPart(whole, part + [whole[n]], at + [n], keep) else IsPart(whole, part, at, keep)
  {
    var n := |whole| - 1;
    forall m: nat | m < |whole| && keep(whole[m]) ensures m == n || m in at {
      assert m < n ==> whole[..n][m] == whole[m];
    }
    if keep(whole[n]) {
      assert forall m :: m in at + [n] <==> m in at || m == n;
    }
  }

  // ---- one graph --------------------------------------------------------------------

  /** Some node of the project, by its own id or by the project it names, has this id. */
  ghost predicate Carried(nodes: seq<Node>, projectId: string, id: string) {
    exists i :: 0 <= i < |nodes| && nodes[i].id == id && (id == projectId || nodes[i].projectId == Some(projectId))
  }

  ghost predicate HoldsProject(nodes: seq<Node>, projectId: string) {
    exists i :: 0 <= i < |nodes| && (nodes[i].id == projectId || nodes[i].projectId == Some(projectId))
  }

  /**
   The graph without the project: every other node and every edge between others, each in its order,
   nothing else changed.
   */
  ghost predicate IsRest(was: Snapshot, now: Snapshot, projectId: string) {
    && IsPartOf(was.nodes, now.nodes, (n: Node) => !Carried(was.nodes, projectId, n.id))
    && IsPartOf(was.edges, now.edges,
                (e: Edge) => !Carried(was.nodes, projectId, e.from) && !Carried(was.nodes, projectId, e.to))
    && now.focusKind == was.focusKind && now.focusId == was.focusId && now.layoutId == was.layoutId
  }

  lemma CarriedIsRemoved(nodes: seq<Node>, projectId: string, id: string)
    ensures id in RemovedIds(nodes, projectId) <==> Carried(nodes, projectId, id)
  {
    if id in RemovedIds(nodes, projectId) {
      var n :| n in nodes && BelongsTo(n, projectId) && n.id == id;
      var i :| 0 <= i < |nodes| && nodes[i] == n;
    }
    if Carried(nodes, projectId, id) {
      var i :| 0 <= i < |nodes| && nodes[i].id == id && (id == projectId || nodes[i].projectId == Some(projectId));
      assert nodes[i] in nodes && BelongsTo(nodes[i], projectId);
    }
  }

  lemma HeldExactlyWhenSomeGoes(nodes: seq<Node>, projectId: string)
    ensures RemovedIds(nodes, projectId) != [] <==> HoldsProject(nodes, projectId)
  {
    var ids := RemovedIds(nodes, projectId);
    if ids != [] {
      assert ids[0] in ids;
      CarriedIsRemoved(nodes, projectId, ids[0]);
    }
    if HoldsProject(nodes, projectId) {
      var i :| 0 <= i < |nodes| && (nodes[i].id == projectId || nodes[i].projectId == Some(projectId));
      assert Carried(nodes, projectId, nodes[i].id);
      CarriedIsRemoved(nodes, projectId, nodes[i].id);
    }
  }

  lemma PartBySame<T>(whole: seq<T>, part: seq<T>, at: seq<nat>, keep: T -> bool, same: T -> bool)
    requires IsPart(whole, part, at, keep) && forall x :: x in whole ==> (keep(x) <==> same(x))
    ensures IsPartOf(whole, part, same)
  {
    assert forall n :: 0 <= n < |whole| ==> whole[n] in whole;
    assert IsPart(whole, part, at, same);
  }

  lemma RemovalLeavesTheRest(s: Snapshot, projectId: string)
    ensures IsRest(s, Removed(s, projectId), projectId)
  {
    var removed := RemovedIds(s.nodes, projectId);
    forall id ensures id in removed <==> Carried(s.nodes, projectId, id) {
      CarriedIsRemoved(s.nodes, projectId, id);
    }
    var nodesAt := RetainIsPart(s.nodes, NodeStays(removed));
    PartBySame(s.nodes, Removed(s, projectId).nodes, nodesAt, NodeStays(removed),
               (n: Node) => !Carried(s.nodes, projectId, n.id));
    var edgesAt := RetainIsPart(s.edges, EdgeStays(removed));
    PartBySame(s.edges, Removed(s, projectId).edges, edgesAt, EdgeStays(removed),
               (e: Edge) => !Carried(s.nodes, projectId, e.from) && !Carried(s.nodes, projectId, e.to));
  }

  // ---- the stored rows ----------------------------------------------------------------

  ghost predicate DraftHolds(d: Draft, projectId: string) {
    d.snapshot.Some? && HoldsProject(d.snapshot.value.nodes, projectId)
  }

  lemma AffectedMeansHolds(d: Draft, projectId: string)
    ensures Affected(d, projectId) <==> DraftHolds(d, projectId)
  {
    if d.snapshot.Some? {
      HeldExactlyWhenSomeGoes(d.snapshot.value.nodes, projectId);
    }
  }

  /** Every draft stays in its place; one that held the project is a revision on and keeps the rest of its graph. */
  lemma DraftsKeepTheRest(t: Tables, projectId: string, at: string, i: nat)
    requires i < |t.drafts|
    ensures |AfterRemoval(t, projectId, at).drafts| == |t.drafts|
    ensures var was, now := t.drafts[i], AfterRemoval(t, projectId, at).drafts[i];
            if DraftHolds(was, projectId) then
              && now.id == was.id && now.revision == was.revision + 1 && now.pendingChanges == was.pendingChanges + 1
              && now.updatedAt == at
              && now.snapshot.Some? && IsRest(was.snapshot.value, now.snapshot.value, projectId)
              && now.snapshot.value.layoutRevision == was.revision + 1
            else now == was
  {
    AffectedMeansHolds(t.drafts[i], projectId);
    if t.drafts[i].snapshot.Some? {
      RemovalLeavesTheRest(t.drafts[i].snapshot.value, projectId);
    }
  }

  /** A version that held the project keeps the rest of its graph; any other is as it was. */
  ghost predicate VersionKept(was: Version, now: Version, projectId: string) {
    if was.snapshot.Some? && HoldsProject(was.snapshot.value.nodes, projectId) then
      && now.id == was.id && now.projectId == was.projectId
      && now.snapshot.Some? && IsRest(was.snapshot.value, now.snapshot.value, projectId)
      && now.snapshot.value.layoutRevision == was.snapshot.value.layoutRevision
    else now == was
  }

  lemma VersionKeepsTheRest(v: Version, projectId: string)
    ensures VersionKept(v, VersionAfter(v, projectId), projectId)
  {
    if v.snapshot.Some? {
      HeldExactlyWhenSomeGoes(v.snapshot.value.nodes, projectId);
      RemovalLeavesTheRest(v.snapshot.value, projectId);
    }
  }

  /**
   Exactly the versions bound to another project or to none survive, in order, and each keeps all
   that is not the project's.
   */
  lemma VersionsKeepTheRest(t: Tables, projectId: string, at: string) returns (kept: seq<nat>)
    ensures var now := AfterRemoval(t, projectId, at).versions;
            && |kept| == |now|
            && (forall i, j :: 0 <= i < j < |kept| ==> kept[i] < kept[j])
            && (forall n: nat :: n in kept <==> n < |t.versions| && t.versions[n].projectId != Some(projectId))
            && forall i :: 0 <= i < |kept| ==>
                             kept[i] < |t.versions| && VersionKept(t.versions[kept[i]], now[i], projectId)
  {
    var stripped := VersionsAfter(t.versions, projectId);
    kept := RetainIsPart(stripped, VersionSurvives(projectId));
    forall n: nat | n < |t.versions| ensures VersionKept(t.versions[n], stripped[n], projectId) {
      VersionKeepsTheRest(t.versions[n], projectId);
    }
    assert forall n: nat :: n < |t.versions| ==> stripped[n].projectId == t.versions[n].projectId;
  }

  // ---- layouts --------------------------------------------------------------------------

  /** Some draft with this layout held a node of the project under this id. */
  ghost predicate LostFrom(drafts: seq<Draft>, projectId: string, layoutId: string, nodeId: string) {
    exists i :: 0 <= i < |drafts| && drafts[i].snapshot.Some? && drafts[i].snapshot.value.layoutId == layoutId
                && Carried(drafts[i].snapshot.value.nodes, projectId, nodeId)
  }

  ghost predicate Reaches(d: Draft, projectId: string, layoutId: string) {
    DraftHolds(d, projectId) && d.snapshot.value.layoutId == layoutId
  }

  ghost predicate LastReaches(drafts: seq<Draft>, projectId: string, layoutId: string, i: nat) {
    && i < |drafts| && Reaches(drafts[i], projectId, layoutId)
    && forall j :: i < j < |drafts| ==> !Reaches(drafts[j], projectId, layoutId)
  }

  lemma FeedsMeansReaches(d: Draft, projectId: string, layoutId: string)
    ensures Feeds(d, projectId, layoutId) <==> Reaches(d, projectId, layoutId)
  {
    AffectedMeansHolds(d, projectId);
  }

  lemma {:induction false} TakenMeansLost(drafts: seq<Draft>, projectId: string, layoutId: string, nodeId: string)
    ensures nodeId in TakenFromLayout(drafts, projectId, layoutId) <==> LostFrom(drafts, projectId, layoutId, nodeId)
  {
    if drafts != [] {
      var front, last := drafts[..|drafts| - 1], drafts[|drafts| - 1];
      TakenMeansLost(front, projectId, layoutId, nodeId);
      FeedsMeansReaches(last, projectId, layoutId);
      if last.snapshot.Some? {
        CarriedIsRemoved(last.snapshot.value.nodes, projectId, nodeId);
      }
      if LostFrom(front, projectId, layoutId, nodeId) {
        var i :| 0 <= i < |front| && front[i].snapshot.Some? && front[i].snapshot.value.layoutId == layoutId
                 && Carried(front[i].snapshot.value.nodes, projectId, nodeId);
        assert drafts[i] == front[i];
      }
    }
  }

  lemma {:induction false} LastReachesRevises(drafts: seq<Draft>, projectId: string, layoutId: string, i: nat)
    requires LastReaches(drafts, projectId, layoutId, i)
    ensures LastRevision(drafts, projectId, layoutId) == Some(drafts[i].revision + 1)
  {
    var n := |drafts| - 1;
    FeedsMeansReaches(drafts[n], projectId, layoutId);
    if i < n {
      assert LastReaches(drafts[..n], projectId, layoutId, i);
      LastReachesRevises(drafts[..n], projectId, layoutId, i);
    }
  }

  lemma {:induction false} NoneReachesRevisesNone(drafts: seq<Draft>, projectId: string, layoutId: string)
    requires forall i :: 0 <= i < |drafts| ==> !Reaches(drafts[i], projectId, layoutId)
    ensures LastRevision(drafts, projectId, layoutId).None?
  {
    if drafts != [] {
      FeedsMeansReaches(drafts[|drafts| - 1], projectId, layoutId);
      NoneReachesRevisesNone(drafts[..|drafts| - 1], projectId, layoutId);
    }
  }

  ghost function NotLost(drafts: seq<Draft>, projectId: string, id: string): Position -> bool {
    (p: Position) => !LostFrom(drafts, projectId, id, p.nodeId)
  }

  lemma PositionsKeepTheRest(drafts: seq<Draft>, positions: seq<Position>, projectId: string, id: string)
    ensures IsPartOf(positions, Retain(positions, PositionStays(TakenFromLayout(drafts, projectId, id))),
                     NotLost(drafts, projectId, id))
  {
    var stays, notLost := PositionStays(TakenFromLayout(drafts, projectId, id)), NotLost(drafts, projectId, id);
    forall p: Position ensures stays(p) <==> notLost(p) {
      TakenMeansLost(drafts, projectId, id, p.nodeId);
    }
    var kept := RetainIsPart(positions, stays);
    PartBySame(positions, Retain(positions, stays), kept, stays, notLost);
  }

  /** The layout is as new as the last draft that reaches it, and as it was when none does. */
  ghost predicate LayoutIsRevised(drafts: seq<Draft>, was: Layout, now: Layout, projectId: string, at: string,
      id: string)
  {
    && (forall i: nat :: LastReaches(drafts, projectId, id, i) ==>
          now.revision == drafts[i].revision + 1 && now.updatedAt == at)
    && ((forall i :: 0 <= i < |drafts| ==> !Reaches(drafts[i], projectId, id)) ==> now == was)
  }

  lemma RevisionIsLast(drafts: seq<Draft>, was: Layout, now: Layout, projectId: string, at: string, id: string)
    requires var last := LastRevision(drafts, projectId, id);
             if last.None? then now == was else now.revision == last.value && now.updatedAt == at
    ensures LayoutIsRevised(drafts, was, now, projectId, at, id)
  {
    forall i: nat | LastReaches(drafts, projectId, id, i)
      ensures now.revision == drafts[i].revision + 1 && now.updatedAt == at
    {
      LastReachesRevises(drafts, projectId, id, i);
    }
    if forall i :: 0 <= i < |drafts| ==> !Reaches(drafts[i], projectId, id) {
      NoneReachesRevisesNone(drafts, projectId, id);
    }
  }

  /** A layout keeps in order exactly the positions of nodes no draft of it lost. */
  lemma LayoutsKeepTheRest(t: Tables, projectId: string, at: string, id: string)
    requires id in t.layouts && t.layouts[id].positions.Some?
    ensures var was := t.layouts[id];
            && id in AfterRemoval(t, projectId, at).layouts
            && var now := AfterRemoval(t, projectId, at).layouts[id];
               && now.positions.Some?
               && IsPartOf(was.positions.value, now.positions.value, NotLost(t.drafts, projectId, id))
               && LayoutIsRevised(t.drafts, was, now, projectId, at, id)
  {
    LayoutsInClosedForm(t, t.drafts, projectId, at, id);
    PositionsKeepTheRest(t.drafts, t.layouts[id].positions.value, projectId, id);
    RevisionIsLast(t.drafts, t.layouts[id], LayoutsAfter(t.layouts, t.drafts, projectId, at)[id], projectId, at, id);
  }

  // ---- the outcome ----------------------------------------------------------------------

  /**
   Something that a removal has to read does not parse: a draft, a version, or the layout of a draft
   that holds the project.
   */
  ghost predicate SomethingUnreadable(t: Tables, projectId: string) {
    || (exists i :: 0 <= i < |t.drafts| && t.drafts[i].snapshot.None?)
    || (exists i :: 0 <= i < |t.versions| && t.versions[i].snapshot.None?)
    || exists i :: 0 <= i < |t.drafts| && BadLayout(t, t.drafts[i], projectId)
  }

  ghost predicate BadLayout(t: Tables, d: Draft, projectId: string) {
    && DraftHolds(d, projectId) && d.snapshot.value.layoutId in t.layouts
    && t.layouts[d.snapshot.value.layoutId].positions.None?
  }

  lemma ReadableMeans(t: Tables, projectId: string)
    ensures Readable(t, projectId) <==> !SomethingUnreadable(t, projectId)
  {
    forall i | 0 <= i < |t.drafts|
      ensures DraftReadable(t.layouts, t.drafts[i], projectId)
              <==> t.drafts[i].snapshot.Some? && !BadLayout(t, t.drafts[i], projectId)
    {
      AffectedMeansHolds(t.drafts[i], projectId);
    }
  }

  /** The three outcomes of a removal, and the projects left. */
  lemma OutcomeMeans(t: Tables, projectId: string, at: string)
    ensures Outcome(t, projectId)
            == if SomethingUnreadable(t, projectId) then Err(InvalidProjection)
               else if forall i :: 0 <= i < |t.drafts| ==> !DraftHolds(t.drafts[i], projectId)
               then Err(NotFound("project", projectId))
               else Ok(())
    ensures forall p :: p in AfterRemoval(t, projectId, at).projects <==> p in t.projects && p != projectId
  {
    ReadableMeans(t, projectId);
    CountIsZero(t.drafts, projectId);
    forall i | 0 <= i < |t.drafts| ensures Affected(t.drafts[i], projectId) <==> DraftHolds(t.drafts[i], projectId) {
      AffectedMeansHolds(t.drafts[i], projectId);
    }
  }

  // ---- exports ----------------------------------------------------------------------------

  /** The id of a node of the project, or of a neighbour of the project's own node. */
  ghost predicate Shown(s: Snapshot, projectId: string, id: string) {
    exists i :: 0 <= i < |s.nodes| && s.nodes[i].id == id
                && (id == projectId || s.nodes[i].projectId == Some(projectId) || Neighbours(s, projectId, id))
  }

  ghost predicate Neighbours(s: Snapshot, projectId: string, id: string) {
    exists i :: 0 <= i < |s.edges| && Connects(s.edges[i], projectId, id)
  }

  predicate Connects(e: Edge, a: string, b: string) {
    (e.from == a && e.to == b) || (e.from == b && e.to == a)
  }

  ghost predicate IsExport(was: Snapshot, now: Snapshot, projectId: string) {
    && IsPartOf(was.nodes, now.nodes, (n: Node) => Shown(was, projectId, n.id))
    && IsPartOf(was.edges, now.edges, (e: Edge) => Shown(was, projectId, e.from) && Shown(was, projectId, e.to))
    && now.focusId == projectId && now.focusKind == was.focusKind
    && now.layoutId == was.layoutId && now.layoutRevision == was.layoutRevision
  }

  lemma ExportedMeans(s: Snapshot, projectId: string, n: Node)
    ensures IsExported(s, projectId, n)
            <==> n.id == projectId || n.projectId == Some(projectId) || Neighbours(s, projectId, n.id)
  {
    if Neighbours(s, projectId, n.id) {
      var i :| 0 <= i < |s.edges| && Connects(s.edges[i], projectId, n.id);
      assert s.edges[i] in s.edges && Joins(s.edges[i], projectId, n.id);
    }
    if e :| e in s.edges && Joins(e, projectId, n.id) {
      var i :| 0 <= i < |s.edges| && s.edges[i] == e;
      assert Connects(s.edges[i], projectId, n.id);
    }
  }

  lemma ShownMeansKept(s: Snapshot, projectId: string, id: string)
    ensures id in KeptIds(s, projectId, |s.nodes|) <==> Shown(s, projectId, id)
  {
    forall n ensures IsExported(s, projectId, n)
                     <==> n.id == projectId || n.projectId == Some(projectId) || Neighbours(s, projectId, n.id) {
      ExportedMeans(s, projectId, n);
    }
  }

  lemma ExportIsMeant(s: Snapshot, projectId: string)
    ensures IsExport(s, Export(s, projectId), projectId)
  {
    var keep := KeptIds(s, projectId, |s.nodes|);
    forall id ensures id in keep <==> Shown(s, projectId, id) {
      ShownMeansKept(s, projectId, id);
    }
    var nodesAt := RetainIsPart(s.nodes, NodeKept(keep));
    PartBySame(s.nodes, Export(s, projectId).nodes, nodesAt, NodeKept(keep), (n: Node) => Shown(s, projectId, n.id));
    var edgesAt := RetainIsPart(s.edges, EdgeKept(keep));
    PartBySame(s.edges, Export(s, projectId).edges, edgesAt, EdgeKept(keep),
               (e: Edge) => Shown(s, projectId, e.from) && Shown(s, projectId, e.to));
  }

  ghost predicate HasOwnNode(d: Draft, projectId: string) {
    d.snapshot.Some? && exists i :: 0 <= i < |d.snapshot.value.nodes| && d.snapshot.value.nodes[i].id == projectId
  }

  lemma OwnNodeMeansHasNode(d: Draft, projectId: string)
    requires d.snapshot.Some?
    ensures HasNode(d.snapshot.value, projectId) <==> HasOwnNode(d, projectId)
  {
    if HasNode(d.snapshot.value, projectId) {
      var n :| n in d.snapshot.value.nodes && n.id == projectId;
      var i :| 0 <= i < |d.snapshot.value.nodes| && d.snapshot.value.nodes[i] == n;
    }
    if HasOwnNode(d, projectId) {
      var i :| 0 <= i < |d.snapshot.value.nodes| && d.snapshot.value.nodes[i].id == projectId;
      assert d.snapshot.value.nodes[i] in d.snapshot.value.nodes;
    }
  }

  predicate Identifies(e: Exported, d: Draft) {
    d.snapshot.Some? && e.draftId == d.id && e.revision == d.revision
  }

  /** The draft is exported so. */
  ghost predicate IsExportOf(d: Draft, e: Exported, projectId: string) {
    Identifies(e, d) && IsExport(d.snapshot.value, e.snapshot, projectId)
  }

  ghost function Owning(projectId: string): Draft -> bool {
    (d: Draft) => HasOwnNode(d, projectId)
  }

  ghost function Exporting(projectId: string): (Draft, Exported) -> bool {
    (d: Draft, e: Exported) => IsExportOf(d, e, projectId)
  }

  /** The exports stand for the drafts at the positions `at`, in order, and those are the owning ones. */
  ghost predicate Stand(drafts: seq<Draft>, exports: seq<Exported>, at: seq<nat>, owns: Draft -> bool,
      exported: (Draft, Exported) -> bool)
  {
    && |at| == |exports|
    && (forall i :: 0 <= i < |at| ==> at[i] < |drafts| && owns(drafts[at[i]]) && exported(drafts[at[i]], exports[i]))
    && (forall i, j :: 0 <= i < j < |at| ==> at[i] < at[j])
    && (forall n: nat :: n < |drafts| && owns(drafts[n]) ==> n in at)
  }

  /**
   The exports are those of the drafts at the positions `at`, in order, and those are the drafts with
   the project's own node.
   */
  ghost predicate AreExports(drafts: seq<Draft>, exports: seq<Exported>, at: seq<nat>, projectId: string) {
    Stand(drafts, exports, at, Owning(projectId), Exporting(projectId))
  }

  lemma StandNext(drafts: seq<Draft>, exports: seq<Exported>, at: seq<nat>, owns: Draft -> bool,
      exported: (Draft, Exported) -> bool, e: Exported)
    requires drafts != [] && Stand(drafts[..|drafts| - 1], exports, at, owns, exported)
    requires exported(drafts[|drafts| - 1], e)
    ensures if owns(drafts[|drafts| - 1]) then Stand(drafts, exports + [e], at + [|drafts| - 1], owns, exported)
            else Stand(drafts, exports, at, owns, exported)
  {
    var n := |drafts| - 1;
    forall m: nat | m < |drafts| && owns(drafts[m]) ensures m == n || m in at {
      assert m < n ==> drafts[..n][m] == drafts[m];
    }
    assert forall m :: m in at + [n] <==> m in at || m == n;
  }

  lemma AreExportsNext(drafts: seq<Draft>, exports: seq<Exported>, at: seq<nat>, projectId: string)
    requires drafts != [] && AreExports(drafts[..|drafts| - 1], exports, at, projectId)
    requires drafts[|drafts| - 1].snapshot.Some?
    ensures var last := drafts[|drafts| - 1];
            if HasOwnNode(last, projectId)
            then AreExports(drafts, exports
                                    + [Exported(last.id, last.revision, Export(last.snapshot.value, projectId))],
                            at + [|drafts| - 1], projectId)
            else AreExports(drafts, exports, at, projectId)
  {
    var last := drafts[|drafts| - 1];
    ExportIsMeant(last.snapshot.value, projectId);
    StandNext(drafts, exports, at, Owning(projectId), Exporting(projectId),
              Exported(last.id, last.revision, Export(last.snapshot.value, projectId)));
  }

  lemma {:induction false} ExportsAreMeant(drafts: seq<Draft>, projectId: string) returns (at: seq<nat>)
    requires AllDecode(drafts)
    ensures AreExports(drafts, ExportsOf(drafts, projectId), at, projectId)
  {
    if drafts == [] {
      at := [];
    } else {
      var n := |drafts| - 1;
      at := ExportsAreMeant(drafts[..n], projectId);
      AreExportsNext(drafts, ExportsOf(drafts[..n], projectId), at, projectId);
      OwnNodeMeansHasNode(drafts[n], projectId);
      if HasOwnNode(drafts[n], projectId) {
        at := at + [n];
      }
    }
  }

  /** The three outcomes of an export. */
  lemma ExportOutcomeMeans(drafts: seq<Draft>, projectId: string) returns (at: seq<nat>)
    ensures (exists i :: 0 <= i < |drafts| && drafts[i].snapshot.None?)
            <==> ExportOutcome(drafts, projectId) == Err(InvalidProjection)
    ensures ExportOutcome(drafts, projectId) == Err(NotFound("project", projectId))
            <==> forall i :: 0 <= i < |drafts| ==> drafts[i].snapshot.Some? && !HasOwnNode(drafts[i], projectId)
    ensures ExportOutcome(drafts, projectId).Ok? ==>
              AreExports(drafts, ExportOutcome(drafts, projectId).value, at, projectId)
  {
    at := [];
    if AllDecode(drafts) {
      at := ExportsAreMeant(drafts, projectId);
      ExportsAreHolders(drafts, projectId);
      forall i | 0 <= i < |drafts|
        ensures HasNode(drafts[i].snapshot.value, projectId) <==> HasOwnNode(drafts[i], projectId)
      {
        OwnNodeMeansHasNode(drafts[i], projectId);
      }
    }
  }
}
