/** Removing a project from every stored draft, layout and version (backend/src/data_management.rs). */
module ProjectRemoval {
  import opened Wrappers
  import opened ProjectGraphs

  /** A snapshot or position list that is None stands for stored JSON that does not parse. */
  datatype Draft = Draft(id: string, revision: int, pendingChanges: int, updatedAt: string, snapshot: Option<Snapshot>)

  datatype Position = Position(nodeId: string, x: real, y: real)

  datatype Layout = Layout(revision: int, updatedAt: string, positions: Option<seq<Position>>)

  datatype Version = Version(id: string, projectId: Option<string>, snapshot: Option<Snapshot>)

  datatype DataError = InvalidProjection | NotFound(resource: string, id: string)

  datatype Tables = Tables(drafts: seq<Draft>, layouts: map<string, Layout>, versions: seq<Version>,
                           projects: set<string>)

  function IdsTaken(snapshot: Option<Snapshot>, projectId: string): seq<string> {
    if snapshot.Some? then RemovedIds(snapshot.value.nodes, projectId) else []
  }

  predicate Affected(draft: Draft, projectId: string) {
    IdsTaken(draft.snapshot, projectId) != []
  }

  function DraftAfter(draft: Draft, projectId: string, at: string): Draft {
    if Affected(draft, projectId) then
      Draft(draft.id, draft.revision + 1, draft.pendingChanges + 1, at,
            Some(Removed(draft.snapshot.value, projectId).(layoutRevision := draft.revision + 1)))
    else draft
  }

  function PositionStays(removed: seq<string>): Position -> bool {
    (p: Position) => p.nodeId !in removed
  }

  predicate OwnsLayout(draft: Draft, projectId: string, layouts: map<string, Layout>) {
    Affected(draft, projectId) && draft.snapshot.value.layoutId in layouts
  }

  function LayoutsAfterOne(layouts: map<string, Layout>, draft: Draft, projectId: string,
      at: string): map<string, Layout>
  {
    if OwnsLayout(draft, projectId, layouts) then
      var id := draft.snapshot.value.layoutId;
      if layouts[id].positions.Some? then
        layouts[id := Layout(draft.revision + 1, at,
                             Some(Retain(layouts[id].positions.value,
                                 PositionStays(IdsTaken(draft.snapshot, projectId)))))]
      else layouts
    else layouts
  }

  function LayoutsAfter(layouts: map<string, Layout>, drafts: seq<Draft>, projectId: string,
      at: string): map<string, Layout>
  {
    if drafts == [] then layouts
    else LayoutsAfterOne(LayoutsAfter(layouts, drafts[..|drafts| - 1], projectId, at), drafts[|drafts| - 1], projectId,
                         at)
  }

  function DraftsAfter(drafts: seq<Draft>, projectId: string, at: string): (r: seq<Draft>)
    ensures |r| == |drafts|
    ensures forall i :: 0 <= i < |drafts| ==> r[i] == DraftAfter(drafts[i], projectId, at)
  {
    seq(|drafts|, i requires 0 <= i < |drafts| => DraftAfter(drafts[i], projectId, at))
  }

  function AffectedCount(drafts: seq<Draft>, projectId: string): nat {
    if drafts == [] then 0
    else AffectedCount(drafts[..|drafts| - 1], projectId) + (if Affected(drafts[|drafts| - 1], projectId) then 1 else 0)
  }

  function VersionAfter(version: Version, projectId: string): Version {
    if IdsTaken(version.snapshot, projectId) != []
        then version.(snapshot := Some(Removed(version.snapshot.value, projectId)))
    else version
  }

  function VersionsAfter(versions: seq<Version>, projectId: string): (r: seq<Version>)
    ensures |r| == |versions|
    ensures forall i :: 0 <= i < |versions| ==> r[i] == VersionAfter(versions[i], projectId)
  {
    seq(|versions|, i requires 0 <= i < |versions| => VersionAfter(versions[i], projectId))
  }

  /** The foreign key on a version's project deletes the version with the project. */
  function VersionSurvives(projectId: string): Version -> bool {
    (v: Version) => v.projectId != Some(projectId)
  }

  predicate DraftReadable(layouts: map<string, Layout>, draft: Draft, projectId: string) {
    && draft.snapshot.Some?
    && (OwnsLayout(draft, projectId, layouts) ==> layouts[draft.snapshot.value.layoutId].positions.Some?)
  }

  predicate DraftsReadable(layouts: map<string, Layout>, drafts: seq<Draft>, projectId: string) {
    forall i :: 0 <= i < |drafts| ==> DraftReadable(layouts, drafts[i], projectId)
  }

  predicate VersionsReadable(versions: seq<Version>) {
    forall i :: 0 <= i < |versions| ==> versions[i].snapshot.Some?
  }

  /** Everything a removal has to decode does decode. */
  predicate Readable(t: Tables, projectId: string) {
    DraftsReadable(t.layouts, t.drafts, projectId) && VersionsReadable(t.versions)
  }

  function Outcome(t: Tables, projectId: string): Result<(), DataError> {
    if !Readable(t, projectId) then Err(InvalidProjection)
    else if AffectedCount(t.drafts, projectId) == 0 then Err(NotFound("project", projectId))
    else Ok(())
  }

  function AfterRemoval(t: Tables, projectId: string, at: string): Tables {
    Tables(DraftsAfter(t.drafts, projectId, at),
           LayoutsAfter(t.layouts, t.drafts, projectId, at),
           Retain(VersionsAfter(t.versions, projectId), VersionSurvives(projectId)),
           t.projects - {projectId})
  }

  // ---- export ------------------------------------------------------------------------

  datatype Exported = Exported(draftId: string, revision: int, snapshot: Snapshot)

  predicate AllDecode(drafts: seq<Draft>) {
    forall i :: 0 <= i < |drafts| ==> drafts[i].snapshot.Some?
  }

  /** Only snapshots with a node of that very id are exported. */
  function ExportsOf(drafts: seq<Draft>, projectId: string): seq<Exported>
    requires AllDecode(drafts)
  {
    if drafts == [] then []
    else
      var last := drafts[|drafts| - 1];
      var rest := ExportsOf(drafts[..|drafts| - 1], projectId);
      if HasNode(last.snapshot.value, projectId)
      then rest + [Exported(last.id, last.revision, Export(last.snapshot.value, projectId))]
      else rest
  }

  function ExportOutcome(drafts: seq<Draft>, projectId: string): Result<seq<Exported>, DataError> {
    if !AllDecode(drafts) then Err(InvalidProjection)
    else if ExportsOf(drafts, projectId) == [] then Err(NotFound("project", projectId))
    else Ok(ExportsOf(drafts, projectId))
  }

  /** A layout that does not decode stays as it was, and no row comes or goes. */
  lemma {:induction false} LayoutRowsStay(layouts: map<string, Layout>, drafts: seq<Draft>, projectId: string,
      at: string, id: string)
    ensures id in LayoutsAfter(layouts, drafts, projectId, at) <==> id in layouts
    ensures id in layouts ==> (LayoutsAfter(layouts, drafts, projectId, at)[id].positions.Some?
                               <==> layouts[id].positions.Some?)
  {
    if drafts != [] {
      LayoutRowsStay(layouts, drafts[..|drafts| - 1], projectId, at, id);
    }
  }

  lemma ReadableAlongTheWay(layouts: map<string, Layout>, drafts: seq<Draft>, draft: Draft, projectId: string,
      at: string)
    requires draft.snapshot.Some?
    ensures DraftReadable(LayoutsAfter(layouts, drafts, projectId, at), draft, projectId)
            <==> DraftReadable(layouts, draft, projectId)
    ensures OwnsLayout(draft, projectId, LayoutsAfter(layouts, drafts, projectId, at))
            <==> OwnsLayout(draft, projectId, layouts)
  {
    LayoutRowsStay(layouts, drafts, projectId, at, draft.snapshot.value.layoutId);
  }

  class ProjectionStore {
    var drafts: seq<Draft>
    var layouts: map<string, Layout>
    var versions: seq<Version>
    var projects: set<string>

    function Contents(): Tables
      reads this
    {
      Tables(drafts, layouts, versions, projects)
    }

    constructor (t: Tables)
      ensures Contents() == t
    {
      drafts, layouts, versions, projects := t.drafts, t.layouts, t.versions, t.projects;
    }

    /** One draft and its layout; the error is stored JSON that does not parse. */
    method StripDraft(index: nat, projectId: string, at: string) returns (r: Result<bool, DataError>)
      requires index < |drafts|
      modifies this
      ensures versions == old(versions) && projects == old(projects)
      ensures r.Err? <==> !DraftReadable(old(layouts), old(drafts)[index], projectId)
      ensures r.Err? ==> r.error == InvalidProjection
      ensures r.Ok? ==> r.value == Affected(old(drafts)[index], projectId)
      ensures r.Ok? ==> drafts == old(drafts)[index := DraftAfter(old(drafts)[index], projectId, at)]
      ensures r.Ok? ==> layouts == LayoutsAfterOne(old(layouts), old(drafts)[index], projectId, at)
    {
      var draft := drafts[index];
      if draft.snapshot.None? {
        return Err(InvalidProjection);
      }
      var graph := new Graph(draft.snapshot.value);
      var removed := graph.RemoveProject(projectId);
      if removed == [] {
        return Ok(false);
      }
      graph.layoutRevision := draft.revision + 1;
      drafts := drafts[index := Draft(draft.id, draft.revision + 1, draft.pendingChanges + 1, at,
                                      Some(graph.Contents()))];
      if graph.layoutId in layouts {
        var row := layouts[graph.layoutId];
        if row.positions.None? {
          return Err(InvalidProjection);
        }
        var kept := RetainOnly(row.positions.value, PositionStays(removed));
        layouts := layouts[graph.layoutId := Layout(draft.revision + 1, at, Some(kept))];
      }
      return Ok(true);
    }

    method StripVersion(index: nat, projectId: string) returns (ok: bool)
      requires index < |versions|
      modifies this
      ensures drafts == old(drafts) && layouts == old(layouts) && projects == old(projects)
      ensures ok <==> old(versions)[index].snapshot.Some?
      ensures ok ==> versions == old(versions)[index := VersionAfter(old(versions)[index], projectId)]
    {
      if versions[index].snapshot.None? {
        return false;
      }
      var graph := new Graph(versions[index].snapshot.value);
      var removed := graph.RemoveProject(projectId);
      if removed != [] {
        versions := versions[index := versions[index].(snapshot := Some(graph.Contents()))];
      }
      return true;
    }

    method StripDrafts(projectId: string, at: string) returns (r: Result<nat, DataError>)
      modifies this
      ensures versions == old(versions) && projects == old(projects)
      ensures r.Err? <==> !DraftsReadable(old(layouts), old(drafts), projectId)
      ensures r.Err? ==> r.error == InvalidProjection
      ensures r.Ok? ==> r.value == AffectedCount(old(drafts), projectId)
      ensures r.Ok? ==> drafts == DraftsAfter(old(drafts), projectId, at)
      ensures r.Ok? ==> layouts == LayoutsAfter(old(layouts), old(drafts), projectId, at)
    {
      var rows := drafts;
      var changed := 0;
      for i := 0 to |rows|
        invariant versions == old(versions) && projects == old(projects)
        invariant PartlyStripped(drafts, rows, i, projectId, at)
        invariant layouts == LayoutsAfter(old(layouts), rows[..i], projectId, at)
        invariant changed == AffectedCount(rows[..i], projectId)
        invariant forall k :: 0 <= k < i ==> DraftReadable(old(layouts), rows[k], projectId)
      {
        assert rows[..i + 1][..i] == rows[..i] && rows[..i + 1][i] == rows[i];
        if rows[i].snapshot.Some? {
          ReadableAlongTheWay(old(layouts), rows[..i], rows[i], projectId, at);
        }
        var stripped := StripDraft(i, projectId, at);
        if stripped.Err? {
          assert !DraftReadable(old(layouts), rows[i], projectId);
          return Err(stripped.error);
        }
        if stripped.value {
          changed := changed + 1;
        }
      }
      assert rows[..|rows|] == rows;
      return Ok(changed);
    }

    method StripVersions(projectId: string) returns (ok: bool)
      modifies this
      ensures drafts == old(drafts) && layouts == old(layouts) && projects == old(projects)
      ensures ok <==> VersionsReadable(old(versions))
      ensures ok ==> versions == VersionsAfter(old(versions), projectId)
    {
      var rows := versions;
      for i := 0 to |rows|
        invariant drafts == old(drafts) && layouts == old(layouts) && projects == old(projects)
        invariant VersionsPartly(versions, rows, i, projectId)
        invariant VersionsReadable(rows[..i])
      {
        var stripped := StripVersion(i, projectId);
        if !stripped {
          return false;
        }
      }
      return true;
    }

    /** All or nothing: a returned error is a transaction rolled back. */
    method RemoveProjectFromSnapshots(projectId: string, at: string) returns (r: Result<(), DataError>)
      modifies this
      ensures r == Outcome(old(Contents()), projectId)
      ensures Contents() == if r.Ok? then AfterRemoval(old(Contents()), projectId, at) else old(Contents())
    {
      var before := Contents();
      var stripped := StripDrafts(projectId, at);
      if stripped.Err? {
        Rollback(before);
        return Err(stripped.error);
      }
      var readable := StripVersions(projectId);
      if !readable {
        Rollback(before);
        return Err(InvalidProjection);
      }
      versions := RetainOnly(versions, VersionSurvives(projectId));
      projects := projects - {projectId};
      if stripped.value == 0 {
        Rollback(before);
        return Err(NotFound("project", projectId));
      }
      return Ok(());
    }

    /** The snapshots that hold the project's own node, filtered; without any the project is not found. */
    method ExportProject(projectId: string) returns (r: Result<seq<Exported>, DataError>)
      ensures r == ExportOutcome(drafts, projectId)
    {
      var snapshots: seq<Exported> := [];
      for i := 0 to |drafts|
        invariant AllDecode(drafts[..i])
        invariant snapshots == ExportsOf(drafts[..i], projectId)
      {
        assert drafts[..i + 1][..i] == drafts[..i];
        if drafts[i].snapshot.None? {
          assert drafts[i] in drafts;
          return Err(InvalidProjection);
        }
        if HasNode(drafts[i].snapshot.value, projectId) {
          var graph := new Graph(drafts[i].snapshot.value);
          graph.FilterProject(projectId);
          snapshots := snapshots + [Exported(drafts[i].id, drafts[i].revision, graph.Contents())];
        }
      }
      assert drafts[..|drafts|] == drafts;
      if snapshots == [] {
        return Err(NotFound("project", projectId));
      }
      return Ok(snapshots);
    }

    method Rollback(before: Tables)
      modifies this
      ensures Contents() == before
    {
      drafts, layouts, versions, projects := before.drafts, before.layouts, before.versions, before.projects;
    }
  }

  /** The first `n` rows are stripped, the others as they were. */
  ghost predicate PartlyStripped(now: seq<Draft>, rows: seq<Draft>, n: nat, projectId: string, at: string) {
    && |now| == |rows|
    && forall k :: 0 <= k < |rows| ==> now[k] == if k < n then DraftAfter(rows[k], projectId, at) else rows[k]
  }

  ghost predicate VersionsPartly(now: seq<Version>, rows: seq<Version>, n: nat, projectId: string) {
    && |now| == |rows|
    && forall k :: 0 <= k < |rows| ==> now[k] == if k < n then VersionAfter(rows[k], projectId) else rows[k]
  }

  // ---- layouts in closed form -------------------------------------------------------

  predicate Feeds(draft: Draft, projectId: string, layoutId: string) {
    Affected(draft, projectId) && draft.snapshot.value.layoutId == layoutId
  }

  /** Node ids that the affected drafts of a layout lose. */
  function TakenFromLayout(drafts: seq<Draft>, projectId: string, layoutId: string): seq<string> {
    if drafts == [] then []
    else
      var last := drafts[|drafts| - 1];
      TakenFromLayout(drafts[..|drafts| - 1], projectId, layoutId)
      + (if Feeds(last, projectId, layoutId) then IdsTaken(last.snapshot, projectId) else [])
  }

  /** The revision the last affected draft of a layout gives it, if there is one. */
  function LastRevision(drafts: seq<Draft>, projectId: string, layoutId: string): Option<int> {
    if drafts == [] then None
    else
      var last := drafts[|drafts| - 1];
      if Feeds(last, projectId, layoutId) then Some(last.revision + 1)
      else LastRevision(drafts[..|drafts| - 1], projectId, layoutId)
  }

  /**
   A layout keeps, in order, exactly the positions of nodes that none of its affected drafts lost,
   also when drafts share it.
   */
  lemma {:induction false} LayoutsInClosedForm(t: Tables, drafts: seq<Draft>, projectId: string, at: string, id: string)
    requires id in t.layouts && t.layouts[id].positions.Some?
    ensures id in LayoutsAfter(t.layouts, drafts, projectId, at)
    ensures var row := LayoutsAfter(t.layouts, drafts, projectId, at)[id];
            && row.positions == Some(Retain(t.layouts[id].positions.value,
                                            PositionStays(TakenFromLayout(drafts, projectId, id))))
            && (LastRevision(drafts, projectId, id).None? ==> row == t.layouts[id])
            && (LastRevision(drafts, projectId, id).Some? ==>
                  row.revision == LastRevision(drafts, projectId, id).value && row.updatedAt == at)
  {
    var positions := t.layouts[id].positions.value;
    if drafts == [] {
      RetainEverything(positions, PositionStays([]));
    } else {
      var front, last := drafts[..|drafts| - 1], drafts[|drafts| - 1];
      LayoutsInClosedForm(t, front, projectId, at, id);
      if Feeds(last, projectId, id) {
        RetainTwice(positions, PositionStays(TakenFromLayout(front, projectId, id)),
            PositionStays(IdsTaken(last.snapshot, projectId)),
                    PositionStays(TakenFromLayout(drafts, projectId, id)));
      } else {
        assert TakenFromLayout(drafts, projectId, id) == TakenFromLayout(front, projectId, id);
      }
    }
  }

  /**
   Exactly the drafts holding a node of the project go up by one revision and one pending change;
   every row keeps its place and id.
   */
  lemma ExactlyHoldersAreBumped(t: Tables, projectId: string, at: string, i: nat)
    requires Readable(t, projectId) && i < |t.drafts|
    ensures |AfterRemoval(t, projectId, at).drafts| == |t.drafts| && t.drafts[i].snapshot.Some?
    ensures var was, now := t.drafts[i], AfterRemoval(t, projectId, at).drafts[i];
            && now.id == was.id
            && if exists n :: n in was.snapshot.value.nodes && BelongsTo(n, projectId) then
                 && now.revision == was.revision + 1 && now.pendingChanges == was.pendingChanges + 1
                    && now.updatedAt == at
                 && now.snapshot.Some? && now.snapshot.value.layoutRevision == was.revision + 1
                 && now.snapshot.value.nodes == Removed(was.snapshot.value, projectId).nodes
                 && now.snapshot.value.edges == Removed(was.snapshot.value, projectId).edges
               else now == was
  {
    assert DraftReadable(t.layouts, t.drafts[i], projectId);
    var ids := RemovedIds(t.drafts[i].snapshot.value.nodes, projectId);
    assert ids == [] || ids[0] in ids;
  }

  // ---- after a removal ------------------------------------------------------------------

  predicate ViewIsEmpty(snapshot: Option<Snapshot>, projectId: string) {
    snapshot.Some? && ViewNodes(snapshot.value.nodes, projectId) == [] && ViewEdges(snapshot.value, projectId) == []
  }

  lemma DraftIsRid(draft: Draft, projectId: string, at: string)
    requires draft.snapshot.Some?
    ensures !Affected(DraftAfter(draft, projectId, at), projectId)
    ensures ViewIsEmpty(DraftAfter(draft, projectId, at).snapshot, projectId)
  {
    RemovalEmptiesView(draft.snapshot.value, projectId);
    UnaffectedIsUntouched(draft.snapshot.value, projectId);
    var after := DraftAfter(draft, projectId, at).snapshot.value;
    assert after.nodes == Removed(draft.snapshot.value, projectId).nodes
           && after.edges == Removed(draft.snapshot.value, projectId).edges;
  }

  lemma VersionIsRid(version: Version, projectId: string)
    requires version.snapshot.Some?
    ensures ViewIsEmpty(VersionAfter(version, projectId).snapshot, projectId)
  {
    RemovalEmptiesView(version.snapshot.value, projectId);
    UnaffectedIsUntouched(version.snapshot.value, projectId);
  }

  /** No draft and no version of a cleaned store shows anything of the project. */
  lemma NothingShowsTheProject(t: Tables, projectId: string, at: string)
    requires Readable(t, projectId)
    ensures var after := AfterRemoval(t, projectId, at);
            && projectId !in after.projects
            && (forall d :: d in after.drafts ==> ViewIsEmpty(d.snapshot, projectId))
            && (forall v :: v in after.versions ==>
                              ViewIsEmpty(v.snapshot, projectId) && v.projectId != Some(projectId))
  {
    var after := AfterRemoval(t, projectId, at);
    forall d | d in after.drafts ensures ViewIsEmpty(d.snapshot, projectId) {
      var i :| 0 <= i < |after.drafts| && after.drafts[i] == d;
      assert DraftReadable(t.layouts, t.drafts[i], projectId);
      DraftIsRid(t.drafts[i], projectId, at);
    }
    var stripped := VersionsAfter(t.versions, projectId);
    forall v | v in after.versions ensures ViewIsEmpty(v.snapshot, projectId) {
      var i :| 0 <= i < |stripped| && stripped[i] == v;
      VersionIsRid(t.versions[i], projectId);
    }
  }

  lemma {:induction false} CountIsZero(drafts: seq<Draft>, projectId: string)
    ensures AffectedCount(drafts, projectId) == 0 <==> forall i :: 0 <= i < |drafts| ==> !Affected(drafts[i], projectId)
  {
    if drafts != [] {
      CountIsZero(drafts[..|drafts| - 1], projectId);
      assert forall i :: 0 <= i < |drafts| - 1 ==> drafts[..|drafts| - 1][i] == drafts[i];
    }
  }

  /** A second removal of the same project is refused as not found. */
  lemma SecondRemovalIsRefused(t: Tables, projectId: string, at: string)
    requires Outcome(t, projectId).Ok?
    ensures Outcome(AfterRemoval(t, projectId, at), projectId) == Err(NotFound("project", projectId))
  {
    var after := AfterRemoval(t, projectId, at);
    forall i | 0 <= i < |after.drafts| ensures !Affected(after.drafts[i], projectId)
    && DraftReadable(after.layouts, after.drafts[i], projectId) {
      assert DraftReadable(t.layouts, t.drafts[i], projectId);
      DraftIsRid(t.drafts[i], projectId, at);
    }
    CountIsZero(after.drafts, projectId);
    NothingShowsTheProject(t, projectId, at);
    forall i | 0 <= i < |after.versions| ensures after.versions[i].snapshot.Some? {
      assert after.versions[i] in after.versions;
    }
  }

  /**
   Not found exactly when everything decodes and no draft holds a node of the project: versions alone
   are not searched.
   */
  lemma RefusedExactlyWhenNoDraftHoldsIt(t: Tables, projectId: string)
    requires Readable(t, projectId)
    ensures Outcome(t, projectId) == Err(NotFound("project", projectId))
            <==> forall d, n :: d in t.drafts && n in d.snapshot.value.nodes ==> !BelongsTo(n, projectId)
  {
    CountIsZero(t.drafts, projectId);
    forall i | 0 <= i < |t.drafts|
      ensures t.drafts[i].snapshot.Some?
      ensures Affected(t.drafts[i], projectId)
              <==> exists n :: n in t.drafts[i].snapshot.value.nodes && BelongsTo(n, projectId)
    {
      assert DraftReadable(t.layouts, t.drafts[i], projectId);
      var nodes := t.drafts[i].snapshot.value.nodes;
      var ids := RemovedIds(nodes, projectId);
      assert ids == [] || ids[0] in ids;
    }
  }

  // ---- export and removal ----------------------------------------------------------------

  lemma {:induction false} ExportsAreHolders(drafts: seq<Draft>, projectId: string)
    requires AllDecode(drafts)
    ensures ExportsOf(drafts, projectId) == []
            <==> forall i :: 0 <= i < |drafts| ==> !HasNode(drafts[i].snapshot.value, projectId)
  {
    if drafts != [] {
      var front := drafts[..|drafts| - 1];
      ExportsAreHolders(front, projectId);
      assert forall i :: 0 <= i < |front| ==> front[i] == drafts[i];
    }
  }

  /** Everything exported is an export of a draft that held the project's node, and no such draft is passed over. */
  lemma {:induction false} ExportIsComplete(drafts: seq<Draft>, projectId: string, d: Draft)
    requires AllDecode(drafts) && d in drafts
    ensures HasNode(d.snapshot.value, projectId) ==>
              Exported(d.id, d.revision, Export(d.snapshot.value, projectId)) in ExportsOf(drafts, projectId)
    ensures forall e :: e in ExportsOf(drafts, projectId) ==>
              e.snapshot.focusId == projectId && HasNode(e.snapshot, projectId)
  {
    var last := drafts[|drafts| - 1];
    var front := drafts[..|drafts| - 1];
    if HasNode(last.snapshot.value, projectId) {
      ExportKeepsProjectNode(last.snapshot.value, projectId);
    }
    if front == [] {
      assert drafts == [last];
    } else {
      ExportIsComplete(front, projectId, if d in front then d else front[0]);
    }
    assert d in front || d == last;
  }

  /** After a removal the project's export is refused as not found. */
  lemma RemovedIsNotExported(t: Tables, projectId: string, at: string)
    requires Readable(t, projectId)
    ensures ExportOutcome(AfterRemoval(t, projectId, at).drafts, projectId) == Err(NotFound("project", projectId))
  {
    var drafts := AfterRemoval(t, projectId, at).drafts;
    forall i | 0 <= i < |drafts|
      ensures drafts[i].snapshot.Some? && !HasNode(drafts[i].snapshot.value, projectId)
    {
      assert DraftReadable(t.layouts, t.drafts[i], projectId);
      DraftHasNoNode(t.drafts[i], projectId, at);
    }
    ExportsAreHolders(drafts, projectId);
  }

  lemma DraftHasNoNode(draft: Draft, projectId: string, at: string)
    requires draft.snapshot.Some?
    ensures DraftAfter(draft, projectId, at).snapshot.Some?
    ensures !HasNode(DraftAfter(draft, projectId, at).snapshot.value, projectId)
  {
    RemovalTakesProjectNode(draft.snapshot.value, projectId);
    UnaffectedIsUntouched(draft.snapshot.value, projectId);
    var after := DraftAfter(draft, projectId, at).snapshot.value;
    assert after.nodes == Removed(draft.snapshot.value, projectId).nodes;
  }

  /** What can be exported can be removed. */
  lemma ExportedCanBeRemoved(t: Tables, projectId: string)
    requires Readable(t, projectId) && ExportOutcome(t.drafts, projectId).Ok?
    ensures Outcome(t, projectId).Ok?
  {
    ExportsAreHolders(t.drafts, projectId);
    var i :| 0 <= i < |t.drafts| && HasNode(t.drafts[i].snapshot.value, projectId);
    var n :| n in t.drafts[i].snapshot.value.nodes && n.id == projectId;
    assert n.id in RemovedIds(t.drafts[i].snapshot.value.nodes, projectId);
    CountIsZero(t.drafts, projectId);
  }
}
