/**
 Project surgery on one graph snapshot: removal and export (backend/src/data_management.rs),
 and the frontend's view of one project (frontend/data-source.js).
 */
module ProjectGraphs {
  import opened Wrappers

  datatype NodeKind =
    | Workspace | Host | Project | ComposeProject | Service | Container
    | Image | Network | Volume | Port | Document | Unknown

  /** `payload` stands for the fields no operation here reads. */
  datatype Node = Node(id: string, kind: NodeKind, projectId: Option<string>, payload: string)

  datatype Edge = Edge(id: string, from: string, to: string, payload: string)

  datatype FocusKind = GlobalScope | ProjectScope

  datatype Snapshot = Snapshot(
    focusKind: FocusKind, focusId: string, nodes: seq<Node>, edges: seq<Edge>, layoutId: string, layoutRevision: int)

  // ---- keeping part of a list --------------------------------------------------

  function Retain<T(==,!new)>(xs: seq<T>, keep: T -> bool): (r: seq<T>)
    ensures forall x :: x in r <==> x in xs && keep(x)
  {
    if xs == [] then []
    else
      var rest := Retain(xs[..|xs| - 1], keep);
      assert forall x :: x in xs <==> x in xs[..|xs| - 1] || x == xs[|xs| - 1];
      if keep(xs[|xs| - 1]) then rest + [xs[|xs| - 1]] else rest
  }

  method RetainOnly<T(==,!new)>(xs: seq<T>, keep: T -> bool) returns (r: seq<T>)
    ensures r == Retain(xs, keep)
  {
    r := [];
    for i := 0 to |xs|
      invariant r == Retain(xs[..i], keep)
    {
      assert xs[..i + 1][..i] == xs[..i];
      if keep(xs[i]) {
        r := r + [xs[i]];
      }
    }
    assert xs[..|xs|] == xs;
  }

  /** What is kept stays in order: keeping distributes over concatenation. */
  lemma {:induction false} RetainKeepsOrder<T(!new)>(xs: seq<T>, ys: seq<T>, keep: T -> bool)
    ensures Retain(xs + ys, keep) == Retain(xs, keep) + Retain(ys, keep)
  {
    if ys == [] {
      assert xs + ys == xs;
    } else {
      assert (xs + ys)[..|xs + ys| - 1] == xs + ys[..|ys| - 1];
      RetainKeepsOrder(xs, ys[..|ys| - 1], keep);
    }
  }

  lemma {:induction false} RetainEverything<T(!new)>(xs: seq<T>, keep: T -> bool)
    requires forall x :: x in xs ==> keep(x)
    ensures Retain(xs, keep) == xs
  {
    if xs != [] {
      assert xs[|xs| - 1] in xs;
      RetainEverything(xs[..|xs| - 1], keep);
    }
  }

  lemma {:induction false} RetainTwice<T(!new)>(xs: seq<T>, first: T -> bool, second: T -> bool, both: T -> bool)
    requires forall x :: x in xs ==> (both(x) <==> first(x) && second(x))
    ensures Retain(Retain(xs, first), second) == Retain(xs, both)
  {
    if xs != [] {
      var n := |xs| - 1;
      assert xs[n] in xs && forall x :: x in xs[..n] ==> x in xs;
      RetainTwice(xs[..n], first, second, both);
      var front := Retain(xs[..n], first);
      if first(xs[n]) {
        assert (front + [xs[n]])[..|front + [xs[n]]| - 1] == front;
      }
    }
  }

  // ---- removal -------------------------------------------------------------------

  predicate BelongsTo(node: Node, projectId: string) {
    node.id == projectId || node.projectId == Some(projectId)
  }

  /** Ids of the project's nodes, in node order. */
  function RemovedIds(nodes: seq<Node>, projectId: string): (r: seq<string>)
    ensures forall n :: n in nodes && BelongsTo(n, projectId) ==> n.id in r
    ensures forall id :: id in r ==> exists n :: n in nodes && BelongsTo(n, projectId) && n.id == id
  {
    if nodes == [] then []
    else
      var last := nodes[|nodes| - 1];
      var rest := RemovedIds(nodes[..|nodes| - 1], projectId);
      assert forall n :: n in nodes <==> n in nodes[..|nodes| - 1] || n == last;
      if BelongsTo(last, projectId) then rest + [last.id] else rest
  }

  function NodeStays(removed: seq<string>): Node -> bool {
    (n: Node) => n.id !in removed
  }

  function EdgeStays(removed: seq<string>): Edge -> bool {
    (e: Edge) => e.from !in removed && e.to !in removed
  }

  function Without(s: Snapshot, removed: seq<string>): Snapshot {
    s.(nodes := Retain(s.nodes, NodeStays(removed)), edges := Retain(s.edges, EdgeStays(removed)))
  }

  function Removed(s: Snapshot, projectId: string): Snapshot {
    Without(s, RemovedIds(s.nodes, projectId))
  }

  // ---- export ----------------------------------------------------------------------

  predicate Joins(e: Edge, a: string, b: string) {
    (e.from == a && e.to == b) || (e.to == a && e.from == b)
  }

  predicate IsExported(s: Snapshot, projectId: string, node: Node) {
    BelongsTo(node, projectId) || exists e :: e in s.edges && Joins(e, projectId, node.id)
  }

  /** Ids of the first `n` nodes that the export keeps. */
  function KeptIds(s: Snapshot, projectId: string, n: nat): (r: seq<string>)
    requires n <= |s.nodes|
    ensures forall i :: 0 <= i < n && IsExported(s, projectId, s.nodes[i]) ==> s.nodes[i].id in r
    ensures forall id :: id in r ==>
                           exists i :: 0 <= i < n && IsExported(s, projectId, s.nodes[i]) && s.nodes[i].id == id
  {
    if n == 0 then []
    else
      var rest := KeptIds(s, projectId, n - 1);
      if IsExported(s, projectId, s.nodes[n - 1]) then rest + [s.nodes[n - 1].id] else rest
  }

  function NodeKept(keep: seq<string>): Node -> bool {
    (n: Node) => n.id in keep
  }

  function EdgeKept(keep: seq<string>): Edge -> bool {
    (e: Edge) => e.from in keep && e.to in keep
  }

  function Export(s: Snapshot, projectId: string): Snapshot {
    var keep := KeptIds(s, projectId, |s.nodes|);
    s.(nodes := Retain(s.nodes, NodeKept(keep)), edges := Retain(s.edges, EdgeKept(keep)), focusId := projectId)
  }

  // ---- the frontend's view -----------------------------------------------------------

  predicate InView(node: Node, projectId: string) {
    (node.kind == Project && node.id == projectId) || (node.kind != Project && node.projectId == Some(projectId))
  }

  function ViewNodes(nodes: seq<Node>, projectId: string): seq<Node> {
    Retain(nodes, (n: Node) => InView(n, projectId))
  }

  function Ids(nodes: seq<Node>): set<string> {
    set n | n in nodes :: n.id
  }

  function EdgeWithin(ids: set<string>): Edge -> bool {
    (e: Edge) => e.from in ids && e.to in ids
  }

  function ViewEdges(s: Snapshot, projectId: string): seq<Edge> {
    Retain(s.edges, EdgeWithin(Ids(ViewNodes(s.nodes, projectId))))
  }

  /** The view shows the project's node and what belongs to it, and the edges between two nodes shown. */
  lemma ViewShowsExactly(s: Snapshot, projectId: string, node: Node, edge: Edge)
    ensures node in ViewNodes(s.nodes, projectId)
            <==> node in s.nodes && if node.kind == Project then node.id == projectId
                                    else node.projectId == Some(projectId)
    ensures edge in ViewEdges(s, projectId)
            <==> && edge in s.edges
                 && (exists a :: a in ViewNodes(s.nodes, projectId) && a.id == edge.from)
                 && (exists b :: b in ViewNodes(s.nodes, projectId) && b.id == edge.to)
  {
  }

  // ---- in place ------------------------------------------------------------------

  class Graph {
    var focusKind: FocusKind
    var focusId: string
    var nodes: seq<Node>
    var edges: seq<Edge>
    var layoutId: string
    var layoutRevision: int

    function Contents(): Snapshot
      reads this
    {
      Snapshot(focusKind, focusId, nodes, edges, layoutId, layoutRevision)
    }

    constructor (s: Snapshot)
      ensures Contents() == s
    {
      focusKind, focusId, nodes, edges := s.focusKind, s.focusId, s.nodes, s.edges;
      layoutId, layoutRevision := s.layoutId, s.layoutRevision;
    }

    method RemoveProject(projectId: string) returns (removed: seq<string>)
      modifies this
      ensures Contents() == Removed(old(Contents()), projectId)
      ensures removed == RemovedIds(old(nodes), projectId)
    {
      removed := [];
      for i := 0 to |nodes|
        invariant Contents() == old(Contents())
        invariant removed == RemovedIds(nodes[..i], projectId)
      {
        assert nodes[..i + 1][..i] == nodes[..i];
        if nodes[i].id == projectId || nodes[i].projectId == Some(projectId) {
          removed := removed + [nodes[i].id];
        }
      }
      assert nodes[..|nodes|] == nodes;
      nodes := RetainOnly(nodes, NodeStays(removed));
      edges := RetainOnly(edges, EdgeStays(removed));
    }

    method FilterProject(projectId: string)
      modifies this
      ensures Contents() == Export(old(Contents()), projectId)
    {
      var keep: seq<string> := [];
      for i := 0 to |nodes|
        invariant Contents() == old(Contents())
        invariant keep == KeptIds(Contents(), projectId, i)
      {
        if IsExported(Contents(), projectId, nodes[i]) {
          keep := keep + [nodes[i].id];
        }
      }
      nodes := RetainOnly(nodes, NodeKept(keep));
      edges := RetainOnly(edges, EdgeKept(keep));
      focusId := projectId;
    }
  }

  // ---- what removal promises ---------------------------------------------------------

  predicate HasNode(s: Snapshot, id: string) {
    exists n :: n in s.nodes && n.id == id
  }

  predicate Dangling(s: Snapshot, e: Edge) {
    !HasNode(s, e.from) || !HasNode(s, e.to)
  }

  /** An id is taken out exactly when one of the project's nodes carries it. */
  predicate Taken(s: Snapshot, projectId: string, id: string) {
    exists n :: n in s.nodes && n.id == id && BelongsTo(n, projectId)
  }

  lemma TakenIsRemoved(s: Snapshot, projectId: string, id: string)
    ensures id in RemovedIds(s.nodes, projectId) <==> Taken(s, projectId, id)
  {
  }

  /** Exactly the nodes whose id is taken go, and exactly the edges touching a taken id. */
  lemma RemovalTakesExactly(s: Snapshot, projectId: string)
    ensures forall n :: n in Removed(s, projectId).nodes <==> n in s.nodes && !Taken(s, projectId, n.id)
    ensures forall e :: e in Removed(s, projectId).edges
              <==> e in s.edges && !Taken(s, projectId, e.from) && !Taken(s, projectId, e.to)
  {
    forall id ensures id in RemovedIds(s.nodes, projectId) <==> Taken(s, projectId, id) {
      TakenIsRemoved(s, projectId, id);
    }
  }

  /** An edge that survives dangles afterwards only if it dangled before. */
  lemma RemovalIntroducesNoDangling(s: Snapshot, projectId: string, e: Edge)
    requires e in Removed(s, projectId).edges
    ensures Dangling(Removed(s, projectId), e) <==> Dangling(s, e)
  {
    RemovalTakesExactly(s, projectId);
    StaysPut(s, projectId, e.from);
    StaysPut(s, projectId, e.to);
  }

  lemma StaysPut(s: Snapshot, projectId: string, id: string)
    requires !Taken(s, projectId, id)
    ensures HasNode(Removed(s, projectId), id) <==> HasNode(s, id)
  {
    RemovalTakesExactly(s, projectId);
    if HasNode(s, id) {
      var n :| n in s.nodes && n.id == id;
      assert n in Removed(s, projectId).nodes;
    }
    if HasNode(Removed(s, projectId), id) {
      var n :| n in Removed(s, projectId).nodes && n.id == id;
      assert n in s.nodes;
    }
  }

  /** Afterwards no node belongs to the project, so its frontend view is empty and a second removal finds nothing. */
  lemma RemovalEmptiesView(s: Snapshot, projectId: string)
    ensures RemovedIds(Removed(s, projectId).nodes, projectId) == []
    ensures ViewNodes(Removed(s, projectId).nodes, projectId) == []
    ensures ViewEdges(Removed(s, projectId), projectId) == []
    ensures Removed(Removed(s, projectId), projectId) == Removed(s, projectId)
  {
    var after := Removed(s, projectId);
    RemovalTakesExactly(s, projectId);
    NothingToRemove(after, projectId);
    assert forall n :: n in ViewNodes(after.nodes, projectId) ==> n in after.nodes && BelongsTo(n, projectId);
    NoMembers(ViewNodes(after.nodes, projectId));
    assert Ids(ViewNodes(after.nodes, projectId)) == {};
    NoMembers(ViewEdges(after, projectId));
  }

  lemma NoMembers<T(!new)>(xs: seq<T>)
    requires forall x :: x !in xs
    ensures xs == []
  {
    SomeMember(xs);
  }

  lemma SomeMember<T(!new)>(xs: seq<T>)
    ensures xs == [] || exists x :: x in xs
  {
    if xs != [] {
      assert xs[0] in xs;
    }
  }

  lemma NothingToRemove(s: Snapshot, projectId: string)
    requires forall n :: n in s.nodes ==> !BelongsTo(n, projectId)
    ensures RemovedIds(s.nodes, projectId) == []
    ensures Removed(s, projectId) == s
  {
    NoMembers(RemovedIds(s.nodes, projectId));
    RetainEverything(s.nodes, NodeStays([]));
    RetainEverything(s.edges, EdgeStays([]));
  }

  /** A snapshot changes exactly when it holds a node of the project. */
  lemma UnaffectedIsUntouched(s: Snapshot, projectId: string)
    ensures RemovedIds(s.nodes, projectId) == [] <==> Removed(s, projectId).nodes == s.nodes
    ensures RemovedIds(s.nodes, projectId) == [] ==> Removed(s, projectId) == s
  {
    var ids := RemovedIds(s.nodes, projectId);
    if ids == [] {
      RetainEverything(s.nodes, NodeStays([]));
      RetainEverything(s.edges, EdgeStays([]));
    } else {
      assert ids[0] in ids;
      var n :| n in s.nodes && BelongsTo(n, projectId) && n.id == ids[0];
      assert n !in Removed(s, projectId).nodes;
    }
  }

  /** Which project goes first does not matter, whatever ids nodes share. */
  lemma RemovalsCommute(s: Snapshot, p: string, q: string)
    ensures Removed(Removed(s, p), q) == Removed(Removed(s, q), p)
  {
    RemovedTwice(s, p, q);
    RemovedTwice(s, q, p);
    var pq, qp := RemovedIds(s.nodes, p) + RemovedIds(s.nodes, q), RemovedIds(s.nodes, q) + RemovedIds(s.nodes, p);
    RetainTwice(s.nodes, NodeStays(pq), NodeStays([]), NodeStays(qp));
    RetainTwice(s.edges, EdgeStays(pq), EdgeStays([]), EdgeStays(qp));
    RetainEverything(Retain(s.nodes, NodeStays(pq)), NodeStays([]));
    RetainEverything(Retain(s.edges, EdgeStays(pq)), EdgeStays([]));
  }

  /** Removing two projects in turn takes out the ids of both. */
  lemma RemovedTwice(s: Snapshot, p: string, q: string)
    ensures Removed(Removed(s, p), q) == Without(s, RemovedIds(s.nodes, p) + RemovedIds(s.nodes, q))
  {
    var first := Removed(s, p);
    var ps, qs, rest := RemovedIds(s.nodes, p), RemovedIds(s.nodes, q), RemovedIds(first.nodes, q);
    forall id ensures id in ps + rest <==> id in ps + qs {
      RestIds(s, p, q, id);
    }
    RetainTwice(s.nodes, NodeStays(ps), NodeStays(rest), NodeStays(ps + qs));
    RetainTwice(s.edges, EdgeStays(ps), EdgeStays(rest), EdgeStays(ps + qs));
  }

  lemma RestIds(s: Snapshot, p: string, q: string, id: string)
    ensures id in RemovedIds(s.nodes, p) || id in RemovedIds(Removed(s, p).nodes, q)
            <==> id in RemovedIds(s.nodes, p) || id in RemovedIds(s.nodes, q)
  {
    if id !in RemovedIds(s.nodes, p) {
      if id in RemovedIds(s.nodes, q) {
        var n :| n in s.nodes && BelongsTo(n, q) && n.id == id;
        assert n in Removed(s, p).nodes;
      }
      if id in RemovedIds(Removed(s, p).nodes, q) {
        var n :| n in Removed(s, p).nodes && BelongsTo(n, q) && n.id == id;
        assert n in s.nodes;
      }
    }
  }

  // ---- what export promises ------------------------------------------------------------

  predicate KeptId(s: Snapshot, projectId: string, id: string) {
    exists n :: n in s.nodes && n.id == id && IsExported(s, projectId, n)
  }

  lemma KeptIdsAre(s: Snapshot, projectId: string, id: string)
    ensures id in KeptIds(s, projectId, |s.nodes|) <==> KeptId(s, projectId, id)
  {
    if KeptId(s, projectId, id) {
      var n :| n in s.nodes && n.id == id && IsExported(s, projectId, n);
      var i :| 0 <= i < |s.nodes| && s.nodes[i] == n;
    }
  }

  /**
   The export holds exactly the nodes sharing an id with the project's nodes or its neighbours, and
   exactly the edges between such ids; none dangles.
   */
  lemma ExportIsClosed(s: Snapshot, projectId: string)
    ensures forall n :: n in Export(s, projectId).nodes <==> n in s.nodes && KeptId(s, projectId, n.id)
    ensures forall e :: e in Export(s, projectId).edges
              <==> e in s.edges && KeptId(s, projectId, e.from) && KeptId(s, projectId, e.to)
    ensures forall e :: e in Export(s, projectId).edges ==> !Dangling(Export(s, projectId), e)
  {
    forall id ensures id in KeptIds(s, projectId, |s.nodes|) <==> KeptId(s, projectId, id) {
      KeptIdsAre(s, projectId, id);
    }
    forall e | e in Export(s, projectId).edges ensures !Dangling(Export(s, projectId), e) {
      KeptIdHasNode(s, projectId, e.from);
      KeptIdHasNode(s, projectId, e.to);
    }
  }

  lemma KeptIdHasNode(s: Snapshot, projectId: string, id: string)
    requires id in KeptIds(s, projectId, |s.nodes|)
    ensures HasNode(Export(s, projectId), id)
  {
    KeptIdsAre(s, projectId, id);
    var n :| n in s.nodes && n.id == id && IsExported(s, projectId, n);
    assert n in Export(s, projectId).nodes;
  }

  /** An export of a snapshot that holds the project's node keeps it. */
  lemma ExportKeepsProjectNode(s: Snapshot, projectId: string)
    requires HasNode(s, projectId)
    ensures HasNode(Export(s, projectId), projectId)
  {
    ExportIsClosed(s, projectId);
    var n :| n in s.nodes && n.id == projectId;
    assert IsExported(s, projectId, n) && KeptId(s, projectId, n.id);
    assert n in Export(s, projectId).nodes;
  }

  /** After its removal no node carries the project's id, nor belongs to it. */
  lemma RemovalTakesProjectNode(s: Snapshot, projectId: string)
    ensures !HasNode(Removed(s, projectId), projectId)
  {
    RemovalTakesExactly(s, projectId);
    forall n | n in Removed(s, projectId).nodes ensures n.id != projectId {
      assert n.id == projectId ==> BelongsTo(n, projectId) && Taken(s, projectId, n.id);
    }
  }
}
