/** Workflow documents as records, and the walks through their edges. */
module WorkflowDocument {
  import opened Wrappers
  import opened Sequences

  datatype Kind = TriggerKind | AgentKind | ResultKind | OtherKind

  /** The role a stored role string resolves to. */
  datatype Role = Orchestrator | CubeAnalyst | Evaluator | Insight | Conversational

  /** `role` is None when the stored role resolves to no supported role. */
  datatype NodeData = NodeData(controller: bool, tools: seq<string>, role: Option<Role>)

  datatype Node = Node(id: string, kind: Kind, data: Option<NodeData>)

  datatype Edge = Edge(
    id: string, source: string, target: string,
    route: Option<string>, isLoop: bool, maxIterations: Option<int>)

  datatype Document = Document(nodes: seq<Node>, edges: seq<Edge>)

  const DEFAULT_ROUTE := "success"

  function RouteOf(e: Edge): string {
    match e.route
    case Some(r) => r
    case None => DEFAULT_ROUTE
  }

  predicate IsController(n: Node) {
    n.data.Some? && n.data.value.controller
  }

  function NodeIds(doc: Document): (ids: seq<string>)
    ensures |ids| == |doc.nodes|
    ensures forall i :: 0 <= i < |ids| ==> ids[i] == doc.nodes[i].id
  {
    seq(|doc.nodes|, i requires 0 <= i < |doc.nodes| => doc.nodes[i].id)
  }

  predicate DistinctIds(doc: Document) {
    Distinct(NodeIds(doc))
  }

  predicate EdgesConnect(doc: Document) {
    forall e :: e in doc.edges ==> e.source in NodeIds(doc) && e.target in NodeIds(doc)
  }

  predicate LoopsBounded(doc: Document) {
    forall e :: e in doc.edges && e.isLoop ==> e.maxIterations.Some? && e.maxIterations.value >= 1
  }

  /** The edges leaving `source`, in document order. */
  function Outgoing(edges: seq<Edge>, source: string): seq<Edge> {
    if edges == [] then []
    else (if edges[0].source == source then [edges[0]] else []) + Outgoing(edges[1..], source)
  }

  lemma {:induction false} OutgoingAreThoseFrom(edges: seq<Edge>, source: string)
    ensures forall e :: e in Outgoing(edges, source) <==> e in edges && e.source == source
  {
    if edges != [] {
      OutgoingAreThoseFrom(edges[1..], source);
    }
  }

  function FirstWithRoute(edges: seq<Edge>, route: string): Option<Edge> {
    if edges == [] then None
    else if RouteOf(edges[0]) == route then Some(edges[0])
    else FirstWithRoute(edges[1..], route)
  }

  lemma {:induction false} FirstWithRouteFinds(edges: seq<Edge>, route: string)
    ensures FirstWithRoute(edges, route).None? <==> forall e :: e in edges ==> RouteOf(e) != route
    ensures var r := FirstWithRoute(edges, route); r.Some? ==> r.value in edges && RouteOf(r.value) == route
  {
    if edges != [] {
      FirstWithRouteFinds(edges[1..], route);
    }
  }

  /** The place of the first edge out of `source` with this route, in document order. */
  ghost predicate FirstOutAt(edges: seq<Edge>, source: string, route: string, i: int) {
    && 0 <= i < |edges| && edges[i].source == source && RouteOf(edges[i]) == route
    && forall j :: 0 <= j < i && edges[j].source == source ==> RouteOf(edges[j]) != route
  }

  /** The place of the first edge out of `source`. */
  ghost predicate FirstFromAt(edges: seq<Edge>, source: string, i: int) {
    0 <= i < |edges| && edges[i].source == source && forall j :: 0 <= j < i ==> edges[j].source != source
  }

  /** More than one edge leaves the node. */
  ghost predicate Forks(edges: seq<Edge>, source: string) {
    exists i, j :: 0 <= i < j < |edges| && edges[i].source == source == edges[j].source
  }

  /** Some edge leaves the node. */
  ghost predicate Leads(edges: seq<Edge>, source: string) {
    exists e :: e in edges && e.source == source
  }

  /** Looking a route up among the outgoing edges is looking for the first place in the document. */
  lemma {:induction false} RouteLookUp(edges: seq<Edge>, source: string, route: string) returns (i: nat)
    ensures forall j :: 0 <= j < i && j < |edges| && edges[j].source == source ==> RouteOf(edges[j]) != route
    ensures i < |edges| ==> FirstOutAt(edges, source, route, i)
    ensures FirstWithRoute(Outgoing(edges, source), route) == if i < |edges| then Some(edges[i]) else None
  {
    if edges == [] {
      i := 0;
    } else {
      var tail, e := edges[1..], edges[0];
      if e.source == source && RouteOf(e) == route {
        i := 0;
      } else {
        var k := RouteLookUp(tail, source, route);
        i := k + 1;
        FirstOutLater(edges, source, route, k);
        SkipFirst(edges, source, route);
      }
    }
  }

  lemma SkipFirst(edges: seq<Edge>, source: string, route: string)
    requires edges != [] && !(edges[0].source == source && RouteOf(edges[0]) == route)
    ensures FirstWithRoute(Outgoing(edges, source), route) == FirstWithRoute(Outgoing(edges[1..], source), route)
  {
    var rest, e := Outgoing(edges[1..], source), edges[0];
    if e.source == source {
      assert Outgoing(edges, source) == [e] + rest && ([e] + rest)[1..] == rest;
    } else {
      assert Outgoing(edges, source) == rest;
    }
  }

  lemma FirstOutLater(edges: seq<Edge>, source: string, route: string, k: nat)
    requires edges != [] && !(edges[0].source == source && RouteOf(edges[0]) == route)
    requires forall j :: 0 <= j < k && j < |edges[1..]| && edges[1..][j].source == source ==> RouteOf(edges[1..][j]) != route
    ensures forall j :: 0 <= j < k + 1 && j < |edges| && edges[j].source == source ==> RouteOf(edges[j]) != route
    ensures FirstOutAt(edges[1..], source, route, k) ==> FirstOutAt(edges, source, route, k + 1)
  {
  }

  lemma {:induction false} FirstOutgoing(edges: seq<Edge>, source: string) returns (i: nat)
    requires Outgoing(edges, source) != []
    ensures FirstFromAt(edges, source, i) && Outgoing(edges, source)[0] == edges[i]
  {
    if edges[0].source == source {
      i := 0;
    } else {
      var k := FirstOutgoing(edges[1..], source);
      i := k + 1;
    }
  }

  /** Counting the ways out of a node, without the list of them. */
  lemma {:induction false} WaysOut(edges: seq<Edge>, source: string)
    ensures Outgoing(edges, source) != [] <==> Leads(edges, source)
    ensures |Outgoing(edges, source)| > 1 <==> Forks(edges, source)
  {
    OutgoingAreThoseFrom(edges, source);
    if edges != [] {
      WaysOut(edges[1..], source);
      OutgoingAreThoseFrom(edges[1..], source);
      LaterForks(edges, source);
    }
    if Outgoing(edges, source) != [] {
      assert Outgoing(edges, source)[0] in Outgoing(edges, source);
    }
  }

  lemma LaterForks(edges: seq<Edge>, source: string)
    requires edges != []
    ensures Forks(edges, source) <==> Forks(edges[1..], source) || (edges[0].source == source && Leads(edges[1..], source))
  {
  }

  /** The node stored under an id; of several with the same id the last wins. */
  function LookUp(nodes: seq<Node>, id: string): Option<Node> {
    if nodes == [] then None
    else if nodes[|nodes| - 1].id == id then Some(nodes[|nodes| - 1])
    else LookUp(nodes[..|nodes| - 1], id)
  }

  lemma {:induction false} LookUpFinds(nodes: seq<Node>, id: string)
    ensures LookUp(nodes, id).None? <==> forall n :: n in nodes ==> n.id != id
    ensures var r := LookUp(nodes, id); r.Some? ==> r.value in nodes && r.value.id == id
  {
    if nodes != [] {
      assert nodes == nodes[..|nodes| - 1] + [nodes[|nodes| - 1]];
      LookUpFinds(nodes[..|nodes| - 1], id);
    }
  }

  lemma LookUpFindsId(doc: Document, id: string)
    requires id in NodeIds(doc)
    ensures LookUp(doc.nodes, id).Some? && LookUp(doc.nodes, id).value.id == id
  {
    var i := IndexOf(NodeIds(doc), id);
    assert doc.nodes[i] in doc.nodes;
    LookUpFinds(doc.nodes, id);
  }

  lemma LookUpIsTheNode(doc: Document, n: Node)
    requires DistinctIds(doc) && n in doc.nodes
    ensures LookUp(doc.nodes, n.id) == Some(n)
  {
    LookUpFinds(doc.nodes, n.id);
    var m := LookUp(doc.nodes, n.id).value;
    var i :| 0 <= i < |doc.nodes| && doc.nodes[i] == n;
    var j :| 0 <= j < |doc.nodes| && doc.nodes[j] == m;
    assert NodeIds(doc)[i] == NodeIds(doc)[j];
  }

  // ---- Walks

  ghost predicate Chained(w: seq<Edge>) {
    forall i, j :: 0 <= i && i + 1 == j < |w| ==> w[i].target == w[j].source
  }

  ghost predicate IsWalk(edges: seq<Edge>, w: seq<Edge>) {
    && (forall e :: e in w ==> e in edges)
    && Chained(w)
  }

  /** Where a walk that starts at `a` ends. */
  function EndOf(a: string, w: seq<Edge>): string {
    if w == [] then a else w[|w| - 1].target
  }

  /** `w` is a walk of the given edges from `a` to `b`. */
  ghost predicate WalkFrom(edges: seq<Edge>, a: string, w: seq<Edge>, b: string) {
    && IsWalk(edges, w)
    && (w != [] ==> w[0].source == a)
    && EndOf(a, w) == b
  }

  function SourcesOf(w: seq<Edge>): (s: seq<string>)
    ensures |s| == |w|
    ensures forall i :: 0 <= i < |w| ==> s[i] == w[i].source
  {
    seq(|w|, i requires 0 <= i < |w| => w[i].source)
  }

  predicate NonLoop(w: seq<Edge>) {
    forall e :: e in w ==> !e.isLoop
  }

  ghost predicate ClosedWalk(edges: seq<Edge>, w: seq<Edge>) {
    && w != []
    && IsWalk(edges, w)
    && w[|w| - 1].target == w[0].source
  }

  /** What a published Workflow must not have: a way round that no loop edge counts. */
  ghost predicate HasUncountedCycle(doc: Document) {
    exists w :: ClosedWalk(doc.edges, w) && NonLoop(w)
  }

  /** Any stretch of a walk is a walk. */
  lemma SubWalk(edges: seq<Edge>, w: seq<Edge>, i: nat, j: nat)
    requires IsWalk(edges, w) && i <= j <= |w|
    ensures IsWalk(edges, w[i..j])
    ensures NonLoop(w) ==> NonLoop(w[i..j])
  {
  }

  lemma JoinWalks(edges: seq<Edge>, a: string, v: seq<Edge>, b: string, w: seq<Edge>, c: string)
    requires WalkFrom(edges, a, v, b) && WalkFrom(edges, b, w, c)
    ensures WalkFrom(edges, a, v + w, c)
  {
  }

  ghost predicate Reachable(doc: Document, v: string) {
    exists t, w :: IsTriggerId(doc, t) && WalkFrom(doc.edges, t, w, v)
  }

  predicate IsTriggerId(doc: Document, id: string) {
    exists n :: n in doc.nodes && n.kind.TriggerKind? && n.id == id
  }

  predicate IsResultId(doc: Document, id: string) {
    exists n :: n in doc.nodes && n.kind.ResultKind? && n.id == id
  }

  // ---- Which edges the search may return to

  /** A walk whose nodes are all different except that it ends on one of them, the round it
      closes holding no loop edge. */
  ghost predicate UncountedLasso(edges: seq<Edge>, w: seq<Edge>) {
    && w != []
    && IsWalk(edges, w)
    && Distinct(SourcesOf(w))
    && exists i :: LassoAt(w, i)
  }

  ghost predicate LassoAt(w: seq<Edge>, i: int) {
    0 <= i < |w| && w[i].source == w[|w| - 1].target && NonLoop(w[i..])
  }

  /** Shortening a closed walk: one with no loop edge contains a lasso. */
  lemma {:induction false} ClosedWalkHasLasso(edges: seq<Edge>, w: seq<Edge>) returns (lasso: seq<Edge>)
    requires ClosedWalk(edges, w) && NonLoop(w)
    ensures UncountedLasso(edges, lasso)
    decreases |w|
  {
    if Distinct(SourcesOf(w)) {
      lasso := w;
      assert LassoAt(w, 0);
    } else {
      var i, j :| 0 <= i < j < |w| && SourcesOf(w)[i] == SourcesOf(w)[j];
      SubWalk(edges, w, i, j);
      lasso := ClosedWalkHasLasso(edges, w[i..j]);
    }
  }

  lemma LassoHasClosedWalk(edges: seq<Edge>, lasso: seq<Edge>)
    requires UncountedLasso(edges, lasso)
    ensures exists w :: ClosedWalk(edges, w) && NonLoop(w)
  {
  }

  /** The search tried from every node meets a lasso exactly when the document has a closed
      walk without loop edges. */
  lemma UncountedCycleIffLasso(doc: Document)
    ensures HasUncountedCycle(doc) <==> exists w :: UncountedLasso(doc.edges, w)
  {
    if HasUncountedCycle(doc) {
      var w :| ClosedWalk(doc.edges, w) && NonLoop(w);
      var lasso := ClosedWalkHasLasso(doc.edges, w);
    }
    if w :| UncountedLasso(doc.edges, w) {
      LassoHasClosedWalk(doc.edges, w);
    }
  }
}
