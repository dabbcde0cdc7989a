/** The document check that a Workflow must pass before it is saved or published. */
module WorkflowValidator {
  import opened Wrappers
  import opened Sequences
  import opened WorkflowDocument

  datatype DocumentError =
    | NodeNeedsId
    | DuplicateNodeIds
    | NeedsTrigger
    | NeedsResult
    | NeedsOneController
    | AgentNeedsData
    | UnregisteredTool
    | UnsupportedRole
    | ControllerNeedsOrchestrator
    | DataToolsForbidden
    | DanglingEdge
    | LoopNeedsBound
    | NoTerminalPath
    | AmbiguousRoute
    | UnboundedCycle

  const TOOL_CATALOG := ["connection_inventory", "schema_inspect", "data_query"]

  // ---- What each check asks for

  function RoleError(data: NodeData): Option<DocumentError> {
    match data.role
    case None => Some(UnsupportedRole)
    case Some(role) =>
      if data.controller && role != Orchestrator then Some(ControllerNeedsOrchestrator)
      else if (exists t :: t in data.tools && t in TOOL_CATALOG) && role != CubeAnalyst && role != Evaluator then
        Some(DataToolsForbidden)
      else None
  }

  function AgentError(n: Node): Option<DocumentError> {
    if !n.kind.AgentKind? then None
    else match n.data
      case None => Some(AgentNeedsData)
      case Some(data) =>
        if exists t :: t in data.tools && t !in TOOL_CATALOG then Some(UnregisteredTool) else RoleError(data)
  }

  function FirstAgentError(nodes: seq<Node>): Option<DocumentError> {
    if nodes == [] then None
    else if AgentError(nodes[0]).Some? then AgentError(nodes[0])
    else FirstAgentError(nodes[1..])
  }

  function EdgeError(doc: Document, e: Edge): Option<DocumentError> {
    if e.source !in NodeIds(doc) || e.target !in NodeIds(doc) then Some(DanglingEdge)
    else if e.isLoop && (e.maxIterations.None? || e.maxIterations.value < 1) then Some(LoopNeedsBound)
    else None
  }

  function FirstEdgeError(doc: Document, edges: seq<Edge>): (r: Option<DocumentError>)
    ensures r.None? <==> forall e :: e in edges ==> EdgeError(doc, e).None?
  {
    if edges == [] then None
    else if EdgeError(doc, edges[0]).Some? then EdgeError(doc, edges[0])
    else FirstEdgeError(doc, edges[1..])
  }

  function Controllers(nodes: seq<Node>): nat {
    if nodes == [] then 0 else (if IsController(nodes[0]) then 1 else 0) + Controllers(nodes[1..])
  }

  /** Only the controller may have more than one way out of an agent node. */
  predicate Unambiguous(doc: Document, n: Node) {
    n.kind.AgentKind? && |Outgoing(doc.edges, n.id)| > 1 ==> IsController(n)
  }

  ghost predicate HasTerminalPath(doc: Document) {
    exists r :: IsResultId(doc, r) && Reachable(doc, r)
  }

  function ShapeViolation(doc: Document): Option<DocumentError> {
    if "" in NodeIds(doc) then Some(NodeNeedsId)
    else if !Distinct(NodeIds(doc)) then Some(DuplicateNodeIds)
    else if !exists n :: n in doc.nodes && n.kind.TriggerKind? then Some(NeedsTrigger)
    else if !exists n :: n in doc.nodes && n.kind.ResultKind? then Some(NeedsResult)
    else if Controllers(doc.nodes) != 1 then Some(NeedsOneController)
    else None
  }

  ghost function GraphViolation(doc: Document): Option<DocumentError> {
    if !HasTerminalPath(doc) then Some(NoTerminalPath)
    else if exists n :: n in doc.nodes && !Unambiguous(doc, n) then Some(AmbiguousRoute)
    else if HasUncountedCycle(doc) then Some(UnboundedCycle)
    else None
  }

  /** The verdict, stated by what the document is and not by how the search finds out:
      the first condition in the fixed order that fails. */
  ghost function FirstViolation(doc: Document): Option<DocumentError> {
    if ShapeViolation(doc).Some? then ShapeViolation(doc)
    else if FirstAgentError(doc.nodes).Some? then FirstAgentError(doc.nodes)
    else if FirstEdgeError(doc, doc.edges).Some? then FirstEdgeError(doc, doc.edges)
    else GraphViolation(doc)
  }

  ghost predicate Accepted(doc: Document) {
    FirstViolation(doc).None?
  }

  // ---- The verdict on the nodes' and edges' own fields

  predicate DataTool(tool: string) {
    tool == "connection_inventory" || tool == "schema_inspect" || tool == "data_query"
  }

  /** What an agent node must be: it has data and none but the three tools, its role is a supported one, the
      controller is the orchestrator, and none but a cube analyst or an evaluator holds a tool. */
  predicate GoodAgent(n: Node) {
    n.kind.AgentKind? ==>
      && n.data.Some?
      && (forall t :: t in n.data.value.tools ==> DataTool(t))
      && n.data.value.role.Some?
      && (n.data.value.controller ==> n.data.value.role == Some(Orchestrator))
      && (n.data.value.tools != [] ==> n.data.value.role == Some(CubeAnalyst) || n.data.value.role == Some(Evaluator))
  }

  /** What is wrong with an agent node, by the first of its five checks that fails. */
  predicate AgentFault(n: Node, error: DocumentError) {
    n.kind.AgentKind? &&
    if n.data.None? then error == AgentNeedsData
    else
      var NodeData(controller, tools, role) := n.data.value;
      match error
      case UnregisteredTool => exists t :: t in tools && !DataTool(t)
      case UnsupportedRole => (forall t :: t in tools ==> DataTool(t)) && role == None
      case ControllerNeedsOrchestrator =>
        (forall t :: t in tools ==> DataTool(t)) && role != None && controller && role != Some(Orchestrator)
      case DataToolsForbidden =>
        && tools != [] && (forall t :: t in tools ==> DataTool(t))
        && role != None && (controller ==> role == Some(Orchestrator))
        && role != Some(CubeAnalyst) && role != Some(Evaluator)
      case _ => false
  }

  ghost predicate FirstAgentFault(nodes: seq<Node>, i: int, error: DocumentError) {
    0 <= i < |nodes| && AgentFault(nodes[i], error) && forall j :: 0 <= j < i ==> GoodAgent(nodes[j])
  }

  lemma AgentErrorIsFault(n: Node)
    ensures AgentError(n).None? <==> GoodAgent(n)
    ensures forall error :: AgentError(n) == Some(error) <==> AgentFault(n, error)
  {
    if n.kind.AgentKind? && n.data.Some? {
      var tools := n.data.value.tools;
      forall t ensures t in TOOL_CATALOG <==> DataTool(t) {
      }
      if tools != [] {
        assert tools[0] in tools;
      }
    }
  }

  /** Where the scan of the agents stops. */
  lemma {:induction false} FirstFault(nodes: seq<Node>) returns (i: nat)
    ensures forall j :: 0 <= j < i && j < |nodes| ==> GoodAgent(nodes[j])
    ensures if i < |nodes| then FirstAgentError(nodes).Some? && FirstAgentFault(nodes, i, FirstAgentError(nodes).value)
            else FirstAgentError(nodes).None?
  {
    if nodes == [] {
      i := 0;
    } else {
      AgentErrorIsFault(nodes[0]);
      if AgentError(nodes[0]).Some? {
        i := 0;
      } else {
        var k := FirstFault(nodes[1..]);
        i := k + 1;
      }
    }
  }

  /** The verdict on the agents, on their own fields: none of the five agent errors exactly when every agent
      node is as it must be, and otherwise what is wrong with the first that is not. */
  lemma AgentVerdict(nodes: seq<Node>)
    ensures FirstAgentError(nodes).None? <==> forall n :: n in nodes ==> GoodAgent(n)
    ensures forall error :: FirstAgentError(nodes) == Some(error) <==> exists i :: FirstAgentFault(nodes, i, error)
  {
    var i := FirstFault(nodes);
    if i < |nodes| {
      AgentErrorIsFault(nodes[i]);
    }
    forall error, j | FirstAgentFault(nodes, j, error) ensures FirstAgentError(nodes) == Some(error) {
      AgentErrorIsFault(nodes[j]);
    }
  }

  predicate GoodEdge(doc: Document, e: Edge) {
    && (exists n :: n in doc.nodes && n.id == e.source)
    && (exists n :: n in doc.nodes && n.id == e.target)
    && (e.isLoop ==> e.maxIterations.Some? && e.maxIterations.value >= 1)
  }

  /** What is wrong with an edge: an end that is no node, and only then a limit. */
  predicate EdgeFault(doc: Document, e: Edge, error: DocumentError) {
    var dangling := (forall n :: n in doc.nodes ==> n.id != e.source) || (forall n :: n in doc.nodes ==> n.id != e.target);
    match error
    case DanglingEdge => dangling
    case LoopNeedsBound => !dangling && e.isLoop && (e.maxIterations == None || e.maxIterations.value <= 0)
    case _ => false
  }

  ghost predicate FirstEdgeFault(doc: Document, edges: seq<Edge>, i: int, error: DocumentError) {
    0 <= i < |edges| && EdgeFault(doc, edges[i], error) && forall j :: 0 <= j < i ==> GoodEdge(doc, edges[j])
  }

  lemma IdIsNodes(doc: Document, id: string)
    ensures id in NodeIds(doc) <==> exists n :: n in doc.nodes && n.id == id
  {
  }

  lemma EdgeErrorIsFault(doc: Document, e: Edge)
    ensures EdgeError(doc, e).None? <==> GoodEdge(doc, e)
    ensures forall error :: EdgeError(doc, e) == Some(error) <==> EdgeFault(doc, e, error)
  {
    IdIsNodes(doc, e.source);
    IdIsNodes(doc, e.target);
  }

  lemma {:induction false} FirstBadEdge(doc: Document, edges: seq<Edge>) returns (i: nat)
    ensures forall j :: 0 <= j < i && j < |edges| ==> GoodEdge(doc, edges[j])
    ensures if i < |edges| then FirstEdgeError(doc, edges).Some? && FirstEdgeFault(doc, edges, i, FirstEdgeError(doc, edges).value)
            else FirstEdgeError(doc, edges).None?
  {
    if edges == [] {
      i := 0;
    } else {
      EdgeErrorIsFault(doc, edges[0]);
      if EdgeError(doc, edges[0]).Some? {
        i := 0;
      } else {
        var k := FirstBadEdge(doc, edges[1..]);
        i := k + 1;
      }
    }
  }

  lemma EdgeVerdict(doc: Document, edges: seq<Edge>)
    ensures FirstEdgeError(doc, edges).None? <==> forall e :: e in edges ==> GoodEdge(doc, e)
    ensures forall error :: FirstEdgeError(doc, edges) == Some(error) <==> exists i :: FirstEdgeFault(doc, edges, i, error)
  {
    var i := FirstBadEdge(doc, edges);
    if i < |edges| {
      EdgeErrorIsFault(doc, edges[i]);
    }
    forall error, j | FirstEdgeFault(doc, edges, j, error) ensures FirstEdgeError(doc, edges) == Some(error) {
      EdgeErrorIsFault(doc, edges[j]);
    }
  }

  /** The place of the only node marked as controller. */
  ghost predicate OnlyController(nodes: seq<Node>, i: int) {
    && 0 <= i < |nodes| && nodes[i].data.Some? && nodes[i].data.value.controller
    && forall j :: 0 <= j < |nodes| && j != i && nodes[j].data.Some? ==> !nodes[j].data.value.controller
  }

  ghost predicate NoController(nodes: seq<Node>) {
    forall j :: 0 <= j < |nodes| && nodes[j].data.Some? ==> !nodes[j].data.value.controller
  }

  lemma {:induction false} ControllersCount(nodes: seq<Node>)
    ensures Controllers(nodes) == 0 <==> NoController(nodes)
    ensures Controllers(nodes) == 1 <==> exists i :: OnlyController(nodes, i)
  {
    if nodes != [] {
      var rest := nodes[1..];
      ControllersCount(rest);
      assert forall j :: 0 <= j < |rest| ==> rest[j] == nodes[j + 1];
      if IsController(nodes[0]) {
        assert NoController(rest) <==> OnlyController(nodes, 0);
      } else {
        assert forall i :: OnlyController(rest, i) ==> OnlyController(nodes, i + 1);
        assert forall i :: OnlyController(nodes, i) ==> OnlyController(rest, i - 1);
      }
    }
  }

  ghost predicate OnlyControllerForks(doc: Document) {
    forall n :: n in doc.nodes && n.kind.AgentKind? && Forks(doc.edges, n.id) ==> n.data.Some? && n.data.value.controller
  }

  /** Everything a document must be, on its own fields. */
  ghost predicate Conforms(doc: Document) {
    && (forall n :: n in doc.nodes ==> n.id != "")
    && (forall i, j :: 0 <= i < j < |doc.nodes| ==> doc.nodes[i].id != doc.nodes[j].id)
    && (exists t :: IsTriggerId(doc, t))
    && (exists r :: IsResultId(doc, r))
    && (exists i :: OnlyController(doc.nodes, i))
    && (forall n :: n in doc.nodes ==> GoodAgent(n))
    && (forall e :: e in doc.edges ==> GoodEdge(doc, e))
    && HasTerminalPath(doc)
    && OnlyControllerForks(doc)
    && !HasUncountedCycle(doc)
  }

  lemma ShapeIff(doc: Document)
    ensures ShapeViolation(doc).None? <==>
      && (forall n :: n in doc.nodes ==> n.id != "")
      && (forall i, j :: 0 <= i < j < |doc.nodes| ==> doc.nodes[i].id != doc.nodes[j].id)
      && (exists t :: IsTriggerId(doc, t))
      && (exists r :: IsResultId(doc, r))
      && (exists i :: OnlyController(doc.nodes, i))
  {
    IdIsNodes(doc, "");
    ControllersCount(doc.nodes);
    if n: Node :| n in doc.nodes && n.kind.TriggerKind? {
      assert IsTriggerId(doc, n.id);
    }
    if n: Node :| n in doc.nodes && n.kind.ResultKind? {
      assert IsResultId(doc, n.id);
    }
  }

  predicate OfAgents(error: DocumentError) {
    || error.AgentNeedsData? || error.UnregisteredTool? || error.UnsupportedRole?
    || error.ControllerNeedsOrchestrator? || error.DataToolsForbidden?
  }

  predicate OfEdges(error: DocumentError) {
    error.DanglingEdge? || error.LoopNeedsBound?
  }

  ghost predicate AgentAtFault(doc: Document, error: DocumentError) {
    ShapeViolation(doc).None? && exists i :: FirstAgentFault(doc.nodes, i, error)
  }

  ghost predicate EdgeAtFault(doc: Document, error: DocumentError) {
    && ShapeViolation(doc).None? && (forall n :: n in doc.nodes ==> GoodAgent(n))
    && exists i :: FirstEdgeFault(doc, doc.edges, i, error)
  }

  /** Which check an error comes from. */
  lemma ErrorsKeepApart(doc: Document, error: DocumentError)
    requires FirstViolation(doc) == Some(error)
    ensures OfAgents(error) <==> ShapeViolation(doc).None? && FirstAgentError(doc.nodes) == Some(error)
    ensures OfEdges(error) <==>
      ShapeViolation(doc).None? && FirstAgentError(doc.nodes).None? && FirstEdgeError(doc, doc.edges) == Some(error)
  {
    var i := FirstFault(doc.nodes);
    var k := FirstBadEdge(doc, doc.edges);
  }

  /** Each error about an agent is given exactly when the first agent that is not as it must be has that fault,
      nothing checked before being wrong. */
  lemma AgentErrorIff(doc: Document, error: DocumentError)
    requires OfAgents(error)
    ensures FirstViolation(doc) == Some(error) <==> AgentAtFault(doc, error)
  {
    AgentVerdict(doc.nodes);
    if FirstViolation(doc) == Some(error) {
      ErrorsKeepApart(doc, error);
    }
  }

  /** So is each error about an edge. */
  lemma EdgeErrorIff(doc: Document, error: DocumentError)
    requires OfEdges(error)
    ensures FirstViolation(doc) == Some(error) <==> EdgeAtFault(doc, error)
  {
    AgentVerdict(doc.nodes);
    EdgeVerdict(doc, doc.edges);
    if FirstViolation(doc) == Some(error) {
      ErrorsKeepApart(doc, error);
    }
  }

  lemma AmbiguousIff(doc: Document)
    ensures (exists n :: n in doc.nodes && !Unambiguous(doc, n)) <==> !OnlyControllerForks(doc)
  {
    forall n | n in doc.nodes ensures Unambiguous(doc, n) <==>
        (n.kind.AgentKind? && Forks(doc.edges, n.id) ==> n.data.Some? && n.data.value.controller) {
      WaysOut(doc.edges, n.id);
    }
  }

  /** A document is accepted exactly when it conforms. */
  lemma AcceptedIff(doc: Document)
    ensures Accepted(doc) <==> Conforms(doc)
  {
    ShapeIff(doc);
    AgentVerdict(doc.nodes);
    EdgeVerdict(doc, doc.edges);
    AmbiguousIff(doc);
  }

  // ---- The reachability loop

  lemma {:induction false} ClosedSetHoldsWalkEnd(edges: seq<Edge>, s: set<string>, a: string, w: seq<Edge>, b: string)
    requires a in s && WalkFrom(edges, a, w, b)
    requires forall e :: e in edges && e.source in s ==> e.target in s
    ensures b in s
    decreases |w|
  {
    if w != [] {
      var front := w[..|w| - 1];
      SubWalk(edges, w, 0, |w| - 1);
      ClosedSetHoldsWalkEnd(edges, s, a, front, EndOf(a, front));
      assert w[|w| - 1].source == EndOf(a, front);
    }
  }

  lemma ReachableStep(doc: Document, e: Edge)
    requires e in doc.edges && Reachable(doc, e.source)
    ensures Reachable(doc, e.target)
  {
    var t, w :| IsTriggerId(doc, t) && WalkFrom(doc.edges, t, w, e.source);
    JoinWalks(doc.edges, t, w, e.source, [e], e.target);
  }

  lemma TriggerReachable(doc: Document, t: string)
    requires IsTriggerId(doc, t)
    ensures Reachable(doc, t)
  {
    assert WalkFrom(doc.edges, t, [], t);
  }

  /** Grows a set of ids until no edge leaves it: exactly the nodes some trigger reaches. */
  method ReachableNodes(doc: Document) returns (reachable: set<string>)
    requires EdgesConnect(doc)
    ensures forall v :: v in reachable <==> Reachable(doc, v)
  {
    ghost var ids := ToSet(NodeIds(doc));
    reachable := set n | n in doc.nodes && n.kind.TriggerKind? :: n.id;
    forall v | v in reachable ensures v in ids && Reachable(doc, v) {
      assert IsTriggerId(doc, v);
      TriggerReachable(doc, v);
      var i :| 0 <= i < |doc.nodes| && doc.nodes[i].id == v;
      assert NodeIds(doc)[i] == v;
    }
    ghost var triggers := reachable;
    var changed := true;
    while changed
      invariant triggers <= reachable <= ids
      invariant forall v :: v in reachable ==> Reachable(doc, v)
      invariant !changed ==> forall e :: e in doc.edges && e.source in reachable ==> e.target in reachable
      decreases ids - reachable, changed
    {
      changed := false;
      ghost var before := reachable;
      for k := 0 to |doc.edges|
        invariant triggers <= reachable <= ids
        invariant before <= reachable
        invariant changed <==> before != reachable
        invariant forall v :: v in reachable ==> Reachable(doc, v)
        invariant !changed ==> forall j :: 0 <= j < k && doc.edges[j].source in reachable ==> doc.edges[j].target in reachable
      {
        var e := doc.edges[k];
        if e.source in reachable && e.target !in reachable {
          assert e in doc.edges;
          ReachableStep(doc, e);
          reachable := reachable + {e.target};
          changed := true;
        }
      }
      assert changed ==> ids - reachable < ids - before;
    }
    forall v | Reachable(doc, v) ensures v in reachable {
      var t, w :| IsTriggerId(doc, t) && WalkFrom(doc.edges, t, w, v);
      ClosedSetHoldsWalkEnd(doc.edges, reachable, t, w, v);
    }
  }

  // ---- The cycle search

  /** A walk that the search has taken from its root to `nodeId`, its nodes being `path`. */
  ghost predicate OnPath(doc: Document, path: seq<string>, pathEdges: seq<Edge>, nodeId: string) {
    && IsWalk(doc.edges, pathEdges)
    && path == SourcesOf(pathEdges)
    && Distinct(path)
    && (pathEdges != [] ==> pathEdges[|pathEdges| - 1].target == nodeId)
    && forall p :: p in path ==> p in NodeIds(doc)
  }

  /** A lasso that continues `pathEdges` by an edge out of `nodeId`. */
  ghost predicate LassoBeyond(doc: Document, pathEdges: seq<Edge>, nodeId: string, w: seq<Edge>) {
    && UncountedLasso(doc.edges, w)
    && pathEdges < w
    && w[|pathEdges|].source == nodeId
  }

  ghost predicate HasLassoBeyond(doc: Document, pathEdges: seq<Edge>, nodeId: string) {
    exists w: seq<Edge> :: LassoBeyond(doc, pathEdges, nodeId, w)
  }

  ghost predicate HasLassoVia(doc: Document, pathEdges: seq<Edge>, e: Edge) {
    exists w: seq<Edge> :: LassoBeyond(doc, pathEdges, e.source, w) && w[|pathEdges|] == e
  }

  ghost predicate NoneVia(doc: Document, pathEdges: seq<Edge>, tried: seq<Edge>) {
    forall e :: e in tried ==> !HasLassoVia(doc, pathEdges, e)
  }

  lemma NoneViaStep(doc: Document, pathEdges: seq<Edge>, edges: seq<Edge>, k: nat)
    requires k < |edges| && NoneVia(doc, pathEdges, edges[..k]) && !HasLassoVia(doc, pathEdges, edges[k])
    ensures NoneVia(doc, pathEdges, edges[..k + 1])
  {
  }

  /** A lasso beyond a node leaves it by one of its outgoing edges. */
  lemma LassoBeyondIffVia(doc: Document, pathEdges: seq<Edge>, nodeId: string)
    ensures HasLassoBeyond(doc, pathEdges, nodeId) <==> !NoneVia(doc, pathEdges, Outgoing(doc.edges, nodeId))
  {
    OutgoingAreThoseFrom(doc.edges, nodeId);
    if w: seq<Edge> :| LassoBeyond(doc, pathEdges, nodeId, w) {
      assert w[|pathEdges|] in w;
      assert HasLassoVia(doc, pathEdges, w[|pathEdges|]);
    }
  }

  /** An edge back onto the path closes a lasso when the part of the path from the node
      returned to, and the edge itself, hold no loop edge. */
  lemma BackEdgeCloses(doc: Document, path: seq<string>, pathEdges: seq<Edge>, e: Edge)
    requires OnPath(doc, path, pathEdges, e.source) && e.source !in path
    requires e in doc.edges && e.target in path + [e.source]
    requires NonLoop(pathEdges[IndexOf(path + [e.source], e.target)..] + [e])
    ensures HasLassoVia(doc, pathEdges, e)
  {
    BackEdgeLassoAt(path, pathEdges, e);
    PathAndEdge(doc, path, pathEdges, e);
    LassoAtIsVia(doc, pathEdges, e, IndexOf(path + [e.source], e.target));
  }

  /** The path and an edge from where it stands are a walk without revisits. */
  lemma PathAndEdge(doc: Document, path: seq<string>, pathEdges: seq<Edge>, e: Edge)
    requires OnPath(doc, path, pathEdges, e.source) && e.source !in path && e in doc.edges
    ensures IsWalk(doc.edges, pathEdges + [e]) && Distinct(SourcesOf(pathEdges + [e]))
  {
    assert SourcesOf(pathEdges + [e]) == path + [e.source];
  }

  lemma LassoAtIsVia(doc: Document, pathEdges: seq<Edge>, e: Edge, start: int)
    requires IsWalk(doc.edges, pathEdges + [e]) && Distinct(SourcesOf(pathEdges + [e])) && LassoAt(pathEdges + [e], start)
    ensures HasLassoVia(doc, pathEdges, e)
  {
    var w := pathEdges + [e];
    assert w[|pathEdges|] == e && pathEdges < w;
    assert LassoBeyond(doc, pathEdges, e.source, w);
  }

  lemma BackEdgeLassoAt(path: seq<string>, pathEdges: seq<Edge>, e: Edge)
    requires path == SourcesOf(pathEdges) && e.target in path + [e.source]
    requires NonLoop(pathEdges[IndexOf(path + [e.source], e.target)..] + [e])
    ensures LassoAt(pathEdges + [e], IndexOf(path + [e.source], e.target))
  {
    var start := IndexOf(path + [e.source], e.target);
    assert (pathEdges + [e])[start..] == pathEdges[start..] + [e];
    assert (path + [e.source])[start] == (pathEdges + [e])[start].source;
  }

  /** Going on after an edge back onto the path would revisit the node it leads to. */
  lemma GoingOnRevisits(path: seq<string>, pathEdges: seq<Edge>, e: Edge, w: seq<Edge>)
    requires path == SourcesOf(pathEdges) && e.target in path + [e.source]
    requires pathEdges + [e] <= w && Chained(w)
    ensures |w| > |pathEdges| + 1 ==> !Distinct(SourcesOf(w))
  {
    var full, w0 := path + [e.source], pathEdges + [e];
    assert SourcesOf(w0) == full;
    if |w| > |w0| {
      assert w[|w0| - 1] == w0[|w0| - 1] == e;
      assert w[|w0| - 1].target == w[|w0|].source;
    }
  }

  /** Conversely a lasso through such an edge is the path and that edge alone. */
  lemma BackEdgeOnlyCloses(doc: Document, path: seq<string>, pathEdges: seq<Edge>, e: Edge, w: seq<Edge>)
    requires path == SourcesOf(pathEdges) && Distinct(path) && e.source !in path
    requires e.target in path + [e.source]
    requires LassoBeyond(doc, pathEdges, e.source, w) && w[|pathEdges|] == e
    ensures NonLoop(pathEdges[IndexOf(path + [e.source], e.target)..] + [e])
  {
    assert pathEdges + [e] == w[..|pathEdges| + 1];
    GoingOnRevisits(path, pathEdges, e, w);
    assert w == pathEdges + [e];
    OneLassoEntry(path, pathEdges, e);
  }

  lemma OneLassoEntry(path: seq<string>, pathEdges: seq<Edge>, e: Edge)
    requires path == SourcesOf(pathEdges) && Distinct(path + [e.source])
    requires e.target in path + [e.source]
    requires exists i :: LassoAt(pathEdges + [e], i)
    ensures NonLoop(pathEdges[IndexOf(path + [e.source], e.target)..] + [e])
  {
    var full, w := path + [e.source], pathEdges + [e];
    var start := IndexOf(full, e.target);
    var i :| LassoAt(w, i);
    assert w[i].source == full[i];
    assert i == start;
    assert w[start..] == pathEdges[start..] + [e];
  }

  lemma BackEdgeLasso(doc: Document, path: seq<string>, pathEdges: seq<Edge>, e: Edge)
    requires OnPath(doc, path, pathEdges, e.source) && e.source !in path
    requires e in doc.edges && e.target in path + [e.source]
    ensures HasLassoVia(doc, pathEdges, e)
        <==> NonLoop(pathEdges[IndexOf(path + [e.source], e.target)..] + [e])
  {
    if NonLoop(pathEdges[IndexOf(path + [e.source], e.target)..] + [e]) {
      BackEdgeCloses(doc, path, pathEdges, e);
    }
    if HasLassoVia(doc, pathEdges, e) {
      var w: seq<Edge> :| LassoBeyond(doc, pathEdges, e.source, w) && w[|pathEdges|] == e;
      BackEdgeOnlyCloses(doc, path, pathEdges, e, w);
    }
  }

  /** An edge to a node not on the path: the lassos through it are those beyond that node. */
  lemma ForwardEdgeLasso(doc: Document, path: seq<string>, pathEdges: seq<Edge>, e: Edge)
    requires OnPath(doc, path, pathEdges, e.source) && e.source !in path
    requires e in doc.edges && e.target !in path + [e.source]
    ensures HasLassoVia(doc, pathEdges, e) <==> HasLassoBeyond(doc, pathEdges + [e], e.target)
  {
    if w: seq<Edge> :| LassoBeyond(doc, pathEdges, e.source, w) && w[|pathEdges|] == e {
      ForwardLassoGoesOn(doc, path, pathEdges, e, w);
    }
    if w: seq<Edge> :| LassoBeyond(doc, pathEdges + [e], e.target, w) {
      ForwardLassoComesBack(doc, pathEdges, e, w);
    }
  }

  lemma ForwardLassoGoesOn(doc: Document, path: seq<string>, pathEdges: seq<Edge>, e: Edge, w: seq<Edge>)
    requires path == SourcesOf(pathEdges) && e.target !in path + [e.source]
    requires LassoBeyond(doc, pathEdges, e.source, w) && w[|pathEdges|] == e
    ensures LassoBeyond(doc, pathEdges + [e], e.target, w)
  {
  }

  lemma ForwardLassoComesBack(doc: Document, pathEdges: seq<Edge>, e: Edge, w: seq<Edge>)
    requires LassoBeyond(doc, pathEdges + [e], e.target, w)
    ensures LassoBeyond(doc, pathEdges, e.source, w) && w[|pathEdges|] == e
  {
  }

  lemma PathLeavesRoom(doc: Document, path: seq<string>)
    requires Distinct(path) && forall p :: p in path ==> p in NodeIds(doc)
    ensures |path| <= |doc.nodes|
  {
    DistinctFits(path, NodeIds(doc));
  }

  lemma PathExtends(doc: Document, path: seq<string>, pathEdges: seq<Edge>, e: Edge)
    requires OnPath(doc, path, pathEdges, e.source) && e.source !in path
    requires e in doc.edges && e.source in NodeIds(doc)
    ensures OnPath(doc, path + [e.source], pathEdges + [e], e.target)
  {
  }

  /** The depth-first search over simple paths. `pathNodes` is the list every call shares,
      pushed on entry and popped on a fruitless return. */
  class CycleSearch {
    const doc: Document
    var pathNodes: seq<string>

    constructor (doc: Document)
      ensures this.doc == doc && pathNodes == []
    {
      this.doc := doc;
      pathNodes := [];
    }

    method HasUnboundedCycle(nodeId: string, pathEdges: seq<Edge>) returns (found: bool)
      requires EdgesConnect(doc) && nodeId in NodeIds(doc)
      requires OnPath(doc, pathNodes, pathEdges, nodeId)
      modifies this
      ensures found <==> HasLassoBeyond(doc, pathEdges, nodeId)
      ensures !found ==> pathNodes == old(pathNodes)
      decreases |doc.nodes| + 1 - |pathNodes|
    {
      if nodeId in pathNodes {
        return false;
      }
      ghost var path := pathNodes;
      pathNodes := pathNodes + [nodeId];
      PathLeavesRoom(doc, pathNodes);
      var outgoing := Outgoing(doc.edges, nodeId);
      OutgoingAreThoseFrom(doc.edges, nodeId);
      for k := 0 to |outgoing|
        invariant pathNodes == path + [nodeId]
        invariant NoneVia(doc, pathEdges, outgoing[..k])
      {
        var edge := outgoing[k];
        assert edge in outgoing;
        var target := edge.target;
        if target in pathNodes {
          var start := IndexOf(pathNodes, target);
          var cycle := pathEdges[start..] + [edge];
          BackEdgeLasso(doc, path, pathEdges, edge);
          if NonLoop(cycle) {
            return true;
          }
        } else {
          ForwardEdgeLasso(doc, path, pathEdges, edge);
          PathExtends(doc, path, pathEdges, edge);
          var deeper := HasUnboundedCycle(target, pathEdges + [edge]);
          if deeper {
            return true;
          }
        }
        NoneViaStep(doc, pathEdges, outgoing, k);
      }
      assert outgoing[..|outgoing|] == outgoing;
      LassoBeyondIffVia(doc, pathEdges, nodeId);
      pathNodes := pathNodes[..|pathNodes| - 1];
      assert pathNodes == path;
      return false;
    }
  }

  method ShapeErrorOf(doc: Document) returns (error: Option<DocumentError>)
    ensures error == ShapeViolation(doc)
  {
    var ids := NodeIds(doc);
    if "" in ids {
      return Some(NodeNeedsId);
    }
    CardinalityIffDistinct(ids);
    if |ToSet(ids)| != |ids| {
      return Some(DuplicateNodeIds);
    }
    var triggers := set n | n in doc.nodes && n.kind.TriggerKind?;
    if triggers == {} {
      assert forall n :: n in doc.nodes && n.kind.TriggerKind? ==> n in triggers;
      return Some(NeedsTrigger);
    }
    var results := set n | n in doc.nodes && n.kind.ResultKind?;
    if results == {} {
      assert forall n :: n in doc.nodes && n.kind.ResultKind? ==> n in results;
      return Some(NeedsResult);
    }
    assert exists n :: n in triggers;
    assert exists n :: n in results;
    return if Controllers(doc.nodes) != 1 then Some(NeedsOneController) else None;
  }

  method GraphErrorOf(doc: Document) returns (error: Option<DocumentError>)
    requires EdgesConnect(doc)
    ensures error == GraphViolation(doc)
  {
    var resultIds := set n | n in doc.nodes && n.kind.ResultKind? :: n.id;
    assert forall r :: r in resultIds <==> IsResultId(doc, r);
    var reachable := ReachableNodes(doc);
    if reachable * resultIds == {} {
      assert forall r :: IsResultId(doc, r) && Reachable(doc, r) ==> r in reachable * resultIds;
      return Some(NoTerminalPath);
    }
    assert exists r :: r in reachable * resultIds;
    for i := 0 to |doc.nodes|
      invariant forall j :: 0 <= j < i ==> Unambiguous(doc, doc.nodes[j])
    {
      if !Unambiguous(doc, doc.nodes[i]) {
        return Some(AmbiguousRoute);
      }
    }
    var unbounded := SearchEveryNode(doc);
    return if unbounded then Some(UnboundedCycle) else None;
  }

  lemma DocumentVerdict(doc: Document)
    ensures FirstViolation(doc).None? <==> Conforms(doc)
    ensures var error := FirstViolation(doc);
      && (error.Some? && OfAgents(error.value) ==> AgentAtFault(doc, error.value))
      && (error.Some? && OfEdges(error.value) ==> EdgeAtFault(doc, error.value))
  {
    AcceptedIff(doc);
    if FirstViolation(doc).Some? {
      var error := FirstViolation(doc).value;
      if OfAgents(error) {
        AgentErrorIff(doc, error);
      }
      if OfEdges(error) {
        EdgeErrorIff(doc, error);
      }
    }
  }

  /** The scan of the agents. */
  method AgentErrorOf(nodes: seq<Node>) returns (error: Option<DocumentError>)
    ensures error == FirstAgentError(nodes)
    ensures error.None? <==> forall n :: n in nodes ==> GoodAgent(n)
    ensures error.Some? ==> exists i :: FirstAgentFault(nodes, i, error.value)
  {
    AgentVerdict(nodes);
    for i := 0 to |nodes|
      invariant FirstAgentError(nodes) == FirstAgentError(nodes[i..])
    {
      if AgentError(nodes[i]).Some? {
        return AgentError(nodes[i]);
      }
    }
    return None;
  }

  /** The scan of the edges. */
  method EdgeErrorOf(doc: Document) returns (error: Option<DocumentError>)
    ensures error == FirstEdgeError(doc, doc.edges)
    ensures error.None? <==> forall e :: e in doc.edges ==> GoodEdge(doc, e)
    ensures error.Some? ==> exists i :: FirstEdgeFault(doc, doc.edges, i, error.value)
  {
    EdgeVerdict(doc, doc.edges);
    for i := 0 to |doc.edges|
      invariant FirstEdgeError(doc, doc.edges) == FirstEdgeError(doc, doc.edges[i..])
    {
      if EdgeError(doc, doc.edges[i]).Some? {
        return EdgeError(doc, doc.edges[i]);
      }
    }
    return None;
  }

  /** The whole check, in the order the checks are made. */
  method DocumentErrorOf(doc: Document) returns (error: Option<DocumentError>)
    ensures error == FirstViolation(doc)
    ensures error.None? <==> Conforms(doc)
    ensures error.Some? && OfAgents(error.value) ==> AgentAtFault(doc, error.value)
    ensures error.Some? && OfEdges(error.value) ==> EdgeAtFault(doc, error.value)
  {
    DocumentVerdict(doc);
    error := ShapeErrorOf(doc);
    if error.Some? {
      return;
    }
    error := AgentErrorOf(doc.nodes);
    if error.Some? {
      return;
    }
    error := EdgeErrorOf(doc);
    if error.Some? {
      return;
    }
    error := GraphErrorOf(doc);
  }

  lemma LassoIffFromSomeNode(doc: Document)
    requires EdgesConnect(doc)
    ensures HasUncountedCycle(doc) <==> exists i :: 0 <= i < |doc.nodes| && HasLassoBeyond(doc, [], NodeIds(doc)[i])
  {
    UncountedCycleIffLasso(doc);
    if w: seq<Edge> :| UncountedLasso(doc.edges, w) {
      assert w[0] in w;
      var i := IndexOf(NodeIds(doc), w[0].source);
      assert LassoBeyond(doc, [], NodeIds(doc)[i], w);
    }
  }

  /** The search from every node in turn, each with a fresh path. */
  method SearchEveryNode(doc: Document) returns (found: bool)
    requires EdgesConnect(doc)
    ensures found <==> HasUncountedCycle(doc)
  {
    LassoIffFromSomeNode(doc);
    var ids := NodeIds(doc);
    for i := 0 to |ids|
      invariant forall j :: 0 <= j < i ==> !HasLassoBeyond(doc, [], ids[j])
    {
      var search := new CycleSearch(doc);
      found := search.HasUnboundedCycle(ids[i], []);
      if found {
        return true;
      }
    }
    return false;
  }

  lemma {:induction false} CardinalityIffDistinct<T>(s: seq<T>)
    ensures |ToSet(s)| == |s| <==> Distinct(s)
  {
    if Distinct(s) {
      DistinctCardinality(s);
    } else {
      var i, j :| 0 <= i < j < |s| && s[i] == s[j];
      var rest := s[..j] + s[j + 1..];
      forall x | x in s ensures x in rest {
        var k :| 0 <= k < |s| && s[k] == x;
        if k < j {
          assert rest[k] == x;
        } else if k > j {
          assert rest[k - 1] == x;
        } else {
          assert rest[i] == x;
        }
      }
      assert ToSet(s) == ToSet(rest);
      SetOfSeqSize(rest);
    }
  }

  // ---- What acceptance guarantees to the engine

  /** A document whose graph the engine can walk: every reference resolves and every loop edge has a limit. */
  ghost predicate Sound(doc: Document) {
    DistinctIds(doc) && EdgesConnect(doc) && LoopsBounded(doc)
  }

  lemma AcceptedIsSound(doc: Document)
    requires Accepted(doc)
    ensures Sound(doc) && !HasUncountedCycle(doc)
  {
  }
}
