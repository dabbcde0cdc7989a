/** The engine that walks a published Workflow, and what its walks are. */
module WorkflowEngine {
  import opened Wrappers
  import opened Sequences
  import opened WorkflowDocument
  import opened WorkflowValidator

  /** What an agent's invocation comes back with. Agents are not trusted: any handoff, any route. */
  datatype Reply = Step(handoff: string, route: Option<string>) | Raised

  /** An agent behaviour: the answer to the k-th invocation, which sees the node and the handoff.
      The index stands for whatever the agent remembers or draws at random. */
  type Behaviour = (nat, Node, string) -> Reply

  datatype EngineError =
    | NoStart
    | AgentRaised
    | OnlyControllerMayChoose
    | MustChooseRoute
    | UndeclaredRoute
    | LoopLimitReached
    | MissingNode
    | MissingLimit

  datatype RunState =
    | Running(current: Node, handoff: string, trace: seq<Edge>)
    | Finished(current: Node, handoff: string, trace: seq<Edge>)
    | Failed(nodeId: string, error: EngineError, trace: seq<Edge>)

  datatype Outcome =
    | Completed(output: string, nodes: seq<string>, routes: seq<string>)
    | Stopped(nodeId: string, error: EngineError)

  const TRIGGER := "trigger"

  // ---- One step

  datatype Choice = Take(edge: Edge) | Refuse(error: EngineError)

  /** The edge an invocation at `node` takes: forced when the node has one way out, else the
      first declared edge with the proposed route. */
  function Choose(doc: Document, node: Node, proposed: Option<string>): Choice {
    var outgoing := Outgoing(doc.edges, node.id);
    if |outgoing| > 1 && !IsController(node) then Refuse(OnlyControllerMayChoose)
    else
      var route := if |outgoing| == 1 then Some(RouteOf(outgoing[0])) else proposed;
      if route.None? || route.value == "" then Refuse(MustChooseRoute)
      else match FirstWithRoute(outgoing, route.value)
        case None => Refuse(UndeclaredRoute)
        case Some(edge) => Take(edge)
  }

  /** How often the loop edges carrying `id` were taken. */
  function LoopUses(trace: seq<Edge>, id: string): nat {
    if trace == [] then 0
    else LoopUses(trace[..|trace| - 1], id)
         + (if trace[|trace| - 1].isLoop && trace[|trace| - 1].id == id then 1 else 0)
  }

  function At(node: Node, handoff: string, trace: seq<Edge>): RunState {
    if node.kind.ResultKind? then Finished(node, handoff, trace) else Running(node, handoff, trace)
  }

  /** Moving to the node with the given id, after an invocation at `from`. */
  function Arrive(doc: Document, from: string, id: string, handoff: string, trace: seq<Edge>): RunState {
    match LookUp(doc.nodes, id)
    case None => Failed(from, MissingNode, trace)
    case Some(node) => At(node, handoff, trace)
  }

  /** Why a loop edge may not be taken once more. */
  function LoopRefusal(trace: seq<Edge>, edge: Edge): Option<EngineError> {
    if !edge.isLoop then None
    else match edge.maxIterations
      case None => Some(MissingLimit)
      case Some(limit) => if LoopUses(trace, edge.id) + 1 > limit then Some(LoopLimitReached) else None
  }

  /** A loop edge may be taken while its counter is below its limit. */
  predicate MayTake(trace: seq<Edge>, edge: Edge) {
    edge.isLoop ==> edge.maxIterations.Some? && LoopUses(trace, edge.id) < edge.maxIterations.value
  }

  /** The edge a reply may take at `node` after `trace`, or why it may take none. */
  function Permitted(doc: Document, node: Node, trace: seq<Edge>, proposed: Option<string>): Choice {
    match Choose(doc, node, proposed)
    case Refuse(error) => Refuse(error)
    case Take(edge) =>
      match LoopRefusal(trace, edge)
      case Some(error) => Refuse(error)
      case None => Take(edge)
  }

  function Advance(doc: Document, s: RunState, reply: Reply): RunState
    requires s.Running?
  {
    match reply
    case Raised => Failed(s.current.id, AgentRaised, s.trace)
    case Step(handoff, proposed) =>
      match Permitted(doc, s.current, s.trace, proposed)
      case Refuse(error) => Failed(s.current.id, error, s.trace)
      case Take(edge) => Arrive(doc, s.current.id, edge.target, handoff, s.trace + [edge])
  }

  // ---- What a reply leads to, stated on the document

  /** The edge a reply picks: the first out of the node with its route, and a route there is; where there is
      another way out the node is a controller and the route is the one proposed. */
  ghost predicate Picks(doc: Document, node: Node, proposed: Option<string>, e: Edge) {
    && (exists i :: FirstOutAt(doc.edges, node.id, RouteOf(e), i) && doc.edges[i] == e)
    && RouteOf(e) != ""
    && (Forks(doc.edges, node.id) ==> IsController(node) && proposed == Some(RouteOf(e)))
  }

  ghost predicate OneWayOut(doc: Document, node: Node) {
    Leads(doc.edges, node.id) && !Forks(doc.edges, node.id)
  }

  /** There is no route to go by. */
  ghost predicate NoRoute(doc: Document, node: Node, proposed: Option<string>) {
    if OneWayOut(doc, node) then forall e :: e in doc.edges && e.source == node.id ==> RouteOf(e) == ""
    else proposed == None || proposed == Some("")
  }

  /** No edge out of the node has the route. */
  ghost predicate NoSuchRoute(doc: Document, node: Node, route: string) {
    forall e :: e in doc.edges && e.source == node.id ==> RouteOf(e) != route
  }

  ghost predicate Verdict(doc: Document, node: Node, trace: seq<Edge>, proposed: Option<string>, choice: Choice) {
    match choice
    case Take(e) => Picks(doc, node, proposed, e) && MayTake(trace, e)
    case Refuse(LoopLimitReached) => exists e :: Picks(doc, node, proposed, e) && Exhausted(trace, e)
    case Refuse(MissingLimit) => exists e :: Picks(doc, node, proposed, e) && e.isLoop && e.maxIterations.None?
    case Refuse(OnlyControllerMayChoose) => Forks(doc.edges, node.id) && !IsController(node)
    case Refuse(MustChooseRoute) => (Forks(doc.edges, node.id) ==> IsController(node)) && NoRoute(doc, node, proposed)
    case Refuse(UndeclaredRoute) =>
      && (Forks(doc.edges, node.id) ==> IsController(node)) && !OneWayOut(doc, node)
      && proposed.Some? && proposed.value != "" && NoSuchRoute(doc, node, proposed.value)
    case Refuse(_) => false
  }

  /** The counter of a loop edge has come to its limit. */
  predicate Exhausted(trace: seq<Edge>, e: Edge) {
    e.isLoop && e.maxIterations.Some? && LoopUses(trace, e.id) >= e.maxIterations.value
  }

  lemma ChooseVerdict(doc: Document, node: Node, proposed: Option<string>)
    ensures match Choose(doc, node, proposed)
      case Take(e) => Picks(doc, node, proposed, e)
      case Refuse(error) => Verdict(doc, node, [], proposed, Refuse(error))
  {
    var outgoing := Outgoing(doc.edges, node.id);
    WaysOut(doc.edges, node.id);
    OutgoingAreThoseFrom(doc.edges, node.id);
    if |outgoing| == 1 {
      assert outgoing[0] in outgoing;
      OneWay(doc, node);
    }
    var route := if |outgoing| == 1 then Some(RouteOf(outgoing[0])) else proposed;
    if route.Some? {
      FirstWithRouteFinds(outgoing, route.value);
      var i := RouteLookUp(doc.edges, node.id, route.value);
    }
  }

  lemma OneWay(doc: Document, node: Node)
    requires |Outgoing(doc.edges, node.id)| == 1
    ensures forall e :: e in doc.edges && e.source == node.id ==> e == Outgoing(doc.edges, node.id)[0]
  {
    OutgoingAreThoseFrom(doc.edges, node.id);
  }

  lemma PicksOne(doc: Document, node: Node, proposed: Option<string>, e: Edge, f: Edge)
    requires Picks(doc, node, proposed, e) && Picks(doc, node, proposed, f)
    ensures e == f
  {
    var i :| FirstOutAt(doc.edges, node.id, RouteOf(e), i) && doc.edges[i] == e;
    var j :| FirstOutAt(doc.edges, node.id, RouteOf(f), j) && doc.edges[j] == f;
  }

  /** The engine's answer is the one the document and the counters call for: a loop edge picked is taken while
      its counter is below its limit, refused once it is not, and every other refusal has its own cause. */
  lemma PermittedIff(doc: Document, node: Node, trace: seq<Edge>, proposed: Option<string>, choice: Choice)
    ensures Permitted(doc, node, trace, proposed) == choice <==> Verdict(doc, node, trace, proposed, choice)
  {
    ChooseVerdict(doc, node, proposed);
    var made := Permitted(doc, node, trace, proposed);
    assert Verdict(doc, node, trace, proposed, made);
    if Verdict(doc, node, trace, proposed, choice) {
      VerdictIsOne(doc, node, trace, proposed, made, choice);
    }
  }

  lemma VerdictIsOne(doc: Document, node: Node, trace: seq<Edge>, proposed: Option<string>, a: Choice, b: Choice)
    requires Verdict(doc, node, trace, proposed, a) && Verdict(doc, node, trace, proposed, b)
    ensures a == b
  {
    forall e, f | Picks(doc, node, proposed, e) && Picks(doc, node, proposed, f) ensures e == f {
      PicksOne(doc, node, proposed, e, f);
    }
    forall e | Picks(doc, node, proposed, e) ensures !NoRoute(doc, node, proposed) {
      PickHasRoute(doc, node, proposed, e);
    }
  }

  lemma PickHasRoute(doc: Document, node: Node, proposed: Option<string>, e: Edge)
    requires Picks(doc, node, proposed, e)
    ensures !NoRoute(doc, node, proposed)
    ensures e in doc.edges && e.source == node.id
  {
  }

  function StartEdge(doc: Document): Option<Edge> {
    var outgoing := Outgoing(doc.edges, TRIGGER);
    if outgoing == [] then None else Some(outgoing[0])
  }

  function Start(doc: Document, message: string): RunState {
    match StartEdge(doc)
    case None => Failed(TRIGGER, NoStart, [])
    case Some(edge) => Arrive(doc, TRIGGER, edge.target, message, [])
  }

  /** The run after `n` invocations; it stands still once it has finished or failed. */
  function After(doc: Document, message: string, agent: Behaviour, n: nat): RunState {
    if n == 0 then Start(doc, message)
    else
      var s := After(doc, message, agent, n - 1);
      if s.Running? then Advance(doc, s, agent(n - 1, s.current, s.handoff)) else s
  }

  // ---- The iteration budget of a document

  /** The ids that loop edges carry, each once. */
  function LoopIds(edges: seq<Edge>): seq<string> {
    if edges == [] then []
    else
      var ids, last := LoopIds(edges[..|edges| - 1]), edges[|edges| - 1];
      if last.isLoop && last.id !in ids then ids + [last.id] else ids
  }

  lemma {:induction false} LoopIdsAreDistinct(edges: seq<Edge>)
    ensures Distinct(LoopIds(edges))
  {
    if edges != [] {
      LoopIdsAreDistinct(edges[..|edges| - 1]);
    }
  }

  lemma {:induction false} LoopIdIsListed(edges: seq<Edge>, e: Edge)
    requires e in edges && e.isLoop
    ensures e.id in LoopIds(edges)
  {
    if e != edges[|edges| - 1] {
      assert edges == edges[..|edges| - 1] + [edges[|edges| - 1]];
      LoopIdIsListed(edges[..|edges| - 1], e);
    }
  }

  /** The largest limit that loop edges with this id declare; ids may be shared. */
  function LargestLimit(edges: seq<Edge>, id: string): nat {
    if edges == [] then 0
    else
      var rest, e := LargestLimit(edges[1..], id), edges[0];
      if e.isLoop && e.id == id && e.maxIterations.Some? && e.maxIterations.value > rest then e.maxIterations.value
      else rest
  }

  lemma {:induction false} LimitAtMostLargest(edges: seq<Edge>, e: Edge)
    requires e in edges && e.isLoop && e.maxIterations.Some?
    ensures e.maxIterations.value <= LargestLimit(edges, e.id)
  {
    if e in edges[1..] {
      LimitAtMostLargest(edges[1..], e);
    }
  }

  function SumOfLimits(edges: seq<Edge>, ids: seq<string>): nat {
    if ids == [] then 0
    else SumOfLimits(edges, ids[..|ids| - 1]) + LargestLimit(edges, ids[|ids| - 1])
  }

  function IterationBudget(doc: Document): nat {
    SumOfLimits(doc.edges, LoopIds(doc.edges))
  }

  /** How long a walk over `size` nodes may get when it takes `loops` loop edges. */
  function LongestWalk(size: nat, loops: nat): nat {
    size * (1 + loops)
  }

  function CallBound(doc: Document): nat {
    LongestWalk(|doc.nodes|, IterationBudget(doc))
  }

  function LoopCount(w: seq<Edge>): nat {
    if w == [] then 0 else LoopCount(w[..|w| - 1]) + (if w[|w| - 1].isLoop then 1 else 0)
  }

  // ---- How long a walk can be

  /** The node a walk from `a` is at after `k` edges. */
  function Station(a: string, w: seq<Edge>, k: nat): string
    requires k <= |w|
  {
    if k == 0 then a else w[k - 1].target
  }

  lemma StationIsSource(edges: seq<Edge>, a: string, w: seq<Edge>, b: string, k: nat)
    requires WalkFrom(edges, a, w, b) && k <= |w|
    ensures Station(a, w, k) == if k < |w| then w[k].source else b
  {
  }

  /** The nodes a walk passes, its end included. */
  function NodesOf(a: string, w: seq<Edge>): (s: seq<string>)
    ensures |s| == |w| + 1
    ensures forall k :: 0 <= k < |s| ==> s[k] == Station(a, w, k)
  {
    seq(|w| + 1, k requires 0 <= k < |w| + 1 => Station(a, w, k))
  }

  /** A walk without loop edges never revisits a node, so it is shorter than the node list. */
  lemma NonLoopWalkIsShort(doc: Document, a: string, w: seq<Edge>, b: string)
    requires EdgesConnect(doc) && !HasUncountedCycle(doc) && a in NodeIds(doc)
    requires WalkFrom(doc.edges, a, w, b) && NonLoop(w)
    ensures |w| < |doc.nodes|
  {
    var nodes := NodesOf(a, w);
    forall i, j | 0 <= i < j < |nodes| ensures nodes[i] != nodes[j] {
      if nodes[i] == nodes[j] {
        SubWalk(doc.edges, w, i, j);
      }
    }
    forall v | v in nodes ensures v in NodeIds(doc) {
      var i :| 0 <= i < |nodes| && nodes[i] == v;
      if i > 0 {
        assert w[i - 1] in w;
      }
    }
    DistinctFits(nodes, NodeIds(doc));
  }

  /** The last loop edge of a walk, with no loop edge after it. */
  lemma {:induction false} LastLoopEdge(w: seq<Edge>) returns (k: nat)
    requires LoopCount(w) > 0
    ensures k < |w| && w[k].isLoop && NonLoop(w[k + 1..])
    ensures LoopCount(w[..k]) + 1 == LoopCount(w)
  {
    var last := |w| - 1;
    if w[last].isLoop {
      k := last;
    } else {
      k := LastLoopEdge(w[..last]);
      assert w[..last][..k] == w[..k];
      assert w[k + 1..] == w[..last][k + 1..] + [w[last]];
    }
  }

  lemma {:induction false} NoLoopCountIsNonLoop(w: seq<Edge>)
    requires LoopCount(w) == 0
    ensures NonLoop(w)
  {
    if w != [] {
      NoLoopCountIsNonLoop(w[..|w| - 1]);
      assert w == w[..|w| - 1] + [w[|w| - 1]];
    }
  }

  /** Where every closed walk holds a loop edge, the loop edges of a walk bound its length. */
  lemma {:induction false} WalkLength(doc: Document, a: string, w: seq<Edge>, b: string)
    requires EdgesConnect(doc) && !HasUncountedCycle(doc) && a in NodeIds(doc)
    requires WalkFrom(doc.edges, a, w, b)
    ensures |w| < LongestWalk(|doc.nodes|, LoopCount(w))
    decreases |w|
  {
    if LoopCount(w) == 0 {
      NoLoopCountIsNonLoop(w);
      NonLoopWalkIsShort(doc, a, w, b);
    } else {
      var k := LastLoopEdge(w);
      SubWalk(doc.edges, w, 0, k);
      SubWalk(doc.edges, w, k + 1, |w|);
      assert w[..k] == w[0..k] && w[k + 1..] == w[k + 1..|w|];
      WalkLength(doc, a, w[..k], EndOf(a, w[..k]));
      assert w[k] in w;
      assert k + 1 < |w| ==> w[k].target == w[k + 1].source;
      NonLoopWalkIsShort(doc, w[k].target, w[k + 1..], b);
      LengthStep(|doc.nodes|, LoopCount(w), k, |w|);
    }
  }

  lemma LengthStep(size: nat, loops: nat, k: nat, length: nat)
    requires loops > 0 && k < LongestWalk(size, loops - 1) && length - k - 1 < size
    ensures length < LongestWalk(size, loops)
  {
  }

  // ---- Loop edges taken against the budget

  function SumOfUses(w: seq<Edge>, ids: seq<string>): nat {
    if ids == [] then 0 else SumOfUses(w, ids[..|ids| - 1]) + LoopUses(w, ids[|ids| - 1])
  }

  lemma {:induction false} SumOfUsesStep(w: seq<Edge>, e: Edge, ids: seq<string>)
    requires Distinct(ids)
    ensures SumOfUses(w + [e], ids) == SumOfUses(w, ids) + (if e.isLoop && e.id in ids then 1 else 0)
  {
    assert (w + [e])[..|w|] == w;
    if ids != [] {
      SumOfUsesStep(w, e, ids[..|ids| - 1]);
      assert ids == ids[..|ids| - 1] + [ids[|ids| - 1]];
    }
  }

  /** Counting loop edges one by one, or id by id, is the same. */
  lemma {:induction false} LoopCountIsSumOfUses(edges: seq<Edge>, w: seq<Edge>)
    requires forall e :: e in w ==> e in edges
    ensures LoopCount(w) == SumOfUses(w, LoopIds(edges))
    decreases |w|
  {
    var ids := LoopIds(edges);
    if w == [] {
      NoUses(ids);
    } else {
      var front, last := w[..|w| - 1], w[|w| - 1];
      assert w == front + [last] && last in w;
      LoopCountIsSumOfUses(edges, front);
      LoopIdsAreDistinct(edges);
      SumOfUsesStep(front, last, ids);
      if last.isLoop {
        LoopIdIsListed(edges, last);
      }
    }
  }

  lemma {:induction false} NoUses(ids: seq<string>)
    ensures SumOfUses([], ids) == 0
  {
    if ids != [] {
      NoUses(ids[..|ids| - 1]);
    }
  }

  /** No loop id was taken more often than the largest limit declared for it. */
  ghost predicate WithinLargestLimits(doc: Document, w: seq<Edge>) {
    forall id :: LoopUses(w, id) <= LargestLimit(doc.edges, id)
  }

  lemma {:induction false} UsesWithinBudget(edges: seq<Edge>, w: seq<Edge>, ids: seq<string>)
    requires forall id :: LoopUses(w, id) <= LargestLimit(edges, id)
    ensures SumOfUses(w, ids) <= SumOfLimits(edges, ids)
  {
    if ids != [] {
      UsesWithinBudget(edges, w, ids[..|ids| - 1]);
    }
  }

  // ---- Invariants of every run

  function EdgeUses(w: seq<Edge>, e: Edge): nat {
    if w == [] then 0 else EdgeUses(w[..|w| - 1], e) + (if w[|w| - 1] == e then 1 else 0)
  }

  lemma {:induction false} EdgeUsesAtMostLoopUses(w: seq<Edge>, e: Edge)
    requires e.isLoop
    ensures EdgeUses(w, e) <= LoopUses(w, e.id)
  {
    if w != [] {
      EdgeUsesAtMostLoopUses(w[..|w| - 1], e);
    }
  }

  /** No loop edge was taken more often than it allows itself. */
  ghost predicate WithinOwnLimits(w: seq<Edge>) {
    forall e :: e in w && e.isLoop ==> e.maxIterations.Some? && EdgeUses(w, e) <= e.maxIterations.value
  }

  predicate ControllerAt(doc: Document, id: string) {
    LookUp(doc.nodes, id).Some? && IsController(LookUp(doc.nodes, id).value)
  }

  /** The engine's choice is a declared one: the first outgoing edge with its route, at a node
      allowed to choose it. */
  ghost predicate Playable(doc: Document, e: Edge) {
    && RouteOf(e) != ""
    && (exists i :: FirstOutAt(doc.edges, e.source, RouteOf(e), i) && doc.edges[i] == e)
    && (Forks(doc.edges, e.source) ==> ControllerAt(doc, e.source))
  }

  ghost predicate InteriorNotResult(doc: Document, w: seq<Edge>) {
    forall e :: e in w ==> !IsResultId(doc, e.source)
  }

  /** `w` is a walk the engine could have made: from the start edge's target, over playable edges,
      within every limit and leaving no result node. */
  ghost predicate DeclaredWalk(doc: Document, w: seq<Edge>, end: string) {
    && StartEdge(doc).Some?
    && WalkFrom(doc.edges, StartEdge(doc).value.target, w, end)
    && (forall e :: e in w ==> Playable(doc, e))
    && InteriorNotResult(doc, w)
    && WithinOwnLimits(w)
    && WithinLargestLimits(doc, w)
  }

  /** The current node of a run is the one its id looks up. */
  ghost predicate IsNode(doc: Document, n: Node) {
    LookUp(doc.nodes, n.id) == Some(n)
  }

  lemma ArriveAtNode(doc: Document, id: string)
    requires LookUp(doc.nodes, id).Some?
    ensures LookUp(doc.nodes, id).value.id == id && IsNode(doc, LookUp(doc.nodes, id).value)
  {
    LookUpFinds(doc.nodes, id);
  }

  lemma ChooseIsPlayable(doc: Document, node: Node, proposed: Option<string>)
    requires IsNode(doc, node) && Choose(doc, node, proposed).Take?
    ensures Playable(doc, Choose(doc, node, proposed).edge)
    ensures Choose(doc, node, proposed).edge.source == node.id
  {
    ChooseVerdict(doc, node, proposed);
  }

  lemma TakeStep(doc: Document, w: seq<Edge>, node: Node, edge: Edge)
    requires DistinctIds(doc) && IsNode(doc, node) && !node.kind.ResultKind?
    requires DeclaredWalk(doc, w, node.id) && Playable(doc, edge) && edge.source == node.id
    requires MayTake(w, edge)
    ensures DeclaredWalk(doc, w + [edge], edge.target)
  {
    var w' := w + [edge];
    JoinWalks(doc.edges, StartEdge(doc).value.target, w, node.id, [edge], edge.target);
    assert w'[..|w|] == w;
    forall n | n in doc.nodes && n.kind.ResultKind? ensures n.id != edge.source {
      LookUpIsTheNode(doc, n);
    }
    forall e | e in w' && e.isLoop
      ensures e.maxIterations.Some? && EdgeUses(w', e) <= e.maxIterations.value
    {
      EdgeUsesAtMostLoopUses(w', e);
      if e != edge {
        assert e in w;
      }
    }
    if edge.isLoop {
      LimitAtMostLargest(doc.edges, edge);
    }
    forall id ensures LoopUses(w', id) <= LargestLimit(doc.edges, id) {
      assert LoopUses(w, id) <= LargestLimit(doc.edges, id);
    }
  }

  /** What every state of a run is: the trace is a declared walk to the current node. */
  ghost predicate OnDeclaredWalk(doc: Document, s: RunState) {
    && (!s.Failed? ==> IsNode(doc, s.current) && DeclaredWalk(doc, s.trace, s.current.id))
    && (s.Running? ==> !s.current.kind.ResultKind?)
    && (s.Finished? ==> s.current.kind.ResultKind?)
  }

  lemma StartOnDeclaredWalk(doc: Document, message: string)
    ensures OnDeclaredWalk(doc, Start(doc, message))
  {
    var start := StartEdge(doc);
    if start.Some? {
      assert WalkFrom(doc.edges, start.value.target, [], start.value.target);
      if LookUp(doc.nodes, start.value.target).Some? {
        ArriveAtNode(doc, start.value.target);
      }
    }
  }

  lemma AdvanceOnDeclaredWalk(doc: Document, s: RunState, reply: Reply)
    requires DistinctIds(doc) && s.Running? && OnDeclaredWalk(doc, s)
    ensures OnDeclaredWalk(doc, Advance(doc, s, reply))
  {
    if reply.Step? && Choose(doc, s.current, reply.route).Take? {
      var edge := Choose(doc, s.current, reply.route).edge;
      ChooseIsPlayable(doc, s.current, reply.route);
      if MayTake(s.trace, edge) {
        TakeStep(doc, s.trace, s.current, edge);
        if LookUp(doc.nodes, edge.target).Some? {
          ArriveAtNode(doc, edge.target);
        }
      }
    }
  }

  /** The invariant of every run, whatever the agents answer: the edges taken form a declared walk. */
  lemma {:induction false} RunIsDeclaredWalk(doc: Document, message: string, agent: Behaviour, n: nat)
    requires DistinctIds(doc)
    ensures OnDeclaredWalk(doc, After(doc, message, agent, n))
  {
    if n == 0 {
      StartOnDeclaredWalk(doc, message);
    } else {
      RunIsDeclaredWalk(doc, message, agent, n - 1);
      var s := After(doc, message, agent, n - 1);
      if s.Running? {
        AdvanceOnDeclaredWalk(doc, s, agent(n - 1, s.current, s.handoff));
      }
    }
  }

  /** One edge an invocation. */
  lemma {:induction false} RunLength(doc: Document, message: string, agent: Behaviour, n: nat)
    ensures |After(doc, message, agent, n).trace| <= n
    ensures After(doc, message, agent, n).Running? ==> |After(doc, message, agent, n).trace| == n
  {
    if n > 0 {
      RunLength(doc, message, agent, n - 1);
    }
  }

  /** What the engine needs of a document to stop. */
  ghost predicate Runnable(doc: Document) {
    Sound(doc) && !HasUncountedCycle(doc)
  }

  lemma WithinBudget(doc: Document, w: seq<Edge>)
    requires IsWalk(doc.edges, w) && WithinLargestLimits(doc, w)
    ensures LoopCount(w) <= IterationBudget(doc)
  {
    LoopCountIsSumOfUses(doc.edges, w);
    UsesWithinBudget(doc.edges, w, LoopIds(doc.edges));
  }

  lemma StartTargetIsNode(doc: Document)
    requires EdgesConnect(doc) && StartEdge(doc).Some?
    ensures StartEdge(doc).value.target in NodeIds(doc)
  {
    OutgoingAreThoseFrom(doc.edges, TRIGGER);
    assert StartEdge(doc).value in Outgoing(doc.edges, TRIGGER);
  }

  lemma DeclaredWalkIsShort(doc: Document, w: seq<Edge>, end: string)
    requires Runnable(doc) && DeclaredWalk(doc, w, end)
    ensures |w| < CallBound(doc)
  {
    StartTargetIsNode(doc);
    WalkLength(doc, StartEdge(doc).value.target, w, end);
    WithinBudget(doc, w);
    BudgetBoundsLength(|w|, |doc.nodes|, LoopCount(w), IterationBudget(doc));
  }

  lemma RunningIsEarly(doc: Document, message: string, agent: Behaviour, n: nat)
    requires Runnable(doc) && After(doc, message, agent, n).Running?
    ensures n < CallBound(doc)
  {
    RunIsDeclaredWalk(doc, message, agent, n);
    RunLength(doc, message, agent, n);
    var s := After(doc, message, agent, n);
    DeclaredWalkIsShort(doc, s.trace, s.current.id);
  }

  ghost predicate StopsWithin(doc: Document, message: string, agent: Behaviour, bound: nat) {
    forall n: nat :: After(doc, message, agent, n).Running? ==> n < bound
  }

  /** An accepted Workflow cannot be kept running: whatever the agents answer, the run is over
      after |nodes| * (1 + B) invocations, B the sum over loop ids of the largest limit declared. */
  lemma EveryRunEnds(doc: Document, message: string, agent: Behaviour)
    requires Accepted(doc)
    ensures StopsWithin(doc, message, agent, CallBound(doc))
  {
    forall n: nat | After(doc, message, agent, n).Running? ensures n < CallBound(doc) {
      RunningIsEarly(doc, message, agent, n);
    }
  }

  lemma BudgetBoundsLength(length: nat, size: nat, loops: nat, budget: nat)
    requires length < LongestWalk(size, loops) && loops <= budget
    ensures length < LongestWalk(size, budget)
  {
  }

  lemma {:induction false} RunningBefore(doc: Document, message: string, agent: Behaviour, k: nat, n: nat)
    requires k <= n && After(doc, message, agent, n).Running?
    ensures After(doc, message, agent, k).Running?
    decreases n - k
  {
    if k < n {
      RunningBefore(doc, message, agent, k + 1, n);
    }
  }

  // ---- The engine itself

  function RoutesOf(w: seq<Edge>): (r: seq<string>)
    ensures |r| == |w|
    ensures forall i :: 0 <= i < |r| ==> r[i] == RouteOf(w[i])
  {
    seq(|w|, i requires 0 <= i < |w| => RouteOf(w[i]))
  }

  function OutcomeOf(s: RunState): Outcome
    requires !s.Running?
  {
    match s
    case Finished(_, handoff, trace) => Completed(handoff, SourcesOf(trace), RoutesOf(trace))
    case Failed(nodeId, error, _) => Stopped(nodeId, error)
  }

  /** The dictionary of loop counts agrees with the trace. */
  ghost predicate Counts(loopCounts: map<string, nat>, trace: seq<Edge>) {
    forall id :: LoopUses(trace, id) == CountOf(loopCounts, id)
  }

  function CountOf(loopCounts: map<string, nat>, id: string): nat {
    if id in loopCounts then loopCounts[id] else 0
  }

  /** The engine's checks on a reply's route, in the order it makes them. */
  method Follow(doc: Document, current: Node, proposed: Option<string>, loopCounts: map<string, nat>, ghost trace: seq<Edge>)
    returns (choice: Choice, route: string, newCounts: map<string, nat>)
    requires Counts(loopCounts, trace)
    ensures choice == Permitted(doc, current, trace, proposed) && Verdict(doc, current, trace, proposed, choice)
    ensures choice.Take? ==> route == RouteOf(choice.edge) && Counts(newCounts, trace + [choice.edge])
  {
    PermittedIff(doc, current, trace, proposed, Permitted(doc, current, trace, proposed));
    route, newCounts := "", loopCounts;
    var outgoing := Outgoing(doc.edges, current.id);
    if |outgoing| > 1 && !IsController(current) {
      return Refuse(OnlyControllerMayChoose), route, newCounts;
    }
    var chosen := proposed;
    if |outgoing| == 1 {
      chosen := Some(RouteOf(outgoing[0]));
    }
    if chosen.None? || chosen.value == "" {
      return Refuse(MustChooseRoute), route, newCounts;
    }
    route := chosen.value;
    FirstWithRouteFinds(outgoing, route);
    var found := FirstWithRoute(outgoing, route);
    if found.None? {
      return Refuse(UndeclaredRoute), route, newCounts;
    }
    var edge := found.value;
    if edge.isLoop {
      if edge.maxIterations.None? {
        return Refuse(MissingLimit), route, newCounts;
      }
      newCounts := loopCounts[edge.id := CountOf(loopCounts, edge.id) + 1];
      if newCounts[edge.id] > edge.maxIterations.value {
        return Refuse(LoopLimitReached), route, newCounts;
      }
    }
    return Take(edge), route, newCounts;
  }

  /** The run stands at the head of the loop after `calls` invocations. */
  ghost predicate AtHead(doc: Document, message: string, agent: Behaviour, calls: nat, current: Node, handoff: string, trace: seq<Edge>) {
    && After(doc, message, agent, calls) == At(current, handoff, trace)
    && (calls > 0 ==> After(doc, message, agent, calls - 1).Running?)
  }

  /** The run is over with `outcome` after `calls` invocations, and was not over before. */
  ghost predicate EndsWith(doc: Document, message: string, agent: Behaviour, calls: nat, outcome: Outcome) {
    && (calls > 0 ==> After(doc, message, agent, calls - 1).Running?)
    && !After(doc, message, agent, calls).Running?
    && outcome == OutcomeOf(After(doc, message, agent, calls))
  }

  /** One turn of the loop: where each answer leads. */
  lemma Turn(doc: Document, message: string, agent: Behaviour, calls: nat, current: Node, handoff: string, trace: seq<Edge>)
    requires AtHead(doc, message, agent, calls, current, handoff, trace) && !current.kind.ResultKind?
    ensures var reply := agent(calls, current, handoff);
      match reply
      case Raised => EndsWith(doc, message, agent, calls + 1, Stopped(current.id, AgentRaised))
      case Step(h, proposed) =>
        match Permitted(doc, current, trace, proposed)
        case Refuse(error) => EndsWith(doc, message, agent, calls + 1, Stopped(current.id, error))
        case Take(edge) =>
          match LookUp(doc.nodes, edge.target)
          case None => EndsWith(doc, message, agent, calls + 1, Stopped(current.id, MissingNode))
          case Some(node) => AtHead(doc, message, agent, calls + 1, node, h, trace + [edge])
  {
  }

  /** One turn of the loop: the agent is invoked and the route it came back with followed, until something is
      wrong or the next node is reached. */
  method TakeTurn(doc: Document, message: string, agent: Behaviour, calls: nat, current: Node, handoff: string,
                  loopCounts: map<string, nat>, ghost trace: seq<Edge>)
    returns (outcome: Option<Outcome>, next: Node, answer: string, route: string, newCounts: map<string, nat>, ghost edge: Edge)
    requires AtHead(doc, message, agent, calls, current, handoff, trace) && !current.kind.ResultKind?
    requires Counts(loopCounts, trace)
    ensures outcome.Some? ==> EndsWith(doc, message, agent, calls + 1, outcome.value)
    ensures outcome.None? ==>
      && AtHead(doc, message, agent, calls + 1, next, answer, trace + [edge]) && Counts(newCounts, trace + [edge])
      && edge.source == current.id && RouteOf(edge) == route
  {
    Turn(doc, message, agent, calls, current, handoff, trace);
    var step := agent(calls, current, handoff);
    next, answer, route, newCounts, edge := current, handoff, "", loopCounts, Edge("", "", "", None, false, None);
    if step.Raised? {
      return Some(Stopped(current.id, AgentRaised)), next, answer, route, newCounts, edge;
    }
    var choice;
    choice, route, newCounts := Follow(doc, current, step.route, loopCounts, trace);
    if choice.Refuse? {
      return Some(Stopped(current.id, choice.error)), next, answer, route, newCounts, edge;
    }
    PermittedLeaves(doc, current, trace, step.route);
    answer, edge := step.handoff, choice.edge;
    var target := LookUp(doc.nodes, choice.edge.target);
    if target.None? {
      return Some(Stopped(current.id, MissingNode)), next, answer, route, newCounts, edge;
    }
    return None, target.value, answer, route, newCounts, edge;
  }

  /** The loop of a run, for an agent that some bound stops. `calls` is the number of agent
      invocations made. */
  method RunWithin(doc: Document, message: string, agent: Behaviour, ghost bound: nat) returns (outcome: Outcome, calls: nat)
    requires StopsWithin(doc, message, agent, bound)
    ensures calls <= bound && EndsWith(doc, message, agent, calls, outcome)
  {
    calls := 0;
    var first := Outgoing(doc.edges, TRIGGER);
    if first == [] {
      return Stopped(TRIGGER, NoStart), 0;
    }
    var start := LookUp(doc.nodes, first[0].target);
    if start.None? {
      return Stopped(TRIGGER, MissingNode), 0;
    }
    var current := start.value;
    var handoff := message;
    var nodes: seq<string> := [];
    var routes: seq<string> := [];
    var loopCounts: map<string, nat> := map[];
    ghost var trace: seq<Edge> := [];
    while !current.kind.ResultKind?
      invariant AtHead(doc, message, agent, calls, current, handoff, trace)
      invariant nodes == SourcesOf(trace) && routes == RoutesOf(trace)
      invariant Counts(loopCounts, trace)
      invariant calls <= bound
      decreases bound - calls
    {
      nodes := nodes + [current.id];
      var stopped, next, answer, route, newCounts, edge := TakeTurn(doc, message, agent, calls, current, handoff, loopCounts, trace);
      assert After(doc, message, agent, calls).Running?;
      calls := calls + 1;
      if stopped.Some? {
        return stopped.value, calls;
      }
      current, handoff, loopCounts := next, answer, newCounts;
      routes := routes + [route];
      trace := trace + [edge];
    }
    return Completed(handoff, nodes, routes), calls;
  }

  /** Runs one declared path of an accepted Workflow, whatever the agents answer. */
  method Run(doc: Document, message: string, agent: Behaviour) returns (outcome: Outcome, calls: nat)
    requires Accepted(doc)
    ensures calls <= CallBound(doc) && EndsWith(doc, message, agent, calls, outcome)
  {
    EveryRunEnds(doc, message, agent);
    outcome, calls := RunWithin(doc, message, agent, CallBound(doc));
  }

  lemma PermittedLeaves(doc: Document, node: Node, trace: seq<Edge>, proposed: Option<string>)
    requires Permitted(doc, node, trace, proposed).Take?
    ensures Permitted(doc, node, trace, proposed).edge.source == node.id
  {
    var outgoing := Outgoing(doc.edges, node.id);
    OutgoingAreThoseFrom(doc.edges, node.id);
    FirstWithRouteFinds(outgoing, if |outgoing| == 1 then RouteOf(outgoing[0]) else proposed.value);
  }
}
