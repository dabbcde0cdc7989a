/** What the document check and the engine guarantee together. */
module WorkflowTheorems {
  import opened Wrappers
  import opened Sequences
  import opened WorkflowDocument
  import opened WorkflowValidator
  import opened WorkflowEngine

  // ---- A completed run is a declared walk

  /** The handoff the run ends with: the last agent's, or the message when no agent was called. */
  function LastHandoff(doc: Document, message: string, agent: Behaviour, calls: nat): string
    requires calls > 0 ==> After(doc, message, agent, calls - 1).Running?
  {
    if calls == 0 then message
    else
      var s := After(doc, message, agent, calls - 1);
      match agent(calls - 1, s.current, s.handoff)
      case Step(handoff, _) => handoff
      case Raised => s.handoff
  }

  /** Every completed run reports a declared walk to a result node: each edge the first with its
      route, no loop edge over its own limit even where ids are shared, one node and one route an
      invocation, and the last handoff as output. */
  lemma CompletedRunIsDeclared(doc: Document, message: string, agent: Behaviour, calls: nat, outcome: Outcome)
    requires DistinctIds(doc) && EndsWith(doc, message, agent, calls, outcome) && outcome.Completed?
    ensures |outcome.nodes| == |outcome.routes| == calls
    ensures outcome.output == LastHandoff(doc, message, agent, calls)
    ensures exists w, r ::
              && DeclaredWalk(doc, w, r) && IsResultId(doc, r)
              && outcome.nodes == SourcesOf(w) && outcome.routes == RoutesOf(w)
  {
    var s := After(doc, message, agent, calls);
    RunIsDeclaredWalk(doc, message, agent, calls);
    LookUpFinds(doc.nodes, s.current.id);
    assert DeclaredWalk(doc, s.trace, s.current.id) && IsResultId(doc, s.current.id);
    FinishedLength(doc, message, agent, calls);
  }

  lemma FinishedLength(doc: Document, message: string, agent: Behaviour, calls: nat)
    requires calls > 0 ==> After(doc, message, agent, calls - 1).Running?
    requires After(doc, message, agent, calls).Finished?
    ensures |After(doc, message, agent, calls).trace| == calls
    ensures After(doc, message, agent, calls).handoff == LastHandoff(doc, message, agent, calls)
  {
    if calls > 0 {
      RunLength(doc, message, agent, calls - 1);
    }
  }

  // ---- Only the controller steers

  /** Two runs in step: at the same node by the same edges, or stopped alike. */
  ghost predicate InStep(s: RunState, t: RunState) {
    && s.trace == t.trace
    && (s.Running? <==> t.Running?)
    && (s.Finished? <==> t.Finished?)
    && (s.Failed? ==> s.nodeId == t.nodeId)
    && (!s.Failed? ==> s.current == t.current)
  }

  /** Where both runs stand at the controller and both agents answer, they propose the same route. */
  ghost predicate RoutesAgree(doc: Document, m1: string, a1: Behaviour, m2: string, a2: Behaviour, n: nat) {
    forall k: nat :: k < n ==>
      var s, t := After(doc, m1, a1, k), After(doc, m2, a2, k);
      s.Running? && t.Running? && InStep(s, t) ==>
        SameRoute(s.current, a1(k, s.current, s.handoff), a2(k, t.current, t.handoff))
  }

  predicate SameRoute(node: Node, a: Reply, b: Reply) {
    IsController(node) && a.Step? && b.Step? ==> a.route == b.route
  }

  /** Where both runs stand at the same node, either both agents raise or neither does. */
  ghost predicate RaiseAlike(doc: Document, m1: string, a1: Behaviour, m2: string, a2: Behaviour, n: nat) {
    forall k: nat :: k < n ==>
      var s, t := After(doc, m1, a1, k), After(doc, m2, a2, k);
      s.Running? && t.Running? && InStep(s, t) ==>
        (a1(k, s.current, s.handoff).Raised? <==> a2(k, t.current, t.handoff).Raised?)
  }

  /** The first run stopped on an agent that raised, on the way of the second. */
  ghost predicate CutShort(s: RunState, t: RunState) {
    s.Failed? && s.error == AgentRaised && s.trace <= t.trace
  }

  ghost predicate Together(s: RunState, t: RunState) {
    InStep(s, t) || CutShort(s, t) || CutShort(t, s)
  }

  lemma StepInStep(doc: Document, s: RunState, t: RunState, a: Reply, b: Reply)
    requires s.Running? && t.Running? && InStep(s, t) && SameRoute(s.current, a, b)
    ensures (a.Raised? <==> b.Raised?) ==> InStep(Advance(doc, s, a), Advance(doc, t, b))
    ensures Together(Advance(doc, s, a), Advance(doc, t, b))
  {
  }

  lemma TraceGrows(doc: Document, s: RunState, a: Reply)
    requires s.Running?
    ensures s.trace <= Advance(doc, s, a).trace
  {
  }

  /** Whatever routes and handoffs the other agents come back with, and whatever the message says, two runs
      whose controllers propose the same routes visit the same nodes by the same edges and stop at the same
      node, but that an agent that raises may cut one of them short, on the way of the other. */
  lemma {:induction false} OnlyControllerSteers(
      doc: Document, m1: string, a1: Behaviour, m2: string, a2: Behaviour, n: nat)
    requires RoutesAgree(doc, m1, a1, m2, a2, n)
    ensures Together(After(doc, m1, a1, n), After(doc, m2, a2, n))
  {
    if n > 0 {
      OnlyControllerSteers(doc, m1, a1, m2, a2, n - 1);
      var s, t := After(doc, m1, a1, n - 1), After(doc, m2, a2, n - 1);
      var a := if s.Running? then a1(n - 1, s.current, s.handoff) else Raised;
      var b := if t.Running? then a2(n - 1, t.current, t.handoff) else Raised;
      if s.Running? && t.Running? && InStep(s, t) {
        StepInStep(doc, s, t, a, b);
      } else {
        if s.Running? {
          TraceGrows(doc, s, a);
        }
        if t.Running? {
          TraceGrows(doc, t, b);
        }
      }
    }
  }

  /** Where the agents raise alike the two runs stay together to the end. */
  lemma {:induction false} SteeredAlike(
      doc: Document, m1: string, a1: Behaviour, m2: string, a2: Behaviour, n: nat)
    requires RoutesAgree(doc, m1, a1, m2, a2, n) && RaiseAlike(doc, m1, a1, m2, a2, n)
    ensures InStep(After(doc, m1, a1, n), After(doc, m2, a2, n))
  {
    if n > 0 {
      SteeredAlike(doc, m1, a1, m2, a2, n - 1);
      var s, t := After(doc, m1, a1, n - 1), After(doc, m2, a2, n - 1);
      if s.Running? {
        StepInStep(doc, s, t, a1(n - 1, s.current, s.handoff), a2(n - 1, t.current, t.handoff));
      }
    }
  }

  // ---- Which documents can be completed

  predicate IsLoopEdge(doc: Document, e: Edge) {
    e in doc.edges && e.isLoop
  }

  /** Loop edges with one id are one edge, so they do not share a counter. */
  ghost predicate OwnLoopIds(doc: Document) {
    forall e, f :: IsLoopEdge(doc, e) && IsLoopEdge(doc, f) && e.id == f.id ==> e == f
  }

  /** A walk over playable edges that leaves no result node. */
  ghost predicate PlayableWalk(doc: Document, a: string, w: seq<Edge>, b: string) {
    && WalkFrom(doc.edges, a, w, b)
    && (forall e :: e in w ==> Playable(doc, e))
    && InteriorNotResult(doc, w)
  }

  /** No loop edge of the walk is refused where it is taken, counters being kept by id. */
  ghost predicate Allowed(w: seq<Edge>) {
    forall k :: 0 <= k < |w| ==> MayTake(w[..k], w[k])
  }

  lemma AllowedOneMore(w: seq<Edge>, e: Edge)
    requires Allowed(w) && MayTake(w, e)
    ensures Allowed(w + [e])
  {
    var more := w + [e];
    forall k | 0 <= k < |more| ensures MayTake(more[..k], more[k]) {
      assert more[..k] == w[..k];
    }
  }

  /** The edges every run takes are allowed where it takes them. */
  lemma {:induction false} RunIsAllowed(doc: Document, message: string, agent: Behaviour, n: nat)
    ensures Allowed(After(doc, message, agent, n).trace)
  {
    if n > 0 {
      RunIsAllowed(doc, message, agent, n - 1);
      var s := After(doc, message, agent, n - 1);
      if s.Running? {
        StepIsAllowed(doc, s, agent(n - 1, s.current, s.handoff));
      }
    }
  }

  lemma StepIsAllowed(doc: Document, s: RunState, reply: Reply)
    requires s.Running? && Allowed(s.trace)
    ensures Allowed(Advance(doc, s, reply).trace)
  {
    if reply.Step? && Permitted(doc, s.current, s.trace, reply.route).Take? {
      AllowedOneMore(s.trace, Permitted(doc, s.current, s.trace, reply.route).edge);
    }
  }

  /** A result node at the end of a simple path the engine would choose, with no loop edge refused on it:
      something that can be looked up in the document. */
  ghost predicate HasOpenPath(doc: Document) {
    StartEdge(doc).Some? && exists w, r :: OpenPath(doc, w, r)
  }

  ghost predicate OpenPath(doc: Document, w: seq<Edge>, r: string)
    requires StartEdge(doc).Some?
  {
    && PlayableWalk(doc, StartEdge(doc).value.target, w, r) && IsResultId(doc, r)
    && Allowed(w) && Distinct(SourcesOf(w))
  }

  /** The same path, whatever its loop edges count. */
  ghost predicate HasPlayablePath(doc: Document) {
    StartEdge(doc).Some?
    && exists w, r :: PlayableWalk(doc, StartEdge(doc).value.target, w, r) && IsResultId(doc, r)
  }

  /** Cutting out every round a walk makes. */
  lemma {:induction false} WithoutRounds(doc: Document, a: string, w: seq<Edge>, b: string) returns (v: seq<Edge>)
    requires PlayableWalk(doc, a, w, b)
    ensures PlayableWalk(doc, a, v, b) && Distinct(SourcesOf(v))
    ensures Allowed(w) ==> Allowed(v)
    decreases |w|
  {
    if Distinct(SourcesOf(w)) {
      v := w;
    } else {
      var i, j :| 0 <= i < j < |w| && SourcesOf(w)[i] == SourcesOf(w)[j];
      CutRound(doc, a, w, b, i, j);
      CutIsAllowed(w, i, j);
      v := WithoutRounds(doc, a, w[..i] + w[j..], b);
    }
  }

  lemma CutRound(doc: Document, a: string, w: seq<Edge>, b: string, i: nat, j: nat)
    requires PlayableWalk(doc, a, w, b) && i < j < |w| && w[i].source == w[j].source
    ensures PlayableWalk(doc, a, w[..i] + w[j..], b)
  {
    StationIsSource(doc.edges, a, w, b, i);
    StationIsSource(doc.edges, a, w, b, j);
    JoinWalks(doc.edges, a, w[..i], w[i].source, w[j..], b);
  }

  lemma {:induction false} CutUses(w: seq<Edge>, i: nat, j: nat, k: nat, id: string)
    requires i <= j <= k <= |w|
    ensures LoopUses(w[..i] + w[j..k], id) <= LoopUses(w[..k], id)
    decreases k
  {
    if j < k {
      CutUses(w, i, j, k - 1, id);
      assert (w[..i] + w[j..k])[..i + k - j - 1] == w[..i] + w[j..k - 1];
      assert w[..k][..k - 1] == w[..k - 1];
    } else {
      assert w[..i] + w[j..k] == w[..i];
      if i < k {
        CutUses(w, i, k - 1, k - 1, id);
        assert w[..i] + w[k - 1..k - 1] == w[..i];
        assert w[..k][..k - 1] == w[..k - 1];
      }
    }
  }

  /** Cutting a round out of a walk only lowers the counters that come after it. */
  lemma CutIsAllowed(w: seq<Edge>, i: nat, j: nat)
    requires i <= j <= |w|
    ensures Allowed(w) ==> Allowed(w[..i] + w[j..])
  {
    var v := w[..i] + w[j..];
    if Allowed(w) {
      forall m | 0 <= m < |v| ensures MayTake(v[..m], v[m]) {
        if m < i {
          assert v[..m] == w[..m];
        } else {
          var k := m - i + j;
          assert v[..m] == w[..i] + w[j..k];
          CutUses(w, i, j, k, w[k].id);
          assert MayTake(w[..k], w[k]);
        }
      }
    }
  }

  /** The agents that follow a plan: the k-th invocation proposes the route of the plan's k-th edge. */
  function Follower(plan: nat -> Edge): Behaviour {
    (k: nat, node: Node, handoff: string) => Step(handoff, Some(RouteOf(plan(k))))
  }

  /** A playable edge is the one a reply picks that proposes its route. */
  lemma PlayableIsPicked(doc: Document, node: Node, e: Edge)
    requires IsNode(doc, node) && Playable(doc, e) && e.source == node.id
    ensures Picks(doc, node, Some(RouteOf(e)), e)
  {
  }

  lemma PlayableIsPermitted(doc: Document, node: Node, trace: seq<Edge>, e: Edge)
    requires IsNode(doc, node) && Playable(doc, e) && e.source == node.id
    requires MayTake(trace, e)
    ensures Permitted(doc, node, trace, Some(RouteOf(e))) == Take(e)
  {
    PlayableIsPicked(doc, node, e);
    PermittedIff(doc, node, trace, Some(RouteOf(e)), Take(e));
  }

  /** The run has come to the node with this id. */
  ghost predicate StandsAt(doc: Document, s: RunState, id: string) {
    && !s.Failed?
    && IsNode(doc, s.current)
    && s.current.id == id
    && s == At(s.current, s.handoff, s.trace)
  }

  lemma DrivenStep(doc: Document, s: RunState, e: Edge)
    requires EdgesConnect(doc) && StandsAt(doc, s, e.source)
    requires Playable(doc, e) && !IsResultId(doc, e.source) && MayTake(s.trace, e)
    ensures s.Running?
    ensures var t := Advance(doc, s, Step(s.handoff, Some(RouteOf(e))));
      StandsAt(doc, t, e.target) && t.trace == s.trace + [e]
  {
    LookUpFinds(doc.nodes, s.current.id);
    PlayableIsPermitted(doc, s.current, s.trace, e);
    LookUpFindsId(doc, e.target);
    ArriveAtNode(doc, e.target);
  }

  lemma DrivenStart(doc: Document, message: string)
    requires EdgesConnect(doc) && StartEdge(doc).Some?
    ensures StandsAt(doc, Start(doc, message), StartEdge(doc).value.target)
    ensures Start(doc, message).trace == []
  {
    StartTargetIsNode(doc);
    LookUpFindsId(doc, StartEdge(doc).value.target);
    ArriveAtNode(doc, StartEdge(doc).value.target);
  }

  lemma {:induction false} NotUsedYet(w: seq<Edge>, id: string)
    requires forall e :: e in w && e.isLoop ==> e.id != id
    ensures LoopUses(w, id) == 0
  {
    if w != [] {
      assert w[|w| - 1] in w;
      NotUsedYet(w[..|w| - 1], id);
    }
  }

  /** On a walk without rounds every loop edge is taken for the first time, so none is refused where loop
      edges have ids of their own. */
  lemma OwnIdsAllow(doc: Document, v: seq<Edge>)
    requires LoopsBounded(doc) && OwnLoopIds(doc)
    requires IsWalk(doc.edges, v) && Distinct(SourcesOf(v))
    ensures Allowed(v)
  {
    forall k | 0 <= k < |v| ensures MayTake(v[..k], v[k]) {
      FirstUseAllowed(doc, v, k);
    }
  }

  lemma FirstUseAllowed(doc: Document, v: seq<Edge>, k: nat)
    requires LoopsBounded(doc) && OwnLoopIds(doc)
    requires IsWalk(doc.edges, v) && Distinct(SourcesOf(v)) && k < |v|
    ensures MayTake(v[..k], v[k])
  {
    if v[k].isLoop {
      forall e | e in v[..k] && e.isLoop ensures e.id != v[k].id {
        var i :| 0 <= i < k && v[i] == e;
        assert SourcesOf(v)[i] != SourcesOf(v)[k];
        assert e in v && v[k] in v;
        assert IsLoopEdge(doc, e) && IsLoopEdge(doc, v[k]);
      }
      assert v[k] in v;
      NotUsedYet(v[..k], v[k].id);
    }
  }

  lemma FollowerStep(doc: Document, message: string, plan: nat -> Edge, k: nat)
    requires After(doc, message, Follower(plan), k).Running?
    ensures var s := After(doc, message, Follower(plan), k);
      After(doc, message, Follower(plan), k + 1) == Advance(doc, s, Step(s.handoff, Some(RouteOf(plan(k)))))
  {
  }

  /** The run stands `k` edges along `v`, having taken them. */
  ghost predicate Along(doc: Document, s: RunState, v: seq<Edge>, k: nat)
    requires StartEdge(doc).Some? && k <= |v|
  {
    StandsAt(doc, s, Station(StartEdge(doc).value.target, v, k)) && s.trace == v[..k]
  }

  lemma EdgeAlong(doc: Document, a: string, v: seq<Edge>, b: string, k: nat)
    requires PlayableWalk(doc, a, v, b) && Allowed(v) && k < |v|
    ensures Playable(doc, v[k]) && !IsResultId(doc, v[k].source)
    ensures MayTake(v[..k], v[k]) && Station(a, v, k) == v[k].source
  {
    assert v[k] in v;
    StationIsSource(doc.edges, a, v, b, k);
  }

  lemma StepAlong(doc: Document, s: RunState, v: seq<Edge>, k: nat)
    requires EdgesConnect(doc) && StartEdge(doc).Some?
    requires k < |v| && Along(doc, s, v, k)
    requires Playable(doc, v[k]) && !IsResultId(doc, v[k].source)
    requires MayTake(v[..k], v[k]) && Station(StartEdge(doc).value.target, v, k) == v[k].source
    ensures s.Running? && Along(doc, Advance(doc, s, Step(s.handoff, Some(RouteOf(v[k])))), v, k + 1)
  {
    DrivenStep(doc, s, v[k]);
    assert v[..k + 1] == v[..k] + [v[k]];
  }

  /** The plan's k-th edge is that of the way, and the engine takes it there. */
  ghost predicate TakenAt(doc: Document, plan: nat -> Edge, v: seq<Edge>, k: nat)
    requires StartEdge(doc).Some? && k < |v|
  {
    && plan(k) == v[k]
    && Playable(doc, v[k]) && !IsResultId(doc, v[k].source)
    && MayTake(v[..k], v[k]) && Station(StartEdge(doc).value.target, v, k) == v[k].source
  }

  ghost predicate TakenAlong(doc: Document, plan: nat -> Edge, v: seq<Edge>) {
    StartEdge(doc).Some? && forall k: nat :: k < |v| ==> TakenAt(doc, plan, v, k)
  }

  lemma DrivenAlong(doc: Document, message: string, plan: nat -> Edge, v: seq<Edge>, b: string)
    requires Sound(doc) && StartEdge(doc).Some?
    requires PlayableWalk(doc, StartEdge(doc).value.target, v, b) && Allowed(v)
    requires forall i: nat :: i < |v| ==> plan(i) == v[i]
    ensures Along(doc, After(doc, message, Follower(plan), |v|), v, |v|)
  {
    DrivenStart(doc, message);
    forall k: nat | k < |v| ensures TakenAt(doc, plan, v, k) {
      EdgeAlong(doc, StartEdge(doc).value.target, v, b, k);
    }
    DrivenFrom(doc, message, plan, v, 0);
  }

  lemma {:induction false} DrivenFrom(doc: Document, message: string, plan: nat -> Edge, v: seq<Edge>, k: nat)
    requires EdgesConnect(doc) && TakenAlong(doc, plan, v)
    requires k <= |v| && Along(doc, After(doc, message, Follower(plan), k), v, k)
    ensures Along(doc, After(doc, message, Follower(plan), |v|), v, |v|)
    decreases |v| - k
  {
    if k < |v| {
      DrivenOnce(doc, message, plan, v, k);
      DrivenFrom(doc, message, plan, v, k + 1);
    }
  }

  lemma DrivenOnce(doc: Document, message: string, plan: nat -> Edge, v: seq<Edge>, k: nat)
    requires EdgesConnect(doc) && StartEdge(doc).Some?
    requires k < |v| && TakenAt(doc, plan, v, k) && Along(doc, After(doc, message, Follower(plan), k), v, k)
    ensures Along(doc, After(doc, message, Follower(plan), k + 1), v, k + 1)
  {
    StepAlong(doc, After(doc, message, Follower(plan), k), v, k);
    FollowerStep(doc, message, plan, k);
  }

  ghost predicate Completable(doc: Document, message: string) {
    exists agent: Behaviour, n: nat :: After(doc, message, agent, n).Finished?
  }

  lemma PathCompletes(doc: Document, message: string)
    requires Sound(doc) && HasOpenPath(doc)
    ensures Completable(doc, message)
  {
    var a := StartEdge(doc).value.target;
    var v, r :| OpenPath(doc, v, r);
    var plan := (k: nat) => if k < |v| then v[k] else StartEdge(doc).value;
    DrivenAlong(doc, message, plan, v, r);
    var s := After(doc, message, Follower(plan), |v|);
    StationIsSource(doc.edges, a, v, r, |v|);
    var n :| n in doc.nodes && n.kind.ResultKind? && n.id == r;
    LookUpIsTheNode(doc, n);
    assert s.Finished?;
  }

  lemma CompletedHasPath(doc: Document, message: string, agent: Behaviour, n: nat)
    requires DistinctIds(doc) && After(doc, message, agent, n).Finished?
    ensures HasOpenPath(doc)
  {
    var s := After(doc, message, agent, n);
    RunIsDeclaredWalk(doc, message, agent, n);
    RunIsAllowed(doc, message, agent, n);
    LookUpFinds(doc.nodes, s.current.id);
    var v := WithoutRounds(doc, StartEdge(doc).value.target, s.trace, s.current.id);
    assert OpenPath(doc, v, s.current.id);
  }

  /** Some agents complete a Workflow exactly when a simple path leads to a result node from the node the
      engine starts at, over edges the engine would choose (the first with their route, the route not empty,
      and the node the controller wherever it has another way out), with no loop edge refused on it. */
  lemma CompletableIff(doc: Document, message: string)
    requires Sound(doc)
    ensures Completable(doc, message) <==> HasOpenPath(doc)
  {
    if HasOpenPath(doc) {
      PathCompletes(doc, message);
    }
    if Completable(doc, message) {
      var agent: Behaviour, n: nat :| After(doc, message, agent, n).Finished?;
      CompletedHasPath(doc, message, agent, n);
    }
  }

  /** Where loop edges have ids of their own, any path will do. */
  lemma CompletableIffWithOwnIds(doc: Document, message: string)
    requires Sound(doc) && OwnLoopIds(doc)
    ensures Completable(doc, message) <==> HasPlayablePath(doc)
  {
    CompletableIff(doc, message);
    if HasPlayablePath(doc) {
      var w, r :| PlayableWalk(doc, StartEdge(doc).value.target, w, r) && IsResultId(doc, r);
      var v := WithoutRounds(doc, StartEdge(doc).value.target, w, r);
      OwnIdsAllow(doc, v);
      assert OpenPath(doc, v, r);
    }
  }

  /** One invocation of a run: an agent that raises stops it at its node; else the run takes the edge that the
      document and the counters call for, with the agent's handoff, or stops there with the cause of the refusal. */
  lemma InvocationIsVerdict(doc: Document, message: string, agent: Behaviour, n: nat)
    requires DistinctIds(doc) && EdgesConnect(doc) && After(doc, message, agent, n).Running?
    ensures var s, t := After(doc, message, agent, n), After(doc, message, agent, n + 1);
      match agent(n, s.current, s.handoff)
      case Raised => t == Failed(s.current.id, AgentRaised, s.trace)
      case Step(handoff, route) =>
        exists choice :: Verdict(doc, s.current, s.trace, route, choice) && LeadsTo(s, choice, handoff, t)
  {
    var s := After(doc, message, agent, n);
    var reply := agent(n, s.current, s.handoff);
    if reply.Step? {
      var choice := Permitted(doc, s.current, s.trace, reply.route);
      PermittedIff(doc, s.current, s.trace, reply.route, choice);
      if choice.Take? {
        PickHasRoute(doc, s.current, reply.route, choice.edge);
        LookUpFindsId(doc, choice.edge.target);
      }
      assert LeadsTo(s, choice, reply.handoff, After(doc, message, agent, n + 1));
    }
  }

  ghost predicate LeadsTo(s: RunState, choice: Choice, handoff: string, t: RunState)
    requires s.Running?
  {
    match choice
    case Refuse(error) => t == Failed(s.current.id, error, s.trace)
    case Take(edge) =>
      && !t.Failed? && t.current.id == edge.target && t.handoff == handoff && t.trace == s.trace + [edge]
      && (t.Finished? <==> t.current.kind.ResultKind?)
  }

  // ---- How often a loop edge may be taken

  /** A run begins with the message at the node that the first edge out of the trigger's id leads to. */
  lemma StartsAtFirst(doc: Document, message: string) returns (i: nat)
    requires EdgesConnect(doc) && Leads(doc.edges, TRIGGER)
    ensures FirstFromAt(doc.edges, TRIGGER, i) && StartEdge(doc) == Some(doc.edges[i])
    ensures var s := Start(doc, message);
      !s.Failed? && s.current.id == doc.edges[i].target && s.handoff == message && s.trace == []
  {
    WaysOut(doc.edges, TRIGGER);
    i := FirstOutgoing(doc.edges, TRIGGER);
    DrivenStart(doc, message);
  }

  /** No other loop edge has the edge's id, so it has a counter of its own. */
  ghost predicate OwnId(doc: Document, e: Edge) {
    forall f :: IsLoopEdge(doc, f) && f.id == e.id ==> f == e
  }

  /** A way to a loop edge it does not take itself, and a playable round that begins with that edge and has
      no other loop edge. */
  ghost predicate CountedRound(doc: Document, v: seq<Edge>, c: seq<Edge>)
    requires StartEdge(doc).Some?
  {
    && c != [] && c[0].isLoop && NonLoop(c[1..]) && OwnId(doc, c[0])
    && PlayableWalk(doc, StartEdge(doc).value.target, v, c[0].source) && Allowed(v) && c[0] !in v
    && PlayableWalk(doc, c[0].source, c, c[0].source)
  }

  lemma FreeEdge(w: seq<Edge>, x: Edge, e: Edge) returns (after: seq<Edge>)
    requires Allowed(w) && !x.isLoop && e.isLoop
    ensures after == w + [x] && Allowed(after)
    ensures LoopUses(after, e.id) == LoopUses(w, e.id) && EdgeUses(after, e) == EdgeUses(w, e)
  {
    AllowedOneMore(w, x);
    after := w + [x];
    assert after[..|w|] == w;
  }

  /** A stretch without loop edges is never refused, and moves no counter. */
  lemma {:induction false} FreeStretch(w: seq<Edge>, x: seq<Edge>, e: Edge) returns (after: seq<Edge>)
    requires Allowed(w) && NonLoop(x) && e.isLoop
    ensures after == w + x && Allowed(after)
    ensures LoopUses(after, e.id) == LoopUses(w, e.id) && EdgeUses(after, e) == EdgeUses(w, e)
    decreases |x|
  {
    if x == [] {
      after := w;
    } else {
      var first, rest := x[0], x[1..];
      assert x == [first] + rest && first in x;
      var taken := FreeEdge(w, first, e);
      after := FreeStretch(taken, rest, e);
    }
  }

  lemma TakeLoopEdge(w: seq<Edge>, e: Edge) returns (after: seq<Edge>)
    requires Allowed(w) && e.isLoop && MayTake(w, e)
    ensures after == w + [e] && Allowed(after)
    ensures LoopUses(after, e.id) == LoopUses(w, e.id) + 1 && EdgeUses(after, e) == EdgeUses(w, e) + 1
  {
    AllowedOneMore(w, e);
    after := w + [e];
    assert after[..|w|] == w;
  }

  lemma OnceRound(w: seq<Edge>, c: seq<Edge>) returns (after: seq<Edge>)
    requires Allowed(w) && c != [] && c[0].isLoop && NonLoop(c[1..]) && MayTake(w, c[0])
    ensures after == w + c && Allowed(after)
    ensures LoopUses(after, c[0].id) == LoopUses(w, c[0].id) + 1 && EdgeUses(after, c[0]) == EdgeUses(w, c[0]) + 1
  {
    var e, rest := c[0], c[1..];
    var taken := TakeLoopEdge(w, e);
    after := FreeStretch(taken, rest, e);
    assert c == [e] + rest;
  }

  /** Going round so often is a walk the engine allows. */
  lemma {:induction false} RoundsAllowed(doc: Document, v: seq<Edge>, c: seq<Edge>, n: nat) returns (w: seq<Edge>)
    requires StartEdge(doc).Some? && CountedRound(doc, v, c)
    requires c[0].maxIterations.Some? && n <= c[0].maxIterations.value
    ensures PlayableWalk(doc, StartEdge(doc).value.target, w, c[0].source) && Allowed(w)
    ensures LoopUses(w, c[0].id) == EdgeUses(w, c[0]) == n
  {
    if n == 0 {
      w := v;
      NotTakenYet(doc, v, c[0]);
    } else {
      var u := RoundsAllowed(doc, v, c, n - 1);
      w := OnceRound(u, c);
      RoundIsPlayable(doc, StartEdge(doc).value.target, u, c);
    }
  }

  lemma RoundIsPlayable(doc: Document, a: string, u: seq<Edge>, c: seq<Edge>)
    requires c != [] && PlayableWalk(doc, a, u, c[0].source) && PlayableWalk(doc, c[0].source, c, c[0].source)
    ensures PlayableWalk(doc, a, u + c, c[0].source)
  {
    JoinWalks(doc.edges, a, u, c[0].source, c, c[0].source);
  }

  lemma NotTakenYet(doc: Document, v: seq<Edge>, e: Edge)
    requires e.isLoop && OwnId(doc, e) && e !in v && forall f :: f in v ==> f in doc.edges
    ensures LoopUses(v, e.id) == EdgeUses(v, e) == 0
  {
  }

  /** A limit is what it says: where a loop edge with an id of its own can be come to, and come back to by a
      round that has no other loop edge, some agents take it exactly as often as its limit allows, and the
      next time they choose it the run stops there. */
  lemma LimitIsReached(doc: Document, message: string, v: seq<Edge>, c: seq<Edge>) returns (agent: Behaviour, n: nat)
    requires Sound(doc) && StartEdge(doc).Some? && CountedRound(doc, v, c)
    ensures c[0].maxIterations.Some? && c[0].maxIterations.value >= 1
    ensures After(doc, message, agent, n).Running?
    ensures EdgeUses(After(doc, message, agent, n).trace, c[0]) == c[0].maxIterations.value
    ensures After(doc, message, agent, n + 1) == Failed(c[0].source, LoopLimitReached, After(doc, message, agent, n).trace)
  {
    var e := c[0];
    LoopEdgeOfRound(doc, c);
    var w := RoundsAllowed(doc, v, c, e.maxIterations.value);
    var plan := PlanOf(w, e);
    agent, n := Follower(plan), |w|;
    DrivenTo(doc, message, plan, w, e.source);
    StopsAtLimit(doc, message, plan, n, e);
  }

  /** Walks `w`, then proposes `e`. */
  function PlanOf(w: seq<Edge>, e: Edge): nat -> Edge {
    (k: nat) => if k < |w| then w[k] else e
  }

  lemma LoopEdgeOfRound(doc: Document, c: seq<Edge>)
    requires LoopsBounded(doc) && c != [] && c[0].isLoop && PlayableWalk(doc, c[0].source, c, c[0].source)
    ensures c[0].maxIterations.Some? && c[0].maxIterations.value >= 1
    ensures Playable(doc, c[0]) && !IsResultId(doc, c[0].source)
  {
    assert c[0] in c && c[0] in doc.edges;
  }

  lemma DrivenTo(doc: Document, message: string, plan: nat -> Edge, w: seq<Edge>, id: string)
    requires Sound(doc) && StartEdge(doc).Some? && PlayableWalk(doc, StartEdge(doc).value.target, w, id) && Allowed(w)
    requires forall i: nat :: i < |w| ==> plan(i) == w[i]
    ensures var s := After(doc, message, Follower(plan), |w|); StandsAt(doc, s, id) && s.trace == w
  {
    DrivenAlong(doc, message, plan, w, id);
    StationIsSource(doc.edges, StartEdge(doc).value.target, w, id, |w|);
    assert w[..|w|] == w;
  }

  lemma StopsAtLimit(doc: Document, message: string, plan: nat -> Edge, n: nat, e: Edge)
    requires plan(n) == e && Playable(doc, e) && !IsResultId(doc, e.source)
    requires var s := After(doc, message, Follower(plan), n); StandsAt(doc, s, e.source) && Exhausted(s.trace, e)
    ensures var s := After(doc, message, Follower(plan), n);
      s.Running? && After(doc, message, Follower(plan), n + 1) == Failed(e.source, LoopLimitReached, s.trace)
  {
    var s := After(doc, message, Follower(plan), n);
    LookUpFinds(doc.nodes, s.current.id);
    FollowerStep(doc, message, plan, n);
    PlayableIsPicked(doc, s.current, e);
    PermittedIff(doc, s.current, s.trace, Some(RouteOf(e)), Refuse(LoopLimitReached));
  }

  // ---- Accepted documents that complete, and one that does not start

  /** The shape that authored Workflows have: one trigger under the id the engine starts from, one
      edge out of it, agents everywhere else, and routes that tell a controller's edges apart. */
  ghost predicate WellAuthored(doc: Document) {
    && OwnLoopIds(doc)
    && (forall t :: IsTriggerId(doc, t) ==> t == TRIGGER)
    && |Outgoing(doc.edges, TRIGGER)| == 1
    && (forall e :: e in doc.edges ==> RouteOf(e) != "")
    && (forall n :: n in doc.nodes && n.id != TRIGGER && !n.kind.ResultKind? ==> n.kind.AgentKind?)
    && (forall n :: n in doc.nodes && IsController(n) ==> Distinct(RoutesOf(Outgoing(doc.edges, n.id))))
  }

  lemma {:induction false} DistinctRoutesFindEach(edges: seq<Edge>, e: Edge)
    requires e in edges && Distinct(RoutesOf(edges))
    ensures FirstWithRoute(edges, RouteOf(e)) == Some(e)
  {
    if edges[0] != e {
      var i :| 0 <= i < |edges| && edges[i] == e;
      assert RoutesOf(edges)[0] != RoutesOf(edges)[i];
      assert RoutesOf(edges[1..]) == RoutesOf(edges)[1..];
      DistinctRoutesFindEach(edges[1..], e);
    }
  }

  lemma AuthoredEdgeIsPlayable(doc: Document, e: Edge)
    requires Accepted(doc) && WellAuthored(doc)
    requires e in doc.edges && !IsResultId(doc, e.source)
    ensures Playable(doc, e)
  {
    AcceptedIsSound(doc);
    AuthoredEdgeIsFirst(doc, e);
    WaysOut(doc.edges, e.source);
    var i := RouteLookUp(doc.edges, e.source, RouteOf(e));
  }

  lemma AuthoredEdgeIsFirst(doc: Document, e: Edge)
    requires Accepted(doc) && WellAuthored(doc) && Sound(doc)
    requires e in doc.edges && !IsResultId(doc, e.source)
    ensures FirstWithRoute(Outgoing(doc.edges, e.source), RouteOf(e)) == Some(e)
    ensures |Outgoing(doc.edges, e.source)| > 1 ==> ControllerAt(doc, e.source)
  {
    var outgoing := Outgoing(doc.edges, e.source);
    OutgoingAreThoseFrom(doc.edges, e.source);
    if |outgoing| == 1 {
      assert outgoing == [e];
    } else {
      ForkIsControllers(doc, e);
      DistinctRoutesFindEach(outgoing, e);
    }
  }

  lemma ForkIsControllers(doc: Document, e: Edge)
    requires EdgesConnect(doc) && WellAuthored(doc) && forall n :: n in doc.nodes ==> Unambiguous(doc, n)
    requires e in doc.edges && !IsResultId(doc, e.source) && |Outgoing(doc.edges, e.source)| > 1
    ensures ControllerAt(doc, e.source) && Distinct(RoutesOf(Outgoing(doc.edges, e.source)))
  {
    LookUpFindsId(doc, e.source);
    LookUpFinds(doc.nodes, e.source);
    var n := LookUp(doc.nodes, e.source).value;
    assert Unambiguous(doc, n);
  }

  /** The first stretch of a walk that reaches a result node. */
  lemma UpToFirstResult(doc: Document, a: string, w: seq<Edge>, b: string) returns (k: nat)
    requires WalkFrom(doc.edges, a, w, b) && IsResultId(doc, b) && !IsResultId(doc, a)
    ensures 0 < k <= |w| && IsResultId(doc, Station(a, w, k))
    ensures InteriorNotResult(doc, w[..k])
  {
    k := 1;
    while !IsResultId(doc, Station(a, w, k))
      invariant 1 <= k <= |w|
      invariant forall i :: 0 <= i < k ==> !IsResultId(doc, Station(a, w, i))
      decreases |w| - k
    {
      k := k + 1;
    }
    forall e | e in w[..k] ensures !IsResultId(doc, e.source) {
      var i :| 0 <= i < k && w[i] == e;
      StationIsSource(doc.edges, a, w, b, i);
    }
  }

  lemma TriggerIsNoResult(doc: Document, t: string)
    requires DistinctIds(doc) && IsTriggerId(doc, t)
    ensures !IsResultId(doc, t)
  {
  }

  /** A walk from the trigger to a result starts by the one edge the engine starts by. */
  lemma PathFromTrigger(doc: Document, w: seq<Edge>, r: string) returns (path: seq<Edge>, end: string)
    requires WalkFrom(doc.edges, TRIGGER, w, r) && IsResultId(doc, r) && !IsResultId(doc, TRIGGER)
    requires |Outgoing(doc.edges, TRIGGER)| == 1
    ensures StartEdge(doc).Some? && WalkFrom(doc.edges, StartEdge(doc).value.target, path, end)
    ensures InteriorNotResult(doc, path) && IsResultId(doc, end)
  {
    var k := UpToFirstResult(doc, TRIGGER, w, r);
    end := Station(TRIGGER, w, k);
    path := w[1..k];
    StartsByStartEdge(doc, w, r);
    SubWalk(doc.edges, w, 1, k);
    StationIsSource(doc.edges, TRIGGER, w, r, 1);
    forall e | e in path ensures !IsResultId(doc, e.source) {
      assert e in w[..k];
    }
  }

  lemma StartsByStartEdge(doc: Document, u: seq<Edge>, end: string)
    requires WalkFrom(doc.edges, TRIGGER, u, end) && u != []
    requires |Outgoing(doc.edges, TRIGGER)| == 1
    ensures StartEdge(doc) == Some(u[0])
  {
    OutgoingAreThoseFrom(doc.edges, TRIGGER);
    assert u[0] in u && u[0] in Outgoing(doc.edges, TRIGGER);
  }

  /** An accepted Workflow of that shape has agents that complete it. */
  lemma AcceptedIsCompletable(doc: Document, message: string)
    requires Accepted(doc) && WellAuthored(doc)
    ensures Completable(doc, message)
  {
    AcceptedIsSound(doc);
    var r :| IsResultId(doc, r) && Reachable(doc, r);
    var t, w :| IsTriggerId(doc, t) && WalkFrom(doc.edges, t, w, r);
    TriggerIsNoResult(doc, t);
    var path, end := PathFromTrigger(doc, w, r);
    forall e | e in path ensures Playable(doc, e) {
      AuthoredEdgeIsPlayable(doc, e);
    }
    assert PlayableWalk(doc, StartEdge(doc).value.target, path, end);
    CompletableIffWithOwnIds(doc, message);
  }

  const LEAD := Node("lead", AgentKind, Some(NodeData(true, [], Some(Orchestrator))))
  const DONE := Node("done", ResultKind, None)

  /** A document the check accepts although its trigger node is not called "trigger". */
  const RENAMED_TRIGGER := Document(
    [Node("start", TriggerKind, None), LEAD, DONE],
    [Edge("1", "start", "lead", None, false, None), Edge("2", "lead", "done", None, false, None)])

  /** The check looks for triggers by their type, the engine for the id "trigger": an accepted
      document may stop before its first agent. It starts exactly when an edge leaves that id. */
  lemma AcceptedNeedNotStart(message: string, agent: Behaviour, n: nat)
    ensures Accepted(RENAMED_TRIGGER)
    ensures After(RENAMED_TRIGGER, message, agent, n) == Failed(TRIGGER, NoStart, [])
    ensures forall doc :: EdgesConnect(doc) ==>
      (Start(doc, message).Failed? <==> forall e :: e in doc.edges ==> e.source != TRIGGER)
  {
    RenamedTriggerAccepted();
    StandsStill(RENAMED_TRIGGER, message, agent, n);
    forall doc | EdgesConnect(doc)
      ensures Start(doc, message).Failed? <==> forall e :: e in doc.edges ==> e.source != TRIGGER
    {
      OutgoingAreThoseFrom(doc.edges, TRIGGER);
      if StartEdge(doc).Some? {
        assert StartEdge(doc).value in Outgoing(doc.edges, TRIGGER);
        StartTargetIsNode(doc);
        LookUpFindsId(doc, StartEdge(doc).value.target);
      }
    }
  }

  lemma {:induction false} StandsStill(doc: Document, message: string, agent: Behaviour, n: nat)
    requires !Start(doc, message).Running?
    ensures After(doc, message, agent, n) == Start(doc, message)
  {
    if n > 0 {
      StandsStill(doc, message, agent, n - 1);
    }
  }

  lemma RenamedTriggerAccepted()
    ensures Accepted(RENAMED_TRIGGER)
  {
    RenamedTriggerShape();
    RenamedTriggerGraph();
    assert NodeIds(RENAMED_TRIGGER) == ["start", "lead", "done"];
  }

  lemma CountControllers(n: Node, rest: seq<Node>)
    ensures Controllers([n] + rest) == (if IsController(n) then 1 else 0) + Controllers(rest)
  {
    assert ([n] + rest)[1..] == rest;
  }

  /** The checks on the shape of a document, one by one. */
  lemma ShapeInOrder(doc: Document)
    requires "" !in NodeIds(doc) && Distinct(NodeIds(doc)) && Controllers(doc.nodes) == 1
    requires exists n :: n in doc.nodes && n.kind.TriggerKind?
    requires exists n :: n in doc.nodes && n.kind.ResultKind?
    requires forall n :: n in doc.nodes ==> GoodAgent(n)
    ensures ShapeViolation(doc).None? && FirstAgentError(doc.nodes).None?
  {
    AgentVerdict(doc.nodes);
  }

  lemma RenamedTriggerShape()
    ensures ShapeViolation(RENAMED_TRIGGER).None? && FirstAgentError(RENAMED_TRIGGER.nodes).None?
  {
    var nodes := RENAMED_TRIGGER.nodes;
    assert NodeIds(RENAMED_TRIGGER) == ["start", "lead", "done"];
    assert nodes[0] in nodes && nodes[2] in nodes;
    forall n | n in nodes ensures GoodAgent(n) {
      assert n == nodes[0] || n == LEAD || n == DONE;
    }
    RenamedTriggerControllers();
    ShapeInOrder(RENAMED_TRIGGER);
  }

  lemma RenamedTriggerControllers()
    ensures Controllers(RENAMED_TRIGGER.nodes) == 1
  {
    var start := RENAMED_TRIGGER.nodes[0];
    CountControllers(DONE, []);
    CountControllers(LEAD, [DONE]);
    CountControllers(start, [LEAD, DONE]);
    assert [start] + [LEAD, DONE] == RENAMED_TRIGGER.nodes && [LEAD] + [DONE] == [LEAD, DONE] && [DONE] + [] == [DONE];
  }

  lemma RenamedTriggerGraph()
    ensures GraphViolation(RENAMED_TRIGGER).None?
  {
    var doc := RENAMED_TRIGGER;
    var e, f := doc.edges[0], doc.edges[1];
    assert doc.nodes[0] in doc.nodes && doc.nodes[2] in doc.nodes;
    assert WalkFrom(doc.edges, "start", [e, f], "done");
    assert IsTriggerId(doc, "start") && IsResultId(doc, "done") && Reachable(doc, "done");
    assert Unambiguous(doc, LEAD);
    forall w ensures !ClosedWalk(doc.edges, w) {
      if ClosedWalk(doc.edges, w) {
        RankRises(doc.edges, id => if id == "start" then 0 else if id == "lead" then 1 else 2, w);
      }
    }
  }

  /** No round is made of edges that all lead on to a higher rank. */
  lemma {:induction false} RankRises(edges: seq<Edge>, rank: string -> nat, w: seq<Edge>)
    requires IsWalk(edges, w) && w != [] && forall e :: e in edges ==> rank(e.source) < rank(e.target)
    ensures rank(w[0].source) < rank(w[|w| - 1].target)
    decreases |w|
  {
    var last := |w| - 1;
    assert w[last] in w;
    if last > 0 {
      SubWalk(edges, w, 0, last);
      assert w[..last] == w[0..last];
      RankRises(edges, rank, w[..last]);
      assert w[last - 1].target == w[last].source;
    }
  }

  // ---- Accepted documents that cannot complete

  const FIRST := Node("first", AgentKind, Some(NodeData(true, [], Some(Orchestrator))))
  const SECOND := Node("second", AgentKind, Some(NodeData(false, [], Some(Insight))))
  const TO_FIRST := Edge("1", TRIGGER, "first", None, false, None)
  const TO_SECOND := Edge("x", "first", "second", None, true, Some(1))
  const TO_DONE := Edge("x", "second", "done", None, true, Some(1))

  /** A document whose two loop edges share an id, each with a limit of one. */
  const SHARED_ID := Document([Node(TRIGGER, TriggerKind, None), FIRST, SECOND, DONE], [TO_FIRST, TO_SECOND, TO_DONE])

  /** The check does not look at edge ids. Loop edges that share one share its counter, so an accepted document
      may have no agents that complete it: its only path takes two. */
  lemma AcceptedNeedNotComplete(message: string)
    ensures Accepted(SHARED_ID) && !Completable(SHARED_ID, message) && HasPlayablePath(SHARED_ID)
  {
    SharedIdAccepted();
    AcceptedIsSound(SHARED_ID);
    SharedIdOutgoing();
    SharedIdHasNoOpenPath();
    SharedIdHasPath();
    CompletableIff(SHARED_ID, message);
  }

  lemma SharedIdHasNoOpenPath()
    requires StartEdge(SHARED_ID) == Some(TO_FIRST)
    ensures !HasOpenPath(SHARED_ID)
  {
    forall w, r ensures !OpenPath(SHARED_ID, w, r) {
      if WalkFrom(SHARED_ID.edges, "first", w, "done") {
        SharedIdRefused(w);
      }
    }
  }

  lemma SharedIdHasPath()
    requires DistinctIds(SHARED_ID) && StartEdge(SHARED_ID) == Some(TO_FIRST)
    ensures HasPlayablePath(SHARED_ID)
  {
    var w := [TO_SECOND, TO_DONE];
    SharedIdIsPlayable();
    assert WalkFrom(SHARED_ID.edges, "first", w, "done");
    assert InteriorNotResult(SHARED_ID, w);
    assert DONE in SHARED_ID.nodes && IsResultId(SHARED_ID, "done");
    assert PlayableWalk(SHARED_ID, "first", w, "done");
  }

  lemma SharedIdIsPlayable()
    ensures Playable(SHARED_ID, TO_SECOND) && Playable(SHARED_ID, TO_DONE)
  {
    var edges := SHARED_ID.edges;
    assert FirstOutAt(edges, "first", DEFAULT_ROUTE, 1) && edges[1] == TO_SECOND;
    assert FirstOutAt(edges, "second", DEFAULT_ROUTE, 2) && edges[2] == TO_DONE;
  }

  lemma SharedIdOutgoing()
    ensures Outgoing(SHARED_ID.edges, TRIGGER) == [TO_FIRST]
    ensures Outgoing(SHARED_ID.edges, "first") == [TO_SECOND]
    ensures Outgoing(SHARED_ID.edges, "second") == [TO_DONE]
  {
    forall source ensures Outgoing(SHARED_ID.edges, source) ==
        (if source == TRIGGER then [TO_FIRST] else []) + (if source == "first" then [TO_SECOND] else [])
        + (if source == "second" then [TO_DONE] else [])
    {
      var edges := SHARED_ID.edges;
      assert edges[1..] == [TO_SECOND, TO_DONE] && edges[1..][1..] == [TO_DONE] && [TO_DONE][1..] == [];
      assert Outgoing([TO_DONE], source) == if source == "second" then [TO_DONE] else [];
      assert Outgoing([TO_SECOND, TO_DONE], source) ==
          (if source == "first" then [TO_SECOND] else []) + Outgoing([TO_DONE], source);
    }
  }

  /** Every way from the first node to a result goes by both loop edges, and is refused the second. */
  lemma SharedIdRefused(w: seq<Edge>)
    requires WalkFrom(SHARED_ID.edges, "first", w, "done")
    ensures !Allowed(w)
  {
    SharedIdTakesBoth(w);
    var uses := w[..1];
    assert uses[..0] == [] && uses[0] == TO_SECOND;
    assert LoopUses(uses, "x") == 1;
    assert !MayTake(w[..1], w[1]);
  }

  lemma SharedIdTakesBoth(w: seq<Edge>)
    requires WalkFrom(SHARED_ID.edges, "first", w, "done")
    ensures |w| > 1 && w[0] == TO_SECOND && w[1] == TO_DONE
  {
    assert w[0] in w;
    assert |w| > 1 ==> w[0].target == w[1].source && w[1] in w;
  }

  lemma SharedIdAccepted()
    ensures Accepted(SHARED_ID)
  {
    SharedIdShape();
    SharedIdGraph();
    SharedIdIds();
  }

  lemma SharedIdShape()
    ensures ShapeViolation(SHARED_ID).None? && FirstAgentError(SHARED_ID.nodes).None?
  {
    var nodes := SHARED_ID.nodes;
    SharedIdIds();
    assert nodes[0] in nodes && nodes[3] in nodes;
    forall n | n in nodes ensures GoodAgent(n) {
      assert n == nodes[0] || n == FIRST || n == SECOND || n == DONE;
    }
    SharedIdControllers();
    ShapeInOrder(SHARED_ID);
  }

  lemma SharedIdIds()
    ensures NodeIds(SHARED_ID) == [TRIGGER, "first", "second", "done"]
  {
  }

  lemma SharedIdControllers()
    ensures Controllers(SHARED_ID.nodes) == 1
  {
    var trigger := SHARED_ID.nodes[0];
    CountControllers(DONE, []);
    CountControllers(SECOND, [DONE]);
    CountControllers(FIRST, [SECOND, DONE]);
    CountControllers(trigger, [FIRST, SECOND, DONE]);
    assert [trigger] + [FIRST, SECOND, DONE] == SHARED_ID.nodes && [FIRST] + [SECOND, DONE] == [FIRST, SECOND, DONE];
    assert [SECOND] + [DONE] == [SECOND, DONE] && [DONE] + [] == [DONE];
  }

  function SharedIdRank(id: string): nat {
    if id == TRIGGER then 0 else if id == "first" then 1 else if id == "second" then 2 else 3
  }

  lemma SharedIdGraph()
    ensures GraphViolation(SHARED_ID).None?
  {
    SharedIdReaches();
    SharedIdOutgoing();
    SharedIdHasNoRound();
    forall n | n in SHARED_ID.nodes ensures Unambiguous(SHARED_ID, n) {
    }
  }

  lemma SharedIdReaches()
    ensures HasTerminalPath(SHARED_ID)
  {
    var doc := SHARED_ID;
    assert doc.nodes[0] in doc.nodes && DONE in doc.nodes;
    assert WalkFrom(doc.edges, TRIGGER, [TO_FIRST, TO_SECOND, TO_DONE], "done");
    assert IsTriggerId(doc, TRIGGER) && IsResultId(doc, "done") && Reachable(doc, "done");
  }

  lemma SharedIdHasNoRound()
    ensures !HasUncountedCycle(SHARED_ID)
  {
    forall w ensures !ClosedWalk(SHARED_ID.edges, w) {
      if ClosedWalk(SHARED_ID.edges, w) {
        RankRises(SHARED_ID.edges, SharedIdRank, w);
      }
    }
  }

  // ---- When a run need never end

  /** A round over playable edges, none a loop edge, that the engine can be brought to, no loop edge being
      refused on a simple path there. */
  ghost predicate HasEndlessRound(doc: Document) {
    StartEdge(doc).Some? && exists v, c :: EndlessRound(doc, v, c)
  }

  ghost predicate EndlessRound(doc: Document, v: seq<Edge>, c: seq<Edge>)
    requires StartEdge(doc).Some?
  {
    && ClosedWalk(doc.edges, c) && NonLoop(c)
    && PlayableWalk(doc, StartEdge(doc).value.target, v, c[0].source)
    && PlayableWalk(doc, c[0].source, c, c[0].source)
    && Allowed(v) && Distinct(SourcesOf(v))
  }

  ghost predicate Endless(doc: Document, message: string) {
    exists agent: Behaviour :: RunsForever(doc, message, agent)
  }

  ghost predicate RunsForever(doc: Document, message: string, agent: Behaviour) {
    forall n: nat :: After(doc, message, agent, n).Running?
  }

  /** A run longer than the bound has gone round without a loop edge: among the edges it took there
      is an uncounted round, and the run came to it. */
  lemma LongRunHasEndlessRound(doc: Document, message: string, agent: Behaviour)
    requires Sound(doc) && After(doc, message, agent, CallBound(doc)).Running?
    ensures HasEndlessRound(doc)
  {
    var s := After(doc, message, agent, CallBound(doc));
    RunIsDeclaredWalk(doc, message, agent, CallBound(doc));
    RunLength(doc, message, agent, CallBound(doc));
    StartTargetIsNode(doc);
    RunIsAllowed(doc, message, agent, CallBound(doc));
    LongWalkHasEndlessRound(doc, s.trace, s.current.id);
  }

  lemma LongWalkHasEndlessRound(doc: Document, w: seq<Edge>, b: string)
    requires EdgesConnect(doc) && DeclaredWalk(doc, w, b) && Allowed(w) && |w| >= CallBound(doc)
    requires StartEdge(doc).value.target in NodeIds(doc)
    ensures HasEndlessRound(doc)
  {
    var a := StartEdge(doc).value.target;
    WithinBudget(doc, w);
    TakenEdgesCycle(doc, a, w, b);
    var c :| ClosedWalk(w, c) && NonLoop(c);
    RoundIsReached(doc, w, b, c);
  }

  lemma RoundIsReached(doc: Document, w: seq<Edge>, b: string, c: seq<Edge>)
    requires StartEdge(doc).Some? && PlayableWalk(doc, StartEdge(doc).value.target, w, b) && Allowed(w)
    requires ClosedWalk(w, c) && NonLoop(c)
    ensures HasEndlessRound(doc)
  {
    assert c[0] in c && c[0] in w;
    var i :| 0 <= i < |w| && w[i] == c[0];
    var v := WayTo(doc, StartEdge(doc).value.target, w, b, i);
    assert EndlessRound(doc, v, c);
  }

  /** A simple way to a place on a walk. */
  lemma WayTo(doc: Document, a: string, w: seq<Edge>, b: string, i: nat) returns (v: seq<Edge>)
    requires PlayableWalk(doc, a, w, b) && Allowed(w) && i < |w|
    ensures PlayableWalk(doc, a, v, w[i].source) && Allowed(v) && Distinct(SourcesOf(v))
  {
    StationIsSource(doc.edges, a, w, b, i);
    AllowedPrefix(w, i);
    v := WithoutRounds(doc, a, w[..i], w[i].source);
  }

  lemma AllowedPrefix(w: seq<Edge>, i: nat)
    requires Allowed(w) && i <= |w|
    ensures Allowed(w[..i])
  {
    forall k | 0 <= k < i ensures MayTake(w[..i][..k], w[..i][k]) {
      assert w[..i][..k] == w[..k];
    }
  }

  lemma TakenEdgesCycle(doc: Document, a: string, w: seq<Edge>, b: string)
    requires EdgesConnect(doc) && a in NodeIds(doc) && WalkFrom(doc.edges, a, w, b)
    requires LoopCount(w) <= IterationBudget(doc) && |w| >= CallBound(doc)
    ensures HasUncountedCycle(Document(doc.nodes, w))
  {
    var taken := Document(doc.nodes, w);
    assert WalkFrom(taken.edges, a, w, b);
    if !HasUncountedCycle(taken) {
      WalkLength(taken, a, w, b);
      BudgetBoundsLength(|w|, |doc.nodes|, LoopCount(w), IterationBudget(doc));
    }
  }

  /** The position in a round of `n` edges after `k` steps. */
  function RoundPosition(k: nat, n: nat): nat
    requires n > 0
    ensures RoundPosition(k, n) < n
  {
    if k == 0 then 0
    else
      var p := RoundPosition(k - 1, n);
      if p + 1 < n then p + 1 else 0
  }

  /** The k-th edge of the plan that walks `v` and then goes round `c` for good. */
  function RoundPlan(v: seq<Edge>, c: seq<Edge>, k: nat): (e: Edge)
    requires c != []
    ensures if k < |v| then e == v[k] else e in c
  {
    if k < |v| then v[k] else c[RoundPosition(k - |v|, |c|)]
  }

  /** The plan's k-th edge is one the engine takes freely, and leads to the next. */
  ghost predicate GoesOn(doc: Document, plan: nat -> Edge, k: nat) {
    && Playable(doc, plan(k))
    && !IsResultId(doc, plan(k).source)
    && !plan(k).isLoop
    && plan(k).target == plan(k + 1).source
  }

  lemma PlanGoesOn(doc: Document, plan: nat -> Edge, v: seq<Edge>, c: seq<Edge>, k: nat)
    requires StartEdge(doc).Some? && EndlessRound(doc, v, c) && k >= |v|
    requires plan(k) == RoundPlan(v, c, k) && plan(k + 1) == RoundPlan(v, c, k + 1)
    ensures GoesOn(doc, plan, k)
  {
  }

  lemma ReachesRound(doc: Document, message: string, plan: nat -> Edge, v: seq<Edge>, c: seq<Edge>)
    requires Sound(doc) && StartEdge(doc).Some? && EndlessRound(doc, v, c)
    requires forall i: nat :: i < |v| ==> plan(i) == v[i]
    ensures StandsAt(doc, After(doc, message, Follower(plan), |v|), RoundPlan(v, c, |v|).source)
  {
    DrivenAlong(doc, message, plan, v, c[0].source);
    StationIsSource(doc.edges, StartEdge(doc).value.target, v, c[0].source, |v|);
    assert RoundPosition(0, |c|) == 0;
  }

  /** The run that follows the plan stands, after `k` invocations, where the plan's k-th edge leaves. */
  ghost predicate OnPlan(doc: Document, message: string, plan: nat -> Edge, k: nat) {
    StandsAt(doc, After(doc, message, Follower(plan), k), plan(k).source)
  }

  lemma GoesOnStep(doc: Document, message: string, plan: nat -> Edge, k: nat)
    requires EdgesConnect(doc) && GoesOn(doc, plan, k)
    requires OnPlan(doc, message, plan, k)
    ensures After(doc, message, Follower(plan), k).Running?
    ensures OnPlan(doc, message, plan, k + 1)
  {
    DrivenStep(doc, After(doc, message, Follower(plan), k), plan(k));
    FollowerStep(doc, message, plan, k);
  }

  ghost predicate GoesOnFrom(doc: Document, plan: nat -> Edge, from: nat) {
    forall i: nat :: i >= from ==> GoesOn(doc, plan, i)
  }

  lemma GoesOnStepFrom(doc: Document, message: string, plan: nat -> Edge, from: nat, k: nat)
    requires EdgesConnect(doc) && GoesOnFrom(doc, plan, from) && k >= from
    requires OnPlan(doc, message, plan, k)
    ensures After(doc, message, Follower(plan), k).Running?
    ensures OnPlan(doc, message, plan, k + 1)
  {
    assert GoesOn(doc, plan, k);
    GoesOnStep(doc, message, plan, k);
  }

  lemma {:induction false} RoundGoesOn(doc: Document, message: string, plan: nat -> Edge, from: nat, k: nat)
    requires EdgesConnect(doc) && from <= k
    requires OnPlan(doc, message, plan, from)
    requires GoesOnFrom(doc, plan, from)
    ensures OnPlan(doc, message, plan, k)
    decreases k - from
  {
    if from < k {
      GoesOnStepFrom(doc, message, plan, from, from);
      RoundGoesOn(doc, message, plan, from + 1, k);
    }
  }

  lemma RoundRunsAt(doc: Document, message: string, plan: nat -> Edge, from: nat, k: nat)
    requires EdgesConnect(doc) && k >= from
    requires OnPlan(doc, message, plan, from)
    requires GoesOnFrom(doc, plan, from)
    ensures After(doc, message, Follower(plan), k).Running?
  {
    RoundGoesOn(doc, message, plan, from, k);
    GoesOnStepFrom(doc, message, plan, from, k);
  }

  lemma PlanRunsForever(doc: Document, message: string, plan: nat -> Edge, from: nat)
    requires EdgesConnect(doc)
    requires OnPlan(doc, message, plan, from)
    requires GoesOnFrom(doc, plan, from)
    ensures RunsForever(doc, message, Follower(plan))
  {
    forall n: nat ensures After(doc, message, Follower(plan), n).Running? {
      if n >= from {
        RoundRunsAt(doc, message, plan, from, n);
      } else {
        RoundRunsAt(doc, message, plan, from, from);
        RunningBefore(doc, message, Follower(plan), n, from);
      }
    }
  }

  lemma RoundRunsForever(doc: Document, message: string)
    requires Sound(doc) && HasEndlessRound(doc)
    ensures Endless(doc, message)
  {
    var v: seq<Edge>, c: seq<Edge> :| EndlessRound(doc, v, c);
    var plan := (k: nat) => RoundPlan(v, c, k);
    ReachesRound(doc, message, plan, v, c);
    forall i: nat | i >= |v| ensures GoesOn(doc, plan, i) {
      PlanGoesOn(doc, plan, v, c, i);
    }
    PlanRunsForever(doc, message, plan, |v|);
  }

  /** What the cycle check is for, exactly: on a document that is otherwise in order, agents can keep
      the engine going for ever if and only if they can bring it to a round that holds no loop edge, by a
      simple path on which no loop edge is refused. */
  lemma EndlessIff(doc: Document, message: string)
    requires Sound(doc)
    ensures Endless(doc, message) <==> HasEndlessRound(doc)
  {
    if HasEndlessRound(doc) {
      RoundRunsForever(doc, message);
    }
    if Endless(doc, message) {
      var agent: Behaviour :| RunsForever(doc, message, agent);
      LongRunHasEndlessRound(doc, message, agent);
    }
  }

  /** A round without loop edges, and any way to it. */
  ghost predicate LeadsToRound(doc: Document, v: seq<Edge>, c: seq<Edge>)
    requires StartEdge(doc).Some?
  {
    && ClosedWalk(doc.edges, c) && NonLoop(c)
    && PlayableWalk(doc, StartEdge(doc).value.target, v, c[0].source)
    && PlayableWalk(doc, c[0].source, c, c[0].source)
  }

  /** Where loop edges have ids of their own, any way to the round will do. */
  lemma EndlessIffWithOwnIds(doc: Document, message: string)
    requires Sound(doc) && OwnLoopIds(doc)
    ensures Endless(doc, message) <==> StartEdge(doc).Some? && exists v, c :: LeadsToRound(doc, v, c)
  {
    EndlessIff(doc, message);
    if StartEdge(doc).Some? {
      if v0, c: seq<Edge> :| LeadsToRound(doc, v0, c) {
        var v := WithoutRounds(doc, StartEdge(doc).value.target, v0, c[0].source);
        OwnIdsAllow(doc, v);
        assert EndlessRound(doc, v, c);
      }
      if v: seq<Edge>, c: seq<Edge> :| EndlessRound(doc, v, c) {
        assert LeadsToRound(doc, v, c);
      }
    }
  }
}
