/** One orchestrated analysis run: measure and recheck, plan, fan out, merge, settle, draft. The
    branches of the fan-out run concurrently, so the run is a state machine with one step for the
    start and one for the end of every agent execution. */
module Orchestrator {
  import opened Wrappers
  import opened AnalysisBoard

  const MAX_EVALUATION_ATTEMPTS := 3

  // ---- Which follow-ups are accepted

  datatype Proposal = Proposal(analyst: bool, objective: string)

  /** Text handling the rule relies on: stripping white space and case folding. */
  datatype TextRules = TextRules(strip: string -> string, fold: string -> string)

  predicate Eligible(t: TextRules, p: Proposal) {
    p.analyst && t.strip(p.objective) != ""
  }

  function KeyOf(t: TextRules, p: Proposal): string {
    t.fold(t.strip(p.objective))
  }

  /** The keys of accepted objectives, the question's first. */
  function Seen(t: TextRules, question: string, accepted: seq<string>): set<string> {
    {t.fold(t.strip(question))} + set a | a in accepted :: t.fold(a)
  }

  /** Each accepted objective is the stripped text of an eligible proposal, in the order proposed; `at`
      are the places they were taken from. */
  ghost predicate TakenFrom(t: TextRules, proposals: seq<Proposal>, accepted: seq<string>, at: seq<nat>) {
    && |at| == |accepted|
    && (forall i, j :: 0 <= i < j < |at| ==> at[i] < at[j])
    && (forall i :: 0 <= i < |at| ==>
          at[i] < |proposals| && Eligible(t, proposals[at[i]]) && accepted[i] == t.strip(proposals[at[i]].objective))
  }

  /** None repeats another, or the question, under case folding. */
  ghost predicate DistinctKeys(t: TextRules, question: string, accepted: seq<string>) {
    && (forall i :: 0 <= i < |accepted| ==> t.fold(accepted[i]) != t.fold(t.strip(question)))
    && (forall i, j :: 0 <= i < j < |accepted| ==> t.fold(accepted[i]) != t.fold(accepted[j]))
  }

  /** Nothing eligible was passed over but for a repeat of the question or of something accepted. */
  ghost predicate Covered(t: TextRules, proposals: seq<Proposal>, question: string, accepted: seq<string>) {
    forall p :: p in proposals && Eligible(t, p) ==> KeyOf(t, p) in Seen(t, question, accepted)
  }

  /** What the policy makes of the proposals it has looked at. */
  ghost predicate Policy(t: TextRules, proposals: seq<Proposal>, question: string, accepted: seq<string>, at: seq<nat>) {
    TakenFrom(t, proposals, accepted, at) && DistinctKeys(t, question, accepted) && Covered(t, proposals, question, accepted)
  }

  lemma PassOver(t: TextRules, proposals: seq<Proposal>, question: string, accepted: seq<string>, at: seq<nat>, p: Proposal)
    requires Policy(t, proposals, question, accepted, at)
    requires !Eligible(t, p) || KeyOf(t, p) in Seen(t, question, accepted)
    ensures Policy(t, proposals + [p], question, accepted, at)
  {
  }

  lemma SeenOneMore(t: TextRules, question: string, accepted: seq<string>, a: string)
    ensures Seen(t, question, accepted + [a]) == Seen(t, question, accepted) + {t.fold(a)}
  {
  }

  lemma TakeUp(t: TextRules, proposals: seq<Proposal>, question: string, accepted: seq<string>, at: seq<nat>, p: Proposal)
    requires Policy(t, proposals, question, accepted, at)
    requires Eligible(t, p) && KeyOf(t, p) !in Seen(t, question, accepted)
    ensures Policy(t, proposals + [p], question, accepted + [t.strip(p.objective)], at + [|proposals|])
  {
  }

  /** The policy that decides which proposals become follow-ups. It stops at the limit, having looked at
      the first `upTo` proposals; only a limit below one leaves the number unbounded, and then the planner
      is not asked. */
  method AcceptFollowups(t: TextRules, proposals: seq<Proposal>, question: string, limit: int)
    returns (accepted: seq<string>, ghost at: seq<nat>, ghost upTo: nat)
    ensures upTo <= |proposals| && Policy(t, proposals[..upTo], question, accepted, at)
    ensures upTo == |proposals| || |accepted| == limit
    ensures limit >= 1 ==> |accepted| <= limit
  {
    var seen := {t.fold(t.strip(question))};
    accepted, at, upTo := [], [], 0;
    assert seen == Seen(t, question, accepted);
    for k := 0 to |proposals|
      invariant upTo == k && Policy(t, proposals[..k], question, accepted, at)
      invariant seen == Seen(t, question, accepted)
      invariant limit >= 1 ==> |accepted| < limit
    {
      assert proposals[..k + 1] == proposals[..k] + [proposals[k]];
      upTo := k + 1;
      var objective := t.strip(proposals[k].objective);
      if !proposals[k].analyst || objective == "" || t.fold(objective) in seen {
        PassOver(t, proposals[..k], question, accepted, at, proposals[k]);
        continue;
      }
      TakeUp(t, proposals[..k], question, accepted, at, proposals[k]);
      SeenOneMore(t, question, accepted, objective);
      seen := seen + {t.fold(objective)};
      accepted, at := accepted + [objective], at + [k];
      if |accepted| == limit {
        return;
      }
    }
  }

  // ---- Which gaps a finished run closes

  /** The objectives whose branches survived, in order. */
  function Survivors(accepted: seq<string>, survived: nat -> bool): seq<string> {
    if accepted == [] then []
    else
      var last := |accepted| - 1;
      Survivors(accepted[..last], survived) + if survived(last) then [accepted[last]] else []
  }

  lemma {:induction false} SurvivorsAreThose(accepted: seq<string>, survived: nat -> bool, d: string)
    ensures d in Survivors(accepted, survived) <==> exists i: nat :: i < |accepted| && survived(i) && accepted[i] == d
  {
    if accepted != [] {
      var last := |accepted| - 1;
      SurvivorsAreThose(accepted[..last], survived, d);
    }
  }

  /** How a description is compared with what was answered. */
  function Normalised(t: TextRules): string -> string {
    (s: string) => t.fold(t.strip(s))
  }

  /** The gaps of a run: the question's, and one for each follow-up, all open. */
  ghost predicate GapsFor(question: string, accepted: seq<string>, gaps: seq<Gap>) {
    && |gaps| == 1 + |accepted| && gaps[0].description == question
    && (forall i :: 0 <= i < |accepted| ==> gaps[i + 1].description == accepted[i])
    && (forall i :: 0 <= i < |gaps| ==> !gaps[i].resolved)
  }

  /** What is closed once Insight has drafted. */
  function ClosedWith(t: TextRules, gaps: seq<Gap>, answered: seq<string>): seq<Gap> {
    var norm := Normalised(t);
    GapsClosed(gaps, set d | d in answered :: norm(d), norm)
  }

  lemma ClosedIff(t: TextRules, gaps: seq<Gap>, answered: seq<string>, i: nat)
    requires i < |gaps| && !gaps[i].resolved
    ensures ClosedWith(t, gaps, answered)[i].resolved <==> IsAnswered(t, answered, gaps[i].description)
  {
  }

  ghost predicate IsAnswered(t: TextRules, answered: seq<string>, description: string) {
    exists d :: d in answered && t.fold(t.strip(d)) == t.fold(t.strip(description))
  }

  /** A finished run closes the question's gap, and a follow-up's exactly when its own branch survived: because no
      two accepted objectives fold alike, nor one with the question, no branch closes the gap of another. */
  lemma GapsCloseWithTheirBranches(t: TextRules, proposals: seq<Proposal>, question: string, accepted: seq<string>, at: seq<nat>,
                                   gaps: seq<Gap>, survived: nat -> bool, i: nat)
    requires Policy(t, proposals, question, accepted, at) && GapsFor(question, accepted, gaps)
    requires forall s :: t.strip(t.strip(s)) == t.strip(s)
    ensures var after := ClosedWith(t, gaps, [question] + Survivors(accepted, survived));
      after[0].resolved && (i < |accepted| ==> (after[i + 1].resolved <==> survived(i)))
  {
    var answered := [question] + Survivors(accepted, survived);
    assert answered[0] == question;
    assert IsAnswered(t, answered, question);
    ClosedIff(t, gaps, answered, 0);
    if i < |accepted| {
      ClosedIff(t, gaps, answered, i + 1);
      AnsweredIff(t, proposals, question, accepted, at, survived, i);
    }
  }

  lemma AnsweredIff(t: TextRules, proposals: seq<Proposal>, question: string, accepted: seq<string>, at: seq<nat>, survived: nat -> bool, i: nat)
    requires Policy(t, proposals, question, accepted, at) && i < |accepted|
    requires forall s :: t.strip(t.strip(s)) == t.strip(s)
    ensures IsAnswered(t, [question] + Survivors(accepted, survived), accepted[i]) <==> survived(i)
  {
    forall j | 0 <= j < |accepted| ensures t.strip(accepted[j]) == accepted[j] {
      assert accepted[j] == t.strip(proposals[at[j]].objective);
    }
    if survived(i) {
      SurvivorsAreThose(accepted, survived, accepted[i]);
      assert accepted[i] in [question] + Survivors(accepted, survived);
    }
    forall d | d in Survivors(accepted, survived) && t.fold(t.strip(d)) == t.fold(t.strip(accepted[i])) ensures survived(i) {
      SurvivorsAreThose(accepted, survived, d);
      var j: nat :| j < |accepted| && survived(j) && accepted[j] == d;
      assert j == i;
    }
  }

  // ---- A measurement and its rechecks

  datatype Progress =
    | AwaitAnalyst
    | InAnalyst
    | AwaitEvaluator
    | InEvaluator
    | Measured(converged: bool)
    | Broken

  /** A measurement branch: how many executions of each kind it started, and where it is. */
  datatype Branch = Branch(analysts: nat, evaluators: nat, at: Progress)

  const NEW_BRANCH := Branch(0, 0, AwaitAnalyst)

  /** Started executions alternate, the analyst first, at most the permitted number of each; a branch is
      measured on a pass or on the last permitted recheck. */
  ghost predicate BranchInv(b: Branch) {
    match b.at
    case AwaitAnalyst => b.analysts == b.evaluators < MAX_EVALUATION_ATTEMPTS
    case InAnalyst => b.analysts == b.evaluators + 1 <= MAX_EVALUATION_ATTEMPTS
    case AwaitEvaluator => b.analysts == b.evaluators + 1 <= MAX_EVALUATION_ATTEMPTS
    case InEvaluator => 1 <= b.analysts == b.evaluators <= MAX_EVALUATION_ATTEMPTS
    case Measured(converged) =>
      1 <= b.analysts == b.evaluators <= MAX_EVALUATION_ATTEMPTS && (converged || b.evaluators == MAX_EVALUATION_ATTEMPTS)
    case Broken => b.evaluators <= b.analysts <= MAX_EVALUATION_ATTEMPTS
  }

  function Begun(b: Branch): Branch
    requires b.at.AwaitAnalyst? || b.at.AwaitEvaluator?
  {
    if b.at.AwaitAnalyst? then b.(analysts := b.analysts + 1, at := InAnalyst)
    else b.(evaluators := b.evaluators + 1, at := InEvaluator)
  }

  /** How an execution ends: the agent raised, or came back, an evaluator with its verdict. */
  function Ended(b: Branch, ok: bool, passed: bool): Branch
    requires b.at.InAnalyst? || b.at.InEvaluator?
  {
    if !ok then b.(at := Broken)
    else if b.at.InAnalyst? then b.(at := AwaitEvaluator)
    else if passed || b.evaluators >= MAX_EVALUATION_ATTEMPTS then b.(at := Measured(passed))
    else b.(at := AwaitAnalyst)
  }

  /** Every execution of a branch came back, and no recheck but perhaps the last passed. */
  ghost predicate Clean(b: Branch, ok: nat -> bool, passed: nat -> bool) {
    && (forall k: nat :: k < b.analysts + b.evaluators ==> ok(k))
    && (forall k: nat :: k < b.evaluators ==> !passed(k))
  }

  /** The loop of one measurement, alone: its executions answer as given, and it runs until it is
      measured or an agent raises. */
  method Measure(ok: nat -> bool, passed: nat -> bool) returns (b: Branch)
    ensures BranchInv(b) && (b.at.Measured? || b.at.Broken?)
    ensures b.at.Measured? ==> b.at.converged == passed(b.evaluators - 1)
    ensures b.at.Measured? ==> forall k: nat :: k < b.evaluators - 1 ==> !passed(k)
    ensures b.at.Measured? <==> forall k: nat :: k < b.analysts + b.evaluators ==> ok(k)
  {
    b := Ended(Begun(NEW_BRANCH), ok(0), false);
    while b.at.AwaitEvaluator?
      invariant BranchInv(b) && (b.at.AwaitEvaluator? || b.at.Broken?)
      invariant b.at.AwaitEvaluator? ==> Clean(b, ok, passed)
      invariant b.at.Broken? ==> b.analysts == b.evaluators + 1 && !ok(b.analysts + b.evaluators - 1)
      decreases MAX_EVALUATION_ATTEMPTS - b.evaluators, b.at.AwaitEvaluator?
    {
      var attempt := b.evaluators;
      b := Ended(Begun(b), ok(b.analysts + b.evaluators), passed(attempt));
      if !b.at.AwaitAnalyst? {
        return;
      }
      b := Ended(Begun(b), ok(b.analysts + b.evaluators), false);
    }
  }

  // ---- The run

  datatype Agent = Analyst(branch: nat) | Evaluator(branch: nat) | Planner | Insight

  /** A row of the execution ledger, written when an execution starts. */
  datatype Execution = Execution(step: nat, agent: Agent)

  datatype Phase =
    | Measuring            // the primary branch is being measured
    | Planning             // the planner may be asked
    | InPlanner
    | MergingPrimary
    | Forking              // the follow-ups are opened as gaps and branches
    | Fanning              // they run
    | Merging(next: nat)   // and are merged, one after the other
    | Drafting             // every conflict is documented
    | InInsight
    | Done
    | Stopped

  /** Branch 0 is the primary question, the others the follow-ups; `planned` and `drafted` say whether
      the planner and Insight were asked. */
  datatype Run = Run(
    phase: Phase, branches: seq<Branch>, followups: nat, planned: bool, drafted: bool,
    ledger: seq<Execution>, board: Board)

  function Opening(seed: Gap): Run {
    Run(Measuring, [NEW_BRANCH], 0, false, false, [], EMPTY.(gaps := [seed]))
  }

  datatype Step =
    | BeginBranch(branch: nat)
    | EndBranch(branch: nat, ok: bool, passed: bool)
    | AbortBranch(branch: nat)
    | Gather
    | SkipPlan
    | AskPlanner
    | PlannerEnds(ok: bool, accepted: nat)
    | MergePrimary(evidence: seq<Fact>, ids: seq<nat>)
    | FanOut(gaps: seq<Gap>)
    | MergeNext(evidence: seq<Fact>, ids: seq<nat>)
    | Settle
    | AskInsight
    | InsightEnds(ok: bool)
    | Stop

  predicate MayRun(r: Run, i: nat) {
    i < |r.branches| && ((r.phase.Measuring? && i == 0) || (r.phase.Fanning? && i > 0))
  }

  predicate Over(b: Branch) {
    b.at.Measured? || b.at.Broken?
  }

  predicate Enabled(r: Run, fanout: int, step: Step) {
    match step
    case BeginBranch(i) => MayRun(r, i) && (r.branches[i].at.AwaitAnalyst? || r.branches[i].at.AwaitEvaluator?)
    case EndBranch(i, _, _) => MayRun(r, i) && (r.branches[i].at.InAnalyst? || r.branches[i].at.InEvaluator?)
    case AbortBranch(i) => MayRun(r, i) && !Over(r.branches[i])
    case Gather =>
      || (r.phase.Measuring? && r.branches != [] && Over(r.branches[0]))
      || (r.phase.Fanning? && forall i :: 1 <= i < |r.branches| ==> Over(r.branches[i]))
    case SkipPlan => r.phase.Planning?
    case AskPlanner => r.phase.Planning? && fanout >= 1
    case PlannerEnds(_, accepted) => r.phase.InPlanner? && accepted <= fanout
    case MergePrimary(evidence, ids) => r.phase.MergingPrimary? && |evidence| == |ids|
    case FanOut(gaps) => r.phase.Forking? && |gaps| == r.followups
    case MergeNext(evidence, ids) =>
      && r.phase.Merging? && r.phase.next < |r.branches| && |evidence| == |ids|
      && (r.branches[r.phase.next].at.Broken? ==> evidence == [])
    case Settle => r.phase.Merging? && r.phase.next == |r.branches|
    case AskInsight => r.phase.Drafting? && !Unsettled(r.board)
    case InsightEnds(_) => r.phase.InInsight?
    case Stop => !r.phase.Done?
  }

  /** The ledger with one more execution, on the next step of the shared counter. */
  function Logged(ledger: seq<Execution>, agent: Agent): seq<Execution> {
    ledger + [Execution(|ledger| + 1, agent)]
  }

  function NewBranches(n: nat): (bs: seq<Branch>)
    ensures |bs| == n && forall i :: 0 <= i < n ==> bs[i] == NEW_BRANCH
  {
    if n == 0 then [] else NewBranches(n - 1) + [NEW_BRANCH]
  }

  function Next(r: Run, fanout: int, step: Step): Run
    requires Enabled(r, fanout, step)
  {
    match step
    case BeginBranch(i) =>
      r.(branches := r.branches[i := Begun(r.branches[i])],
         ledger := Logged(r.ledger, if r.branches[i].at.AwaitAnalyst? then Analyst(i) else Evaluator(i)))
    case EndBranch(i, ok, passed) => r.(branches := r.branches[i := Ended(r.branches[i], ok, passed)])
    case AbortBranch(i) => r.(branches := r.branches[i := r.branches[i].(at := Broken)])
    case Gather =>
      if r.phase.Fanning? then r.(phase := Merging(1))
      else r.(phase := if r.branches[0].at.Measured? then Planning else Stopped)
    case SkipPlan => r.(phase := MergingPrimary)
    case AskPlanner => r.(phase := InPlanner, planned := true, ledger := Logged(r.ledger, Planner))
    case PlannerEnds(ok, accepted) => if ok then r.(phase := MergingPrimary, followups := accepted) else r.(phase := Stopped)
    case MergePrimary(evidence, ids) => r.(phase := Forking, board := Merged(r.board, evidence, ids))
    case FanOut(gaps) =>
      r.(phase := Fanning, branches := r.branches + NewBranches(r.followups),
         board := r.board.(gaps := r.board.gaps + gaps))
    case MergeNext(evidence, ids) =>
      r.(phase := Merging(r.phase.next + 1), board := Merged(r.board, evidence, ids))
    case Settle => r.(phase := Drafting, board := AllDocumented(r.board))
    case AskInsight => r.(phase := InInsight, drafted := true, ledger := Logged(r.ledger, Insight))
    case InsightEnds(ok) => r.(phase := if ok then Done else Stopped)
    case Stop => r.(phase := Stopped)
  }

  function Replay(r: Run, fanout: int, steps: seq<Step>): Option<Run> {
    if steps == [] then Some(r)
    else
      var q := Replay(r, fanout, steps[..|steps| - 1]);
      if q.Some? && Enabled(q.value, fanout, steps[|steps| - 1]) then Some(Next(q.value, fanout, steps[|steps| - 1])) else None
  }

  ghost predicate Reachable(r: Run, fanout: int) {
    exists seed, steps :: Replay(Opening(seed), fanout, steps) == Some(r)
  }

  // ---- The invariant

  function Executions(branches: seq<Branch>): nat {
    if branches == [] then 0
    else Executions(branches[..|branches| - 1]) + branches[|branches| - 1].analysts + branches[|branches| - 1].evaluators
  }

  /** The ledger's steps are the counter's values in turn, and its rows are the executions started. */
  ghost predicate LedgerInv(r: Run) {
    && (forall i :: 0 <= i < |r.ledger| ==> r.ledger[i].step == i + 1)
    && |r.ledger| == Executions(r.branches) + (if r.planned then 1 else 0) + (if r.drafted then 1 else 0)
  }

  /** How many executions of an agent the ledger holds. */
  function Rows(ledger: seq<Execution>, agent: Agent): nat {
    if ledger == [] then 0
    else Rows(ledger[..|ledger| - 1], agent) + if ledger[|ledger| - 1].agent == agent then 1 else 0
  }

  lemma RowsLogged(ledger: seq<Execution>, logged: Agent, agent: Agent)
    ensures Rows(Logged(ledger, logged), agent) == Rows(ledger, agent) + if logged == agent then 1 else 0
  {
    assert Logged(ledger, logged)[..|ledger|] == ledger;
  }

  /** Each branch's counters are its own rows of the ledger. */
  ghost predicate RowsMatch(r: Run, i: nat) {
    if i < |r.branches| then
      Rows(r.ledger, Analyst(i)) == r.branches[i].analysts && Rows(r.ledger, Evaluator(i)) == r.branches[i].evaluators
    else Rows(r.ledger, Analyst(i)) == 0 && Rows(r.ledger, Evaluator(i)) == 0
  }

  ghost predicate RowsInv(r: Run) {
    && (forall i: nat :: RowsMatch(r, i))
    && Rows(r.ledger, Planner) == (if r.planned then 1 else 0)
    && Rows(r.ledger, Insight) == (if r.drafted then 1 else 0)
  }

  lemma StepKeepsRows(r: Run, fanout: int, step: Step)
    requires RowsInv(r) && BoardInv(r) && Enabled(r, fanout, step)
    ensures RowsInv(Next(r, fanout, step))
  {
    var next := Next(r, fanout, step);
    StepLogs(r, fanout, step);
    forall i: nat ensures RowsMatch(next, i) {
      assert RowsMatch(r, i);
      RowsAfter(r, fanout, step, Analyst(i));
      RowsAfter(r, fanout, step, Evaluator(i));
    }
    RowsAfter(r, fanout, step, Planner);
    RowsAfter(r, fanout, step, Insight);
  }

  /** The agent whose execution a step starts. */
  function StartedBy(r: Run, step: Step): Option<Agent> {
    match step
    case BeginBranch(i) =>
      if i < |r.branches| && r.branches[i].at.AwaitAnalyst? then Some(Analyst(i)) else Some(Evaluator(i))
    case AskPlanner => Some(Planner)
    case AskInsight => Some(Insight)
    case _ => None
  }

  lemma StepLogs(r: Run, fanout: int, step: Step)
    requires Enabled(r, fanout, step)
    ensures Next(r, fanout, step).ledger ==
      match StartedBy(r, step) { case Some(agent) => Logged(r.ledger, agent) case None => r.ledger }
  {
  }

  lemma RowsAfter(r: Run, fanout: int, step: Step, agent: Agent)
    requires Enabled(r, fanout, step)
    ensures Rows(Next(r, fanout, step).ledger, agent) == Rows(r.ledger, agent) + if StartedBy(r, step) == Some(agent) then 1 else 0
  {
    StepLogs(r, fanout, step);
    if StartedBy(r, step).Some? {
      RowsLogged(r.ledger, StartedBy(r, step).value, agent);
    }
  }

  ghost predicate BranchesInv(r: Run, fanout: int) {
    && (forall i :: 0 <= i < |r.branches| ==> BranchInv(r.branches[i]))
    && 1 <= |r.branches| <= 1 + r.followups
    && r.followups <= (if fanout > 0 then fanout else 0)
    && (r.phase.Measuring? || r.phase.Planning? || r.phase.InPlanner? || r.phase.MergingPrimary? || r.phase.Forking? ==> |r.branches| == 1)
    && (r.phase.Measuring? || r.phase.Planning? || r.phase.InPlanner? ==> r.followups == 0)
    && (r.phase.Measuring? || r.phase.Stopped? || r.branches[0].at.Measured?)
    && (r.phase.Merging? ==> forall i :: 1 <= i < |r.branches| ==> Over(r.branches[i]))
  }

  /** From the fan-out on there is a branch for every follow-up accepted. */
  ghost predicate ForkedInv(r: Run) {
    r.phase.Fanning? || r.phase.Merging? || r.phase.Drafting? || r.phase.InInsight? || r.phase.Done? ==>
      |r.branches| == 1 + r.followups
  }

  ghost predicate BoardInv(r: Run) {
    && ConflictsMatch(r.board)
    && (r.phase.Drafting? || r.phase.InInsight? || r.phase.Done? ==> !Unsettled(r.board))
    && (r.drafted ==> r.phase.InInsight? || r.phase.Done? || r.phase.Stopped?)
    && (r.planned ==> !r.phase.Measuring? && !r.phase.Planning?)
  }

  ghost predicate Inv(r: Run, fanout: int) {
    LedgerInv(r) && RowsInv(r) && BranchesInv(r, fanout) && ForkedInv(r) && BoardInv(r)
  }

  lemma {:induction false} ExecutionsUpdate(branches: seq<Branch>, i: nat, b: Branch)
    requires i < |branches|
    ensures Executions(branches[i := b]) + branches[i].analysts + branches[i].evaluators
         == Executions(branches) + b.analysts + b.evaluators
  {
    var last := |branches| - 1;
    if i < last {
      ExecutionsUpdate(branches[..last], i, b);
      assert branches[i := b][..last] == branches[..last][i := b];
    } else {
      assert branches[i := b][..last] == branches[..last];
    }
  }

  lemma {:induction false} ExecutionsFork(branches: seq<Branch>, n: nat)
    ensures Executions(branches + NewBranches(n)) == Executions(branches)
  {
    if n == 0 {
      assert branches + NewBranches(n) == branches;
    } else {
      ExecutionsFork(branches, n - 1);
      var all := branches + NewBranches(n);
      assert all[..|all| - 1] == branches + NewBranches(n - 1);
    }
  }

  lemma StepKeepsLedger(r: Run, fanout: int, step: Step)
    requires LedgerInv(r) && BoardInv(r) && Enabled(r, fanout, step)
    ensures LedgerInv(Next(r, fanout, step))
  {
    match step
    case BeginBranch(i) => ExecutionsUpdate(r.branches, i, Begun(r.branches[i]));
    case EndBranch(i, ok, passed) => ExecutionsUpdate(r.branches, i, Ended(r.branches[i], ok, passed));
    case AbortBranch(i) => ExecutionsUpdate(r.branches, i, r.branches[i].(at := Broken));
    case FanOut(gaps) => ExecutionsFork(r.branches, r.followups);
    case _ =>
  }

  lemma StepKeepsBranches(r: Run, fanout: int, step: Step)
    requires BranchesInv(r, fanout) && Enabled(r, fanout, step)
    ensures BranchesInv(Next(r, fanout, step), fanout)
  {
  }

  lemma StepKeepsForked(r: Run, fanout: int, step: Step)
    requires BranchesInv(r, fanout) && ForkedInv(r) && Enabled(r, fanout, step)
    ensures ForkedInv(Next(r, fanout, step))
  {
  }

  lemma StepKeepsBoard(r: Run, fanout: int, step: Step)
    requires BoardInv(r) && Enabled(r, fanout, step)
    ensures BoardInv(Next(r, fanout, step))
  {
    match step
    case MergePrimary(evidence, ids) => MergeKeepsMatch(r.board, evidence, ids);
    case MergeNext(evidence, ids) => MergeKeepsMatch(r.board, evidence, ids);
    case Settle => DocumentingSettles(r.board);
    case _ =>
  }

  lemma {:induction false} ReplayKeepsInv(r: Run, fanout: int, steps: seq<Step>)
    requires Inv(r, fanout) && Replay(r, fanout, steps).Some?
    ensures Inv(Replay(r, fanout, steps).value, fanout)
    decreases |steps|
  {
    if steps != [] {
      var front, last := steps[..|steps| - 1], steps[|steps| - 1];
      ReplayKeepsInv(r, fanout, front);
      var q := Replay(r, fanout, front).value;
      StepKeepsLedger(q, fanout, last);
      StepKeepsRows(q, fanout, last);
      StepKeepsBranches(q, fanout, last);
      StepKeepsForked(q, fanout, last);
      StepKeepsBoard(q, fanout, last);
    }
  }

  lemma ReachableInv(r: Run, fanout: int)
    requires Reachable(r, fanout)
    ensures Inv(r, fanout)
  {
    var seed, steps :| Replay(Opening(seed), fanout, steps) == Some(r);
    ReplayKeepsInv(Opening(seed), fanout, steps);
  }

  // ---- What the board holds

  /** The merges among the steps of a run, in order. */
  function MergesOf(steps: seq<Step>): seq<Step> {
    if steps == [] then []
    else
      var rest, last := MergesOf(steps[..|steps| - 1]), steps[|steps| - 1];
      if last.MergePrimary? || last.MergeNext? then rest + [last] else rest
  }

  /** The evidence a step merges, and the ids drawn for it. */
  function Brought(step: Step): seq<Fact> {
    match step
    case MergePrimary(evidence, _) => evidence
    case MergeNext(evidence, _) => evidence
    case _ => []
  }

  function Drawn(step: Step): seq<nat> {
    match step
    case MergePrimary(_, ids) => ids
    case MergeNext(_, ids) => ids
    case _ => []
  }

  /** All the evidence of a run, one measurement after the other. */
  function EvidenceOf(steps: seq<Step>): seq<Fact> {
    if steps == [] then [] else EvidenceOf(steps[..|steps| - 1]) + Brought(steps[|steps| - 1])
  }

  function IdsOf(steps: seq<Step>): seq<nat> {
    if steps == [] then [] else IdsOf(steps[..|steps| - 1]) + Drawn(steps[|steps| - 1])
  }

  /** The gaps opened for follow-ups. */
  function GapsOf(steps: seq<Step>): seq<Gap> {
    if steps == [] then []
    else
      var rest := GapsOf(steps[..|steps| - 1]);
      match steps[|steps| - 1]
      case FanOut(gaps) => rest + gaps
      case _ => rest
  }

  /** How many follow-ups the planner's answer brought. */
  function AcceptedOf(steps: seq<Step>): nat {
    if steps == [] then 0
    else
      match steps[|steps| - 1]
      case PlannerEnds(ok, accepted) => if ok then accepted else AcceptedOf(steps[..|steps| - 1])
      case _ => AcceptedOf(steps[..|steps| - 1])
  }

  /** How many measurements a run has merged by a phase, `branches` of which there are. */
  ghost predicate MergedBy(phase: Phase, branches: nat, merges: nat) {
    match phase
    case Forking => merges == 1
    case Fanning => merges == 1
    case Merging(next) => merges == next >= 1
    case Drafting => merges == branches
    case InInsight => merges == branches
    case Done => merges == branches
    case Stopped => true
    case _ => merges == 0
  }

  /** The primary measurement is merged first, then each follow-up's in turn, a broken one's being empty. */
  ghost predicate MergesInTurn(r: Run, merges: seq<Step>) {
    && MergedBy(r.phase, |r.branches|, |merges|)
    && |merges| <= |r.branches|
    && (forall k :: 0 <= k < |merges| ==> if k == 0 then merges[k].MergePrimary? else merges[k].MergeNext?)
    && (forall k :: 1 <= k < |merges| && r.branches[k].at.Broken? ==> merges[k].evidence == [])
  }

  ghost predicate SettledBy(phase: Phase, settled: bool) {
    && (phase.Drafting? || phase.InInsight? || phase.Done? ==> settled)
    && (settled ==> phase.Drafting? || phase.InInsight? || phase.Done? || phase.Stopped?)
  }

  /** The board holds the evidence merged and nothing else, and the conflicts among it: open until they are
      settled, documented from then on. */
  ghost predicate Holds(b: Board, evidence: seq<Fact>, ids: seq<nat>, status: ConflictStatus) {
    b.facts == evidence && exists at :: ConflictsOf(evidence, 0, ids, status, b.conflicts, at)
  }

  function StatusOf(settled: bool): ConflictStatus {
    if settled then Documented else Open
  }

  ghost predicate BoardOfRun(seed: Gap, r: Run, steps: seq<Step>) {
    && MergesInTurn(r, MergesOf(steps))
    && SettledBy(r.phase, Settle in steps)
    && Holds(r.board, EvidenceOf(steps), IdsOf(steps), StatusOf(Settle in steps))
    && r.board.gaps == [seed] + GapsOf(steps) && r.followups == AcceptedOf(steps)
  }

  lemma MergeHolds(b: Board, evidence: seq<Fact>, ids: seq<nat>, more: seq<Fact>, drawn: seq<nat>)
    requires Holds(b, evidence, ids, Open) && |more| == |drawn|
    ensures Holds(Merged(b, more, drawn), evidence + more, ids + drawn, Open)
  {
    var at :| ConflictsOf(evidence, 0, ids, Open, b.conflicts, at);
    assert b.conflicts[0..] == b.conflicts;
    var places := MergeOpens(b, more, drawn, 0, 0, ids, at);
    var t := Merged(b, more, drawn);
    assert t.conflicts[0..] == t.conflicts;
  }

  lemma SettleHolds(b: Board, evidence: seq<Fact>, ids: seq<nat>)
    requires Holds(b, evidence, ids, Open)
    ensures Holds(AllDocumented(b), evidence, ids, Documented)
  {
    var at :| ConflictsOf(evidence, 0, ids, Open, b.conflicts, at);
    SettledConflicts(b, 0, ids, at);
  }

  lemma SameHolds(b: Board, t: Board, evidence: seq<Fact>, ids: seq<nat>, status: ConflictStatus)
    requires Holds(b, evidence, ids, status) && t.facts == b.facts && t.conflicts == b.conflicts
    ensures Holds(t, evidence + [], ids + [], status)
  {
    assert evidence + [] == evidence && ids + [] == ids;
  }

  /** One step of a run whose board holds this evidence, its conflicts settled or not. */
  lemma StepHolds(r: Run, fanout: int, step: Step, evidence: seq<Fact>, ids: seq<nat>, settled: bool)
    requires Enabled(r, fanout, step) && SettledBy(r.phase, settled) && Holds(r.board, evidence, ids, StatusOf(settled))
    ensures SettledBy(Next(r, fanout, step).phase, settled || step.Settle?)
    ensures Holds(Next(r, fanout, step).board, evidence + Brought(step), ids + Drawn(step), StatusOf(settled || step.Settle?))
  {
    if step.MergePrimary? || step.MergeNext? {
      MergeHolds(r.board, evidence, ids, Brought(step), Drawn(step));
    } else if step.Settle? {
      SettleHolds(r.board, evidence, ids);
      SameHolds(AllDocumented(r.board), AllDocumented(r.board), evidence, ids, Documented);
    } else {
      SameHolds(r.board, Next(r, fanout, step).board, evidence, ids, StatusOf(settled));
    }
  }

  lemma MergeTakesItsTurn(r: Run, fanout: int, merges: seq<Step>, step: Step)
    requires MergesInTurn(r, merges) && Enabled(r, fanout, step) && r.branches != []
    requires step.MergePrimary? || step.MergeNext?
    ensures MergesInTurn(Next(r, fanout, step), merges + [step])
  {
  }

  /** What starts, ends or breaks off a branch leaves the others as they are. */
  lemma BranchStepKeepsTurns(r: Run, fanout: int, merges: seq<Step>, step: Step)
    requires MergesInTurn(r, merges) && Enabled(r, fanout, step)
    requires step.BeginBranch? || step.EndBranch? || step.AbortBranch?
    ensures MergesInTurn(Next(r, fanout, step), merges)
  {
    assert |merges| <= 1;
  }

  lemma OtherStepKeepsTurns(r: Run, fanout: int, merges: seq<Step>, step: Step)
    requires MergesInTurn(r, merges) && Enabled(r, fanout, step)
    requires !step.MergePrimary? && !step.MergeNext? && !step.BeginBranch? && !step.EndBranch? && !step.AbortBranch?
    ensures MergesInTurn(Next(r, fanout, step), merges)
  {
  }

  lemma StepMergesInTurn(r: Run, fanout: int, steps: seq<Step>, step: Step)
    requires MergesInTurn(r, MergesOf(steps)) && Enabled(r, fanout, step) && r.branches != []
    ensures MergesInTurn(Next(r, fanout, step), MergesOf(steps + [step]))
  {
    assert (steps + [step])[..|steps|] == steps;
    match step
    case MergePrimary(_, _) => MergeTakesItsTurn(r, fanout, MergesOf(steps), step);
    case MergeNext(_, _) => MergeTakesItsTurn(r, fanout, MergesOf(steps), step);
    case BeginBranch(_) => BranchStepKeepsTurns(r, fanout, MergesOf(steps), step);
    case EndBranch(_, _, _) => BranchStepKeepsTurns(r, fanout, MergesOf(steps), step);
    case AbortBranch(_) => BranchStepKeepsTurns(r, fanout, MergesOf(steps), step);
    case _ => OtherStepKeepsTurns(r, fanout, MergesOf(steps), step);
  }

  lemma MergingKeepsGaps(b: Board, evidence: seq<Fact>, ids: seq<nat>)
    requires |evidence| == |ids|
    ensures Merged(b, evidence, ids).gaps == b.gaps
  {
    MergeMeasures(b, evidence, ids);
  }

  lemma StepKeepsPlan(seed: Gap, r: Run, fanout: int, steps: seq<Step>, step: Step)
    requires Enabled(r, fanout, step)
    requires r.board.gaps == [seed] + GapsOf(steps) && r.followups == AcceptedOf(steps)
    ensures var q := Next(r, fanout, step);
      q.board.gaps == [seed] + GapsOf(steps + [step]) && q.followups == AcceptedOf(steps + [step])
  {
    assert (steps + [step])[..|steps|] == steps;
    match step
    case MergePrimary(evidence, ids) => MergingKeepsGaps(r.board, evidence, ids);
    case MergeNext(evidence, ids) => MergingKeepsGaps(r.board, evidence, ids);
    case _ =>
  }

  lemma OneMoreStep(steps: seq<Step>, step: Step)
    ensures var all := steps + [step];
      && EvidenceOf(all) == EvidenceOf(steps) + Brought(step) && IdsOf(all) == IdsOf(steps) + Drawn(step)
      && (Settle in all <==> Settle in steps || step.Settle?)
  {
    assert (steps + [step])[..|steps|] == steps;
  }

  lemma StepKeepsBoardOfRun(seed: Gap, r: Run, fanout: int, steps: seq<Step>, step: Step)
    requires BoardOfRun(seed, r, steps) && Enabled(r, fanout, step) && r.branches != []
    ensures BoardOfRun(seed, Next(r, fanout, step), steps + [step])
  {
    OneMoreStep(steps, step);
    StepHolds(r, fanout, step, EvidenceOf(steps), IdsOf(steps), Settle in steps);
    StepMergesInTurn(r, fanout, steps, step);
    StepKeepsPlan(seed, r, fanout, steps, step);
  }

  /** In every reachable state the board is what the run's own steps make it: the evidence merged and the
      conflicts among it, the question's gap and those of the follow-ups that were accepted. */
  lemma {:induction false} BoardIsOfRun(seed: Gap, fanout: int, steps: seq<Step>)
    requires Replay(Opening(seed), fanout, steps).Some?
    ensures BoardOfRun(seed, Replay(Opening(seed), fanout, steps).value, steps)
    decreases |steps|
  {
    if steps == [] {
      assert ConflictsOf([], 0, [], Open, [], []);
    } else {
      var front, last := steps[..|steps| - 1], steps[|steps| - 1];
      assert steps == front + [last];
      BoardIsOfRun(seed, fanout, front);
      ReplayHasPrimary(seed, fanout, front);
      StepKeepsBoardOfRun(seed, Replay(Opening(seed), fanout, front).value, fanout, front, last);
    }
  }

  lemma ReplayHasPrimary(seed: Gap, fanout: int, steps: seq<Step>)
    requires Replay(Opening(seed), fanout, steps).Some?
    ensures Replay(Opening(seed), fanout, steps).value.branches != []
  {
    ReplayKeepsInv(Opening(seed), fanout, steps);
  }

  // ---- How a run ends

  /** Something happened after which a branch is given up: its task was aborted, or an agent of it raised. */
  ghost predicate GaveUp(steps: seq<Step>, i: nat) {
    AbortBranch(i) in steps || EndBranch(i, false, false) in steps || EndBranch(i, false, true) in steps
  }

  /** Something happened that stops a run: the planner or Insight raised, or anything outside the agents did. */
  ghost predicate CalledOff(steps: seq<Step>) {
    Stop in steps || InsightEnds(false) in steps || exists n: nat :: PlannerEnds(false, n) in steps
  }

  ghost predicate BrokenAsItWent(r: Run, steps: seq<Step>, i: nat) {
    GaveUp(steps, i) <==> i < |r.branches| && r.branches[i].at.Broken?
  }

  /** A run is done exactly when Insight came back, and stopped exactly when it was called off or the primary
      measurement was given up. */
  ghost predicate EndsAsItWent(r: Run, steps: seq<Step>) {
    && (r.phase.Done? <==> InsightEnds(true) in steps)
    && (r.phase.Stopped? <==> CalledOff(steps) || (Gather in steps && GaveUp(steps, 0)))
    && (r.phase.Measuring? ==> Gather !in steps)
  }

  lemma OneMoreStepEnds(steps: seq<Step>, step: Step)
    ensures CalledOff(steps + [step]) <==> CalledOff(steps) || step == Stop || step == InsightEnds(false) || (step.PlannerEnds? && !step.ok)
    ensures forall i :: GaveUp(steps + [step], i) <==>
      GaveUp(steps, i) || step == AbortBranch(i) || (step.EndBranch? && step.branch == i && !step.ok)
  {
    var all := steps + [step];
    if step.PlannerEnds? && !step.ok {
      assert PlannerEnds(false, step.accepted) in all;
    }
    if n: nat :| PlannerEnds(false, n) in steps {
      assert PlannerEnds(false, n) in all;
    }
  }

  lemma StepBreaks(r: Run, fanout: int, steps: seq<Step>, step: Step, i: nat)
    requires Enabled(r, fanout, step) && BrokenAsItWent(r, steps, i)
    ensures BrokenAsItWent(Next(r, fanout, step), steps + [step], i)
  {
    OneMoreStepEnds(steps, step);
  }

  lemma StepEndsAsItWent(r: Run, fanout: int, steps: seq<Step>, step: Step)
    requires Enabled(r, fanout, step) && EndsAsItWent(r, steps) && BrokenAsItWent(r, steps, 0)
    requires r.branches != [] && (r.phase.Measuring? || r.phase.Stopped? || r.branches[0].at.Measured?)
    ensures EndsAsItWent(Next(r, fanout, step), steps + [step])
  {
    OneMoreStepEnds(steps, step);
  }

  /** In every run: a branch is broken exactly when it was given up, the run is done exactly when Insight came
      back, and it is stopped exactly when it was called off or went on from a primary that was given up. */
  lemma {:induction false} RunEndsAsItWent(seed: Gap, fanout: int, steps: seq<Step>)
    requires Replay(Opening(seed), fanout, steps).Some?
    ensures EndsAsItWent(Replay(Opening(seed), fanout, steps).value, steps)
    ensures forall i: nat :: BrokenAsItWent(Replay(Opening(seed), fanout, steps).value, steps, i)
    decreases |steps|
  {
    if steps != [] {
      var front, last := steps[..|steps| - 1], steps[|steps| - 1];
      assert steps == front + [last];
      RunEndsAsItWent(seed, fanout, front);
      ReplayKeepsInv(Opening(seed), fanout, front);
      var q := Replay(Opening(seed), fanout, front).value;
      StepEndsAsItWent(q, fanout, front, last);
      forall i: nat ensures BrokenAsItWent(Next(q, fanout, last), steps, i) {
        StepBreaks(q, fanout, front, last, i);
      }
    }
  }

  lemma {:induction false} ExecutionsBounded(branches: seq<Branch>)
    requires forall i :: 0 <= i < |branches| ==> BranchInv(branches[i])
    ensures Executions(branches) <= 2 * MAX_EVALUATION_ATTEMPTS * |branches|
  {
    if branches != [] {
      ExecutionsBounded(branches[..|branches| - 1]);
    }
  }

  /** However the branches interleave, fail and are cancelled, a run spends at most
      6 * (1 + fan-out) + 2 agent executions, each on a step of its own. */
  lemma RunIsBounded(r: Run, fanout: int)
    requires Reachable(r, fanout)
    ensures |r.ledger| <= 2 * MAX_EVALUATION_ATTEMPTS * (1 + if fanout > 0 then fanout else 0) + 2
    ensures forall i, j :: 0 <= i < j < |r.ledger| ==> r.ledger[i].step < r.ledger[j].step
  {
    ReachableInv(r, fanout);
    LedgerBounded(r, fanout);
  }

  lemma LedgerBounded(r: Run, fanout: int)
    requires LedgerInv(r) && BranchesInv(r, fanout)
    ensures |r.ledger| <= 2 * MAX_EVALUATION_ATTEMPTS * (1 + if fanout > 0 then fanout else 0) + 2
  {
    ExecutionsBounded(r.branches);
  }

  /** Every measurement that completed has in the ledger as many executions of the evaluator as of the analyst,
      one to three of each, and ended on a pass or on the third; no other branch's rows are counted, and a
      branch never started has none. */
  lemma MeasurementsAreRechecked(r: Run, fanout: int, i: nat)
    requires Reachable(r, fanout)
    ensures i < |r.branches| && r.branches[i].at.Measured? ==>
      && 1 <= Rows(r.ledger, Analyst(i)) == Rows(r.ledger, Evaluator(i)) <= MAX_EVALUATION_ATTEMPTS
      && (!r.branches[i].at.converged ==> Rows(r.ledger, Evaluator(i)) == MAX_EVALUATION_ATTEMPTS)
    ensures Rows(r.ledger, Evaluator(i)) <= Rows(r.ledger, Analyst(i)) <= MAX_EVALUATION_ATTEMPTS
    ensures i >= |r.branches| ==> Rows(r.ledger, Analyst(i)) == 0
    ensures Rows(r.ledger, Planner) <= 1 && Rows(r.ledger, Insight) <= 1
  {
    ReachableInv(r, fanout);
    assert RowsMatch(r, i);
  }

  lemma PastMeasuringIsMeasured(r: Run, fanout: int)
    requires Reachable(r, fanout) && !r.phase.Measuring? && !r.phase.Stopped?
    ensures r.branches != [] && r.branches[0].at.Measured?
  {
    ReachableInv(r, fanout);
  }

  /** Just before they are settled, the conflicts on the board are open, and they are those among the evidence
      that the run has merged, one measurement a branch; settling documents each and changes nothing else. */
  lemma SettlesWhatWasMeasured(seed: Gap, fanout: int, steps: seq<Step>, r: Run)
    requires Replay(Opening(seed), fanout, steps) == Some(r) && Enabled(r, fanout, Settle)
    ensures |MergesOf(steps)| == |r.branches| == 1 + AcceptedOf(steps) && Holds(r.board, EvidenceOf(steps), IdsOf(steps), Open)
    ensures Documents(r.board, Next(r, fanout, Settle).board)
  {
    BoardIsOfRun(seed, fanout, steps);
    ReplayKeepsInv(Opening(seed), fanout, steps);
    DocumentingSettles(r.board);
  }

  /** Insight never starts while a conflict is open, and what was documented is what was measured: the board holds
      the evidence of the primary and of every follow-up, in order, and one documented conflict for each fact of it
      that was against an earlier one, so it has a conflict exactly when two measurements disagree. The check
      before Insight never fails. */
  lemma InsightSeesSettledBoard(seed: Gap, fanout: int, steps: seq<Step>, r: Run)
    requires Replay(Opening(seed), fanout, steps) == Some(r) && (r.phase.Drafting? || r.phase.InInsight? || r.phase.Done?)
    ensures |MergesOf(steps)| == |r.branches| == 1 + AcceptedOf(steps) && MergesInTurn(r, MergesOf(steps))
    ensures Holds(r.board, EvidenceOf(steps), IdsOf(steps), Documented)
    ensures !Unsettled(r.board)
    ensures r.board.conflicts != [] <==> Disagreement(EvidenceOf(steps))
    ensures r.phase.Drafting? ==> Enabled(r, fanout, AskInsight)
  {
    BoardIsOfRun(seed, fanout, steps);
    ReplayKeepsInv(Opening(seed), fanout, steps);
    ConflictIffDisagreement(r.board);
  }

  /** Insight's row enters the ledger by the one step that needs a settled board. */
  lemma InsightStartsSettled(r: Run, fanout: int, step: Step)
    requires Reachable(r, fanout) && Enabled(r, fanout, step)
    requires exists e :: e in Next(r, fanout, step).ledger && e !in r.ledger && e.agent.Insight?
    ensures !Unsettled(r.board) && !r.drafted
  {
    ReachableInv(r, fanout);
  }
}
