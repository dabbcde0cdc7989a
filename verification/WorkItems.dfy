/** One agent execution of an analysis run: its work item, its place in the execution ledger, and the
    record it leaves. */
module WorkItems {
  import opened Wrappers

  datatype Status = Pending | Running | Waiting | Blocked | Completed | Rejected

  /** A work item as it is stored. */
  datatype ItemRow = ItemRow(status: Status, artifact: Option<nat>, reason: Option<string>)

  /** A work item in memory. A method that answers false raised and changed nothing. */
  class WorkItem {
    var status: Status
    var artifact: Option<nat>
    var reason: Option<string>

    function Row(): ItemRow
      reads this
    {
      ItemRow(status, artifact, reason)
    }

    constructor ()
      ensures Row() == ItemRow(Pending, None, None)
    {
      status, artifact, reason := Pending, None, None;
    }

    method Start() returns (ok: bool)
      modifies this
      ensures ok <==> old(status) in {Pending, Waiting}
      ensures Row() == if ok then old(Row()).(status := Running) else old(Row())
    {
      ok := status in {Pending, Waiting};
      if ok {
        status := Running;
      }
    }

    method Complete(execution: nat) returns (ok: bool)
      modifies this
      ensures ok <==> old(status) == Running
      ensures Row() == if ok then old(Row()).(status := Completed, artifact := Some(execution)) else old(Row())
    {
      ok := status == Running;
      if ok {
        status, artifact := Completed, Some(execution);
      }
    }

    /** A rejection needs a reason that is not blank. */
    method Reject(why: string, strip: string -> string) returns (ok: bool)
      modifies this
      ensures ok <==> old(status) !in {Completed, Rejected} && strip(why) != ""
      ensures Row() == if ok then old(Row()).(status := Rejected, reason := Some(strip(why))) else old(Row())
    {
      ok := status !in {Completed, Rejected} && strip(why) != "";
      if ok {
        status, reason := Rejected, Some(strip(why));
      }
    }
  }

  // ---- Executions side by side

  datatype Started = Started(execution: nat, item: nat, step: nat)

  /** The record of an execution that ended; `failure` is the message of what was raised. */
  datatype Record = Record(execution: nat, step: nat, failure: Option<string>)

  /** How far a work item has come: its row added, a step drawn from the counter that all branches share, the
      start recorded, the row saved as running, the outcome recorded, the row settled. */
  datatype Phase = Created | Drawn | Begun | Working | Ended(failure: Option<string>) | Done(failure: Option<string>)

  /** The history of an item. `cut` says that nothing will carry it on: its task was cancelled, or a store failed. */
  datatype Life = Life(phase: Phase, execution: nat, step: nat, cut: bool)

  /** The stores. `life` is history, for the proofs alone; ids are drawn from one counter. */
  datatype Books = Books(
    rows: map<nat, ItemRow>, starts: set<Started>, records: set<Record>, nextId: nat, nextStep: nat, life: map<nat, Life>)

  const BLANK := Books(map[], {}, {}, 0, 1, map[])

  datatype Step =
    | Create
    | Draw(item: nat)
    | LogStart(item: nat)
    | Save(item: nat)
    | LogEnd(item: nat, failure: Option<string>)
    | Settle(item: nat)
    | Cut(item: nat)

  predicate At(b: Books, item: nat, phase: Phase) {
    item in b.life && !b.life[item].cut && b.life[item].phase == phase
  }

  predicate Enabled(b: Books, step: Step) {
    match step
    case Create => true
    case Draw(i) => At(b, i, Created)
    case LogStart(i) => At(b, i, Drawn)
    case Save(i) => At(b, i, Begun)
    case LogEnd(i, _) => At(b, i, Working)
    case Settle(i) => i in b.life && !b.life[i].cut && b.life[i].phase.Ended?
    case Cut(i) => i in b.life && !b.life[i].cut && !b.life[i].phase.Done?
  }

  function WithPhase(b: Books, item: nat, phase: Phase): map<nat, Life>
    requires item in b.life
  {
    b.life[item := b.life[item].(phase := phase)]
  }

  /** One stretch between two awaits of one execution. */
  function Next(b: Books, strip: string -> string, step: Step): Books
    requires Enabled(b, step)
  {
    match step
    case Create =>
      b.(rows := b.rows[b.nextId := ItemRow(Pending, None, None)], nextId := b.nextId + 1,
         life := b.life[b.nextId := Life(Created, 0, 0, false)])
    case Draw(i) =>
      b.(nextId := b.nextId + 1, nextStep := b.nextStep + 1, life := b.life[i := Life(Drawn, b.nextId, b.nextStep, false)])
    case LogStart(i) =>
      b.(starts := b.starts + {Started(b.life[i].execution, i, b.life[i].step)}, life := WithPhase(b, i, Begun))
    case Save(i) =>
      b.(rows := b.rows[i := ItemRow(Running, None, None)], life := WithPhase(b, i, Working))
    case LogEnd(i, failure) =>
      b.(records := b.records + {Record(b.life[i].execution, b.life[i].step, failure)}, life := WithPhase(b, i, Ended(failure)))
    case Settle(i) =>
      var done := b.life[i].(phase := Done(b.life[i].phase.failure));
      b.(rows := b.rows[i := RowOf(done, strip)], life := b.life[i := done])
    case Cut(i) => b.(life := b.life[i := b.life[i].(cut := true)])
  }

  /** The row of an item with this history. */
  function RowOf(l: Life, strip: string -> string): ItemRow {
    match l.phase
    case Working => ItemRow(Running, None, None)
    case Ended(_) => ItemRow(Running, None, None)
    case Done(None) => ItemRow(Completed, Some(l.execution), None)
    case Done(Some(message)) =>
      if strip(message) == "" then ItemRow(Running, None, None) else ItemRow(Rejected, None, Some(strip(message)))
    case _ => ItemRow(Pending, None, None)
  }

  predicate HasDrawn(l: Life) {
    !l.phase.Created?
  }

  predicate HasBegun(l: Life) {
    !l.phase.Created? && !l.phase.Drawn?
  }

  predicate HasRecord(l: Life) {
    l.phase.Ended? || l.phase.Done?
  }

  function Replay(b: Books, strip: string -> string, steps: seq<Step>): Option<Books> {
    if steps == [] then Some(b)
    else
      var c := Replay(b, strip, steps[..|steps| - 1]);
      if c.Some? && Enabled(c.value, steps[|steps| - 1]) then Some(Next(c.value, strip, steps[|steps| - 1])) else None
  }

  ghost predicate Reachable(b: Books, strip: string -> string) {
    exists steps :: Replay(BLANK, strip, steps) == Some(b)
  }

  // ---- The invariant: the stores are what the histories say

  ghost predicate RowsInv(b: Books, strip: string -> string) {
    b.rows.Keys == b.life.Keys && forall i :: i in b.life ==> b.rows[i] == RowOf(b.life[i], strip)
  }

  ghost predicate StartsInv(b: Books) {
    forall s :: s in b.starts <==>
      s.item in b.life && HasBegun(b.life[s.item]) && s == Started(b.life[s.item].execution, s.item, b.life[s.item].step)
  }

  ghost predicate RecordedBy(b: Books, i: nat, r: Record) {
    i in b.life && HasRecord(b.life[i]) && r == Record(b.life[i].execution, b.life[i].step, b.life[i].phase.failure)
  }

  ghost predicate RecordsInv(b: Books) {
    && (forall r :: r in b.records ==> exists i :: RecordedBy(b, i, r))
    && (forall i :: i in b.life && HasRecord(b.life[i]) ==>
          Record(b.life[i].execution, b.life[i].step, b.life[i].phase.failure) in b.records)
  }

  ghost predicate DrawnBefore(b: Books) {
    && b.nextStep >= 1
    && (forall i :: i in b.life ==> i < b.nextId && (b.life[i].cut ==> !b.life[i].phase.Done?))
    && (forall i :: i in b.life && HasDrawn(b.life[i]) ==>
          b.life[i].execution < b.nextId && 1 <= b.life[i].step < b.nextStep)
  }

  ghost predicate Apart(l: Life, m: Life) {
    HasDrawn(l) && HasDrawn(m) ==> l.execution != m.execution && l.step != m.step
  }

  ghost predicate DrawnApart(b: Books) {
    forall i, j :: i in b.life && j in b.life && i != j ==> Apart(b.life[i], b.life[j])
  }

  ghost predicate DrawsInv(b: Books) {
    DrawnBefore(b) && DrawnApart(b)
  }

  ghost predicate Inv(b: Books, strip: string -> string) {
    RowsInv(b, strip) && StartsInv(b) && RecordsInv(b) && DrawsInv(b)
  }

  lemma StepKeepsRecords(b: Books, strip: string -> string, step: Step)
    requires RecordsInv(b) && Enabled(b, step) && (step.Create? ==> b.nextId !in b.life)
    ensures RecordsInv(Next(b, strip, step))
  {
    var c := Next(b, strip, step);
    forall r | r in c.records ensures exists i :: RecordedBy(c, i, r) {
      if r in b.records {
        var i :| RecordedBy(b, i, r);
        StepKeepsRecordOf(b, strip, step, i);
        assert RecordedBy(c, i, r);
      } else {
        assert RecordedBy(c, step.item, r);
      }
    }
    forall i | i in c.life && HasRecord(c.life[i])
      ensures Record(c.life[i].execution, c.life[i].step, c.life[i].phase.failure) in c.records
    {
      if i in b.life && HasRecord(b.life[i]) {
        StepKeepsRecordOf(b, strip, step, i);
      }
    }
  }

  /** Once recorded, an item keeps its execution, its step and its outcome. */
  lemma StepKeepsRecordOf(b: Books, strip: string -> string, step: Step, i: nat)
    requires i in b.life && HasRecord(b.life[i]) && Enabled(b, step) && (step.Create? ==> b.nextId !in b.life)
    ensures var c := Next(b, strip, step);
      && b.records <= c.records && i in c.life && HasRecord(c.life[i])
      && c.life[i].execution == b.life[i].execution && c.life[i].step == b.life[i].step
      && c.life[i].phase.failure == b.life[i].phase.failure
  {
  }

  lemma StepKeepsStarts(b: Books, strip: string -> string, step: Step)
    requires StartsInv(b) && DrawsInv(b) && Enabled(b, step)
    ensures StartsInv(Next(b, strip, step))
  {
  }

  lemma StepKeepsRows(b: Books, strip: string -> string, step: Step)
    requires RowsInv(b, strip) && Enabled(b, step)
    ensures RowsInv(Next(b, strip, step), strip)
  {
  }

  lemma StepKeepsBefore(b: Books, strip: string -> string, step: Step)
    requires DrawnBefore(b) && Enabled(b, step)
    ensures DrawnBefore(Next(b, strip, step))
  {
  }

  lemma StepKeepsApart(b: Books, strip: string -> string, step: Step)
    requires DrawsInv(b) && Enabled(b, step)
    ensures DrawnApart(Next(b, strip, step))
  {
    var c := Next(b, strip, step);
    forall i, j | i in c.life && j in c.life && i != j ensures Apart(c.life[i], c.life[j]) {
      if i in b.life && j in b.life {
        assert Apart(b.life[i], b.life[j]);
      }
    }
  }

  lemma StepKeepsInv(b: Books, strip: string -> string, step: Step)
    requires Inv(b, strip) && Enabled(b, step)
    ensures Inv(Next(b, strip, step), strip)
  {
    StepKeepsRows(b, strip, step);
    StepKeepsStarts(b, strip, step);
    StepKeepsRecords(b, strip, step);
    StepKeepsBefore(b, strip, step);
    StepKeepsApart(b, strip, step);
  }

  lemma {:induction false} ReplayKeepsInv(b: Books, strip: string -> string, steps: seq<Step>)
    requires Inv(b, strip) && Replay(b, strip, steps).Some?
    ensures Inv(Replay(b, strip, steps).value, strip)
    decreases |steps|
  {
    if steps != [] {
      var front := steps[..|steps| - 1];
      ReplayKeepsInv(b, strip, front);
      StepKeepsInv(Replay(b, strip, front).value, strip, steps[|steps| - 1]);
    }
  }

  lemma ReachableInv(b: Books, strip: string -> string)
    requires Reachable(b, strip)
    ensures Inv(b, strip)
  {
    var steps :| Replay(BLANK, strip, steps) == Some(b);
    ReplayKeepsInv(BLANK, strip, steps);
  }

  // ---- What every interleaving leaves

  ghost predicate Closes(s: Started, r: Record) {
    s.execution == r.execution && s.step == r.step
  }

  lemma RecordsClose(b: Books, r: Record)
    requires StartsInv(b) && RecordsInv(b) && r in b.records
    ensures exists s :: s in b.starts && Closes(s, r)
  {
    var i :| RecordedBy(b, i, r);
    assert Started(b.life[i].execution, i, b.life[i].step) in b.starts;
  }

  lemma OneRecordAnExecution(b: Books, q: Record, r: Record)
    requires RecordsInv(b) && DrawsInv(b) && q in b.records && r in b.records && q.execution == r.execution
    ensures q == r
  {
    var i :| RecordedBy(b, i, q);
    var j :| RecordedBy(b, j, r);
  }

  ghost predicate StartsApart(b: Books) {
    forall s, t :: s in b.starts && t in b.starts && s != t ==>
      s.step != t.step && s.execution != t.execution && s.item != t.item
  }

  /** However branches overlap and break off, no two executions share a step, an id or an item, every record
      closes a start, and no start is closed twice. */
  lemma LedgerPairs(b: Books, strip: string -> string)
    requires Reachable(b, strip)
    ensures StartsApart(b)
    ensures forall r :: r in b.records ==> exists s :: s in b.starts && Closes(s, r)
    ensures forall s, q, r :: q in b.records && r in b.records && Closes(s, q) && Closes(s, r) ==> q == r
  {
    ReachableInv(b, strip);
    forall r | r in b.records ensures exists s :: s in b.starts && Closes(s, r) {
      RecordsClose(b, r);
    }
    forall s, q, r | q in b.records && r in b.records && Closes(s, q) && Closes(s, r) ensures q == r {
      OneRecordAnExecution(b, q, r);
    }
  }

  ghost predicate DrewStep(b: Books, i: nat, step: nat) {
    i in b.life && HasDrawn(b.life[i]) && b.life[i].step == step
  }

  /** The counter gives out every number once: each step up to the last was drawn by some item. */
  ghost predicate StepsDrawn(b: Books) {
    forall k :: 1 <= k < b.nextStep ==> WasDrawn(b, k)
  }

  ghost predicate WasDrawn(b: Books, step: nat) {
    exists i :: DrewStep(b, i, step)
  }

  lemma StepKeepsDrawn(b: Books, strip: string -> string, step: Step)
    requires DrawnBefore(b) && StepsDrawn(b) && Enabled(b, step)
    ensures StepsDrawn(Next(b, strip, step))
  {
    var c := Next(b, strip, step);
    forall k | 1 <= k < c.nextStep ensures WasDrawn(c, k) {
      if k < b.nextStep {
        assert WasDrawn(b, k);
        var i :| DrewStep(b, i, k);
        assert DrewStep(c, i, k);
      } else {
        assert DrewStep(c, step.item, k);
      }
    }
  }

  /** However executions overlap, the steps drawn are 1, 2, 3 and so on, each by exactly one item. */
  lemma {:induction false} StepsHaveNoGap(strip: string -> string, steps: seq<Step>)
    requires Replay(BLANK, strip, steps).Some?
    ensures var b := Replay(BLANK, strip, steps).value;
      StepsDrawn(b) && forall i, j, k :: DrewStep(b, i, k) && DrewStep(b, j, k) ==> i == j
    decreases |steps|
  {
    ReplayKeepsInv(BLANK, strip, steps);
    if steps != [] {
      var front := steps[..|steps| - 1];
      StepsHaveNoGap(strip, front);
      ReplayKeepsInv(BLANK, strip, front);
      StepKeepsDrawn(Replay(BLANK, strip, front).value, strip, steps[|steps| - 1]);
    }
    var b := Replay(BLANK, strip, steps).value;
    forall i, j, k | DrewStep(b, i, k) && DrewStep(b, j, k) ensures i == j {
      assert i != j ==> Apart(b.life[i], b.life[j]);
    }
  }

  predicate Worded(r: Record, strip: string -> string) {
    r.failure.Some? ==> strip(r.failure.value) != ""
  }

  predicate Settled(row: ItemRow) {
    row.status in {Completed, Rejected}
  }

  /** An item that nothing works on any more is settled exactly when it was not cut off and its execution left a
      record that is not of a failure without words: an agent that raises with a blank message leaves its item
      running, the rejection itself being refused. What is cut off stays pending or running for good. */
  lemma SettledIff(b: Books, strip: string -> string, s: Started)
    requires Reachable(b, strip) && s in b.starts
    ensures s.item in b.rows && s.item in b.life
    ensures var l := b.life[s.item]; l.cut || l.phase.Done? ==>
      (Settled(b.rows[s.item]) <==> !l.cut && LeftWorded(b, strip, s))
    ensures var l := b.life[s.item]; !l.cut && !l.phase.Done? ==> !Settled(b.rows[s.item])
    ensures b.rows[s.item].status == Completed ==>
      Record(s.execution, s.step, None) in b.records && b.rows[s.item].artifact == Some(s.execution)
    ensures b.rows[s.item].status == Rejected ==> RejectedBy(b, strip, s)
  {
    ReachableInv(b, strip);
    OwnRecord(b, s);
    var l := b.life[s.item];
    assert b.rows[s.item] == RowOf(l, strip);
    if b.rows[s.item].status == Rejected {
      assert Record(s.execution, s.step, Some(l.phase.failure.value)) in b.records;
    }
  }

  /** The execution left a record that is not of a failure without words. */
  ghost predicate LeftWorded(b: Books, strip: string -> string, s: Started) {
    exists r :: r in b.records && Closes(s, r) && Worded(r, strip)
  }

  /** A failure is recorded whose words are the reason of the rejection. */
  ghost predicate RejectedBy(b: Books, strip: string -> string, s: Started) {
    s.item in b.rows &&
    exists m :: Record(s.execution, s.step, Some(m)) in b.records && b.rows[s.item].reason == Some(strip(m))
  }

  /** The record that closes a start is that of its item's history, when it has one. */
  lemma OwnRecord(b: Books, s: Started)
    requires StartsInv(b) && RecordsInv(b) && DrawsInv(b) && s in b.starts
    ensures forall r :: r in b.records && Closes(s, r) ==> RecordedBy(b, s.item, r)
    ensures HasRecord(b.life[s.item]) ==> Record(s.execution, s.step, b.life[s.item].phase.failure) in b.records
  {
    forall r | r in b.records && Closes(s, r) ensures RecordedBy(b, s.item, r) {
      var i :| RecordedBy(b, i, r);
      if i != s.item {
        assert Apart(b.life[i], b.life[s.item]);
      }
    }
  }

  // ---- The runner

  /** What invoking the agent comes to: it returns, raises, or is cancelled from outside. */
  datatype Invocation = Returned | Raised(message: string) | Interrupted

  datatype Result = Finished(execution: nat, item: nat) | BlankObjective | CancelledRun | AgentRaised(message: string) | BlankReason

  /** The stretches of one execution, from the item's creation on. */
  function Opening(item: nat): seq<Step> {
    [Create, Draw(item), LogStart(item), Save(item)]
  }

  function StepsOf(item: nat, invocation: Invocation): seq<Step> {
    Opening(item)
    + match invocation
      case Returned => [LogEnd(item, None), Settle(item)]
      case Raised(message) => [LogEnd(item, Some(message)), Settle(item)]
      case Interrupted => [Cut(item)]
  }

  lemma ReplayOneMore(b: Books, strip: string -> string, steps: seq<Step>, step: Step)
    requires Replay(b, strip, steps).Some? && Enabled(Replay(b, strip, steps).value, step)
    ensures Replay(b, strip, steps + [step]) == Some(Next(Replay(b, strip, steps).value, strip, step))
  {
    assert (steps + [step])[..|steps|] == steps;
  }

  class StepRunner {
    const strip: string -> string
    var rows: map<nat, ItemRow>
    var starts: set<Started>
    var records: set<Record>
    var nextId: nat
    var nextStep: nat
    ghost var life: map<nat, Life>

    ghost function State(): Books
      reads this
    {
      Books(rows, starts, records, nextId, nextStep, life)
    }

    constructor (strip: string -> string)
      ensures this.strip == strip && State() == BLANK
    {
      this.strip := strip;
      rows, starts, records, nextId, nextStep, life := map[], {}, {}, 0, 1, map[];
    }

    /** The item's row is added. */
    method Add(item: WorkItem) returns (id: nat)
      requires item.Row() == ItemRow(Pending, None, None)
      modifies this
      ensures id == old(nextId) && State() == Next(old(State()), strip, Create)
    {
      id := nextId;
      rows := rows[id := item.Row()];
      nextId := nextId + 1;
      life := life[id := Life(Created, 0, 0, false)];
    }

    /** An execution id and the next step, drawn together. */
    method DrawStep(id: nat) returns (execution: nat, step: nat)
      requires At(State(), id, Created)
      modifies this
      ensures execution == old(nextId) && step == old(nextStep) && State() == Next(old(State()), strip, Draw(id))
    {
      execution, step := nextId, nextStep;
      nextId, nextStep := nextId + 1, nextStep + 1;
      life := life[id := Life(Drawn, execution, step, false)];
    }

    method RecordStarted(id: nat, execution: nat, step: nat)
      requires At(State(), id, Drawn) && life[id].execution == execution && life[id].step == step
      modifies this
      ensures State() == Next(old(State()), strip, LogStart(id))
    {
      starts := starts + {Started(execution, id, step)};
      life := life[id := life[id].(phase := Begun)];
    }

    method SaveRunning(id: nat, item: WorkItem)
      requires At(State(), id, Begun) && item.Row() == ItemRow(Running, None, None)
      modifies this
      ensures State() == Next(old(State()), strip, Save(id))
    {
      rows := rows[id := item.Row()];
      life := life[id := life[id].(phase := Working)];
    }

    method RecordEnded(id: nat, execution: nat, step: nat, failure: Option<string>)
      requires At(State(), id, Working) && life[id].execution == execution && life[id].step == step
      modifies this
      ensures State() == Next(old(State()), strip, LogEnd(id, failure))
    {
      records := records + {Record(execution, step, failure)};
      life := life[id := life[id].(phase := Ended(failure))];
    }

    /** Completes or rejects the item and saves it; a rejection that is refused saves nothing. */
    method SettleItem(id: nat, execution: nat, failure: Option<string>, item: WorkItem) returns (settled: bool)
      requires At(State(), id, Ended(failure)) && life[id].execution == execution && id in rows && rows[id] == item.Row()
      requires item.Row() == ItemRow(Running, None, None)
      modifies this, item
      ensures State() == Next(old(State()), strip, Settle(id))
      ensures settled <==> failure.None? || strip(failure.value) != ""
    {
      match failure {
        case None => settled := item.Complete(execution);
        case Some(message) => settled := item.Reject(message, strip);
      }
      if settled {
        rows := rows[id := item.Row()];
      }
      life := life[id := life[id].(phase := Done(failure))];
      assert rows == old(rows)[id := item.Row()];
    }

    /** The stretches up to the agent's invocation. */
    method Open(item: WorkItem) returns (id: nat, execution: nat, step: nat)
      requires item.Row() == ItemRow(Pending, None, None)
      modifies this, item
      ensures id in rows && rows[id] == item.Row()
      ensures id == old(nextId) && item.Row() == ItemRow(Running, None, None)
      ensures Replay(old(State()), strip, Opening(id)) == Some(State())
      ensures At(State(), id, Working) && life[id].execution == execution && life[id].step == step
    {
      ghost var from := State();
      id := Add(item);
      ReplayOneMore(from, strip, [], Create);
      assert [] + [Create] == [Create];
      execution, step := DrawStep(id);
      ReplayOneMore(from, strip, [Create], Draw(id));
      assert [Create] + [Draw(id)] == [Create, Draw(id)];
      RecordStarted(id, execution, step);
      ReplayOneMore(from, strip, [Create, Draw(id)], LogStart(id));
      assert [Create, Draw(id)] + [LogStart(id)] == [Create, Draw(id), LogStart(id)];
      var ok := item.Start();
      SaveRunning(id, item);
      ReplayOneMore(from, strip, [Create, Draw(id), LogStart(id)], Save(id));
      assert [Create, Draw(id), LogStart(id)] + [Save(id)] == Opening(id);
    }

    /** The stretches from creating the item on, one after the other, with nothing between them. */
    method Execute(invocation: Invocation) returns (settled: bool)
      modifies this
      ensures Replay(old(State()), strip, StepsOf(old(nextId), invocation)) == Some(State())
      ensures settled <==> invocation.Returned? || (invocation.Raised? && strip(invocation.message) != "")
    {
      ghost var from := State();
      var item := new WorkItem();
      var id, execution, step := Open(item);
      if invocation.Interrupted? {
        life := life[id := life[id].(cut := true)];
        ReplayOneMore(from, strip, Opening(id), Cut(id));
        return false;
      }
      var failure := if invocation.Raised? then Some(invocation.message) else None;
      RecordEnded(id, execution, step, failure);
      ReplayOneMore(from, strip, Opening(id), LogEnd(id, failure));
      settled := SettleItem(id, execution, failure, item);
      ReplayOneMore(from, strip, Opening(id) + [LogEnd(id, failure)], Settle(id));
      assert Opening(id) + [LogEnd(id, failure)] + [Settle(id)] == StepsOf(id, invocation);
    }

    /** Runs one work item. `before` and `after` say whether the run was cancelled at the two checkpoints. */
    method Run(objective: string, before: bool, invocation: Invocation, after: bool) returns (result: Result)
      requires Inv(State(), strip)
      modifies this
      ensures Inv(State(), strip)
      ensures if before || strip(objective) == "" then State() == old(State())
              else Replay(old(State()), strip, StepsOf(old(nextId), invocation)) == Some(State())
      ensures match result
        case CancelledRun => before || (strip(objective) != "" && (invocation.Interrupted? || (invocation.Returned? && after)))
        case BlankObjective => !before && strip(objective) == ""
        case BlankReason => !before && invocation.Raised? && strip(invocation.message) == ""
        case AgentRaised(m) => !before && invocation == Raised(m) && strip(m) != ""
        case Finished(execution, item) => !before && invocation.Returned? && !after && execution == item + 1 == old(nextId) + 1
    {
      if before {
        return CancelledRun;
      }
      if strip(objective) == "" {
        return BlankObjective;
      }
      ghost var from := State();
      var id := nextId;
      var settled := Execute(invocation);
      ReplayKeepsInv(from, strip, StepsOf(id, invocation));
      match invocation {
        case Interrupted => return CancelledRun;
        case Raised(message) => return if settled then AgentRaised(message) else BlankReason;
        case Returned => return if after then CancelledRun else Finished(id + 1, id);
      }
    }
  }
}
