/** The transactional outbox that feeds the immutable audit ledger, as a state machine: one step
    for every stretch between two commits, taken in any order by any number of flushes. */
module AuditOutbox {
  import opened Wrappers

  datatype Payload = Payload(eventType: string, status: string)

  /** A row of the outbox table. The table is kept in the order the rows were written. */
  datatype Row = Row(
    id: nat, org: nat, run: nat, createdAt: int, payload: Payload, attempts: nat, dispatched: bool)

  datatype LedgerRow = LedgerRow(entryId: nat, org: nat, run: nat, createdAt: int, payload: Payload)

  /** The ledger entry that carries an outbox row: the row's id and the row's instant. */
  function EntryOf(r: Row): LedgerRow {
    LedgerRow(r.id, r.org, r.run, r.createdAt, r.payload)
  }

  /** Where a flush is with the record at its position: about to append it, or about to record the outcome. */
  datatype Phase = Appending | RecordingSuccess | RecordingFailure

  datatype Flush = Flush(seen: seq<Row>, pos: nat, phase: Phase, delivered: bool)

  datatype State = State(outbox: seq<Row>, ledger: seq<LedgerRow>, flushes: map<nat, Flush>)

  const INITIAL := State([], [], map[])

  const PAGE := 100

  /** What can happen next. An append that raises may still have reached the ledger. */
  datatype Step =
    | Enqueue(id: nat, org: nat, run: nat, occurredAt: int, payload: Payload)
    | Begin(task: nat, org: nat, run: nat)
    | Append(task: nat, landed: bool, raised: bool)
    | Record(task: nat)
    | Crash(task: nat)

  // ---- The tables

  function LatestOf(outbox: seq<Row>, run: nat): Option<int> {
    if outbox == [] then None
    else
      var rest, r := LatestOf(outbox[..|outbox| - 1], run), outbox[|outbox| - 1];
      if r.run == run && (rest.None? || rest.value < r.createdAt) then Some(r.createdAt) else rest
  }

  /** The instant a new event is stamped with: after every earlier event of its run. */
  function Floored(outbox: seq<Row>, run: nat, occurredAt: int): int {
    match LatestOf(outbox, run)
    case None => occurredAt
    case Some(latest) => if occurredAt <= latest then latest + 1 else occurredAt
  }

  function OfRun(outbox: seq<Row>, org: nat, run: nat): seq<Row> {
    if outbox == [] then []
    else
      var rest, r := OfRun(outbox[..|outbox| - 1], org, run), outbox[|outbox| - 1];
      if r.org == org && r.run == run then rest + [r] else rest
  }

  function Undispatched(rows: seq<Row>): seq<Row> {
    if rows == [] then []
    else
      var rest, r := Undispatched(rows[..|rows| - 1]), rows[|rows| - 1];
      if r.dispatched then rest else rest + [r]
  }

  /** The page of pending rows a flush reads. */
  function Pending(outbox: seq<Row>, org: nat, run: nat): seq<Row> {
    var rows := Undispatched(OfRun(outbox, org, run));
    if |rows| <= PAGE then rows else rows[..PAGE]
  }

  function Marked(r: Row, org: nat, id: nat, success: bool): Row {
    if r.id == id && r.org == org then
      if success then r.(dispatched := true) else r.(attempts := r.attempts + 1)
    else r
  }

  /** The update statement that records an outcome. */
  function Mark(outbox: seq<Row>, org: nat, id: nat, success: bool): (t: seq<Row>)
    ensures |t| == |outbox|
    ensures forall i :: 0 <= i < |t| ==> t[i] == Marked(outbox[i], org, id, success)
  {
    seq(|outbox|, i requires 0 <= i < |outbox| => Marked(outbox[i], org, id, success))
  }

  // ---- Steps

  predicate Enabled(s: State, step: Step) {
    match step
    case Enqueue(id, _, _, _, _) => forall r :: r in s.outbox ==> r.id != id
    case Begin(task, _, _) => task !in s.flushes
    case Append(task, landed, raised) =>
      && task in s.flushes
      && s.flushes[task].pos < |s.flushes[task].seen|
      && s.flushes[task].phase.Appending?
      && (raised || landed)
    case Record(task) =>
      && task in s.flushes
      && s.flushes[task].pos < |s.flushes[task].seen|
      && !s.flushes[task].phase.Appending?
    case Crash(task) => task in s.flushes
  }

  function Next(s: State, step: Step): State
    requires Enabled(s, step)
  {
    match step
    case Enqueue(id, org, run, occurredAt, payload) =>
      s.(outbox := s.outbox + [Row(id, org, run, Floored(s.outbox, run, occurredAt), payload, 0, false)])
    case Begin(task, org, run) =>
      s.(flushes := s.flushes[task := Flush(Pending(s.outbox, org, run), 0, Appending, true)])
    case Append(task, landed, raised) =>
      var f := s.flushes[task];
      s.(ledger := if landed then s.ledger + [EntryOf(f.seen[f.pos])] else s.ledger,
         flushes := s.flushes[task := f.(
           phase := if raised then RecordingFailure else RecordingSuccess,
           delivered := f.delivered && !raised)])
    case Record(task) =>
      var f := s.flushes[task];
      var r := f.seen[f.pos];
      s.(outbox := Mark(s.outbox, r.org, r.id, f.phase.RecordingSuccess?),
         flushes := s.flushes[task := f.(pos := f.pos + 1, phase := Appending)])
    case Crash(task) =>
      s.(flushes := s.flushes - {task})
  }

  /** Where a sequence of steps leads, when each is possible in turn. */
  function Replay(s: State, steps: seq<Step>): Option<State> {
    if steps == [] then Some(s)
    else
      var t := Replay(s, steps[..|steps| - 1]);
      if t.Some? && Enabled(t.value, steps[|steps| - 1]) then Some(Next(t.value, steps[|steps| - 1])) else None
  }

  ghost predicate Reachable(s: State) {
    exists steps :: Replay(INITIAL, steps) == Some(s)
  }

  // ---- The invariant

  ghost predicate InLedger(ledger: seq<LedgerRow>, id: nat) {
    exists l :: l in ledger && l.entryId == id
  }

  ghost predicate Stored(outbox: seq<Row>, l: LedgerRow) {
    exists r :: r in outbox && EntryOf(r) == l
  }

  ghost predicate DispatchedById(outbox: seq<Row>, id: nat) {
    exists r :: r in outbox && r.id == id && r.dispatched
  }

  ghost predicate TableInv(outbox: seq<Row>) {
    && (forall i, j :: 0 <= i < j < |outbox| ==> outbox[i].id != outbox[j].id)
    && (forall i, j :: 0 <= i < j < |outbox| && outbox[i].run == outbox[j].run ==> outbox[i].createdAt < outbox[j].createdAt)
  }

  /** What was appended or marked stays explained by the outbox: nothing dispatched is missing from
      the ledger, and nothing in the ledger was invented. */
  ghost predicate LedgerInv(outbox: seq<Row>, ledger: seq<LedgerRow>) {
    && (forall r :: r in outbox && r.dispatched ==> InLedger(ledger, r.id))
    && (forall l :: l in ledger ==> Stored(outbox, l))
  }

  ghost predicate FlushInv(s: State, f: Flush) {
    && f.pos <= |f.seen|
    && (f.pos == |f.seen| ==> f.phase.Appending?)
    && (forall r :: r in f.seen ==> Stored(s.outbox, EntryOf(r)))
    && (f.phase.RecordingSuccess? ==> InLedger(s.ledger, f.seen[f.pos].id))
    && (f.phase.RecordingFailure? ==> !f.delivered)
    && (f.delivered ==> forall i :: 0 <= i < f.pos ==> DispatchedById(s.outbox, f.seen[i].id))
  }

  ghost predicate Inv(s: State) {
    && TableInv(s.outbox)
    && LedgerInv(s.outbox, s.ledger)
    && forall t :: t in s.flushes ==> FlushInv(s, s.flushes[t])
  }

  /** What one step may do to the stores: rows keep their place and identity and are never
      undispatched, and the ledger only grows. */
  ghost predicate Grows(s: State, t: State) {
    && |s.outbox| <= |t.outbox|
    && (forall i :: 0 <= i < |s.outbox| ==>
          EntryOf(t.outbox[i]) == EntryOf(s.outbox[i]) && (s.outbox[i].dispatched ==> t.outbox[i].dispatched))
    && s.ledger <= t.ledger
  }

  lemma StepGrows(s: State, step: Step)
    requires Enabled(s, step)
    ensures Grows(s, Next(s, step))
  {
  }

  lemma {:induction false} LatestBounds(outbox: seq<Row>, run: nat)
    ensures forall r :: r in outbox && r.run == run ==>
      LatestOf(outbox, run).Some? && r.createdAt <= LatestOf(outbox, run).value
  {
    if outbox != [] {
      LatestBounds(outbox[..|outbox| - 1], run);
      assert outbox == outbox[..|outbox| - 1] + [outbox[|outbox| - 1]];
    }
  }

  lemma EnqueueKeepsTable(s: State, step: Step)
    requires step.Enqueue? && Enabled(s, step) && TableInv(s.outbox)
    ensures TableInv(Next(s, step).outbox)
  {
    LatestBounds(s.outbox, step.run);
    var t := Next(s, step).outbox;
    forall i, j | 0 <= i < j < |t|
      ensures t[i].id != t[j].id && (t[i].run == t[j].run ==> t[i].createdAt < t[j].createdAt)
    {
      assert t[i] == s.outbox[i] && s.outbox[i] in s.outbox;
      if j < |s.outbox| {
        assert t[j] == s.outbox[j];
      }
    }
  }

  lemma {:induction false} LatestIsOne(outbox: seq<Row>, run: nat) returns (i: nat)
    requires LatestOf(outbox, run).Some?
    ensures i < |outbox| && outbox[i].run == run && LatestOf(outbox, run) == Some(outbox[i].createdAt)
  {
    var n := |outbox| - 1;
    if LatestOf(outbox, run) == Some(outbox[n].createdAt) && outbox[n].run == run {
      i := n;
    } else {
      i := LatestIsOne(outbox[..n], run);
    }
  }

  /** A row that follows this one in its run by a single tick. */
  ghost predicate TickAfter(outbox: seq<Row>, run: nat, instant: int) {
    exists q :: q in outbox && q.run == run && q.createdAt + 1 == instant
  }

  /** Enqueueing adds one row at the end, as the event has it, not dispatched and never tried. Its instant is the
      event's own when that is after every earlier event of the run, and else the first that is. */
  lemma StampIsLeast(s: State, step: Step)
    requires step.Enqueue? && Enabled(s, step)
    ensures var t := Next(s, step); s.outbox < t.outbox && |t.outbox| == |s.outbox| + 1 && t.ledger == s.ledger
    ensures var r := Next(s, step).outbox[|s.outbox|];
      && r.id == step.id && r.org == step.org && r.run == step.run && r.payload == step.payload
      && r.attempts == 0 && !r.dispatched
      && r.createdAt >= step.occurredAt
      && (forall q :: q in s.outbox && q.run == r.run ==> q.createdAt < r.createdAt)
      && (r.createdAt == step.occurredAt || TickAfter(s.outbox, r.run, r.createdAt))
  {
    LatestBounds(s.outbox, step.run);
    if LatestOf(s.outbox, step.run).Some? {
      var i := LatestIsOne(s.outbox, step.run);
      assert s.outbox[i] in s.outbox;
    }
  }

  lemma {:induction false} OfRunFrom(outbox: seq<Row>, org: nat, run: nat)
    ensures forall r :: r in OfRun(outbox, org, run) <==> r in outbox && r.org == org && r.run == run
  {
    if outbox != [] {
      OfRunFrom(outbox[..|outbox| - 1], org, run);
      assert outbox == outbox[..|outbox| - 1] + [outbox[|outbox| - 1]];
    }
  }

  lemma {:induction false} UndispatchedFrom(rows: seq<Row>)
    ensures forall r :: r in Undispatched(rows) <==> r in rows && !r.dispatched
  {
    if rows != [] {
      UndispatchedFrom(rows[..|rows| - 1]);
      assert rows == rows[..|rows| - 1] + [rows[|rows| - 1]];
    }
  }

  lemma PendingFrom(outbox: seq<Row>, org: nat, run: nat)
    ensures forall r :: r in Pending(outbox, org, run) ==> r in outbox && r.org == org && r.run == run && !r.dispatched
    ensures |Pending(outbox, org, run)| < PAGE ==>
      forall r :: r in outbox && r.org == org && r.run == run && !r.dispatched ==> r in Pending(outbox, org, run)
  {
    OfRunFrom(outbox, org, run);
    UndispatchedFrom(OfRun(outbox, org, run));
  }

  lemma SameIdSameRow(outbox: seq<Row>, r: Row, q: Row)
    requires TableInv(outbox) && r in outbox && q in outbox && r.id == q.id
    ensures r == q
  {
  }

  /** Rows of one run are in the order of their instants. */
  ghost predicate Increasing(rows: seq<Row>) {
    forall i, j :: 0 <= i < j < |rows| ==> rows[i].createdAt < rows[j].createdAt
  }

  lemma {:induction false} OfRunInOrder(outbox: seq<Row>, org: nat, run: nat)
    requires TableInv(outbox)
    ensures Increasing(OfRun(outbox, org, run))
  {
    if outbox != [] {
      var front, last := outbox[..|outbox| - 1], outbox[|outbox| - 1];
      OfRunInOrder(front, org, run);
      OfRunFrom(front, org, run);
      var rest, rows := OfRun(front, org, run), OfRun(outbox, org, run);
      if rows != rest {
        forall i | 0 <= i < |rest| ensures rest[i].createdAt < last.createdAt {
          assert rest[i] in rest;
          var k :| 0 <= k < |front| && front[k] == rest[i];
          assert outbox[k] == rest[i];
        }
        assert rows == rest + [last];
      }
    }
  }

  lemma {:induction false} UndispatchedInOrder(rows: seq<Row>)
    requires Increasing(rows)
    ensures Increasing(Undispatched(rows))
  {
    if rows != [] {
      var front := rows[..|rows| - 1];
      UndispatchedInOrder(front);
      UndispatchedFrom(front);
    }
  }

  /** The stores stay explained by each other at every step. */
  lemma StepKeepsLedger(s: State, step: Step)
    requires Inv(s) && Enabled(s, step)
    ensures LedgerInv(Next(s, step).outbox, Next(s, step).ledger)
  {
    var t := Next(s, step);
    StepGrows(s, step);
    forall l | l in t.ledger ensures Stored(t.outbox, l) {
      if l in s.ledger {
      } else {
        var f := s.flushes[step.task];
        assert f.seen[f.pos] in f.seen;
      }
    }
    forall r | r in t.outbox && r.dispatched ensures InLedger(t.ledger, r.id) {
      var i :| 0 <= i < |t.outbox| && t.outbox[i] == r;
      if i < |s.outbox| && s.outbox[i].dispatched {
        assert s.outbox[i] in s.outbox && EntryOf(t.outbox[i]) == EntryOf(s.outbox[i]);
      } else {
        assert step.Record? && FlushInv(s, s.flushes[step.task]);
      }
    }
  }

  lemma StepKeepsOwnFlush(s: State, step: Step)
    requires Inv(s) && Enabled(s, step) && (step.Begin? || step.Append? || step.Record?)
    ensures FlushInv(Next(s, step), Next(s, step).flushes[step.task])
  {
    var t := Next(s, step);
    StepGrows(s, step);
    match step
    case Begin(task, org, run) =>
      PendingFrom(s.outbox, org, run);
    case Append(task, landed, raised) =>
      var f := s.flushes[task];
      assert landed ==> t.ledger[|s.ledger|] in t.ledger;
    case Record(task) =>
      var f := s.flushes[task];
      RecordDispatches(s, task);
  }

  lemma RecordDispatches(s: State, task: nat)
    requires Enabled(s, Record(task)) && FlushInv(s, s.flushes[task])
    ensures s.flushes[task].phase.RecordingSuccess? ==>
      DispatchedById(Next(s, Record(task)).outbox, s.flushes[task].seen[s.flushes[task].pos].id)
  {
    var f := s.flushes[task];
    var q := f.seen[f.pos];
    assert q in f.seen;
    var r :| r in s.outbox && EntryOf(r) == EntryOf(q);
    var i :| 0 <= i < |s.outbox| && s.outbox[i] == r;
    var t := Next(s, Record(task));
    assert t.outbox[i] in t.outbox && t.outbox[i] == Marked(r, q.org, q.id, f.phase.RecordingSuccess?);
  }

  lemma StepKeepsInv(s: State, step: Step)
    requires Inv(s) && Enabled(s, step)
    ensures Inv(Next(s, step))
  {
    var t := Next(s, step);
    StepGrows(s, step);
    StepKeepsLedger(s, step);
    if step.Enqueue? {
      EnqueueKeepsTable(s, step);
    }
    forall k | k in t.flushes ensures FlushInv(t, t.flushes[k]) {
      if (step.Begin? || step.Append? || step.Record?) && k == step.task {
        StepKeepsOwnFlush(s, step);
      } else {
        assert t.flushes[k] == s.flushes[k];
      }
    }
  }

  lemma {:induction false} ReplayKeepsInv(s: State, steps: seq<Step>)
    requires Inv(s) && Replay(s, steps).Some?
    ensures Inv(Replay(s, steps).value) && Grows(s, Replay(s, steps).value)
    decreases |steps|
  {
    if steps != [] {
      var front, last := steps[..|steps| - 1], steps[|steps| - 1];
      ReplayKeepsInv(s, front);
      StepKeepsInv(Replay(s, front).value, last);
      StepGrows(Replay(s, front).value, last);
    }
  }

  lemma ReachableInv(s: State)
    requires Reachable(s)
    ensures Inv(s)
  {
    var steps :| Replay(INITIAL, steps) == Some(s);
    ReplayKeepsInv(INITIAL, steps);
  }

  // ---- What every interleaving guarantees

  /** Whatever flushes, failures and crashes are interleaved, an event marked dispatched is in the
      ledger, the ledger holds only events of the outbox as the outbox has them, and an event that
      was ever enqueued is still there, pending or dispatched. */
  lemma NothingIsLost(s: State, steps: seq<Step>)
    requires Reachable(s) && Replay(s, steps).Some?
    ensures var t := Replay(s, steps).value;
      && Grows(s, t)
      && (forall r :: r in t.outbox && r.dispatched ==> InLedger(t.ledger, r.id))
      && (forall l :: l in t.ledger ==> Stored(t.outbox, l))
  {
    ReachableInv(s);
    ReplayKeepsInv(s, steps);
  }

  /** A flush that has gone through its records with nothing raised: each of them is dispatched. */
  lemma DeliveredMeansDispatched(s: State, task: nat)
    requires Reachable(s) && task in s.flushes
    requires s.flushes[task].pos == |s.flushes[task].seen| && s.flushes[task].delivered
    ensures forall r :: r in s.flushes[task].seen ==> DispatchedById(s.outbox, r.id) && InLedger(s.ledger, r.id)
  {
    ReachableInv(s);
    var f := s.flushes[task];
    forall r | r in f.seen ensures DispatchedById(s.outbox, r.id) && InLedger(s.ledger, r.id) {
      var i :| 0 <= i < |f.seen| && f.seen[i] == r;
      assert FlushInv(s, f);
      assert DispatchedById(s.outbox, f.seen[i].id);
    }
  }
}
