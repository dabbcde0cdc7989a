/** What flushing a run does to the outbox, to the ledger and to the events that wait. */
module AuditFlush {
  import opened Wrappers
  import opened Sequences
  import opened AuditOutbox

  // ---- The flush of one run, alone

  /** What the ledger answers to the k-th append: whether it raised, and whether the row landed. */
  datatype Answer = Answer(landed: bool, raised: bool)

  predicate Honest(a: Answer) {
    a.raised || a.landed
  }

  /** The outbox after the first `k` of the records seen have been tried. */
  function Tried(outbox: seq<Row>, seen: seq<Row>, answers: seq<Answer>, k: nat): seq<Row>
    requires k <= |seen| == |answers|
  {
    if k == 0 then outbox
    else Mark(Tried(outbox, seen, answers, k - 1), seen[k - 1].org, seen[k - 1].id, !answers[k - 1].raised)
  }

  function Landed(ledger: seq<LedgerRow>, seen: seq<Row>, answers: seq<Answer>, k: nat): seq<LedgerRow>
    requires k <= |seen| == |answers|
  {
    if k == 0 then ledger
    else
      var before := Landed(ledger, seen, answers, k - 1);
      if answers[k - 1].landed then before + [EntryOf(seen[k - 1])] else before
  }

  lemma ReplayOneMore(s: State, steps: seq<Step>, step: Step)
    requires Replay(s, steps).Some? && Enabled(Replay(s, steps).value, step)
    ensures Replay(s, steps + [step]) == Some(Next(Replay(s, steps).value, step))
  {
  }

  /** The world of one flush that has dealt with `k` of its records. */
  ghost function Flushing(outbox: seq<Row>, ledger: seq<LedgerRow>, seen: seq<Row>, k: nat, delivered: bool): State {
    State(outbox, ledger, map[0 := Flush(seen, k, Appending, delivered)])
  }

  lemma FlushOneMore(start: State, steps: seq<Step>, w: State, seen: seq<Row>, k: nat, delivered: bool, answer: Answer)
    requires w == Flushing(w.outbox, w.ledger, seen, k, delivered) && Replay(start, steps) == Some(w)
    requires k < |seen| && Honest(answer)
    ensures Replay(start, steps + [Append(0, answer.landed, answer.raised), Record(0)]) == Some(Flushing(
              Mark(w.outbox, seen[k].org, seen[k].id, !answer.raised),
              if answer.landed then w.ledger + [EntryOf(seen[k])] else w.ledger,
              seen, k + 1, delivered && !answer.raised))
  {
    var append := Append(0, answer.landed, answer.raised);
    ReplayOneMore(start, steps, append);
    var mid := Next(w, append);
    assert mid.flushes == map[0 := mid.flushes[0]];
    ReplayOneMore(start, steps + [append], Record(0));
    var end := Next(mid, Record(0));
    assert end.flushes == map[0 := end.flushes[0]];
    assert steps + [append] + [Record(0)] == steps + [append, Record(0)];
  }

  ghost predicate NoneRaised(answers: seq<Answer>, k: nat)
    requires k <= |answers|
  {
    forall j :: 0 <= j < k ==> !answers[j].raised
  }

  /** The world after the first `k` of the records seen were tried. */
  ghost function TriedWorld(outbox: seq<Row>, ledger: seq<LedgerRow>, seen: seq<Row>, answers: seq<Answer>, k: nat): State
    requires k <= |seen| == |answers|
  {
    Flushing(Tried(outbox, seen, answers, k), Landed(ledger, seen, answers, k), seen, k, NoneRaised(answers, k))
  }

  lemma TriedOneMore(outbox: seq<Row>, ledger: seq<LedgerRow>, seen: seq<Row>, answers: seq<Answer>, k: nat)
    requires k < |seen| == |answers|
    ensures TriedWorld(outbox, ledger, seen, answers, k + 1) == Flushing(
              Mark(Tried(outbox, seen, answers, k), seen[k].org, seen[k].id, !answers[k].raised),
              if answers[k].landed then Landed(ledger, seen, answers, k) + [EntryOf(seen[k])] else Landed(ledger, seen, answers, k),
              seen, k + 1, NoneRaised(answers, k) && !answers[k].raised)
  {
  }

  lemma TryOneMore(outbox: seq<Row>, ledger: seq<LedgerRow>, seen: seq<Row>, answers: seq<Answer>, k: nat, start: State, steps: seq<Step>)
    requires k < |seen| == |answers| && Honest(answers[k])
    requires Replay(start, steps) == Some(TriedWorld(outbox, ledger, seen, answers, k))
    ensures Replay(start, steps + [Append(0, answers[k].landed, answers[k].raised), Record(0)])
         == Some(TriedWorld(outbox, ledger, seen, answers, k + 1))
  {
    FlushOneMore(start, steps, TriedWorld(outbox, ledger, seen, answers, k), seen, k, NoneRaised(answers, k), answers[k]);
    TriedOneMore(outbox, ledger, seen, answers, k);
  }

  /** Trying the records one by one is a run of the state machine. */
  lemma {:induction false} TryingIsARun(outbox: seq<Row>, ledger: seq<LedgerRow>, org: nat, run: nat, answers: seq<Answer>, k: nat)
    returns (steps: seq<Step>)
    requires k <= |Pending(outbox, org, run)| == |answers| && forall a :: a in answers ==> Honest(a)
    ensures Replay(State(outbox, ledger, map[]), steps)
         == Some(TriedWorld(outbox, ledger, Pending(outbox, org, run), answers, k))
  {
    if k == 0 {
      steps := [Begin(0, org, run)];
    } else {
      steps := TryingIsARun(outbox, ledger, org, run, answers, k - 1);
      assert answers[k - 1] in answers;
      TryOneMore(outbox, ledger, Pending(outbox, org, run), answers, k - 1, State(outbox, ledger, map[]), steps);
      steps := steps + [Append(0, answers[k - 1].landed, answers[k - 1].raised), Record(0)];
    }
  }

  /** What a flush does to each row: the records seen are marked by their own answer, and no other
      row is touched. */
  lemma {:induction false} TriedAt(outbox: seq<Row>, seen: seq<Row>, answers: seq<Answer>, k: nat, i: nat)
    requires k <= |seen| == |answers| && i < |outbox|
    requires Distinct(seen) && (forall r :: r in seen ==> r in outbox)
    requires forall a, b :: 0 <= a < b < |outbox| ==> outbox[a].id != outbox[b].id
    ensures |Tried(outbox, seen, answers, k)| == |outbox|
    ensures var t := Tried(outbox, seen, answers, k)[i];
      && (outbox[i] !in seen[..k] ==> t == outbox[i])
      && forall j :: 0 <= j < k && seen[j] == outbox[i] ==>
           t == if answers[j].raised then outbox[i].(attempts := outbox[i].attempts + 1) else outbox[i].(dispatched := true)
  {
    if k > 0 {
      TriedAt(outbox, seen, answers, k - 1, i);
      assert seen[..k] == seen[..k - 1] + [seen[k - 1]] && seen[k - 1] in seen;
      var a :| 0 <= a < |outbox| && outbox[a] == seen[k - 1];
      if seen[k - 1] == outbox[i] {
        assert outbox[i] !in seen[..k - 1];
      } else {
        assert outbox[i].id != seen[k - 1].id;
      }
    }
  }

  // ---- What a flush reaches

  function IdsOf(rows: seq<Row>): (ids: seq<nat>)
    ensures |ids| == |rows|
    ensures forall i :: 0 <= i < |ids| ==> ids[i] == rows[i].id
  {
    seq(|rows|, i requires 0 <= i < |rows| => rows[i].id)
  }

  /** The events of a run that wait, oldest first. */
  function BacklogOf(outbox: seq<Row>, org: nat, run: nat): seq<nat> {
    IdsOf(Undispatched(OfRun(outbox, org, run)))
  }

  lemma {:induction false} FailureKeepsBacklog(outbox: seq<Row>, o: nat, id: nat, org: nat, run: nat)
    ensures BacklogOf(Mark(outbox, o, id, false), org, run) == BacklogOf(outbox, org, run)
    decreases |outbox|
  {
    if outbox != [] {
      var front, last := outbox[..|outbox| - 1], outbox[|outbox| - 1];
      FailureKeepsBacklog(front, o, id, org, run);
      var marked := Mark(outbox, o, id, false);
      assert marked[..|outbox| - 1] == Mark(front, o, id, false);
      if last.org == org && last.run == run {
        LastOfBacklog(OfRun(front, org, run), last);
        LastOfBacklog(OfRun(Mark(front, o, id, false), org, run), Marked(last, o, id, false));
      }
    }
  }

  lemma LastOfBacklog(rows: seq<Row>, r: Row)
    ensures IdsOf(Undispatched(rows + [r])) == IdsOf(Undispatched(rows)) + if r.dispatched then [] else [r.id]
  {
  }

  function Without(ids: seq<nat>, id: nat): seq<nat> {
    if ids == [] then []
    else Without(ids[..|ids| - 1], id) + if ids[|ids| - 1] == id then [] else [ids[|ids| - 1]]
  }

  lemma {:induction false} WithoutAbsent(ids: seq<nat>, id: nat)
    requires id !in ids
    ensures Without(ids, id) == ids
  {
    if ids != [] {
      WithoutAbsent(ids[..|ids| - 1], id);
    }
  }

  lemma BacklogDistinct(outbox: seq<Row>, org: nat, run: nat)
    requires TableInv(outbox)
    ensures Distinct(BacklogOf(outbox, org, run))
  {
    var rows := Undispatched(OfRun(outbox, org, run));
    OfRunInOrder(outbox, org, run);
    UndispatchedInOrder(OfRun(outbox, org, run));
    OfRunFrom(outbox, org, run);
    UndispatchedFrom(OfRun(outbox, org, run));
    forall i, j | 0 <= i < j < |rows| ensures rows[i].id != rows[j].id {
      assert rows[i] in rows && rows[j] in rows;
      var a :| 0 <= a < |outbox| && outbox[a] == rows[i];
      var b :| 0 <= b < |outbox| && outbox[b] == rows[j];
    }
  }

  lemma {:induction false} SuccessShortensBacklog(outbox: seq<Row>, id: nat, org: nat, run: nat)
    ensures BacklogOf(Mark(outbox, org, id, true), org, run)
         == Without(BacklogOf(outbox, org, run), id)
    decreases |outbox|
  {
    if outbox != [] {
      var front, last := outbox[..|outbox| - 1], outbox[|outbox| - 1];
      SuccessShortensBacklog(front, id, org, run);
      assert Mark(outbox, org, id, true)[..|outbox| - 1] == Mark(front, org, id, true);
      if last.org == org && last.run == run {
        LastOfBacklog(OfRun(front, org, run), last);
        LastOfBacklog(OfRun(Mark(front, org, id, true), org, run), Marked(last, org, id, true));
        var ids := IdsOf(Undispatched(OfRun(front, org, run)));
        assert (ids + [last.id])[..|ids|] == ids;
      }
    }
  }

  lemma {:induction false} TriedKeepsTable(outbox: seq<Row>, seen: seq<Row>, answers: seq<Answer>, k: nat)
    requires TableInv(outbox) && k <= |seen| == |answers|
    ensures TableInv(Tried(outbox, seen, answers, k))
  {
    if k > 0 {
      TriedKeepsTable(outbox, seen, answers, k - 1);
      var before, after := Tried(outbox, seen, answers, k - 1), Tried(outbox, seen, answers, k);
      assert forall i :: 0 <= i < |after| ==> EntryOf(after[i]) == EntryOf(before[i]);
    }
  }

  function AnswersTo(seen: seq<Row>, ask: Row -> Answer): seq<Answer> {
    seq(|seen|, i requires 0 <= i < |seen| => ask(seen[i]))
  }

  /** A ledger that takes some events and refuses others, always the same ones. */
  ghost predicate ByEvent(ask: Row -> Answer, refuses: nat -> bool) {
    forall r :: ask(r).raised <==> refuses(r.id)
  }

  function FlushOnce(outbox: seq<Row>, org: nat, run: nat, ask: Row -> Answer): seq<Row> {
    var seen := Pending(outbox, org, run);
    Tried(outbox, seen, AnswersTo(seen, ask), |seen|)
  }

  /** The outbox after `n` flushes of a run. */
  function AfterFlushes(outbox: seq<Row>, org: nat, run: nat, ask: Row -> Answer, n: nat): seq<Row>
    decreases n
  {
    if n == 0 then outbox else AfterFlushes(FlushOnce(outbox, org, run, ask), org, run, ask, n - 1)
  }

  function Refused(ids: seq<nat>, refuses: nat -> bool): seq<nat> {
    if ids == [] then []
    else Refused(ids[..|ids| - 1], refuses) + if refuses(ids[|ids| - 1]) then [ids[|ids| - 1]] else []
  }

  function PageEnd(ids: seq<nat>): nat {
    if |ids| <= PAGE then |ids| else PAGE
  }

  /** What a flush leaves of a backlog: the refused events of the page, and all that lies behind it. */
  function OneRound(ids: seq<nat>, refuses: nat -> bool): seq<nat> {
    Refused(ids[..PageEnd(ids)], refuses) + ids[PageEnd(ids)..]
  }

  function Rounds(ids: seq<nat>, refuses: nat -> bool, n: nat): seq<nat>
    decreases n
  {
    if n == 0 then ids else Rounds(OneRound(ids, refuses), refuses, n - 1)
  }

  lemma {:induction false} RefusedAreThose(ids: seq<nat>, refuses: nat -> bool)
    ensures forall id :: id in Refused(ids, refuses) <==> id in ids && refuses(id)
    ensures |Refused(ids, refuses)| <= |ids|
    ensures Distinct(ids) ==> Distinct(Refused(ids, refuses))
  {
    if ids != [] {
      assert ids == ids[..|ids| - 1] + [ids[|ids| - 1]];
      RefusedAreThose(ids[..|ids| - 1], refuses);
    }
  }

  lemma {:induction false} RefusedJoin(a: seq<nat>, b: seq<nat>, refuses: nat -> bool)
    ensures Refused(a + b, refuses) == Refused(a, refuses) + Refused(b, refuses)
    decreases |b|
  {
    if b == [] {
      assert a + b == a;
    } else {
      assert (a + b)[..|a + b| - 1] == a + b[..|b| - 1];
      RefusedJoin(a, b[..|b| - 1], refuses);
    }
  }

  lemma {:induction false} RefusedTwice(ids: seq<nat>, refuses: nat -> bool)
    ensures Refused(Refused(ids, refuses), refuses) == Refused(ids, refuses)
  {
    if ids != [] {
      RefusedTwice(ids[..|ids| - 1], refuses);
      RefusedJoin(Refused(ids[..|ids| - 1], refuses), if refuses(ids[|ids| - 1]) then [ids[|ids| - 1]] else [], refuses);
    }
  }

  lemma {:induction false} WithoutJoin(a: seq<nat>, b: seq<nat>, id: nat)
    ensures Without(a + b, id) == Without(a, id) + Without(b, id)
    decreases |b|
  {
    if b == [] {
      assert a + b == a;
    } else {
      assert (a + b)[..|a + b| - 1] == a + b[..|b| - 1];
      WithoutJoin(a, b[..|b| - 1], id);
    }
  }

  /** What is left of a backlog whose first `k` events were tried. */
  function LeftOf(ids: seq<nat>, k: nat, refuses: nat -> bool): seq<nat>
    requires k <= |ids|
  {
    Refused(ids[..k], refuses) + ids[k..]
  }

  lemma RefusedOneMore(front: seq<nat>, id: nat, refuses: nat -> bool)
    ensures Refused(front + [id], refuses) == Refused(front, refuses) + if refuses(id) then [id] else []
  {
    assert (front + [id])[..|front|] == front;
  }

  lemma {:induction false} WithoutFirst(id: nat, rest: seq<nat>)
    requires id !in rest
    ensures Without([id] + rest, id) == rest
  {
    var all := [id] + rest;
    if rest == [] {
      assert all[..|all| - 1] == [];
    } else {
      WithoutFirst(id, rest[..|rest| - 1]);
      assert all[..|all| - 1] == [id] + rest[..|rest| - 1];
      assert rest == rest[..|rest| - 1] + [rest[|rest| - 1]];
    }
  }

  /** Taking an event out of what waits between the refused before it and the rest behind it. */
  lemma WithoutBetween(refused: seq<nat>, id: nat, rest: seq<nat>)
    requires id !in refused && id !in rest
    ensures Without(refused + ([id] + rest), id) == refused + rest
  {
    WithoutJoin(refused, [id] + rest, id);
    WithoutAbsent(refused, id);
    WithoutFirst(id, rest);
  }

  lemma SliceStep(ids: seq<nat>, k: nat)
    requires Distinct(ids) && 0 < k <= |ids|
    ensures ids[..k] == ids[..k - 1] + [ids[k - 1]] && ids[k - 1..] == [ids[k - 1]] + ids[k..]
    ensures ids[k - 1] !in ids[..k - 1] && ids[k - 1] !in ids[k..]
  {
  }

  /** Trying one more event of a backlog takes it out exactly when it is not refused. */
  lemma TryBacklogHead(ids: seq<nat>, k: nat, refuses: nat -> bool)
    requires Distinct(ids) && 0 < k <= |ids|
    ensures refuses(ids[k - 1]) ==> LeftOf(ids, k, refuses) == LeftOf(ids, k - 1, refuses)
    ensures !refuses(ids[k - 1]) ==> LeftOf(ids, k, refuses) == Without(LeftOf(ids, k - 1, refuses), ids[k - 1])
  {
    var front, id, rest := ids[..k - 1], ids[k - 1], ids[k..];
    SliceStep(ids, k);
    RefusedOneMore(front, id, refuses);
    RefusedAreThose(front, refuses);
    if refuses(id) {
      assert Refused(front, refuses) + [id] + rest == Refused(front, refuses) + ([id] + rest);
    } else {
      WithoutBetween(Refused(front, refuses), id, rest);
      assert Refused(front, refuses) + [] == Refused(front, refuses);
    }
  }

  /** The page is the head of the backlog. */
  lemma PageOfBacklog(outbox: seq<Row>, org: nat, run: nat)
    ensures var seen, backlog := Pending(outbox, org, run), BacklogOf(outbox, org, run);
      && |seen| == PageEnd(backlog)
      && forall i :: 0 <= i < |seen| ==> seen[i].id == backlog[i] && seen[i].org == org
  {
    PendingFrom(outbox, org, run);
    var seen := Pending(outbox, org, run);
    assert forall i :: 0 <= i < |seen| ==> seen[i] in seen;
  }

  lemma TriedStep(outbox: seq<Row>, seen: seq<Row>, ask: Row -> Answer, k: nat)
    requires 0 < k <= |seen|
    ensures var r := seen[k - 1];
      Tried(outbox, seen, AnswersTo(seen, ask), k) == Mark(Tried(outbox, seen, AnswersTo(seen, ask), k - 1), r.org, r.id, !ask(r).raised)
  {
  }

  lemma {:induction false} TriedBacklog(
      outbox: seq<Row>, ask: Row -> Answer, refuses: nat -> bool, k: nat, org: nat, run: nat, seen: seq<Row>, backlog: seq<nat>)
    returns (after: seq<Row>)
    requires ByEvent(ask, refuses) && Distinct(backlog) && k <= |seen| <= |backlog|
    requires backlog == BacklogOf(outbox, org, run)
    requires forall i :: 0 <= i < |seen| ==> seen[i].id == backlog[i] && seen[i].org == org
    ensures after == Tried(outbox, seen, AnswersTo(seen, ask), k)
    ensures BacklogOf(after, org, run) == LeftOf(backlog, k, refuses)
  {
    if k == 0 {
      after := outbox;
      assert backlog[..0] == [] && backlog[0..] == backlog;
    } else {
      var before := TriedBacklog(outbox, ask, refuses, k - 1, org, run, seen, backlog);
      TriedStep(outbox, seen, ask, k);
      after := MarkedBacklog(before, backlog, k, refuses, org, run);
    }
  }

  lemma MarkedBacklog(before: seq<Row>, backlog: seq<nat>, k: nat, refuses: nat -> bool, org: nat, run: nat) returns (after: seq<Row>)
    requires Distinct(backlog) && 0 < k <= |backlog| && BacklogOf(before, org, run) == LeftOf(backlog, k - 1, refuses)
    ensures after == Mark(before, org, backlog[k - 1], !refuses(backlog[k - 1]))
    ensures BacklogOf(after, org, run) == LeftOf(backlog, k, refuses)
  {
    TryBacklogHead(backlog, k, refuses);
    MarkBacklog(before, backlog[k - 1], !refuses(backlog[k - 1]), org, run);
    after := Mark(before, org, backlog[k - 1], !refuses(backlog[k - 1]));
  }

  lemma MarkBacklog(outbox: seq<Row>, id: nat, success: bool, org: nat, run: nat)
    ensures BacklogOf(Mark(outbox, org, id, success), org, run)
         == if success then Without(BacklogOf(outbox, org, run), id) else BacklogOf(outbox, org, run)
  {
    if success {
      SuccessShortensBacklog(outbox, id, org, run);
    } else {
      FailureKeepsBacklog(outbox, org, id, org, run);
    }
  }

  lemma FlushOnceRound(outbox: seq<Row>, org: nat, run: nat, ask: Row -> Answer, refuses: nat -> bool)
    requires TableInv(outbox) && ByEvent(ask, refuses)
    ensures TableInv(FlushOnce(outbox, org, run, ask))
    ensures BacklogOf(FlushOnce(outbox, org, run, ask), org, run) == OneRound(BacklogOf(outbox, org, run), refuses)
  {
    var seen := Pending(outbox, org, run);
    TriedKeepsTable(outbox, seen, AnswersTo(seen, ask), |seen|);
    PageOfBacklog(outbox, org, run);
    BacklogDistinct(outbox, org, run);
    var after := TriedBacklog(outbox, ask, refuses, |seen|, org, run, seen, BacklogOf(outbox, org, run));
  }

  /** Flushes work on the backlog alone: each leaves of the page what the ledger refuses, and the rest behind it. */
  lemma {:induction false} FlushesAreRounds(
      outbox: seq<Row>, org: nat, run: nat, ask: Row -> Answer, refuses: nat -> bool, n: nat, backlog: seq<nat>)
    returns (after: seq<Row>)
    requires TableInv(outbox) && ByEvent(ask, refuses) && backlog == BacklogOf(outbox, org, run)
    ensures after == AfterFlushes(outbox, org, run, ask, n)
    ensures BacklogOf(after, org, run) == Rounds(backlog, refuses, n)
    decreases n
  {
    if n == 0 {
      after := outbox;
    } else {
      var next, left := FlushOnce(outbox, org, run, ask), OneRound(backlog, refuses);
      FlushOnceRound(outbox, org, run, ask, refuses);
      after := FlushesAreRounds(next, org, run, ask, refuses, n - 1, left);
      FlushFirst(outbox, next, org, run, ask, n, after);
      RoundFirst(backlog, refuses, n);
    }
  }

  lemma FlushFirst(outbox: seq<Row>, next: seq<Row>, org: nat, run: nat, ask: Row -> Answer, n: nat, after: seq<Row>)
    requires n > 0 && next == FlushOnce(outbox, org, run, ask) && after == AfterFlushes(next, org, run, ask, n - 1)
    ensures after == AfterFlushes(outbox, org, run, ask, n)
  {
  }

  lemma RoundFirst(ids: seq<nat>, refuses: nat -> bool, n: nat)
    requires n > 0
    ensures Rounds(ids, refuses, n) == Rounds(OneRound(ids, refuses), refuses, n - 1)
  {
  }

  lemma RoundIsDistinct(ids: seq<nat>, refuses: nat -> bool)
    requires Distinct(ids)
    ensures Distinct(OneRound(ids, refuses))
  {
    var page, behind := ids[..PageEnd(ids)], ids[PageEnd(ids)..];
    RefusedAreThose(page, refuses);
    forall id | id in Refused(page, refuses) ensures id !in behind {
      var i :| 0 <= i < |page| && page[i] == id;
      assert ids[i] == id;
    }
    DistinctJoin(Refused(page, refuses), behind);
  }

  lemma DistinctJoin(a: seq<nat>, b: seq<nat>)
    requires Distinct(a) && Distinct(b) && forall id :: id in a ==> id !in b
    ensures Distinct(a + b)
  {
    var s := a + b;
    forall i, j | 0 <= i < j < |s| ensures s[i] != s[j] {
      if i < |a| <= j {
        assert s[i] == a[i] && a[i] in a && s[j] == b[j - |a|] && b[j - |a|] in b;
      }
    }
  }

  /** The refused events before a place behind the page are those of the page and those between. */
  lemma RefusedBefore(ids: seq<nat>, refuses: nat -> bool, p: nat)
    requires PAGE <= p <= |ids|
    ensures Refused(ids[..p], refuses) == Refused(ids[..PAGE], refuses) + Refused(ids[PAGE..p], refuses)
    ensures Refused(Refused(ids[..PAGE], refuses) + ids[PAGE..p], refuses) == Refused(ids[..p], refuses)
  {
    assert ids[..p] == ids[..PAGE] + ids[PAGE..p];
    RefusedJoin(ids[..PAGE], ids[PAGE..p], refuses);
    RefusedJoin(Refused(ids[..PAGE], refuses), ids[PAGE..p], refuses);
    RefusedTwice(ids[..PAGE], refuses);
  }

  /** An event behind the page moves up by what the page delivers; the refused events before it stay as many. */
  lemma RoundMovesUp(ids: seq<nat>, refuses: nat -> bool, p: nat) returns (q: nat)
    requires Distinct(ids) && PAGE <= p < |ids|
    ensures q == p - PAGE + |Refused(ids[..PAGE], refuses)| <= p
    ensures q < |OneRound(ids, refuses)| && OneRound(ids, refuses)[q] == ids[p]
    ensures Refused(OneRound(ids, refuses)[..q], refuses) == Refused(ids[..p], refuses)
  {
    RefusedAreThose(ids[..PAGE], refuses);
    var stay := Refused(ids[..PAGE], refuses);
    q := p - PAGE + |stay|;
    var behind := ids[PAGE..];
    assert OneRound(ids, refuses) == stay + behind;
    assert OneRound(ids, refuses)[q] == behind[p - PAGE];
    assert OneRound(ids, refuses)[..q] == stay + behind[..p - PAGE];
    assert behind[..p - PAGE] == ids[PAGE..p];
    RefusedBefore(ids, refuses, p);
  }

  lemma {:induction false} FewRefusedBefore(ids: seq<nat>, refuses: nat -> bool, p: nat) returns (n: nat)
    requires Distinct(ids) && p < |ids| && !refuses(ids[p]) && |Refused(ids[..p], refuses)| < PAGE
    ensures ids[p] !in Rounds(ids, refuses, n)
    decreases p
  {
    if p < PAGE {
      n := 1;
      RefusedAreThose(ids[..PageEnd(ids)], refuses);
      assert Rounds(OneRound(ids, refuses), refuses, 0) == OneRound(ids, refuses);
    } else {
      RefusedBefore(ids, refuses, p);
      RoundIsDistinct(ids, refuses);
      var q := RoundMovesUp(ids, refuses, p);
      var m := FewRefusedBefore(OneRound(ids, refuses), refuses, q);
      n := m + 1;
    }
  }

  lemma {:induction false} ManyRefusedBefore(ids: seq<nat>, refuses: nat -> bool, p: nat, n: nat)
    requires Distinct(ids) && p < |ids| && |Refused(ids[..p], refuses)| >= PAGE
    ensures ids[p] in Rounds(ids, refuses, n)
    decreases n
  {
    if n > 0 {
      RefusedAreThose(ids[..p], refuses);
      RoundIsDistinct(ids, refuses);
      var q := RoundMovesUp(ids, refuses, p);
      ManyRefusedBefore(OneRound(ids, refuses), refuses, q, n - 1);
    }
  }

  lemma {:induction false} RefusedStays(ids: seq<nat>, refuses: nat -> bool, id: nat, n: nat)
    requires id in ids && refuses(id)
    ensures id in Rounds(ids, refuses, n)
    decreases n
  {
    if n > 0 {
      RefusedAreThose(ids[..PageEnd(ids)], refuses);
      assert ids == ids[..PageEnd(ids)] + ids[PageEnd(ids)..];
      RefusedStays(OneRound(ids, refuses), refuses, id, n - 1);
    }
  }

  lemma {:induction false} FlushesKeepEntries(outbox: seq<Row>, org: nat, run: nat, ask: Row -> Answer, n: nat)
    ensures SameEntries(outbox, AfterFlushes(outbox, org, run, ask, n))
    decreases n
  {
    if n > 0 {
      var seen, next := Pending(outbox, org, run), FlushOnce(outbox, org, run, ask);
      TriedKeepsEntries(outbox, seen, AnswersTo(seen, ask), |seen|);
      FlushesKeepEntries(next, org, run, ask, n - 1);
      SameEntriesTwice(outbox, next, AfterFlushes(next, org, run, ask, n - 1));
    }
  }

  ghost predicate SameEntries(a: seq<Row>, b: seq<Row>) {
    |a| == |b| && forall i :: 0 <= i < |a| ==> EntryOf(a[i]) == EntryOf(b[i])
  }

  lemma SameEntriesSameTable(a: seq<Row>, b: seq<Row>)
    requires SameEntries(a, b) && TableInv(a)
    ensures TableInv(b)
  {
    assert forall i :: 0 <= i < |b| ==> b[i].id == EntryOf(a[i]).entryId && b[i].run == EntryOf(a[i]).run;
    assert forall i :: 0 <= i < |b| ==> b[i].createdAt == EntryOf(a[i]).createdAt;
  }

  lemma SameEntriesTwice(a: seq<Row>, b: seq<Row>, c: seq<Row>)
    requires SameEntries(a, b) && SameEntries(b, c)
    ensures SameEntries(a, c)
  {
  }

  lemma {:induction false} TriedKeepsEntries(outbox: seq<Row>, seen: seq<Row>, answers: seq<Answer>, k: nat)
    requires k <= |seen| == |answers|
    ensures SameEntries(outbox, Tried(outbox, seen, answers, k))
  {
    if k > 0 {
      TriedKeepsEntries(outbox, seen, answers, k - 1);
      var before := Tried(outbox, seen, answers, k - 1);
      SameEntriesTwice(outbox, before, Mark(before, seen[k - 1].org, seen[k - 1].id, !answers[k - 1].raised));
    }
  }

  lemma BacklogHolds(outbox: seq<Row>, org: nat, run: nat, id: nat)
    ensures id in BacklogOf(outbox, org, run) <==> exists r :: r in outbox && r.org == org && r.run == run && !r.dispatched && r.id == id
  {
    OfRunFrom(outbox, org, run);
    UndispatchedFrom(OfRun(outbox, org, run));
    var rows := Undispatched(OfRun(outbox, org, run));
    if r :| r in outbox && r.org == org && r.run == run && !r.dispatched && r.id == id {
      var i :| 0 <= i < |rows| && rows[i] == r;
      assert IdsOf(rows)[i] == id;
    }
    if id in IdsOf(rows) {
      var i :| 0 <= i < |rows| && IdsOf(rows)[i] == id;
      assert rows[i] in rows;
    }
  }

  /** An event that waited waits still exactly when it was not dispatched meanwhile. */
  lemma WaitsOrDispatched(outbox: seq<Row>, after: seq<Row>, org: nat, run: nat, id: nat)
    requires SameEntries(outbox, after) && TableInv(after) && id in BacklogOf(outbox, org, run)
    ensures id in BacklogOf(after, org, run) <==> !DispatchedById(after, id)
  {
    BacklogHolds(outbox, org, run, id);
    BacklogHolds(after, org, run, id);
    var r :| r in outbox && r.org == org && r.run == run && !r.dispatched && r.id == id;
    var i :| 0 <= i < |outbox| && outbox[i] == r;
    assert EntryOf(after[i]) == EntryOf(r) && after[i] in after;
  }

  /** Within the page one failing record never stops the rest, but the page is all a flush sees. A ledger that
      refuses certain events for good holds up the others exactly when it refuses a whole page of them: a
      waiting event is delivered by some number of flushes if and only if it is not refused and fewer than PAGE
      refused events of its run stand before it. */
  lemma DeliveredInTheEndIff(outbox: seq<Row>, org: nat, run: nat, ask: Row -> Answer, refuses: nat -> bool, p: nat)
    requires TableInv(outbox) && ByEvent(ask, refuses) && p < |BacklogOf(outbox, org, run)|
    ensures var backlog := BacklogOf(outbox, org, run);
      (exists n :: DispatchedById(AfterFlushes(outbox, org, run, ask, n), backlog[p])) <==>
      !refuses(backlog[p]) && |Refused(backlog[..p], refuses)| < PAGE
  {
    var backlog := BacklogOf(outbox, org, run);
    BacklogDistinct(outbox, org, run);
    if !refuses(backlog[p]) && |Refused(backlog[..p], refuses)| < PAGE {
      var n := FewRefusedBefore(backlog, refuses, p);
      DispatchedAfter(outbox, org, run, ask, refuses, p, n);
    } else {
      forall n ensures !DispatchedById(AfterFlushes(outbox, org, run, ask, n), backlog[p]) {
        if refuses(backlog[p]) {
          RefusedStays(backlog, refuses, backlog[p], n);
        } else {
          ManyRefusedBefore(backlog, refuses, p, n);
        }
        DispatchedAfter(outbox, org, run, ask, refuses, p, n);
      }
    }
  }

  lemma DispatchedAfter(outbox: seq<Row>, org: nat, run: nat, ask: Row -> Answer, refuses: nat -> bool, p: nat, n: nat)
    requires TableInv(outbox) && ByEvent(ask, refuses) && p < |BacklogOf(outbox, org, run)|
    ensures var backlog := BacklogOf(outbox, org, run);
      DispatchedById(AfterFlushes(outbox, org, run, ask, n), backlog[p]) <==> backlog[p] !in Rounds(backlog, refuses, n)
  {
    var after := FlushesAreRounds(outbox, org, run, ask, refuses, n, BacklogOf(outbox, org, run));
    FlushesKeepEntries(outbox, org, run, ask, n);
    SameEntriesSameTable(outbox, after);
    WaitsOrDispatched(outbox, after, org, run, BacklogOf(outbox, org, run)[p]);
  }

  /** While a full page is refused, every later flush of the run finds the backlog as it was. */
  lemma {:induction false} FailingPageStays(ids: seq<nat>, refuses: nat -> bool, n: nat)
    requires forall i :: 0 <= i < PageEnd(ids) ==> refuses(ids[i])
    ensures Rounds(ids, refuses, n) == ids
  {
    if n > 0 {
      AllRefused(ids[..PageEnd(ids)], refuses);
      assert ids == ids[..PageEnd(ids)] + ids[PageEnd(ids)..];
      FailingPageStays(ids, refuses, n - 1);
    }
  }

  lemma {:induction false} AllRefused(ids: seq<nat>, refuses: nat -> bool)
    requires forall i :: 0 <= i < |ids| ==> refuses(ids[i])
    ensures Refused(ids, refuses) == ids
  {
    if ids != [] {
      AllRefused(ids[..|ids| - 1], refuses);
    }
  }

  /** What lies behind the first `n` pages. */
  function BehindPages(ids: seq<nat>, n: nat): seq<nat> {
    if n * PAGE <= |ids| then ids[n * PAGE..] else []
  }

  /** When the ledger refuses nothing, flushes drain a run page by page, oldest first: `n` of them leave exactly
      what lies behind the first `n` pages. */
  lemma {:induction false} DeliveriesDrain(ids: seq<nat>, refuses: nat -> bool, n: nat)
    requires forall id :: id in ids ==> !refuses(id)
    ensures Rounds(ids, refuses, n) == BehindPages(ids, n)
    decreases n
  {
    if n > 0 {
      var rest := ids[PageEnd(ids)..];
      NothingRefused(ids[..PageEnd(ids)], refuses);
      assert OneRound(ids, refuses) == rest;
      DeliveriesDrain(rest, refuses, n - 1);
    }
  }

  lemma {:induction false} NothingRefused(ids: seq<nat>, refuses: nat -> bool)
    requires forall id :: id in ids ==> !refuses(id)
    ensures Refused(ids, refuses) == []
  {
    if ids != [] {
      NothingRefused(ids[..|ids| - 1], refuses);
    }
  }
}
