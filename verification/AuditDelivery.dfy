/** The coordinator that moves outbox rows into the ledger: the flush of one run, and the sweep over all. */
module AuditDelivery {
  import opened Wrappers
  import opened Sequences
  import opened AuditOutbox
  import opened AuditFlush

  // ---- The sweep over an organization

  /** The order of the sweep's query: by instant, then by id. */
  predicate Earlier(a: Row, b: Row) {
    a.createdAt < b.createdAt || (a.createdAt == b.createdAt && a.id < b.id)
  }

  predicate Waits(r: Row, org: nat) {
    r.org == org && !r.dispatched
  }

  /** The waiting events of the organization that come before a row. */
  function EarlierIds(outbox: seq<Row>, org: nat, r: Row): set<nat> {
    set q | q in outbox && Waits(q, org) && Earlier(q, r) :: q.id
  }

  /** The undispatched rows of an organization that the sweep reads to learn which runs have any: those with
      fewer than PAGE before them. */
  function SweepPage(outbox: seq<Row>, org: nat): set<Row> {
    set r | r in outbox && Waits(r, org) && |EarlierIds(outbox, org, r)| < PAGE
  }

  lemma IdSetSize(ids: seq<nat>, s: set<nat>)
    requires Distinct(ids) && forall id :: id in ids ==> id in s
    ensures |ids| <= |s|
  {
    DistinctCardinality(ids);
    SubsetSize(ToSet(ids), s);
  }

  /** Whatever is early enough for the sweep's page is early enough for its own run's page, so the flush that
      the sweep starts for that run tries it. */
  lemma SweptRowIsPending(outbox: seq<Row>, org: nat, r: Row)
    requires TableInv(outbox) && r in SweepPage(outbox, org)
    ensures r in Pending(outbox, org, r.run)
  {
    var backlog := Undispatched(OfRun(outbox, org, r.run));
    OfRunFrom(outbox, org, r.run);
    UndispatchedFrom(OfRun(outbox, org, r.run));
    OfRunInOrder(outbox, org, r.run);
    UndispatchedInOrder(OfRun(outbox, org, r.run));
    BacklogDistinct(outbox, org, r.run);
    var j :| 0 <= j < |backlog| && backlog[j] == r;
    var before := IdsOf(backlog)[..j];
    forall id | id in before ensures id in EarlierIds(outbox, org, r) {
      var k :| 0 <= k < j && before[k] == id;
      assert backlog[k] in outbox && Earlier(backlog[k], r);
    }
    IdSetSize(before, EarlierIds(outbox, org, r));
  }

  /** The records of a run that a flush deals with when it gets through so many. */
  function Reached(outbox: seq<Row>, org: nat, run: nat, count: nat): seq<Row> {
    var seen := Pending(outbox, org, run);
    if count < |seen| then seen[..count] else seen
  }

  /** What one flush makes of a row when the ledger answers by the row. */
  function AfterFlush(outbox: seq<Row>, org: nat, run: nat, count: nat, ask: Row -> Answer, r: Row): Row {
    if r in Reached(outbox, org, run, count) then Marked(r, r.org, r.id, !ask(r).raised) else r
  }

  lemma FlushMarksEach(outbox: seq<Row>, org: nat, run: nat, count: nat, ask: Row -> Answer)
    requires TableInv(outbox)
    ensures var seen := Pending(outbox, org, run);
      var after := Tried(outbox, seen, AnswersTo(seen, ask), |Reached(outbox, org, run, count)|);
      |after| == |outbox| && forall i :: 0 <= i < |outbox| ==> after[i] == AfterFlush(outbox, org, run, count, ask, outbox[i])
  {
    var seen, done := Pending(outbox, org, run), |Reached(outbox, org, run, count)|;
    var answers := AnswersTo(seen, ask);
    PendingFrom(outbox, org, run);
    PendingDistinct(outbox, org, run);
    TriedKeepsLength(outbox, seen, answers, done);
    assert seen[..done] == Reached(outbox, org, run, count);
    forall i | 0 <= i < |outbox|
      ensures Tried(outbox, seen, answers, done)[i] == AfterFlush(outbox, org, run, count, ask, outbox[i])
    {
      TriedAt(outbox, seen, answers, done, i);
      if outbox[i] in seen[..done] {
        var j :| 0 <= j < done && seen[j] == outbox[i];
        assert answers[j] == ask(seen[j]);
      }
    }
  }

  lemma {:induction false} TriedKeepsLength(outbox: seq<Row>, seen: seq<Row>, answers: seq<Answer>, k: nat)
    requires k <= |seen| == |answers|
    ensures |Tried(outbox, seen, answers, k)| == |outbox|
  {
    if k > 0 {
      TriedKeepsLength(outbox, seen, answers, k - 1);
    }
  }

  lemma PendingDistinct(outbox: seq<Row>, org: nat, run: nat)
    requires TableInv(outbox)
    ensures Distinct(Pending(outbox, org, run))
  {
    OfRunInOrder(outbox, org, run);
    UndispatchedInOrder(OfRun(outbox, org, run));
  }

  /** Two tables that agree on the rows of a run. */
  ghost predicate SameRun(a: seq<Row>, b: seq<Row>, org: nat, run: nat) {
    && |a| == |b|
    && forall i :: 0 <= i < |a| ==> SameIn(a[i], b[i], org, run)
  }

  ghost predicate SameIn(a: Row, b: Row, org: nat, run: nat) {
    && a.org == b.org && a.run == b.run
    && (a.org == org && a.run == run ==> a == b)
  }

  lemma {:induction false} SameRunSamePage(a: seq<Row>, b: seq<Row>, org: nat, run: nat)
    requires SameRun(a, b, org, run)
    ensures OfRun(a, org, run) == OfRun(b, org, run) && Pending(a, org, run) == Pending(b, org, run)
    decreases |a|
  {
    if a != [] {
      SameRunSamePage(a[..|a| - 1], b[..|b| - 1], org, run);
      assert SameIn(a[|a| - 1], b[|b| - 1], org, run);
    }
  }

  ghost predicate SameOrganization(a: seq<Row>, b: seq<Row>, org: nat) {
    && |a| == |b|
    && forall i :: 0 <= i < |a| ==> SameFor(a[i], b[i], org)
  }

  ghost predicate SameFor(a: Row, b: Row, org: nat) {
    a.org == b.org && a.run == b.run && (a.org == org ==> a == b)
  }

  lemma SameOrganizationSamePage(a: seq<Row>, b: seq<Row>, org: nat)
    requires SameOrganization(a, b, org)
    ensures SweepPage(a, org) == SweepPage(b, org)
  {
    forall r: Row | r.org == org ensures r in a <==> r in b {
      if r in a {
        var i :| 0 <= i < |a| && a[i] == r;
        assert SameFor(a[i], b[i], org);
      }
      if r in b {
        var i :| 0 <= i < |b| && b[i] == r;
        assert SameFor(a[i], b[i], org);
      }
    }
    assert forall r :: EarlierIds(a, org, r) == EarlierIds(b, org, r);
  }

  function RunsIn(page: set<Row>): set<nat> {
    set r | r in page :: r.run
  }

  /** A row is dealt with by a sweep that flushed these runs of an organization, getting through so many records
      of each, when it is among them. */
  predicate InSweep(outbox: seq<Row>, org: nat, flushed: map<nat, nat>, r: Row) {
    r.org == org && r.run in flushed && r in Reached(outbox, org, r.run, flushed[r.run])
  }

  function AfterSweep(outbox: seq<Row>, org: nat, flushed: map<nat, nat>, ask: Row -> Answer, r: Row): Row {
    if InSweep(outbox, org, flushed, r) then Marked(r, r.org, r.id, !ask(r).raised) else r
  }

  /** The table a sweep leaves that flushed these runs. */
  ghost predicate SweptTo(outbox: seq<Row>, after: seq<Row>, org: nat, flushed: map<nat, nat>, ask: Row -> Answer) {
    && |after| == |outbox|
    && forall i :: 0 <= i < |outbox| ==> after[i] == AfterSweep(outbox, org, flushed, ask, outbox[i])
  }

  /** Flushing one more run: the pages of the runs do not meet. */
  lemma SweepOneMore(outbox: seq<Row>, mid: seq<Row>, after: seq<Row>, org: nat, flushed: map<nat, nat>, run: nat, count: nat, ask: Row -> Answer)
    requires TableInv(outbox) && TableInv(mid) && SweptTo(outbox, mid, org, flushed, ask) && run !in flushed
    requires var seen := Pending(mid, org, run); after == Tried(mid, seen, AnswersTo(seen, ask), |Reached(mid, org, run, count)|)
    ensures SweptTo(outbox, after, org, flushed[run := count], ask)
  {
    SweepLeavesRun(outbox, mid, org, flushed, run, ask);
    FlushMarksEach(mid, org, run, count, ask);
    forall i | 0 <= i < |outbox| ensures after[i] == AfterSweep(outbox, org, flushed[run := count], ask, outbox[i]) {
      RowAfterFlush(outbox, mid, org, flushed, run, count, ask, outbox[i]);
    }
  }

  lemma SweepLeavesRun(outbox: seq<Row>, mid: seq<Row>, org: nat, flushed: map<nat, nat>, run: nat, ask: Row -> Answer)
    requires SweptTo(outbox, mid, org, flushed, ask) && run !in flushed
    ensures Pending(mid, org, run) == Pending(outbox, org, run)
  {
    forall i | 0 <= i < |outbox| ensures SameIn(outbox[i], mid[i], org, run) {
      assert mid[i] == AfterSweep(outbox, org, flushed, ask, outbox[i]);
    }
    SameRunSamePage(outbox, mid, org, run);
  }

  lemma ReachedFrom(outbox: seq<Row>, org: nat, run: nat, count: nat)
    ensures forall r :: r in Reached(outbox, org, run, count) ==> r in outbox && r.org == org && r.run == run && !r.dispatched
  {
    PendingFrom(outbox, org, run);
  }

  lemma RowAfterFlush(outbox: seq<Row>, mid: seq<Row>, org: nat, flushed: map<nat, nat>, run: nat, count: nat, ask: Row -> Answer, r: Row)
    requires Pending(mid, org, run) == Pending(outbox, org, run) && run !in flushed
    ensures AfterFlush(mid, org, run, count, ask, AfterSweep(outbox, org, flushed, ask, r))
         == AfterSweep(outbox, org, flushed[run := count], ask, r)
  {
    ReachedFrom(outbox, org, run, count);
    assert Reached(mid, org, run, count) == Reached(outbox, org, run, count);
  }

  /** The flush of this run got through its page: no commit of it failed. */
  predicate Through(outbox: seq<Row>, org: nat, run: nat, count: nat) {
    count >= |Pending(outbox, org, run)|
  }

  ghost predicate AllThrough(outbox: seq<Row>, org: nat, flushed: map<nat, nat>) {
    forall run :: run in flushed ==> Through(outbox, org, run, flushed[run])
  }

  /** The turn was cut short by the flush of this run, the last it made. */
  ghost predicate CutShortBy(outbox: seq<Row>, org: nat, flushed: map<nat, nat>, last: nat) {
    last in flushed && !Through(outbox, org, last, flushed[last]) && AllThrough(outbox, org, flushed - {last})
  }

  /** The turn of an organization ends when all the runs on its page were flushed, or with the first flush that
      breaks off. */
  ghost predicate TurnEnds(outbox: seq<Row>, org: nat, flushed: map<nat, nat>) {
    && flushed.Keys <= RunsIn(SweepPage(outbox, org))
    && ((AllThrough(outbox, org, flushed) && flushed.Keys == RunsIn(SweepPage(outbox, org)))
        || exists last :: CutShortBy(outbox, org, flushed, last))
  }

  lemma ThroughOnceMore(outbox: seq<Row>, org: nat, flushed: map<nat, nat>, run: nat, count: nat)
    requires AllThrough(outbox, org, flushed) && run !in flushed
    ensures Through(outbox, org, run, count) ==> AllThrough(outbox, org, flushed[run := count])
    ensures !Through(outbox, org, run, count) ==> CutShortBy(outbox, org, flushed[run := count], run)
  {
    assert flushed[run := count] - {run} == flushed;
  }

  /** What a round makes of a row that took these turns. */
  function AfterSweeps(outbox: seq<Row>, turns: map<nat, map<nat, nat>>, ask: Row -> Answer, r: Row): Row {
    if r.org in turns then AfterSweep(outbox, r.org, turns[r.org], ask, r) else r
  }

  ghost predicate AllSweptTo(outbox: seq<Row>, after: seq<Row>, turns: map<nat, map<nat, nat>>, ask: Row -> Answer) {
    && |after| == |outbox|
    && (forall org :: org in turns ==> TurnEnds(outbox, org, turns[org]))
    && forall i :: 0 <= i < |outbox| ==> after[i] == AfterSweeps(outbox, turns, ask, outbox[i])
  }

  lemma SweepsLeaveOrganization(outbox: seq<Row>, mid: seq<Row>, turns: map<nat, map<nat, nat>>, org: nat, ask: Row -> Answer)
    requires AllSweptTo(outbox, mid, turns, ask) && org !in turns
    ensures SweepPage(mid, org) == SweepPage(outbox, org)
    ensures forall run :: Pending(mid, org, run) == Pending(outbox, org, run)
  {
    forall i | 0 <= i < |outbox| ensures SameFor(outbox[i], mid[i], org) {
      assert mid[i] == AfterSweeps(outbox, turns, ask, outbox[i]);
    }
    SameOrganizationSamePage(outbox, mid, org);
    forall run ensures Pending(mid, org, run) == Pending(outbox, org, run) {
      forall i | 0 <= i < |outbox| ensures SameIn(outbox[i], mid[i], org, run) {
        assert SameFor(outbox[i], mid[i], org);
      }
      SameRunSamePage(outbox, mid, org, run);
    }
  }

  lemma OrganizationOneMore(outbox: seq<Row>, mid: seq<Row>, after: seq<Row>, turns: map<nat, map<nat, nat>>, org: nat,
                            flushed: map<nat, nat>, ask: Row -> Answer)
    requires AllSweptTo(outbox, mid, turns, ask) && org !in turns
    requires SweptTo(mid, after, org, flushed, ask) && TurnEnds(mid, org, flushed)
    ensures AllSweptTo(outbox, after, turns[org := flushed], ask)
  {
    SweepsLeaveOrganization(outbox, mid, turns, org, ask);
    SameTurnEnds(outbox, mid, org, flushed);
    forall i | 0 <= i < |outbox| ensures after[i] == AfterSweeps(outbox, turns[org := flushed], ask, outbox[i]) {
      assert mid[i] == AfterSweeps(outbox, turns, ask, outbox[i]);
      SameSweep(outbox, mid, org, flushed, ask, mid[i]);
      RowAfterTurn(outbox, turns, org, flushed, ask, outbox[i]);
    }
  }

  lemma RowAfterTurn(outbox: seq<Row>, turns: map<nat, map<nat, nat>>, org: nat, flushed: map<nat, nat>, ask: Row -> Answer, r: Row)
    requires org !in turns
    ensures AfterSweep(outbox, org, flushed, ask, AfterSweeps(outbox, turns, ask, r))
         == AfterSweeps(outbox, turns[org := flushed], ask, r)
  {
  }

  lemma SameTurnEnds(outbox: seq<Row>, mid: seq<Row>, org: nat, flushed: map<nat, nat>)
    requires SweepPage(mid, org) == SweepPage(outbox, org) && TurnEnds(mid, org, flushed)
    requires forall run :: Pending(mid, org, run) == Pending(outbox, org, run)
    ensures TurnEnds(outbox, org, flushed)
  {
    SameThrough(outbox, mid, org, flushed);
    if last :| CutShortBy(mid, org, flushed, last) {
      SameThrough(outbox, mid, org, flushed - {last});
      assert Pending(mid, org, last) == Pending(outbox, org, last);
      assert CutShortBy(outbox, org, flushed, last);
    }
  }

  lemma SameThrough(outbox: seq<Row>, mid: seq<Row>, org: nat, flushed: map<nat, nat>)
    requires forall run :: Pending(mid, org, run) == Pending(outbox, org, run)
    ensures AllThrough(outbox, org, flushed) <==> AllThrough(mid, org, flushed)
  {
    forall run | run in flushed ensures Through(outbox, org, run, flushed[run]) <==> Through(mid, org, run, flushed[run]) {
      assert Pending(mid, org, run) == Pending(outbox, org, run);
    }
  }

  lemma SameSweep(outbox: seq<Row>, mid: seq<Row>, org: nat, flushed: map<nat, nat>, ask: Row -> Answer, r: Row)
    requires forall run :: Pending(mid, org, run) == Pending(outbox, org, run)
    ensures AfterSweep(mid, org, flushed, ask, r) == AfterSweep(outbox, org, flushed, ask, r)
  {
    assert Pending(mid, org, r.run) == Pending(outbox, org, r.run);
  }

  /** One run of the machine after another. */
  lemma {:induction false} ReplayJoin(s: State, a: seq<Step>, b: seq<Step>)
    requires Replay(s, a).Some? && Replay(Replay(s, a).value, b).Some?
    ensures Replay(s, a + b) == Replay(Replay(s, a).value, b)
    decreases |b|
  {
    if b == [] {
      assert a + b == a;
    } else {
      ReplayJoin(s, a, b[..|b| - 1]);
      assert (a + b)[..|a + b| - 1] == a + b[..|b| - 1];
    }
  }

  /** The stores between flushes. */
  ghost function Stores(outbox: seq<Row>, ledger: seq<LedgerRow>): State {
    State(outbox, ledger, map[])
  }

  /** The state machine gets from one pair of stores to another. */
  ghost predicate Leads(outbox: seq<Row>, ledger: seq<LedgerRow>, after: seq<Row>, grown: seq<LedgerRow>) {
    exists steps :: Replay(Stores(outbox, ledger), steps) == Some(Stores(after, grown))
  }

  lemma LeadsOn(a: seq<Row>, al: seq<LedgerRow>, b: seq<Row>, bl: seq<LedgerRow>, c: seq<Row>, cl: seq<LedgerRow>)
    requires Leads(a, al, b, bl) && Leads(b, bl, c, cl)
    ensures Leads(a, al, c, cl)
  {
    var first :| Replay(Stores(a, al), first) == Some(Stores(b, bl));
    var second :| Replay(Stores(b, bl), second) == Some(Stores(c, cl));
    ReplayJoin(Stores(a, al), first, second);
  }

  lemma LeadsKeeps(outbox: seq<Row>, ledger: seq<LedgerRow>, after: seq<Row>, grown: seq<LedgerRow>)
    requires TableInv(outbox) && LedgerInv(outbox, ledger) && Leads(outbox, ledger, after, grown)
    ensures TableInv(after) && LedgerInv(after, grown) && ledger <= grown
  {
    var steps :| Replay(Stores(outbox, ledger), steps) == Some(Stores(after, grown));
    ReplayKeepsInv(Stores(outbox, ledger), steps);
  }

  lemma LeadsNowhere(outbox: seq<Row>, ledger: seq<LedgerRow>)
    ensures Leads(outbox, ledger, outbox, ledger)
  {
    assert Replay(Stores(outbox, ledger), []) == Some(Stores(outbox, ledger));
  }

  /** The ledger after a flush that got through so many records: the append before a commit that failed may have
      landed too. */
  function LandedBy(ledger: seq<LedgerRow>, seen: seq<Row>, answers: seq<Answer>, count: nat): seq<LedgerRow>
    requires |seen| == |answers|
  {
    Landed(ledger, seen, answers, if count < |seen| then count + 1 else |seen|)
  }

  /** A flush, broken off or not, is a run of the state machine. */
  lemma {:induction false} FlushIsARun(outbox: seq<Row>, ledger: seq<LedgerRow>, org: nat, run: nat, answers: seq<Answer>, count: nat)
    requires |Pending(outbox, org, run)| == |answers| && forall a :: a in answers ==> Honest(a)
    ensures var seen := Pending(outbox, org, run);
      Leads(outbox, ledger, Tried(outbox, seen, answers, |Reached(outbox, org, run, count)|), LandedBy(ledger, seen, answers, count))
  {
    var seen, done := Pending(outbox, org, run), |Reached(outbox, org, run, count)|;
    var steps := TryingIsARun(outbox, ledger, org, run, answers, done);
    if done == |seen| {
      WholeFlush(outbox, ledger, seen, answers, steps);
    } else {
      assert answers[done] in answers;
      BrokenFlush(outbox, ledger, seen, answers, done, steps);
    }
  }

  lemma {:induction false} WholeFlush(outbox: seq<Row>, ledger: seq<LedgerRow>, seen: seq<Row>, answers: seq<Answer>, steps: seq<Step>)
    requires |seen| == |answers|
    requires Replay(Stores(outbox, ledger), steps) == Some(TriedWorld(outbox, ledger, seen, answers, |seen|))
    ensures Leads(outbox, ledger, Tried(outbox, seen, answers, |seen|), Landed(ledger, seen, answers, |seen|))
  {
    var start, after := Stores(outbox, ledger), Stores(Tried(outbox, seen, answers, |seen|), Landed(ledger, seen, answers, |seen|));
    ReplayOneMore(start, steps, Crash(0));
    CrashEnds(TriedWorld(outbox, ledger, seen, answers, |seen|));
    assert Replay(start, steps + [Crash(0)]) == Some(after);
  }

  /** A flush whose k-th commit fails breaks off with the append made. */
  lemma {:induction false} BrokenFlush(outbox: seq<Row>, ledger: seq<LedgerRow>, seen: seq<Row>, answers: seq<Answer>, k: nat, steps: seq<Step>)
    requires k < |seen| == |answers| && Honest(answers[k])
    requires Replay(Stores(outbox, ledger), steps) == Some(TriedWorld(outbox, ledger, seen, answers, k))
    ensures Leads(outbox, ledger, Tried(outbox, seen, answers, k), Landed(ledger, seen, answers, k + 1))
  {
    var start, tried := Stores(outbox, ledger), TriedWorld(outbox, ledger, seen, answers, k);
    var append := Append(0, answers[k].landed, answers[k].raised);
    ReplayOneMore(start, steps, append);
    AppendedWorld(outbox, ledger, seen, answers, k);
    var all := steps + [append];
    ReplayOneMore(start, all, Crash(0));
    assert Replay(start, all + [Crash(0)]) == Some(Next(Next(tried, append), Crash(0)));
  }

  lemma {:induction false} CrashEnds(s: State)
    requires s.flushes.Keys == {0}
    ensures Next(s, Crash(0)) == Stores(s.outbox, s.ledger)
  {
    assert s.flushes - {0} == map[];
  }

  lemma {:induction false} AppendedWorld(outbox: seq<Row>, ledger: seq<LedgerRow>, seen: seq<Row>, answers: seq<Answer>, k: nat)
    requires k < |seen| == |answers| && Honest(answers[k])
    ensures var append := Append(0, answers[k].landed, answers[k].raised);
      Next(Next(TriedWorld(outbox, ledger, seen, answers, k), append), Crash(0))
      == Stores(Tried(outbox, seen, answers, k), Landed(ledger, seen, answers, k + 1))
  {
    var append := Append(0, answers[k].landed, answers[k].raised);
    CrashEnds(Next(TriedWorld(outbox, ledger, seen, answers, k), append));
  }

  /** A turn under way: what the runs flushed so far made of the stores it began with. */
  ghost predicate Underway(from: seq<Row>, fromLedger: seq<LedgerRow>, outbox: seq<Row>, ledger: seq<LedgerRow>,
                           org: nat, flushed: map<nat, nat>, ask: Row -> Answer) {
    TableInv(from) && SweptTo(from, outbox, org, flushed, ask) && Leads(from, fromLedger, outbox, ledger)
  }

  lemma UnderwayOn(from: seq<Row>, fromLedger: seq<LedgerRow>, mid: seq<Row>, midLedger: seq<LedgerRow>,
                   outbox: seq<Row>, ledger: seq<LedgerRow>, org: nat, flushed: map<nat, nat>, run: nat, count: nat, ask: Row -> Answer)
    requires Underway(from, fromLedger, mid, midLedger, org, flushed, ask) && TableInv(mid) && run !in flushed
    requires Leads(mid, midLedger, outbox, ledger)
    requires var seen := Pending(mid, org, run); outbox == Tried(mid, seen, AnswersTo(seen, ask), |Reached(mid, org, run, count)|)
    ensures Underway(from, fromLedger, outbox, ledger, org, flushed[run := count], ask)
    ensures Pending(mid, org, run) == Pending(from, org, run)
  {
    SweepLeavesRun(from, mid, org, flushed, run, ask);
    SweepOneMore(from, mid, outbox, org, flushed, run, count, ask);
    LeadsOn(from, fromLedger, mid, midLedger, outbox, ledger);
  }

  class AuditDeliveryCoordinator {
    var outbox: seq<Row>
    var ledger: seq<LedgerRow>
    var activeOrganizations: set<nat>

    ghost predicate Valid()
      reads this
    {
      TableInv(outbox) && LedgerInv(outbox, ledger)
    }

    /** Delivers the pending page of one run. Every record on it is tried, whatever became of the ones before,
        unless a commit fails: then the flush breaks off, having got through `count` records. It is a run of the
        state machine. */
    method DeliverPending(org: nat, run: nat, answers: seq<Answer>, count: nat) returns (delivered: Option<bool>)
      requires Valid()
      requires |answers| == |Pending(outbox, org, run)| && forall a :: a in answers ==> Honest(a)
      modifies this
      ensures Valid()
      ensures activeOrganizations == old(activeOrganizations) + {org}
      ensures var seen := Pending(old(outbox), org, run);
        && outbox == Tried(old(outbox), seen, answers, |Reached(old(outbox), org, run, count)|)
        && ledger == LandedBy(old(ledger), seen, answers, count)
        && delivered == if count < |seen| then None else Some(NoneRaised(answers, |seen|))
      ensures Leads(old(outbox), old(ledger), outbox, ledger)
    {
      FlushIsARun(outbox, ledger, org, run, answers, count);
      delivered := Deliver(org, run, answers, count);
      LeadsKeeps(old(outbox), old(ledger), outbox, ledger);
    }

    /** The flush itself. */
    method Deliver(org: nat, run: nat, answers: seq<Answer>, count: nat) returns (delivered: Option<bool>)
      requires |answers| == |Pending(outbox, org, run)|
      modifies this
      ensures activeOrganizations == old(activeOrganizations) + {org}
      ensures var seen := Pending(old(outbox), org, run);
        && outbox == Tried(old(outbox), seen, answers, |Reached(old(outbox), org, run, count)|)
        && ledger == LandedBy(old(ledger), seen, answers, count)
        && delivered == if count < |seen| then None else Some(NoneRaised(answers, |seen|))
    {
      activeOrganizations := activeOrganizations + {org};
      var pending := Pending(outbox, org, run);
      var all := true;
      for k := 0 to |pending|
        invariant k <= count
        invariant outbox == Tried(old(outbox), pending, answers, k)
        invariant ledger == Landed(old(ledger), pending, answers, k)
        invariant all <==> NoneRaised(answers, k)
        invariant activeOrganizations == old(activeOrganizations) + {org}
      {
        var record, answer := pending[k], answers[k];
        if answer.landed {
          ledger := ledger + [EntryOf(record)];
        }
        if k == count {
          return None;
        }
        all := all && !answer.raised;
        outbox := Mark(outbox, record.org, record.id, !answer.raised);
      }
      return Some(all);
    }

    /** A flush with a ledger that answers by the row. */
    method FlushRun(org: nat, run: nat, count: nat, ask: Row -> Answer) returns (through: bool)
      requires Valid() && forall r :: Honest(ask(r))
      modifies this
      ensures Valid() && Leads(old(outbox), old(ledger), outbox, ledger)
      ensures through <==> count >= |Pending(old(outbox), org, run)|
      ensures var seen := Pending(old(outbox), org, run);
        outbox == Tried(old(outbox), seen, AnswersTo(seen, ask), |Reached(old(outbox), org, run, count)|)
    {
      var delivered := DeliverPending(org, run, AnswersTo(Pending(outbox, org, run), ask), count);
      through := delivered.Some?;
    }

    /** One organization's turn in the sweep: each run with a row on the page is flushed, until a flush breaks
        off. The ledger answers by the row; `count` says how many records each flush gets through. */
    method SweepOrganization(org: nat, count: nat -> nat, ask: Row -> Answer) returns (ghost flushed: map<nat, nat>)
      requires Valid() && forall r :: Honest(ask(r))
      modifies this
      ensures Valid() && Leads(old(outbox), old(ledger), outbox, ledger)
      ensures TurnEnds(old(outbox), org, flushed) && forall run :: run in flushed ==> flushed[run] == count(run)
      ensures SweptTo(old(outbox), outbox, org, flushed, ask)
    {
      var runs := RunsIn(SweepPage(outbox, org));
      var rest := runs;
      flushed := map[];
      LeadsNowhere(outbox, ledger);
      while rest != {}
        invariant Valid() && rest <= runs && flushed.Keys == runs - rest
        invariant forall run :: run in flushed ==> flushed[run] == count(run)
        invariant AllThrough(old(outbox), org, flushed)
        invariant Underway(old(outbox), old(ledger), outbox, ledger, org, flushed, ask)
      {
        var run :| run in rest;
        var through := SweepRun(org, run, count(run), ask, old(outbox), old(ledger), flushed);
        flushed := flushed[run := count(run)];
        rest := rest - {run};
        if !through {
          return;
        }
      }
    }

    /** One more run of a turn under way. */
    method SweepRun(org: nat, run: nat, count: nat, ask: Row -> Answer,
                    ghost from: seq<Row>, ghost fromLedger: seq<LedgerRow>, ghost flushed: map<nat, nat>) returns (through: bool)
      requires Valid() && (forall r :: Honest(ask(r))) && run !in flushed
      requires Underway(from, fromLedger, outbox, ledger, org, flushed, ask) && AllThrough(from, org, flushed)
      modifies this
      ensures Valid() && Underway(from, fromLedger, outbox, ledger, org, flushed[run := count], ask)
      ensures if through then AllThrough(from, org, flushed[run := count]) else CutShortBy(from, org, flushed[run := count], run)
    {
      through := FlushRun(org, run, count, ask);
      UnderwayOn(from, fromLedger, old(outbox), old(ledger), outbox, ledger, org, flushed, run, count, ask);
      ThroughOnceMore(from, org, flushed, run, count);
    }

    /** One round of the retry loop: the organizations seen so far and those the database knows, but for
        those whose rows cannot be read this time. A flush that breaks off ends its own organization's turn. */
    method Sweep(bound: set<nat>, unreadable: set<nat>, count: (nat, nat) -> nat, ask: Row -> Answer)
      returns (ghost turns: map<nat, map<nat, nat>>)
      requires Valid() && forall r :: Honest(ask(r))
      modifies this
      ensures Valid() && Leads(old(outbox), old(ledger), outbox, ledger)
      ensures turns.Keys == old(activeOrganizations) + bound - unreadable
      ensures forall org, run :: org in turns && run in turns[org] ==> turns[org][run] == count(org, run)
      ensures AllSweptTo(old(outbox), outbox, turns, ask)
    {
      var orgs := activeOrganizations + bound - unreadable;
      var rest := orgs;
      turns := map[];
      LeadsNowhere(outbox, ledger);
      while rest != {}
        invariant Valid() && Leads(old(outbox), old(ledger), outbox, ledger)
        invariant rest <= orgs && turns.Keys == orgs - rest
        invariant forall org, run :: org in turns && run in turns[org] ==> turns[org][run] == count(org, run)
        invariant AllSweptTo(old(outbox), outbox, turns, ask)
      {
        var org :| org in rest;
        ghost var before, mid := outbox, ledger;
        ghost var flushed := SweepOrganization(org, run => count(org, run), ask);
        OrganizationOneMore(old(outbox), before, outbox, turns, org, flushed, ask);
        LeadsOn(old(outbox), old(ledger), before, mid, outbox, ledger);
        turns := turns[org := flushed];
        rest := rest - {org};
      }
    }
  }

  /** The events of an organization that wait. */
  function WaitingIds(outbox: seq<Row>, org: nat): set<nat> {
    set r | r in outbox && Waits(r, org) :: r.id
  }

  lemma SmallBacklogIsPage(outbox: seq<Row>, org: nat, r: Row)
    requires r in outbox && Waits(r, org) && TableInv(outbox) && |WaitingIds(outbox, org)| <= PAGE
    ensures r in SweepPage(outbox, org)
  {
    var earlier := EarlierIds(outbox, org, r);
    if r.id in earlier {
      var q :| q in outbox && Waits(q, org) && Earlier(q, r) && q.id == r.id;
      SameIdSameRow(outbox, q, r);
    }
    assert r.id in WaitingIds(outbox, org);
    SubsetSize(earlier, WaitingIds(outbox, org) - {r.id});
  }

  /** A round of the retry loop tries every row of the page of every organization in whose turn no flush breaks
      off, marking it by its own answer whatever became of the others and of the other organizations; when
      nothing raises either, it delivers all of such an organization whose backlog is no larger than a page. It
      leaves alone what is dispatched or not of the organizations it reads. */
  lemma SweepTriesItsPages(outbox: seq<Row>, after: seq<Row>, turns: map<nat, map<nat, nat>>, ask: Row -> Answer, i: nat)
    requires TableInv(outbox) && AllSweptTo(outbox, after, turns, ask) && i < |outbox|
    ensures var r := outbox[i];
      && (r.org !in turns || r.dispatched ==> after[i] == r)
      && (r.org in turns && AllThrough(outbox, r.org, turns[r.org]) ==>
            && (r in SweepPage(outbox, r.org) ==>
                  after[i] == if ask(r).raised then r.(attempts := r.attempts + 1) else r.(dispatched := true))
            && (|WaitingIds(outbox, r.org)| <= PAGE && (forall q :: !ask(q).raised) ==> after[i].dispatched))
  {
    var r := outbox[i];
    assert r in outbox;
    if r.org in turns {
      if r.run in turns[r.org] {
        ReachedFrom(outbox, r.org, r.run, turns[r.org][r.run]);
      }
      if AllThrough(outbox, r.org, turns[r.org]) {
        SweptWhenNoneBreaks(outbox, r.org, turns[r.org], r);
        if !r.dispatched && |WaitingIds(outbox, r.org)| <= PAGE {
          SmallBacklogIsPage(outbox, r.org, r);
        }
      }
    }
  }

  lemma SweptWhenNoneBreaks(outbox: seq<Row>, org: nat, flushed: map<nat, nat>, r: Row)
    requires TableInv(outbox) && TurnEnds(outbox, org, flushed) && AllThrough(outbox, org, flushed)
    ensures r in SweepPage(outbox, org) ==> InSweep(outbox, org, flushed, r)
  {
    if r in SweepPage(outbox, org) {
      SweptRowIsPending(outbox, org, r);
      assert r.run in RunsIn(SweepPage(outbox, org));
      assert Through(outbox, org, r.run, flushed[r.run]);
    }
  }

  // ---- What the sweep's page hides

  /** Every run on the page, flushed in full. */
  function InFull(outbox: seq<Row>, org: nat): map<nat, nat> {
    map run | run in RunsIn(SweepPage(outbox, org)) :: PAGE
  }

  /** One organization's turn in which no flush breaks off, as a function of the table. */
  function SweepOnce(outbox: seq<Row>, org: nat, ask: Row -> Answer): seq<Row> {
    seq(|outbox|, i requires 0 <= i < |outbox| => AfterSweep(outbox, org, InFull(outbox, org), ask, outbox[i]))
  }

  /** Such a turn is what the sweep makes. */
  lemma TurnIsSweepOnce(outbox: seq<Row>, after: seq<Row>, org: nat, flushed: map<nat, nat>, ask: Row -> Answer)
    requires SweptTo(outbox, after, org, flushed, ask) && TurnEnds(outbox, org, flushed) && AllThrough(outbox, org, flushed)
    ensures after == SweepOnce(outbox, org, ask)
  {
    var once := SweepOnce(outbox, org, ask);
    forall i | 0 <= i < |outbox| ensures after[i] == once[i] {
      FullySwept(outbox, org, flushed, ask, outbox[i]);
    }
  }

  lemma FullySwept(outbox: seq<Row>, org: nat, flushed: map<nat, nat>, ask: Row -> Answer, r: Row)
    requires TurnEnds(outbox, org, flushed) && AllThrough(outbox, org, flushed)
    ensures AfterSweep(outbox, org, flushed, ask, r) == AfterSweep(outbox, org, InFull(outbox, org), ask, r)
  {
  }

  function AfterTurns(outbox: seq<Row>, org: nat, ask: Row -> Answer, n: nat): seq<Row>
    decreases n
  {
    if n == 0 then outbox else AfterTurns(SweepOnce(outbox, org, ask), org, ask, n - 1)
  }

  /** Every event on the page is one the ledger refuses. */
  ghost predicate PageRefused(outbox: seq<Row>, org: nat, refuses: nat -> bool) {
    forall r :: r in SweepPage(outbox, org) ==> refuses(r.id)
  }

  /** Delivered by this turn: waiting before, dispatched after. */
  predicate Went(outbox: seq<Row>, after: seq<Row>, org: nat, i: int) {
    0 <= i < |outbox| == |after| && Waits(outbox[i], org) && after[i].dispatched
  }

  /** What goes from behind a refused page has a page of waiting events before it. */
  lemma WentFromBehind(outbox: seq<Row>, org: nat, ask: Row -> Answer, refuses: nat -> bool, i: nat)
    requires ByEvent(ask, refuses) && PageRefused(outbox, org, refuses) && Went(outbox, SweepOnce(outbox, org, ask), org, i)
    ensures |EarlierIds(outbox, org, outbox[i])| >= PAGE
  {
    assert outbox[i] in outbox;
    assert !refuses(outbox[i].id);
  }

  /** The first of the events that went. */
  lemma {:induction false} FirstGone(outbox: seq<Row>, after: seq<Row>, org: nat, i: nat) returns (f: nat)
    requires TableInv(outbox) && Went(outbox, after, org, i)
    ensures Went(outbox, after, org, f) && (f == i || Earlier(outbox[f], outbox[i]))
    ensures forall j :: Went(outbox, after, org, j) ==> !Earlier(outbox[j], outbox[f])
    decreases |EarlierIds(outbox, org, outbox[i])|
  {
    if j :| Went(outbox, after, org, j) && Earlier(outbox[j], outbox[i]) {
      EarlierHasFewer(outbox, org, outbox[j], outbox[i]);
      f := FirstGone(outbox, after, org, j);
    } else {
      f := i;
    }
  }

  lemma EarlierHasFewer(outbox: seq<Row>, org: nat, q: Row, r: Row)
    requires TableInv(outbox) && q in outbox && r in outbox && Waits(q, org) && Earlier(q, r)
    ensures |EarlierIds(outbox, org, q)| < |EarlierIds(outbox, org, r)|
  {
    var a, b := EarlierIds(outbox, org, q), EarlierIds(outbox, org, r);
    if q.id in a {
      var p :| p in outbox && Waits(p, org) && Earlier(p, q) && p.id == q.id;
      SameIdSameRow(outbox, p, q);
    }
    assert q.id in b;
    SubsetSize(a, b - {q.id});
  }

  /** A row that waits through a turn has the same events before it, but for those that went. */
  lemma EarlierAfterTurn(outbox: seq<Row>, org: nat, ask: Row -> Answer, i: nat, j: nat)
    requires i < |outbox| && j < |outbox| && Waits(outbox[j], org) && Earlier(outbox[j], outbox[i])
    requires !Went(outbox, SweepOnce(outbox, org, ask), org, j)
    ensures outbox[j].id in EarlierIds(SweepOnce(outbox, org, ask), org, SweepOnce(outbox, org, ask)[i])
  {
    var after := SweepOnce(outbox, org, ask);
    assert after[j] in after && Waits(after[j], org) && Earlier(after[j], after[i]);
  }

  lemma TurnKeepsOnPage(outbox: seq<Row>, org: nat, ask: Row -> Answer, refuses: nat -> bool, i: nat)
    requires ByEvent(ask, refuses) && i < |outbox|
    requires outbox[i] in SweepPage(outbox, org) && refuses(outbox[i].id)
    ensures SweepOnce(outbox, org, ask)[i] in SweepPage(SweepOnce(outbox, org, ask), org)
  {
    var after := SweepOnce(outbox, org, ask);
    SubsetSize(EarlierIds(after, org, after[i]), EarlierIds(outbox, org, outbox[i]));
  }

  lemma TurnLetsNoneUp(outbox: seq<Row>, org: nat, ask: Row -> Answer, refuses: nat -> bool, i: nat)
    requires TableInv(outbox) && ByEvent(ask, refuses) && PageRefused(outbox, org, refuses) && i < |outbox|
    requires SweepOnce(outbox, org, ask)[i] in SweepPage(SweepOnce(outbox, org, ask), org)
    ensures outbox[i] in SweepPage(outbox, org)
  {
    var after := SweepOnce(outbox, org, ask);
    if j :| Went(outbox, after, org, j) && Earlier(outbox[j], outbox[i]) {
      var first := FirstGone(outbox, after, org, j);
      WentFromBehind(outbox, org, ask, refuses, first);
      EarlierStay(outbox, org, ask, first, i);
    } else {
      EarlierStay(outbox, org, ask, i, i);
    }
  }

  /** Where nothing before a row went, at least as much stands before it, and before all behind it. */
  lemma EarlierStay(outbox: seq<Row>, org: nat, ask: Row -> Answer, top: nat, i: nat)
    requires top < |outbox| && i < |outbox| && (top == i || Earlier(outbox[top], outbox[i]))
    requires forall j :: Went(outbox, SweepOnce(outbox, org, ask), org, j) ==> !Earlier(outbox[j], outbox[top])
    ensures var after := SweepOnce(outbox, org, ask);
      |EarlierIds(outbox, org, outbox[top])| <= |EarlierIds(after, org, after[i])|
  {
    var after := SweepOnce(outbox, org, ask);
    forall id | id in EarlierIds(outbox, org, outbox[top]) ensures id in EarlierIds(after, org, after[i]) {
      var q :| q in outbox && Waits(q, org) && Earlier(q, outbox[top]) && q.id == id;
      var j :| 0 <= j < |outbox| && outbox[j] == q;
      EarlierAfterTurn(outbox, org, ask, i, j);
    }
    SubsetSize(EarlierIds(outbox, org, outbox[top]), EarlierIds(after, org, after[i]));
  }

  /** The same places are on the page, and so the same runs. */
  ghost predicate SamePage(outbox: seq<Row>, after: seq<Row>, org: nat) {
    && SameEntries(outbox, after)
    && forall i :: 0 <= i < |outbox| ==> (outbox[i] in SweepPage(outbox, org) <==> after[i] in SweepPage(after, org))
  }

  lemma TurnKeepsPage(outbox: seq<Row>, org: nat, ask: Row -> Answer, refuses: nat -> bool)
    requires TableInv(outbox) && ByEvent(ask, refuses) && PageRefused(outbox, org, refuses)
    ensures SamePage(outbox, SweepOnce(outbox, org, ask), org)
  {
    var after := SweepOnce(outbox, org, ask);
    forall i | 0 <= i < |outbox| ensures outbox[i] in SweepPage(outbox, org) <==> after[i] in SweepPage(after, org) {
      if outbox[i] in SweepPage(outbox, org) {
        TurnKeepsOnPage(outbox, org, ask, refuses, i);
      }
      if after[i] in SweepPage(after, org) {
        TurnLetsNoneUp(outbox, org, ask, refuses, i);
      }
    }
  }

  /** While everything on an organization's page is refused, no turn sees another page, and the runs that have no
      event on it are not touched by any. */
  lemma {:induction false} RefusedPageHides(outbox: seq<Row>, org: nat, ask: Row -> Answer, refuses: nat -> bool, n: nat)
    requires TableInv(outbox) && ByEvent(ask, refuses) && PageRefused(outbox, org, refuses)
    ensures SamePage(outbox, AfterTurns(outbox, org, ask, n), org)
    ensures forall i :: 0 <= i < |outbox| && outbox[i].run !in RunsIn(SweepPage(outbox, org)) ==>
      AfterTurns(outbox, org, ask, n)[i] == outbox[i]
    decreases n
  {
    if n > 0 {
      var next := SweepOnce(outbox, org, ask);
      TurnKeepsPage(outbox, org, ask, refuses);
      RefusedPageHides(next, org, ask, refuses, n - 1);
      SameEntriesTwice(outbox, next, AfterTurns(next, org, ask, n - 1));
      assert forall i :: 0 <= i < |outbox| ==> EntryOf(next[i]) == EntryOf(outbox[i]) && next[i].run == outbox[i].run;
    }
  }

  /** The sweep's page is one for the whole organization: it stays what it is exactly when the ledger refuses
      all that is on it. A run with enough refused events then hides every other from the sweep, which only the
      flushes made for those runs themselves can reach. */
  lemma PageStaysIff(outbox: seq<Row>, org: nat, ask: Row -> Answer, refuses: nat -> bool)
    requires TableInv(outbox) && ByEvent(ask, refuses)
    ensures AlwaysSamePage(outbox, org, ask) <==> PageRefused(outbox, org, refuses)
  {
    if PageRefused(outbox, org, refuses) {
      forall n: nat ensures SamePage(outbox, AfterTurns(outbox, org, ask, n), org) {
        RefusedPageHides(outbox, org, ask, refuses, n);
      }
    }
    if AlwaysSamePage(outbox, org, ask) {
      var next := SweepOnce(outbox, org, ask);
      assert AfterTurns(next, org, ask, 0) == next;
      assert SamePage(outbox, AfterTurns(outbox, org, ask, 1), org);
      forall r | r in SweepPage(outbox, org) ensures refuses(r.id) {
        OnPageAgainIsRefused(outbox, org, ask, r);
      }
    }
  }

  ghost predicate AlwaysSamePage(outbox: seq<Row>, org: nat, ask: Row -> Answer) {
    forall n: nat :: SamePage(outbox, AfterTurns(outbox, org, ask, n), org)
  }

  lemma OnPageAgainIsRefused(outbox: seq<Row>, org: nat, ask: Row -> Answer, r: Row)
    requires TableInv(outbox) && SamePage(outbox, SweepOnce(outbox, org, ask), org) && r in SweepPage(outbox, org)
    ensures ask(r).raised
  {
    var next := SweepOnce(outbox, org, ask);
    var i :| 0 <= i < |outbox| && outbox[i] == r;
    InFullTries(outbox, org, r);
    assert next[i] == Marked(r, r.org, r.id, !ask(r).raised);
    assert next[i] in SweepPage(next, org);
  }

  lemma InFullTries(outbox: seq<Row>, org: nat, r: Row)
    requires TableInv(outbox) && r in SweepPage(outbox, org)
    ensures InSweep(outbox, org, InFull(outbox, org), r)
  {
    SweptRowIsPending(outbox, org, r);
    assert r.run in RunsIn(SweepPage(outbox, org));
  }
}
