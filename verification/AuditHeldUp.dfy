/** An outbox whose first page the ledger refuses for good, reached by enqueueing alone, and what is held up
    behind it. */
module AuditHeldUp {
  import opened Wrappers
  import opened AuditOutbox
  import opened AuditFlush
  import opened AuditDelivery

  const EVENT := Payload("event", "running")

  function EventRow(id: nat, run: nat): Row {
    Row(id, 0, run, id, EVENT, 0, false)
  }

  /** Rows 0 to n - 1 of run 0. */
  function Burst(n: nat): (rows: seq<Row>)
    ensures |rows| == n && forall i :: 0 <= i < n ==> rows[i] == EventRow(i, 0)
  {
    seq(n, i requires 0 <= i < n => EventRow(i, 0))
  }

  /** A full page of run 0, and one more event, of this run. */
  function OnePageAndOne(run: nat): seq<Row> {
    Burst(PAGE) + [EventRow(PAGE, run)]
  }

  /** The ledger refuses the page and would take the one behind it. */
  function Refuses(id: nat): bool {
    id < PAGE
  }

  function Ask(r: Row): Answer {
    if Refuses(r.id) then Answer(false, true) else Answer(true, false)
  }

  // ---- The outbox is reachable

  lemma {:induction false} LatestOfBurst(n: nat)
    ensures LatestOf(Burst(n), 0) == if n == 0 then None else Some(n - 1)
  {
    if n > 0 {
      LatestOfBurst(n - 1);
      assert Burst(n)[..n - 1] == Burst(n - 1);
    }
  }

  lemma {:induction false} NoneOfOtherRun(rows: seq<Row>, run: nat)
    requires forall r :: r in rows ==> r.run != run
    ensures LatestOf(rows, run) == None
  {
    if rows != [] {
      NoneOfOtherRun(rows[..|rows| - 1], run);
    }
  }

  lemma OneMoreEnqueued(rows: seq<Row>, run: nat)
    requires Reachable(State(rows, [], map[])) && (forall r :: r in rows ==> r.id != |rows|)
    requires LatestOf(rows, run) == None || LatestOf(rows, run).value < |rows|
    ensures Reachable(State(rows + [EventRow(|rows|, run)], [], map[]))
  {
    var steps :| Replay(INITIAL, steps) == Some(State(rows, [], map[]));
    var enqueue := Enqueue(|rows|, 0, run, |rows|, EVENT);
    ReplayOneMore(INITIAL, steps, enqueue);
    assert Next(State(rows, [], map[]), enqueue) == State(rows + [EventRow(|rows|, run)], [], map[]);
  }

  lemma {:induction false} BurstReachable(n: nat)
    ensures Reachable(State(Burst(n), [], map[]))
  {
    if n == 0 {
      assert Burst(0) == [] && Replay(INITIAL, []) == Some(State(Burst(0), [], map[]));
    } else {
      BurstReachable(n - 1);
      LatestOfBurst(n - 1);
      OneMoreEnqueued(Burst(n - 1), 0);
      assert Burst(n) == Burst(n - 1) + [EventRow(n - 1, 0)];
    }
  }

  lemma OnePageAndOneReachable(run: nat)
    ensures Reachable(State(OnePageAndOne(run), [], map[]))
  {
    BurstReachable(PAGE);
    LatestOfBurst(PAGE);
    if run != 0 {
      NoneOfOtherRun(Burst(PAGE), run);
    }
    OneMoreEnqueued(Burst(PAGE), run);
  }

  // ---- Held up in its own run

  lemma {:induction false} BurstWaits(n: nat)
    ensures OfRun(Burst(n), 0, 0) == Burst(n) && Undispatched(Burst(n)) == Burst(n)
  {
    if n > 0 {
      BurstWaits(n - 1);
      assert Burst(n)[..n - 1] == Burst(n - 1) && Burst(n) == Burst(n - 1) + [EventRow(n - 1, 0)];
    }
  }

  lemma OnePageAndOneWaits()
    ensures var backlog := BacklogOf(OnePageAndOne(0), 0, 0);
      && |backlog| == PAGE + 1 && backlog[PAGE] == PAGE
      && forall i :: 0 <= i < PAGE ==> backlog[i] == i
  {
    BurstWaits(PAGE + 1);
    assert OnePageAndOne(0) == Burst(PAGE + 1);
  }

  /** A reachable outbox in which a whole page is refused, so that an event the ledger would take is delivered by
      no number of flushes of its run. */
  lemma AcceptedEventIsHeldUp()
    ensures Reachable(State(OnePageAndOne(0), [], map[])) && !Refuses(PAGE)
    ensures EventRow(PAGE, 0) in OnePageAndOne(0)
    ensures forall n :: !DispatchedById(AfterFlushes(OnePageAndOne(0), 0, 0, Ask, n), PAGE)
  {
    var outbox := OnePageAndOne(0);
    OnePageAndOneReachable(0);
    ReachableInv(State(outbox, [], map[]));
    OnePageAndOneWaits();
    var page := BacklogOf(outbox, 0, 0)[..PAGE];
    AllRefused(page, Refuses);
    DeliveredInTheEndIff(outbox, 0, 0, Ask, Refuses, PAGE);
    assert outbox[PAGE] == EventRow(PAGE, 0);
  }

  // ---- Hidden from the sweep by another run

  lemma LastIsOffPage()
    ensures forall r :: r in SweepPage(OnePageAndOne(1), 0) ==> r.id < PAGE && r.run == 0
  {
    var outbox, last := OnePageAndOne(1), EventRow(PAGE, 1);
    var ids := IdsOf(Burst(PAGE));
    forall id | id in ids ensures id in EarlierIds(outbox, 0, last) {
      var i :| 0 <= i < PAGE && ids[i] == id;
      assert outbox[i] == EventRow(i, 0) && outbox[i] in outbox;
    }
    IdSetSize(ids, EarlierIds(outbox, 0, last));
    forall r | r in SweepPage(outbox, 0) ensures r.id < PAGE && r.run == 0 {
      var i :| 0 <= i < |outbox| && outbox[i] == r;
    }
  }

  lemma LoneEventWaits()
    ensures BacklogOf(OnePageAndOne(1), 0, 1) == [PAGE]
  {
    var outbox := OnePageAndOne(1);
    NoneOfRun(Burst(PAGE), 0, 1);
    assert outbox[..PAGE] == Burst(PAGE);
    assert OfRun(outbox, 0, 1) == [EventRow(PAGE, 1)];
    assert [EventRow(PAGE, 1)][..0] == [];
  }

  lemma {:induction false} NoneOfRun(rows: seq<Row>, org: nat, run: nat)
    requires forall r :: r in rows ==> r.run != run
    ensures OfRun(rows, org, run) == []
  {
    if rows != [] {
      NoneOfRun(rows[..|rows| - 1], org, run);
    }
  }

  /** A reachable outbox in which one run's refused page hides another run from the sweep: no number of sweeps
      touches its only event, though the ledger would take it and a flush made for its run delivers it. */
  lemma AcceptedEventIsHidden()
    ensures Reachable(State(OnePageAndOne(1), [], map[])) && !Refuses(PAGE)
    ensures forall n :: |AfterTurns(OnePageAndOne(1), 0, Ask, n)| == PAGE + 1
                        && AfterTurns(OnePageAndOne(1), 0, Ask, n)[PAGE] == EventRow(PAGE, 1)
    ensures exists n :: DispatchedById(AfterFlushes(OnePageAndOne(1), 0, 1, Ask, n), PAGE)
  {
    var outbox := OnePageAndOne(1);
    OnePageAndOneReachable(1);
    ReachableInv(State(outbox, [], map[]));
    LastIsOffPage();
    forall n ensures |AfterTurns(outbox, 0, Ask, n)| == PAGE + 1 && AfterTurns(outbox, 0, Ask, n)[PAGE] == EventRow(PAGE, 1) {
      RefusedPageHides(outbox, 0, Ask, Refuses, n);
      assert outbox[PAGE] == EventRow(PAGE, 1) && outbox[PAGE].run !in RunsIn(SweepPage(outbox, 0));
    }
    LoneEventWaits();
    DeliveredInTheEndIff(outbox, 0, 1, Ask, Refuses, 0);
  }
}
