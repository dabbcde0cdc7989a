/** The timeline of a run: the ledger's entries and the outbox rows not yet delivered, read as one. */
module AuditTimeline {
  import opened Wrappers
  import opened AuditOutbox
  import opened AuditFlush

  // ---- The timeline

  datatype Delivery = Complete | AwaitingDelivery

  datatype TimelineEntry = TimelineEntry(entryId: nat, createdAt: int, payload: Payload, delivery: Delivery)

  function FromLedger(l: LedgerRow): TimelineEntry {
    TimelineEntry(l.entryId, l.createdAt, l.payload, Complete)
  }

  function FromOutbox(r: Row): TimelineEntry {
    TimelineEntry(r.id, r.createdAt, r.payload, AwaitingDelivery)
  }

  /** The order of a timeline: by instant, then by id. */
  predicate Before(a: TimelineEntry, b: TimelineEntry) {
    a.createdAt < b.createdAt || (a.createdAt == b.createdAt && a.entryId < b.entryId)
  }

  predicate Ordered(s: seq<TimelineEntry>) {
    forall i, j :: 0 <= i < j < |s| ==> Before(s[i], s[j])
  }

  function Insert(e: TimelineEntry, s: seq<TimelineEntry>): seq<TimelineEntry> {
    if s == [] || Before(e, s[0]) then [e] + s else [s[0]] + Insert(e, s[1..])
  }

  lemma {:induction false} InsertKeepsOrder(e: TimelineEntry, s: seq<TimelineEntry>)
    requires Ordered(s) && forall x :: x in s ==> x.entryId != e.entryId
    ensures Ordered(Insert(e, s))
    ensures forall x :: x in Insert(e, s) <==> x == e || x in s
  {
    if s != [] && !Before(e, s[0]) {
      InsertKeepsOrder(e, s[1..]);
      assert s[0] in s && Before(s[0], e);
      forall x | x in Insert(e, s[1..]) ensures Before(s[0], x) {
        if x != e {
          var i :| 0 <= i < |s[1..]| && s[1..][i] == x;
        }
      }
    }
  }

  ghost predicate Named(delivered: seq<LedgerRow>, id: nat) {
    exists l :: l in delivered && l.entryId == id
  }

  /** One entry an id: what the ledger query returned, else what the outbox still holds. */
  ghost predicate Explains(delivered: seq<LedgerRow>, rows: seq<Row>, e: TimelineEntry) {
    if Named(delivered, e.entryId) then exists l :: l in delivered && FromLedger(l) == e
    else exists r :: r in rows && !r.dispatched && FromOutbox(r) == e
  }

  ghost predicate Listed(delivered: seq<LedgerRow>, rows: seq<Row>, id: nat) {
    Named(delivered, id) || exists r :: r in rows && !r.dispatched && r.id == id
  }

  ghost predicate IsTimeline(delivered: seq<LedgerRow>, rows: seq<Row>, timeline: seq<TimelineEntry>) {
    && Ordered(timeline)
    && (forall i, j :: 0 <= i < j < |timeline| ==> timeline[i].entryId != timeline[j].entryId)
    && (forall e :: e in timeline ==> Explains(delivered, rows, e))
    && (forall id :: Listed(delivered, rows, id) ==> exists e :: e in timeline && e.entryId == id)
  }

  method ListTimeline(delivered: seq<LedgerRow>, rows: seq<Row>) returns (timeline: seq<TimelineEntry>)
    ensures IsTimeline(delivered, rows, timeline)
    ensures forall i, j :: 0 <= i < j < |timeline| ==>
      || timeline[i].createdAt < timeline[j].createdAt
      || (timeline[i].createdAt == timeline[j].createdAt && timeline[i].entryId < timeline[j].entryId)
  {
    var entries: map<nat, TimelineEntry> := map[];
    for i := 0 to |delivered|
      invariant forall id :: id in entries <==> exists l :: l in delivered[..i] && l.entryId == id
      invariant forall id :: id in entries ==> entries[id].entryId == id && exists l :: l in delivered && FromLedger(l) == entries[id]
    {
      assert delivered[..i + 1] == delivered[..i] + [delivered[i]];
      entries := entries[delivered[i].entryId := FromLedger(delivered[i])];
    }
    assert delivered[..|delivered|] == delivered;
    assert forall id :: id in entries <==> Named(delivered, id);
    for i := 0 to |rows|
      invariant forall id :: id in entries <==> Named(delivered, id) || exists r :: r in rows[..i] && !r.dispatched && r.id == id
      invariant forall id :: id in entries ==> entries[id].entryId == id && Explains(delivered, rows, entries[id])
    {
      assert rows[..i + 1] == rows[..i] + [rows[i]];
      if rows[i].dispatched {
        continue;
      }
      if rows[i].id !in entries {
        entries := entries[rows[i].id := FromOutbox(rows[i])];
      }
    }
    assert rows[..|rows|] == rows;
    assert forall id :: id in entries <==> Listed(delivered, rows, id);
    timeline := SortedValues(entries);
  }

  /** The values of a dictionary of entries, each under its own id, in timeline order. */
  method SortedValues(entries: map<nat, TimelineEntry>) returns (sorted: seq<TimelineEntry>)
    requires forall id :: id in entries ==> entries[id].entryId == id
    ensures Ordered(sorted)
    ensures forall e :: e in sorted <==> e.entryId in entries && entries[e.entryId] == e
    ensures forall i, j :: 0 <= i < j < |sorted| ==> sorted[i].entryId != sorted[j].entryId
  {
    sorted := [];
    var rest := entries.Keys;
    while rest != {}
      invariant rest <= entries.Keys
      invariant Ordered(sorted)
      invariant forall e :: e in sorted <==> e.entryId in entries.Keys - rest && entries[e.entryId] == e
    {
      var id :| id in rest;
      InsertKeepsOrder(entries[id], sorted);
      sorted := Insert(entries[id], sorted);
      rest := rest - {id};
    }
    forall i, j | 0 <= i < j < |sorted| ensures sorted[i].entryId != sorted[j].entryId {
      assert sorted[i] in sorted && sorted[j] in sorted && Before(sorted[i], sorted[j]);
    }
  }

  // ---- What a reader sees of the two stores

  function LedgerOf(ledger: seq<LedgerRow>, org: nat, run: nat): seq<LedgerRow> {
    if ledger == [] then []
    else
      var rest, l := LedgerOf(ledger[..|ledger| - 1], org, run), ledger[|ledger| - 1];
      if l.org == org && l.run == run then rest + [l] else rest
  }

  lemma {:induction false} LedgerOfFrom(ledger: seq<LedgerRow>, org: nat, run: nat)
    ensures forall l :: l in LedgerOf(ledger, org, run) <==> l in ledger && l.org == org && l.run == run
  {
    if ledger != [] {
      LedgerOfFrom(ledger[..|ledger| - 1], org, run);
      assert ledger == ledger[..|ledger| - 1] + [ledger[|ledger| - 1]];
    }
  }

  /** How an event appears: as the ledger has it when it is there, else as the outbox has it. */
  ghost function EntryFor(r: Row, ledger: seq<LedgerRow>): TimelineEntry {
    if InLedger(ledger, r.id) then FromLedger(EntryOf(r)) else FromOutbox(r)
  }

  /** Ledger rows with one row an id, the first. */
  function FirstById(rows: seq<LedgerRow>): seq<LedgerRow> {
    if rows == [] then []
    else
      var rest, l := FirstById(rows[..|rows| - 1]), rows[|rows| - 1];
      if exists k :: k in rest && k.entryId == l.entryId then rest else rest + [l]
  }

  lemma {:induction false} FirstByIdKeepsIds(rows: seq<LedgerRow>)
    ensures forall l :: l in FirstById(rows) ==> l in rows
    ensures forall l :: l in rows ==> Named(FirstById(rows), l.entryId)
  {
    if rows != [] {
      var front, last := rows[..|rows| - 1], rows[|rows| - 1];
      assert rows == front + [last];
      FirstByIdKeepsIds(front);
      forall l | l in rows ensures Named(FirstById(rows), l.entryId) {
        if l in front {
          var k :| k in FirstById(front) && k.entryId == l.entryId;
          assert k in FirstById(rows);
        }
      }
    }
  }

  /** The first row of its id. */
  ghost predicate FirstOfId(rows: seq<LedgerRow>, l: LedgerRow) {
    exists j :: 0 <= j < |rows| && rows[j] == l && forall h :: 0 <= h < j ==> rows[h].entryId != l.entryId
  }

  lemma {:induction false} FirstByIdIsFirst(rows: seq<LedgerRow>)
    ensures forall l :: l in FirstById(rows) ==> FirstOfId(rows, l)
  {
    if rows != [] {
      var front, last := rows[..|rows| - 1], rows[|rows| - 1];
      FirstByIdIsFirst(front);
      FirstByIdKeepsIds(front);
      forall l | l in FirstById(rows) ensures FirstOfId(rows, l) {
        if l in FirstById(front) {
          var j :| 0 <= j < |front| && front[j] == l && forall h :: 0 <= h < j ==> front[h].entryId != l.entryId;
          assert rows[j] == l && forall h :: 0 <= h < j ==> rows[h] == front[h];
        } else {
          forall h | 0 <= h < |front| ensures rows[h].entryId != l.entryId {
            assert front[h] in front;
          }
          assert rows[|front|] == l;
        }
      }
    }
  }

  ghost predicate OneAnId(rows: seq<LedgerRow>) {
    forall i, j :: 0 <= i < j < |rows| ==> rows[i].entryId != rows[j].entryId
  }

  lemma {:induction false} FirstByIdHasOneEach(rows: seq<LedgerRow>)
    ensures OneAnId(FirstById(rows))
  {
    if rows != [] {
      var rest, l := FirstById(rows[..|rows| - 1]), rows[|rows| - 1];
      FirstByIdHasOneEach(rows[..|rows| - 1]);
      if !exists k :: k in rest && k.entryId == l.entryId {
        forall i | 0 <= i < |rest| ensures rest[i].entryId != l.entryId {
          assert rest[i] in rest;
        }
      }
    }
  }

  /** The order of the ledger's query: by instant, then by id. */
  predicate NotAfter(a: LedgerRow, b: LedgerRow) {
    a.createdAt < b.createdAt || (a.createdAt == b.createdAt && a.entryId <= b.entryId)
  }

  predicate InQueryOrder(rows: seq<LedgerRow>) {
    forall i, j :: 0 <= i < j < |rows| ==> NotAfter(rows[i], rows[j])
  }

  function Place(l: LedgerRow, rows: seq<LedgerRow>): seq<LedgerRow> {
    if rows == [] || NotAfter(l, rows[0]) then [l] + rows else [rows[0]] + Place(l, rows[1..])
  }

  /** What the query returns: the run's rows, repeats and all, in its order. */
  function Queried(ledger: seq<LedgerRow>, org: nat, run: nat): seq<LedgerRow> {
    if ledger == [] then []
    else
      var rest, l := Queried(ledger[..|ledger| - 1], org, run), ledger[|ledger| - 1];
      if l.org == org && l.run == run then Place(l, rest) else rest
  }

  lemma {:induction false} PlaceKeepsOrder(l: LedgerRow, rows: seq<LedgerRow>)
    requires InQueryOrder(rows)
    ensures InQueryOrder(Place(l, rows)) && multiset(Place(l, rows)) == multiset(rows) + multiset{l}
    ensures forall x :: x in Place(l, rows) <==> x == l || x in rows
  {
    if rows != [] && !NotAfter(l, rows[0]) {
      PlaceKeepsOrder(l, rows[1..]);
      assert rows == [rows[0]] + rows[1..];
      forall x | x in Place(l, rows[1..]) ensures NotAfter(rows[0], x) {
        if x in rows[1..] {
          var i :| 0 <= i < |rows[1..]| && rows[1..][i] == x;
        }
      }
    }
  }

  lemma {:induction false} QueriedAreThose(ledger: seq<LedgerRow>, org: nat, run: nat)
    ensures InQueryOrder(Queried(ledger, org, run))
    ensures multiset(Queried(ledger, org, run)) == multiset(LedgerOf(ledger, org, run))
    ensures forall l :: l in Queried(ledger, org, run) <==> l in LedgerOf(ledger, org, run)
  {
    if ledger != [] {
      var rest, l := Queried(ledger[..|ledger| - 1], org, run), ledger[|ledger| - 1];
      QueriedAreThose(ledger[..|ledger| - 1], org, run);
      PlaceKeepsOrder(l, rest);
    }
  }

  lemma {:induction false} FirstByIdInOrder(rows: seq<LedgerRow>)
    requires InQueryOrder(rows)
    ensures InQueryOrder(FirstById(rows))
  {
    if rows != [] {
      var front, last := rows[..|rows| - 1], rows[|rows| - 1];
      FirstByIdInOrder(front);
      FirstByIdKeepsIds(front);
      forall l | l in FirstById(front) ensures NotAfter(l, last) {
        var i :| 0 <= i < |front| && front[i] == l;
        assert rows[i] == l;
      }
    }
  }

  /** Reads a run's rows out of the ledger in the query's order, keeping the first of each id. */
  method ListForAnalysisRun(ledger: seq<LedgerRow>, org: nat, run: nat) returns (rows: seq<LedgerRow>)
    ensures rows == FirstById(Queried(ledger, org, run)) && OneAnId(rows) && InQueryOrder(rows)
    ensures forall id :: Named(rows, id) <==> Named(LedgerOf(ledger, org, run), id)
    ensures forall i, j :: 0 <= i < j < |rows| ==>
      rows[i].createdAt < rows[j].createdAt || (rows[i].createdAt == rows[j].createdAt && rows[i].entryId < rows[j].entryId)
    ensures forall l :: l in rows ==> FirstOfId(Queried(ledger, org, run), l)
  {
    var found := Queried(ledger, org, run);
    var ids: set<nat> := {};
    rows := [];
    for i := 0 to |found|
      invariant rows == FirstById(found[..i])
      invariant forall id :: id in ids <==> exists k :: k in rows && k.entryId == id
    {
      assert found[..i + 1][..i] == found[..i];
      if found[i].entryId !in ids {
        rows := rows + [found[i]];
        ids := ids + {found[i].entryId};
      }
    }
    assert found[..|found|] == found;
    QueriedAreThose(ledger, org, run);
    FirstByIdInOrder(found);
    FirstByIdHasOneEach(found);
    FirstByIdKeepsIds(found);
    FirstByIdIsFirst(found);
  }

  /** A timeline depends on which rows the ledger gave, not on their order or number. */
  lemma SameRowsSameTimeline(delivered: seq<LedgerRow>, given: seq<LedgerRow>, rows: seq<Row>, timeline: seq<TimelineEntry>)
    requires forall l :: l in delivered <==> l in given
    ensures IsTimeline(delivered, rows, timeline) <==> IsTimeline(given, rows, timeline)
  {
    assert forall id :: Named(delivered, id) <==> Named(given, id);
    assert forall e :: Explains(delivered, rows, e) <==> Explains(given, rows, e);
    assert forall id :: Listed(delivered, rows, id) <==> Listed(given, rows, id);
  }

  /** Where rows of one id are one row, as they are in every reachable ledger, the order of the query and
      dropping the repeats change no timeline. */
  lemma RepeatsDoNotShow(ledger: seq<LedgerRow>, org: nat, run: nat, rows: seq<Row>, timeline: seq<TimelineEntry>)
    requires var delivered := LedgerOf(ledger, org, run);
      forall k, l :: k in delivered && l in delivered && k.entryId == l.entryId ==> k == l
    ensures IsTimeline(FirstById(Queried(ledger, org, run)), rows, timeline)
       <==> IsTimeline(LedgerOf(ledger, org, run), rows, timeline)
  {
    var first, delivered := FirstById(Queried(ledger, org, run)), LedgerOf(ledger, org, run);
    QueriedAreThose(ledger, org, run);
    FirstByIdKeepsIds(Queried(ledger, org, run));
    forall l ensures l in first <==> l in delivered {
      if l in delivered {
        var k :| k in first && k.entryId == l.entryId;
      }
    }
    SameRowsSameTimeline(first, delivered, rows, timeline);
  }

  lemma OneLedgerRowAnId(s: State, org: nat, run: nat)
    requires Inv(s)
    ensures forall k, l :: k in LedgerOf(s.ledger, org, run) && l in LedgerOf(s.ledger, org, run) && k.entryId == l.entryId ==> k == l
  {
    LedgerOfFrom(s.ledger, org, run);
    forall k, l | k in s.ledger && l in s.ledger && k.entryId == l.entryId ensures k == l {
      var q := LedgerRowIsRow(s, s, k);
      var r := LedgerRowIsRow(s, s, l);
      SameIdSameRow(s.outbox, q, r);
    }
  }

  /** What the rows of a run show when the ledger was read as `ledger`: each that was in the ledger
      then, or is not dispatched yet, in the order they were enqueued. */
  ghost function Shown(rows: seq<Row>, ledger: seq<LedgerRow>): seq<TimelineEntry> {
    if rows == [] then []
    else
      var rest, r := Shown(rows[..|rows| - 1], ledger), rows[|rows| - 1];
      if InLedger(ledger, r.id) || !r.dispatched then rest + [EntryFor(r, ledger)] else rest
  }

  ghost predicate ShownAs(rows: seq<Row>, ledger: seq<LedgerRow>, e: TimelineEntry) {
    exists r :: r in rows && e == EntryFor(r, ledger) && (InLedger(ledger, r.id) || !r.dispatched)
  }

  lemma {:induction false} ShownFrom(rows: seq<Row>, ledger: seq<LedgerRow>)
    ensures forall e :: e in Shown(rows, ledger) <==> ShownAs(rows, ledger, e)
    decreases |rows|
  {
    if rows != [] {
      var front, last := rows[..|rows| - 1], rows[|rows| - 1];
      assert rows == front + [last];
      ShownFrom(front, ledger);
      forall e ensures e in Shown(rows, ledger) <==> ShownAs(rows, ledger, e) {
        if ShownAs(front, ledger, e) {
          var r :| r in front && e == EntryFor(r, ledger) && (InLedger(ledger, r.id) || !r.dispatched);
          assert r in rows;
        }
      }
    }
  }

  /** Rows whose instants increase are shown in order. */
  lemma {:induction false} ShownInOrder(rows: seq<Row>, ledger: seq<LedgerRow>)
    requires Increasing(rows)
    ensures Ordered(Shown(rows, ledger))
    decreases |rows|
  {
    if rows != [] {
      var front, last := rows[..|rows| - 1], rows[|rows| - 1];
      ShownInOrder(front, ledger);
      ShownFrom(front, ledger);
      forall e | e in Shown(front, ledger) ensures e.createdAt < last.createdAt {
        assert ShownAs(front, ledger, e);
      }
    }
  }

  /** Two ordered sequences with the same elements are the same. */
  lemma {:induction false} OrderedUnique(s: seq<TimelineEntry>, t: seq<TimelineEntry>)
    requires Ordered(s) && Ordered(t) && forall e :: e in s <==> e in t
    ensures s == t
    decreases |s|
  {
    assert s != [] ==> s[0] in s;
    assert t != [] ==> t[0] in t;
    if s != [] {
      assert s[0] == t[0];
      forall e ensures e in s[1..] <==> e in t[1..] {
        OrderedTail(s, e);
        OrderedTail(t, e);
      }
      OrderedUnique(s[1..], t[1..]);
    }
  }

  lemma OrderedTail(s: seq<TimelineEntry>, e: TimelineEntry)
    requires Ordered(s) && s != []
    ensures e in s[1..] <==> e in s && e != s[0]
  {
  }

  /** A ledger row is the outbox row of its id, as the outbox still has it later. */
  lemma LedgerRowIsRow(s: State, t: State, l: LedgerRow) returns (r: Row)
    requires Inv(s) && Inv(t) && Grows(s, t) && l in s.ledger
    ensures r in t.outbox && EntryOf(r) == l
  {
    r :| r in t.outbox && EntryOf(r) == l;
  }

  lemma DeliveredIsRow(s: State, t: State, org: nat, run: nat, l: LedgerRow) returns (r: Row)
    requires Inv(s) && Inv(t) && Grows(s, t) && l in LedgerOf(s.ledger, org, run)
    ensures r in OfRun(t.outbox, org, run) && EntryOf(r) == l && InLedger(s.ledger, r.id)
  {
    LedgerOfFrom(s.ledger, org, run);
    OfRunFrom(t.outbox, org, run);
    r := LedgerRowIsRow(s, t, l);
    assert EntryOf(r).org == org && EntryOf(r).run == run;
  }

  lemma RowIsNamed(s: State, t: State, org: nat, run: nat, r: Row)
    requires Inv(s) && Inv(t) && Grows(s, t) && r in OfRun(t.outbox, org, run)
    ensures Named(LedgerOf(s.ledger, org, run), r.id) <==> InLedger(s.ledger, r.id)
    ensures forall l :: l in LedgerOf(s.ledger, org, run) && l.entryId == r.id ==> l == EntryOf(r)
  {
    LedgerOfFrom(s.ledger, org, run);
    OfRunFrom(t.outbox, org, run);
    forall l | l in s.ledger && l.entryId == r.id ensures l == EntryOf(r) {
      var q := LedgerRowIsRow(s, t, l);
      SameIdSameRow(t.outbox, r, q);
    }
  }

  lemma EntryIsShown(s: State, t: State, org: nat, run: nat, e: TimelineEntry)
    requires Inv(s) && Inv(t) && Grows(s, t)
    requires Explains(LedgerOf(s.ledger, org, run), OfRun(t.outbox, org, run), e)
    ensures ShownAs(OfRun(t.outbox, org, run), s.ledger, e)
  {
    var delivered, rows := LedgerOf(s.ledger, org, run), OfRun(t.outbox, org, run);
    if Named(delivered, e.entryId) {
      var l :| l in delivered && FromLedger(l) == e;
      var r := DeliveredIsRow(s, t, org, run, l);
    } else {
      var r :| r in rows && !r.dispatched && FromOutbox(r) == e;
      RowIsNamed(s, t, org, run, r);
    }
  }

  lemma ShownIsEntry(s: State, t: State, org: nat, run: nat, timeline: seq<TimelineEntry>, e: TimelineEntry)
    requires Inv(s) && Inv(t) && Grows(s, t)
    requires IsTimeline(LedgerOf(s.ledger, org, run), OfRun(t.outbox, org, run), timeline)
    requires ShownAs(OfRun(t.outbox, org, run), s.ledger, e)
    ensures e in timeline
  {
    var delivered, rows := LedgerOf(s.ledger, org, run), OfRun(t.outbox, org, run);
    var r :| r in rows && e == EntryFor(r, s.ledger) && (InLedger(s.ledger, r.id) || !r.dispatched);
    RowIsNamed(s, t, org, run, r);
    assert Listed(delivered, rows, r.id);
    var x :| x in timeline && x.entryId == r.id;
    assert Explains(delivered, rows, x);
    if !Named(delivered, r.id) {
      var q :| q in rows && !q.dispatched && FromOutbox(q) == x;
      OfRunFrom(t.outbox, org, run);
      SameIdSameRow(t.outbox, r, q);
    }
  }

  /** The same of the ledger's rows as they stand, in no order and with their repeats. */
  lemma TimelineOfStores(s: State, t: State, org: nat, run: nat, timeline: seq<TimelineEntry>)
    requires Inv(s) && Inv(t) && Grows(s, t)
    requires IsTimeline(LedgerOf(s.ledger, org, run), OfRun(t.outbox, org, run), timeline)
    ensures timeline == Shown(OfRun(t.outbox, org, run), s.ledger)
  {
    var delivered, rows := LedgerOf(s.ledger, org, run), OfRun(t.outbox, org, run);
    OfRunInOrder(t.outbox, org, run);
    ShownInOrder(rows, s.ledger);
    ShownFrom(rows, s.ledger);
    forall e ensures e in timeline <==> ShownAs(rows, s.ledger, e) {
      if e in timeline {
        EntryIsShown(s, t, org, run, e);
      }
      if ShownAs(rows, s.ledger, e) {
        ShownIsEntry(s, t, org, run, timeline, e);
      }
    }
    OrderedUnique(timeline, Shown(rows, s.ledger));
  }

  /** The timeline read from two stores, the ledger as it was in `s` and the outbox as it was later in
      `t`: each event of the run that the ledger already held or the outbox has not marked, once, in the
      order the events were enqueued. */
  lemma TimelineOfTwoReads(s: State, t: State, org: nat, run: nat, timeline: seq<TimelineEntry>)
    requires Inv(s) && Inv(t) && Grows(s, t)
    requires IsTimeline(FirstById(Queried(s.ledger, org, run)), OfRun(t.outbox, org, run), timeline)
    ensures timeline == Shown(OfRun(t.outbox, org, run), s.ledger)
  {
    OneLedgerRowAnId(s, org, run);
    RepeatsDoNotShow(s.ledger, org, run, OfRun(t.outbox, org, run), timeline);
    TimelineOfStores(s, t, org, run, timeline);
  }

  lemma {:induction false} AllShown(rows: seq<Row>, ledger: seq<LedgerRow>)
    requires forall r :: r in rows && r.dispatched ==> InLedger(ledger, r.id)
    ensures |Shown(rows, ledger)| == |rows|
    ensures forall i :: 0 <= i < |rows| ==> Shown(rows, ledger)[i] == EntryFor(rows[i], ledger)
    decreases |rows|
  {
    if rows != [] {
      AllShown(rows[..|rows| - 1], ledger);
      assert rows[|rows| - 1] in rows;
    }
  }

  /** In every reachable state, duplicates in the ledger included, a timeline read of that state lists
      every event of the run exactly once, in the order of enqueueing, complete exactly when the ledger
      holds it. */
  lemma TimelineIsExact(s: State, org: nat, run: nat, timeline: seq<TimelineEntry>)
    requires Reachable(s)
    requires IsTimeline(FirstById(Queried(s.ledger, org, run)), OfRun(s.outbox, org, run), timeline)
    ensures var rows := OfRun(s.outbox, org, run);
      && |timeline| == |rows|
      && forall i :: 0 <= i < |rows| ==>
           && timeline[i].entryId == rows[i].id && timeline[i].payload == rows[i].payload
           && timeline[i].createdAt == rows[i].createdAt
           && (timeline[i].delivery.Complete? <==> InLedger(s.ledger, rows[i].id))
  {
    ReachableInv(s);
    TimelineOfTwoReads(s, s, org, run, timeline);
    OfRunFrom(s.outbox, org, run);
    AllShown(OfRun(s.outbox, org, run), s.ledger);
  }

  /** With the ledger unreadable the timeline holds the undispatched events, each awaiting delivery. */
  lemma TimelineWithoutLedger(s: State, org: nat, run: nat, timeline: seq<TimelineEntry>)
    requires Reachable(s)
    requires IsTimeline([], OfRun(s.outbox, org, run), timeline)
    ensures timeline == Shown(OfRun(s.outbox, org, run), [])
    ensures forall r :: r in OfRun(s.outbox, org, run) ==>
      ((exists e :: e in timeline && e.entryId == r.id) <==> !r.dispatched)
  {
    ReachableInv(s);
    var before := State([], [], map[]);
    TimelineOfStores(before, s, org, run, timeline);
    var rows := OfRun(s.outbox, org, run);
    ShownFrom(rows, []);
    OfRunFrom(s.outbox, org, run);
    forall r | r in rows ensures (exists e :: e in timeline && e.entryId == r.id) <==> !r.dispatched {
      if !r.dispatched {
        assert ShownAs(rows, [], FromOutbox(r));
      }
      if e :| e in timeline && e.entryId == r.id {
        assert ShownAs(rows, [], e);
        var q :| q in rows && e == FromOutbox(q) && !q.dispatched;
        SameIdSameRow(s.outbox, r, q);
      }
    }
  }

  lemma MissingIffUnseen(s: State, t: State, org: nat, run: nat, timeline: seq<TimelineEntry>, r: Row)
    requires Inv(s) && Inv(t) && Grows(s, t) && r in OfRun(t.outbox, org, run)
    requires IsTimeline(FirstById(Queried(s.ledger, org, run)), OfRun(t.outbox, org, run), timeline)
    ensures (exists e :: e in timeline && e.entryId == r.id) <==> !(r.dispatched && !InLedger(s.ledger, r.id))
  {
    TimelineOfTwoReads(s, t, org, run, timeline);
    var rows := OfRun(t.outbox, org, run);
    if InLedger(s.ledger, r.id) || !r.dispatched {
      ShownFrom(rows, s.ledger);
      assert ShownAs(rows, s.ledger, EntryFor(r, s.ledger));
    }
    if e :| e in timeline && e.entryId == r.id {
      ShownRowIsListed(t.outbox, org, run, s.ledger, r, e);
    }
  }

  lemma ShownRowIsListed(outbox: seq<Row>, org: nat, run: nat, ledger: seq<LedgerRow>, r: Row, e: TimelineEntry)
    requires TableInv(outbox) && r in OfRun(outbox, org, run)
    requires e in Shown(OfRun(outbox, org, run), ledger) && e.entryId == r.id
    ensures InLedger(ledger, r.id) || !r.dispatched
  {
    var rows := OfRun(outbox, org, run);
    ShownFrom(rows, ledger);
    OfRunFrom(outbox, org, run);
    var q :| q in rows && e == EntryFor(q, ledger) && (InLedger(ledger, q.id) || !q.dispatched);
    assert q.id == e.entryId;
    SameIdSameRow(outbox, r, q);
  }

  /** The two reads of a timeline are not one: an event is missing exactly when it was marked dispatched
      before the outbox was read but had not reached the ledger when the ledger was read. */
  lemma MissingIff(s: State, steps: seq<Step>, org: nat, run: nat, timeline: seq<TimelineEntry>, r: Row)
    requires Reachable(s) && Replay(s, steps).Some? && r in OfRun(Replay(s, steps).value.outbox, org, run)
    requires IsTimeline(FirstById(Queried(s.ledger, org, run)), OfRun(Replay(s, steps).value.outbox, org, run), timeline)
    ensures (exists e :: e in timeline && e.entryId == r.id) <==> !(r.dispatched && !InLedger(s.ledger, r.id))
  {
    ReachableInv(s);
    ReplayKeepsInv(s, steps);
    MissingIffUnseen(s, Replay(s, steps).value, org, run, timeline, r);
  }

  /** A reader's two reads with other steps between them. */
  ghost predicate MissesRow(s: State, steps: seq<Step>, row: Row) {
    && Reachable(s) && row in s.outbox
    && Replay(s, steps).Some?
    && IsTimeline(FirstById(Queried(s.ledger, row.org, row.run)), OfRun(Replay(s, steps).value.outbox, row.org, row.run), [])
  }

  /** An event can be missed: one flush between the two reads is enough. */
  lemma TimelineCanMissAnEvent(row: Row)
    requires !row.dispatched && row.attempts == 0
    ensures exists s, steps :: MissesRow(s, steps, row)
  {
    var s, steps := Flushing([row], [], [row], 0, true), [Append(0, true, false), Record(0)];
    var after := Flushing([row.(dispatched := true)], [EntryOf(row)], [row], 1, true);
    EnqueuedAndRead(row);
    FlushedBetweenReads(row);
    NothingToShow(row.(dispatched := true));
    assert s.outbox[0] == row;
    ReadsMiss(s, steps, after, row);
  }

  lemma ReadsMiss(s: State, steps: seq<Step>, after: State, row: Row)
    requires Reachable(s) && row in s.outbox && Replay(s, steps) == Some(after)
    requires IsTimeline(FirstById(Queried(s.ledger, row.org, row.run)), OfRun(after.outbox, row.org, row.run), [])
    ensures MissesRow(s, steps, row)
  {
  }

  lemma NothingToShow(row: Row)
    requires row.dispatched
    ensures IsTimeline(FirstById(Queried([], row.org, row.run)), OfRun([row], row.org, row.run), [])
  {
    OneRow(row);
    assert FirstById(Queried([], row.org, row.run)) == [];
  }

  lemma FlushedBetweenReads(row: Row)
    ensures Replay(Flushing([row], [], [row], 0, true), [Append(0, true, false), Record(0)])
         == Some(Flushing([row.(dispatched := true)], [EntryOf(row)], [row], 1, true))
  {
    var s := Flushing([row], [], [row], 0, true);
    FlushOneMore(s, [], s, [row], 0, true, Answer(true, false));
    assert [] + [Append(0, true, false), Record(0)] == [Append(0, true, false), Record(0)];
    assert Mark([row], row.org, row.id, true) == [row.(dispatched := true)];
    assert [] + [EntryOf(row)] == [EntryOf(row)];
  }

  lemma EnqueuedAndRead(row: Row)
    requires !row.dispatched && row.attempts == 0
    ensures Reachable(Flushing([row], [], [row], 0, true))
  {
    var enqueue, begin := Enqueue(row.id, row.org, row.run, row.createdAt, row.payload), Begin(0, row.org, row.run);
    FirstEnqueued(row);
    OneRow(row);
    ReplayOneMore(INITIAL, [enqueue], begin);
    assert [enqueue] + [begin] == [enqueue, begin];
    assert Next(State([row], [], map[]), begin) == Flushing([row], [], [row], 0, true);
  }

  lemma FirstEnqueued(row: Row)
    requires !row.dispatched && row.attempts == 0
    ensures Replay(INITIAL, [Enqueue(row.id, row.org, row.run, row.createdAt, row.payload)]) == Some(State([row], [], map[]))
  {
    var enqueue := Enqueue(row.id, row.org, row.run, row.createdAt, row.payload);
    assert [enqueue][..0] == [];
    assert Next(INITIAL, enqueue).outbox == [row];
  }

  lemma OneRow(r: Row)
    ensures OfRun([r], r.org, r.run) == [r]
    ensures Pending([r], r.org, r.run) == if r.dispatched then [] else [r]
  {
    assert [r][..0] == [];
    assert Undispatched([]) == [] && Undispatched([r]) == if r.dispatched then [] else [r];
  }
}
