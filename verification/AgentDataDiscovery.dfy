/** The single-flight inventory of one run: concurrent callers share one load of an organization's
    connections, and what it found never changes afterwards. */
module AgentDataDiscovery {
  import opened Wrappers

  type Org = nat
  type Connection = nat

  /** A load in the event loop: running, or done and perhaps not yet discarded by its callback. */
  datatype Load =
    | Running(org: Org)
    | Succeeded(org: Org, inventory: nat)
    | FailedLoad(org: Org)

  /** `loads` is the event loop's view of the tasks created so far, numbered in order; `calls` counts
      the calls of `connection_inventory`. */
  datatype Discovery = Discovery(
    inventory: map<Org, nat>, tasks: map<Org, nat>, catalogs: map<(Org, Connection), nat>,
    hits: nat, loads: seq<Load>, calls: nat)

  const FRESH := Discovery(map[], map[], map[], 0, [], 0)

  /** What a call does before its first await: answer from the snapshot, join a load, or start one. */
  datatype Entry = Cached(snapshot: nat) | Joins(load: nat) | Starts(load: nat)

  function EntryOf(d: Discovery, org: Org): Entry {
    if org in d.inventory then Cached(d.inventory[org])
    else if org in d.tasks then Joins(d.tasks[org])
    else Starts(|d.loads|)
  }

  datatype Step =
    | Call(org: Org)
    | Harvest(load: nat, connection: Connection, catalog: nat)
    | Finish(load: nat, result: Option<nat>)
    | Discard(load: nat)
    | CancelCaller

  predicate Enabled(d: Discovery, step: Step) {
    match step
    case Call(_) => true
    case Harvest(load, _, _) => load < |d.loads| && d.loads[load].Running?
    case Finish(load, _) => load < |d.loads| && d.loads[load].Running?
    case Discard(load) => load < |d.loads| && !d.loads[load].Running?
    case CancelCaller => true
  }

  /** One stretch between awaits. A caller awaits the load behind a shield, so its cancellation leaves
      everything as it is. */
  function Next(d: Discovery, step: Step): Discovery
    requires Enabled(d, step)
  {
    match step
    case Call(org) =>
      (match EntryOf(d, org)
       case Starts(load) => d.(tasks := d.tasks[org := load], loads := d.loads + [Running(org)], calls := d.calls + 1)
       case _ => d.(hits := d.hits + 1, calls := d.calls + 1))
    case Harvest(load, connection, catalog) =>
      d.(catalogs := d.catalogs[(d.loads[load].org, connection) := catalog])
    case Finish(load, result) =>
      var org := d.loads[load].org;
      (match result
       case Some(inventory) =>
         d.(inventory := d.inventory[org := inventory], loads := d.loads[load := Succeeded(org, inventory)])
       case None => d.(loads := d.loads[load := FailedLoad(org)]))
    case Discard(load) =>
      var org := d.loads[load].org;
      if org in d.tasks && d.tasks[org] == load then d.(tasks := d.tasks - {org}) else d
    case CancelCaller => d
  }

  function Replay(d: Discovery, steps: seq<Step>): Option<Discovery> {
    if steps == [] then Some(d)
    else
      var e := Replay(d, steps[..|steps| - 1]);
      if e.Some? && Enabled(e.value, steps[|steps| - 1]) then Some(Next(e.value, steps[|steps| - 1])) else None
  }

  ghost predicate Reachable(d: Discovery) {
    exists steps :: Replay(FRESH, steps) == Some(d)
  }

  ghost predicate RunsFor(d: Discovery, i: int, org: Org) {
    0 <= i < |d.loads| && d.loads[i] == Running(org)
  }

  /** A running load is the one registered for its organization, which has no snapshot yet. */
  ghost predicate RunningRegistered(d: Discovery) {
    forall i, org :: RunsFor(d, i, org) ==> org !in d.inventory && org in d.tasks && d.tasks[org] == i
  }

  ghost predicate RegisteredExist(d: Discovery) {
    forall org :: org in d.tasks ==> d.tasks[org] < |d.loads| && d.loads[d.tasks[org]].org == org
  }

  /** A snapshot is what the organization's load found. */
  ghost predicate SuccessesKept(d: Discovery) {
    forall i :: 0 <= i < |d.loads| && d.loads[i].Succeeded? ==>
      d.loads[i].org in d.inventory && d.inventory[d.loads[i].org] == d.loads[i].inventory
  }

  ghost predicate Inv(d: Discovery) {
    && RunningRegistered(d)
    && RegisteredExist(d)
    && SuccessesKept(d)
    && d.calls == d.hits + |d.loads|
  }

  /** What a step leaves of the snapshots: those taken stay as they are, with their catalogs. */
  ghost predicate KeepsSnapshots(d: Discovery, e: Discovery) {
    && (forall org :: org in d.inventory ==> org in e.inventory && e.inventory[org] == d.inventory[org])
    && (forall org, c :: org in d.inventory ==>
          ((org, c) in e.catalogs <==> (org, c) in d.catalogs)
          && ((org, c) in d.catalogs ==> e.catalogs[(org, c)] == d.catalogs[(org, c)]))
    && |d.loads| <= |e.loads|
    && (forall i :: |d.loads| <= i < |e.loads| ==> e.loads[i].org !in d.inventory)
    && (forall i :: 0 <= i < |d.loads| ==> e.loads[i].org == d.loads[i].org)
  }

  lemma StepKeepsRunning(d: Discovery, step: Step)
    requires Inv(d) && Enabled(d, step)
    ensures RunningRegistered(Next(d, step))
  {
    var e := Next(d, step);
    forall i, org | RunsFor(e, i, org) ensures org !in e.inventory && org in e.tasks && e.tasks[org] == i {
      if i < |d.loads| {
        assert RunsFor(d, i, org);
        if step.Finish? {
          assert RunsFor(d, step.load, d.loads[step.load].org);
        }
      }
    }
  }

  lemma StepKeepsSuccesses(d: Discovery, step: Step)
    requires Inv(d) && Enabled(d, step)
    ensures SuccessesKept(Next(d, step))
  {
    var e := Next(d, step);
    forall i | 0 <= i < |e.loads| && e.loads[i].Succeeded?
      ensures e.loads[i].org in e.inventory && e.inventory[e.loads[i].org] == e.loads[i].inventory
    {
      if step.Finish? && i != step.load {
        assert RunsFor(d, step.load, d.loads[step.load].org);
      }
    }
  }

  lemma StepKeepsInv(d: Discovery, step: Step)
    requires Inv(d) && Enabled(d, step)
    ensures Inv(Next(d, step))
  {
    StepKeepsRunning(d, step);
    StepKeepsSuccesses(d, step);
  }

  lemma StepKeepsSnapshots(d: Discovery, step: Step)
    requires Inv(d) && Enabled(d, step)
    ensures KeepsSnapshots(d, Next(d, step))
  {
    if step.Harvest? || step.Finish? {
      assert RunsFor(d, step.load, d.loads[step.load].org);
    }
  }

  lemma {:induction false} ReplayKeeps(d: Discovery, steps: seq<Step>)
    requires Inv(d) && Replay(d, steps).Some?
    ensures Inv(Replay(d, steps).value) && KeepsSnapshots(d, Replay(d, steps).value)
    decreases |steps|
  {
    if steps != [] {
      var front, last := steps[..|steps| - 1], steps[|steps| - 1];
      ReplayKeeps(d, front);
      var e := Replay(d, front).value;
      StepKeepsInv(e, last);
      StepKeepsSnapshots(e, last);
    }
  }

  /** Single flight: whatever is interleaved or cancelled, an organization has at most one load running,
      none once it has a snapshot, and calls are hits and loads started. */
  lemma SingleFlight(d: Discovery)
    requires Reachable(d)
    ensures forall i, j, org :: RunsFor(d, i, org) && RunsFor(d, j, org) ==> i == j
    ensures forall i, org :: RunsFor(d, i, org) ==> org !in d.inventory
    ensures d.calls == d.hits + |d.loads|
  {
    var steps :| Replay(FRESH, steps) == Some(d);
    ReplayKeeps(FRESH, steps);
  }

  /** One snapshot a run: once an organization's load has succeeded, no later load is its own, and its
      inventory and every catalog `schema_inspect` reads stay what they were. */
  lemma SnapshotIsFinal(d: Discovery, steps: seq<Step>, org: Org)
    requires Reachable(d) && org in d.inventory && Replay(d, steps).Some?
    ensures var e := Replay(d, steps).value;
      && org in e.inventory && e.inventory[org] == d.inventory[org]
      && EntryOf(e, org) == Cached(d.inventory[org])
      && (forall i :: |d.loads| <= i < |e.loads| ==> e.loads[i].org != org)
      && (forall c :: ((org, c) in e.catalogs <==> (org, c) in d.catalogs)
            && ((org, c) in d.catalogs ==> e.catalogs[(org, c)] == d.catalogs[(org, c)]))
  {
    var prior :| Replay(FRESH, prior) == Some(d);
    ReplayKeeps(FRESH, prior);
    ReplayKeeps(d, steps);
  }

  /** An organization's registered load has failed, and its callback has not run yet. */
  predicate FailedNotDiscarded(d: Discovery, org: Org) {
    org in d.tasks && d.tasks[org] < |d.loads| && d.loads[d.tasks[org]].FailedLoad?
  }

  predicate JoinsFailed(d: Discovery, org: Org) {
    EntryOf(d, org).Joins? && EntryOf(d, org).load < |d.loads| && d.loads[EntryOf(d, org).load] == FailedLoad(org)
  }

  /** When a call starts a load, and what it meets when it joins one: a running load, or one that failed, the
      latter exactly when the organization has no snapshot and its registered load has failed but keeps its
      place until its callback runs. Such a call counts as a hit and gets the failure. */
  lemma WhatACallMeets(d: Discovery, org: Org)
    requires Reachable(d)
    ensures EntryOf(d, org).Starts? <==> org !in d.inventory && org !in d.tasks
    ensures EntryOf(d, org).Joins? ==>
              EntryOf(d, org).load < |d.loads|
              && d.loads[EntryOf(d, org).load] in {Running(org), FailedLoad(org)}
    ensures JoinsFailed(d, org) <==> org !in d.inventory && FailedNotDiscarded(d, org)
    ensures EntryOf(d, org).Joins? && !JoinsFailed(d, org) <==> exists i :: RunsFor(d, i, org)
    ensures EntryOf(d, org).Cached? <==> exists i :: 0 <= i < |d.loads| && d.loads[i].org == org && d.loads[i].Succeeded?
  {
    var steps :| Replay(FRESH, steps) == Some(d);
    ReplayKeeps(FRESH, steps);
    SnapshotsComeFromLoads(steps);
    if EntryOf(d, org).Joins? && !JoinsFailed(d, org) {
      assert RunsFor(d, d.tasks[org], org);
    }
  }

  /** It does happen: a call, a load that fails, and a second call before the callback. */
  lemma CallCanJoinAFailedLoad(org: Org)
    ensures exists d :: Reachable(d) && JoinsFailed(d, org) && Next(d, Call(org)).hits == d.hits + 1
  {
    var called := Next(FRESH, Call(org));
    var failed := Next(called, Finish(0, None));
    ReplayOneMore(FRESH, [], Call(org));
    assert [] + [Call(org)] == [Call(org)];
    ReplayOneMore(FRESH, [Call(org)], Finish(0, None));
    assert Replay(FRESH, [Call(org)] + [Finish(0, None)]) == Some(failed);
    assert JoinsFailed(failed, org);
  }

  lemma ReplayOneMore(d: Discovery, steps: seq<Step>, step: Step)
    requires Replay(d, steps).Some? && Enabled(Replay(d, steps).value, step)
    ensures Replay(d, steps + [step]) == Some(Next(Replay(d, steps).value, step))
  {
    assert (steps + [step])[..|steps|] == steps;
  }

  /** The steps without the cancellations of callers. */
  function Uncancelled(steps: seq<Step>): seq<Step> {
    if steps == [] then []
    else
      var rest, last := Uncancelled(steps[..|steps| - 1]), steps[|steps| - 1];
      if last.CancelCaller? then rest else rest + [last]
  }

  /** Cancelling callers shows in nothing: with or without it, a run of the rest leads to the same state. */
  lemma {:induction false} CancellationDoesNotShow(d: Discovery, steps: seq<Step>)
    ensures Replay(d, steps) == Replay(d, Uncancelled(steps))
    decreases |steps|
  {
    if steps != [] {
      var front, last := steps[..|steps| - 1], steps[|steps| - 1];
      CancellationDoesNotShow(d, front);
      var rest := Uncancelled(front);
      if !last.CancelCaller? {
        assert Uncancelled(steps)[..|rest|] == rest;
      }
    }
  }

  /** Once its callback has run, a failed load is out of the way: the next call starts another. */
  lemma FailedLoadIsRetried(d: Discovery, org: Org)
    requires JoinsFailed(d, org)
    ensures var failed := d.tasks[org];
      Enabled(d, Discard(failed)) && EntryOf(Next(d, Discard(failed)), org) == Starts(|d.loads|)
  {
  }

  ghost predicate FromLoads(d: Discovery) {
    forall org :: org in d.inventory ==> exists i :: 0 <= i < |d.loads| && d.loads[i].org == org && d.loads[i].Succeeded?
  }

  lemma StepFromLoads(d: Discovery, step: Step)
    requires Enabled(d, step) && FromLoads(d)
    ensures FromLoads(Next(d, step))
  {
    var e := Next(d, step);
    forall org | org in e.inventory
      ensures exists i :: 0 <= i < |e.loads| && e.loads[i].org == org && e.loads[i].Succeeded?
    {
      if org in d.inventory {
        var i :| 0 <= i < |d.loads| && d.loads[i].org == org && d.loads[i].Succeeded?;
        assert e.loads[i] == d.loads[i];
      } else {
        assert e.loads[step.load].Succeeded?;
      }
    }
  }

  lemma {:induction false} SnapshotsComeFromLoads(steps: seq<Step>)
    requires Replay(FRESH, steps).Some?
    ensures FromLoads(Replay(FRESH, steps).value)
  {
    if steps != [] {
      var front := steps[..|steps| - 1];
      SnapshotsComeFromLoads(front);
      StepFromLoads(Replay(FRESH, front).value, steps[|steps| - 1]);
    }
  }

  // ---- Whose catalogs a snapshot is read with

  /** What one load harvested: the last catalog of each connection. */
  function HarvestsOf(steps: seq<Step>, load: nat): map<Connection, nat> {
    if steps == [] then map[]
    else
      var before, last := HarvestsOf(steps[..|steps| - 1], load), steps[|steps| - 1];
      if last.Harvest? && last.load == load then before[last.connection := last.catalog] else before
  }

  ghost predicate LastOfItsOrg(d: Discovery, i: nat) {
    i < |d.loads| && forall j :: i < j < |d.loads| ==> d.loads[j].org != d.loads[i].org
  }

  /** A load that runs or succeeded is its organization's last. */
  ghost predicate LiveAreLast(d: Discovery) {
    forall i: nat :: i < |d.loads| && (d.loads[i].Running? || d.loads[i].Succeeded?) ==> LastOfItsOrg(d, i)
  }

  /** What a load harvested is kept, and what its organization's last load harvested is kept as that load had it. */
  ghost predicate HarvestKept(d: Discovery, steps: seq<Step>, i: nat, c: Connection) {
    c in HarvestsOf(steps, i) ==>
      && i < |d.loads| && (d.loads[i].org, c) in d.catalogs
      && (LastOfItsOrg(d, i) ==> d.catalogs[(d.loads[i].org, c)] == HarvestsOf(steps, i)[c])
  }

  ghost predicate Harvested(d: Discovery, steps: seq<Step>, org: Org, c: Connection) {
    exists i: nat :: i < |d.loads| && d.loads[i].org == org && c in HarvestsOf(steps, i)
  }

  ghost predicate HarvestInv(d: Discovery, steps: seq<Step>) {
    && LiveAreLast(d)
    && (forall i: nat, c :: HarvestKept(d, steps, i, c))
    && (forall org, c :: (org, c) in d.catalogs ==> Harvested(d, steps, org, c))
  }

  lemma StepKeepsLive(d: Discovery, step: Step)
    requires Inv(d) && LiveAreLast(d) && Enabled(d, step)
    ensures LiveAreLast(Next(d, step))
  {
    var e := Next(d, step);
    forall i: nat | i < |e.loads| && (e.loads[i].Running? || e.loads[i].Succeeded?) ensures LastOfItsOrg(e, i) {
      if i < |d.loads| {
        assert LastOfItsOrg(d, i);
        assert d.loads[i].Running? ==> RunsFor(d, i, d.loads[i].org);
      }
    }
  }

  lemma HarvestsOneMore(steps: seq<Step>, step: Step, i: nat)
    ensures HarvestsOf(steps + [step], i) ==
      if step.Harvest? && step.load == i then HarvestsOf(steps, i)[step.connection := step.catalog] else HarvestsOf(steps, i)
  {
    assert (steps + [step])[..|steps|] == steps;
  }

  lemma StepKeepsHarvest(d: Discovery, steps: seq<Step>, step: Step, i: nat, c: Connection)
    requires LiveAreLast(d) && Enabled(d, step) && HarvestKept(d, steps, i, c)
    ensures HarvestKept(Next(d, step), steps + [step], i, c)
  {
    var e := Next(d, step);
    HarvestsOneMore(steps, step, i);
    if c in HarvestsOf(steps, i) {
      assert forall j :: 0 <= j < |d.loads| ==> e.loads[j].org == d.loads[j].org;
    }
    if step.Harvest? {
      assert LastOfItsOrg(d, step.load);
    }
  }

  lemma StepKeepsHarvested(d: Discovery, steps: seq<Step>, step: Step, org: Org, c: Connection)
    requires Enabled(d, step) && ((org, c) in d.catalogs ==> Harvested(d, steps, org, c))
    ensures (org, c) in Next(d, step).catalogs ==> Harvested(Next(d, step), steps + [step], org, c)
  {
    var e := Next(d, step);
    if (org, c) in d.catalogs {
      var i: nat :| i < |d.loads| && d.loads[i].org == org && c in HarvestsOf(steps, i);
      HarvestsOneMore(steps, step, i);
      assert e.loads[i].org == org && c in HarvestsOf(steps + [step], i);
    } else if (org, c) in e.catalogs {
      HarvestsOneMore(steps, step, step.load);
      assert e.loads[step.load].org == org && c in HarvestsOf(steps + [step], step.load);
    }
  }

  lemma {:induction false} ReplayKeepsHarvests(steps: seq<Step>)
    requires Replay(FRESH, steps).Some?
    ensures HarvestInv(Replay(FRESH, steps).value, steps)
  {
    if steps != [] {
      var front, step := steps[..|steps| - 1], steps[|steps| - 1];
      ReplayKeepsHarvests(front);
      ReplayKeeps(FRESH, front);
      var d := Replay(FRESH, front).value;
      StepKeepsLive(d, step);
      assert steps == front + [step];
      forall i: nat, c ensures HarvestKept(Next(d, step), steps, i, c) {
        StepKeepsHarvest(d, front, step, i, c);
      }
      forall org, c | (org, c) in Next(d, step).catalogs ensures Harvested(Next(d, step), steps, org, c) {
        StepKeepsHarvested(d, front, step, org, c);
      }
    }
  }

  /** The organization's catalogs are exactly these. */
  ghost predicate CatalogsAre(d: Discovery, org: Org, found: map<Connection, nat>) {
    forall c :: ((org, c) in d.catalogs <==> c in found) && (c in found && (org, c) in d.catalogs ==> d.catalogs[(org, c)] == found[c])
  }

  /** Catalogs are kept as they are harvested, and a load that fails afterwards leaves its own behind. The
      catalogs that a snapshot is read with are those of the load that took it exactly when it harvested every
      connection that any load of its organization had. */
  lemma SnapshotCatalogsIff(steps: seq<Step>, load: nat)
    requires Replay(FRESH, steps).Some?
    requires var d := Replay(FRESH, steps).value; load < |d.loads| && d.loads[load].Succeeded?
    ensures var d := Replay(FRESH, steps).value;
      var org := d.loads[load].org;
      CatalogsAre(d, org, HarvestsOf(steps, load)) <==>
      forall c :: Harvested(d, steps, org, c) ==> c in HarvestsOf(steps, load)
  {
    ReplayKeepsHarvests(steps);
    var d := Replay(FRESH, steps).value;
    var org := d.loads[load].org;
    assert LastOfItsOrg(d, load);
    forall c: Connection ensures HarvestKept(d, steps, load, c) && (Harvested(d, steps, org, c) <==> (org, c) in d.catalogs) {
      if Harvested(d, steps, org, c) {
        var i: nat :| i < |d.loads| && d.loads[i].org == org && c in HarvestsOf(steps, i);
        assert HarvestKept(d, steps, i, c);
      }
    }
  }

  /** The steps of a load that harvests a connection and fails, and of one that succeeds without it. */
  function FailThenSucceed(org: Org, c: Connection, catalog: nat, found: nat): seq<Step> {
    [Call(org), Harvest(0, c, catalog), Finish(0, None), Discard(0), Call(org), Finish(1, Some(found))]
  }

  /** A snapshot can be read with a catalog that the load that took it never saw. */
  lemma CatalogCanOutliveItsLoad(org: Org, c: Connection, catalog: nat, found: nat)
    ensures var steps := FailThenSucceed(org, c, catalog, found);
      && Replay(FRESH, steps).Some?
      && var d := Replay(FRESH, steps).value;
         d.loads == [FailedLoad(org), Succeeded(org, found)] && d.inventory == map[org := found]
         && d.catalogs == map[(org, c) := catalog] && c !in HarvestsOf(steps, 1)
  {
    var steps := FailThenSucceed(org, c, catalog, found);
    FirstLoadFails(org, c, catalog);
    var d4 := Discovery(map[], map[], map[(org, c) := catalog], 0, [FailedLoad(org)], 1);
    assert steps[..4] == [Call(org), Harvest(0, c, catalog), Finish(0, None), Discard(0)];
    assert steps[..5] == steps[..4] + [Call(org)] && steps == steps[..5] + [Finish(1, Some(found))];
    ReplayOneMore(FRESH, steps[..4], Call(org));
    ReplayOneMore(FRESH, steps[..5], Finish(1, Some(found)));
    NoHarvestBy(steps, 1);
  }

  lemma FirstLoadFails(org: Org, c: Connection, catalog: nat)
    ensures Replay(FRESH, [Call(org), Harvest(0, c, catalog), Finish(0, None), Discard(0)])
         == Some(Discovery(map[], map[], map[(org, c) := catalog], 0, [FailedLoad(org)], 1))
  {
    var a, b, e, f := Call(org), Harvest(0, c, catalog), Finish(0, None), Discard(0);
    assert [] + [a] == [a] && [a] + [b] == [a, b] && [a, b] + [e] == [a, b, e] && [a, b, e] + [f] == [a, b, e, f];
    assert [] + [Running(org)] == [Running(org)] && [Running(org)][0 := FailedLoad(org)] == [FailedLoad(org)];
    ReplayOneMore(FRESH, [], a);
    assert Replay(FRESH, [a]) == Some(Discovery(map[], map[org := 0], map[], 0, [Running(org)], 1));
    ReplayOneMore(FRESH, [a], b);
    assert Replay(FRESH, [a, b]) == Some(Discovery(map[], map[org := 0], map[(org, c) := catalog], 0, [Running(org)], 1));
    ReplayOneMore(FRESH, [a, b], e);
    assert Replay(FRESH, [a, b, e]) == Some(Discovery(map[], map[org := 0], map[(org, c) := catalog], 0, [FailedLoad(org)], 1));
    ReplayOneMore(FRESH, [a, b, e], f);
    assert map[org := 0] - {org} == map[];
  }

  lemma {:induction false} NoHarvestBy(steps: seq<Step>, load: nat)
    requires forall step :: step in steps && step.Harvest? ==> step.load != load
    ensures HarvestsOf(steps, load) == map[]
  {
    if steps != [] {
      NoHarvestBy(steps[..|steps| - 1], load);
      assert steps[|steps| - 1] in steps;
    }
  }

  // ---- The class: each method is one stretch between awaits

  class ConnectorDataDiscovery {
    var inventory: map<Org, nat>
    var inventoryTasks: map<Org, nat>
    var catalogs: map<(Org, Connection), nat>
    var cacheHits: nat
    ghost var loads: seq<Load>
    ghost var calls: nat

    ghost function State(): Discovery
      reads this
    {
      Discovery(inventory, inventoryTasks, catalogs, cacheHits, loads, calls)
    }

    constructor ()
      ensures State() == FRESH
    {
      inventory, inventoryTasks, catalogs, cacheHits, loads, calls := map[], map[], map[], 0, [], 0;
    }

    /** `connection_inventory` up to its first await; `created` is the id of a task it would create. */
    method EnterInventory(org: Org, created: nat) returns (entry: Entry)
      requires created == |loads|
      modifies this
      ensures entry == EntryOf(old(State()), org) && State() == Next(old(State()), Call(org))
    {
      calls := calls + 1;
      if org in inventory {
        cacheHits := cacheHits + 1;
        return Cached(inventory[org]);
      }
      if org in inventoryTasks {
        cacheHits := cacheHits + 1;
        return Joins(inventoryTasks[org]);
      }
      inventoryTasks := inventoryTasks[org := created];
      loads := loads + [Running(org)];
      return Starts(created);
    }

    /** The end of `_load_inventory`: the snapshot is kept only when the load got through. */
    method FinishLoad(org: Org, ghost load: nat, result: Option<nat>)
      requires load < |loads| && loads[load] == Running(org)
      modifies this
      ensures State() == Next(old(State()), Finish(load, result))
    {
      match result
      case Some(found) =>
        inventory := inventory[org := found];
        loads := loads[load := Succeeded(org, found)];
      case None =>
        loads := loads[load := FailedLoad(org)];
    }

    /** The done callback: a task removes itself, and only itself. */
    method DiscardInventoryTask(org: Org, task: nat)
      requires task < |loads| && !loads[task].Running? && loads[task].org == org
      modifies this
      ensures State() == Next(old(State()), Discard(task))
    {
      if org in inventoryTasks && inventoryTasks[org] == task {
        inventoryTasks := inventoryTasks - {org};
      }
    }
  }
}
