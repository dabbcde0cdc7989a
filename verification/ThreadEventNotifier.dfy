/** Wakes the readers of a thread when the database announces a new row: a map of one event a
    thread, replaced after every announcement, and a count of the calls waiting on each thread. */
module ThreadEventNotifier {
  import opened Wrappers

  /** A thread id; only its identity matters. */
  type Thread = nat

  /** A `wait_for` call in progress: the thread it watches and the event it took from the map. */
  datatype Call = Call(thread: Thread, event: nat)

  /** Events are numbered in the order they are created; `fired` holds those that are set. */
  datatype Notifier = Notifier(
    waiters: map<Thread, nat>, refcounts: map<Thread, nat>,
    fired: set<nat>, created: nat, calls: map<nat, Call>)

  const IDLE := Notifier(map[], map[], {}, 0, map[])

  // ---- The three stretches between awaits

  /** A call registers: it takes the thread's event, or puts a fresh one there. */
  function Entered(n: Notifier, call: nat, thread: Thread): Notifier {
    var known := thread in n.waiters;
    var event := if known then n.waiters[thread] else n.created;
    n.(waiters := n.waiters[thread := event],
       created := if known then n.created else n.created + 1,
       refcounts := n.refcounts[thread := CountOf(n, thread) + 1],
       calls := n.calls[call := Call(thread, event)])
  }

  /** The call is over, woken or not: the last one on a thread takes its own event out of the map. */
  function Left(n: Notifier, call: nat): Notifier
    requires call in n.calls
  {
    var Call(thread, event) := n.calls[call];
    var count := CountOf(n, thread) - 1;
    if count > 0 then
      n.(refcounts := n.refcounts[thread := count], calls := n.calls - {call})
    else
      n.(refcounts := n.refcounts - {thread},
         waiters := if thread in n.waiters && n.waiters[thread] == event then n.waiters - {thread} else n.waiters,
         calls := n.calls - {call})
  }

  /** An announcement: the thread's event is set and a fresh one replaces it. */
  function Announced(n: Notifier, thread: Thread): Notifier {
    if thread !in n.waiters then n
    else n.(fired := n.fired + {n.waiters[thread]},
            waiters := n.waiters[thread := n.created],
            created := n.created + 1)
  }

  function CountOf(n: Notifier, thread: Thread): nat {
    if thread in n.refcounts then n.refcounts[thread] else 0
  }

  // ---- The invariant

  function CallsOn(calls: map<nat, Call>, thread: Thread): set<nat> {
    set c | c in calls && calls[c].thread == thread
  }

  ghost predicate CountsMatch(n: Notifier) {
    forall t :: |CallsOn(n.calls, t)| == CountOf(n, t) && (t in n.refcounts ==> n.refcounts[t] > 0)
  }

  /** The events waiting in the map are unset, and no two threads share one. */
  ghost predicate MapFresh(n: Notifier) {
    && (forall t :: t in n.waiters ==> n.waiters[t] !in n.fired && n.waiters[t] < n.created)
    && (forall t, u :: t in n.waiters && u in n.waiters && n.waiters[t] == n.waiters[u] ==> t == u)
    && (forall e :: e in n.fired ==> e < n.created)
  }

  /** Every call's event is set, or is the one the next announcement will set. */
  ghost predicate CallsServed(n: Notifier) {
    forall c :: c in n.calls ==> Served(n, n.calls[c])
  }

  ghost predicate Served(n: Notifier, c: Call) {
    && c.event < n.created
    && c.thread in n.waiters
    && (c.event in n.fired || n.waiters[c.thread] == c.event)
  }

  ghost predicate Inv(n: Notifier) {
    CountsMatch(n) && MapFresh(n) && CallsServed(n)
  }

  lemma EnterKeepsCounts(n: Notifier, call: nat, thread: Thread)
    requires CountsMatch(n) && call !in n.calls
    ensures CountsMatch(Entered(n, call, thread))
  {
    var m := Entered(n, call, thread);
    forall t ensures |CallsOn(m.calls, t)| == CountOf(m, t) {
      if t == thread {
        assert CallsOn(m.calls, t) == CallsOn(n.calls, t) + {call};
      } else {
        assert CallsOn(m.calls, t) == CallsOn(n.calls, t);
      }
    }
  }

  lemma EnterKeepsServed(n: Notifier, call: nat, thread: Thread)
    requires MapFresh(n) && CallsServed(n) && call !in n.calls
    ensures CallsServed(Entered(n, call, thread))
  {
  }

  lemma EnterKeepsInv(n: Notifier, call: nat, thread: Thread)
    requires Inv(n) && call !in n.calls
    ensures Inv(Entered(n, call, thread))
  {
    EnterKeepsCounts(n, call, thread);
    EnterKeepsServed(n, call, thread);
  }

  lemma LeaveKeepsInv(n: Notifier, call: nat)
    requires Inv(n) && call in n.calls
    ensures Inv(Left(n, call))
  {
    var m, thread := Left(n, call), n.calls[call].thread;
    LeaveKeepsCounts(n, call);
    forall c | c in m.calls ensures Served(m, m.calls[c]) {
      assert Served(n, n.calls[c]);
      if n.calls[c].thread == thread {
        assert c in CallsOn(m.calls, thread);
        assert CallsOn(m.calls, thread) != {};
      }
    }
  }

  lemma LeaveKeepsCounts(n: Notifier, call: nat)
    requires CountsMatch(n) && call in n.calls
    ensures CountsMatch(Left(n, call))
  {
    var m, thread := Left(n, call), n.calls[call].thread;
    assert call in CallsOn(n.calls, thread);
    forall t ensures |CallsOn(m.calls, t)| == CountOf(m, t) {
      if t == thread {
        assert CallsOn(m.calls, t) == CallsOn(n.calls, t) - {call};
      } else {
        assert CallsOn(m.calls, t) == CallsOn(n.calls, t);
      }
    }
  }

  lemma AnnounceKeepsInv(n: Notifier, thread: Thread)
    requires Inv(n)
    ensures Inv(Announced(n, thread))
  {
  }

  /** A call in progress is counted, so its clean-up finds a count to lower. */
  lemma CallIsCounted(n: Notifier, call: nat)
    requires Inv(n) && call in n.calls
    ensures CountOf(n, n.calls[call].thread) > 0
  {
    assert call in CallsOn(n.calls, n.calls[call].thread);
  }

  // ---- The class: each method is one stretch between awaits

  class Notifications {
    var waiters: map<Thread, nat>
    var refcounts: map<Thread, nat>
    var fired: set<nat>
    var created: nat
    ghost var calls: map<nat, Call>

    ghost function State(): Notifier
      reads this
    {
      Notifier(waiters, refcounts, fired, created, calls)
    }

    constructor ()
      ensures State() == IDLE
    {
      waiters, refcounts, fired, created, calls := map[], map[], {}, 0, map[];
    }

    /** `wait_for` up to its await: the event the call waits on. */
    method Register(ghost call: nat, thread: Thread) returns (event: nat)
      requires call !in calls
      modifies this
      ensures State() == Entered(old(State()), call, thread)
      ensures calls[call] == Call(thread, event)
    {
      if thread in waiters {
        event := waiters[thread];
      } else {
        event := created;
        created := created + 1;
        waiters := waiters[thread := event];
      }
      refcounts := refcounts[thread := (if thread in refcounts then refcounts[thread] else 0) + 1];
      calls := calls[call := Call(thread, event)];
      assert waiters == old(waiters)[thread := event];
    }

    /** The clean-up that ends `wait_for`, however the wait ended. */
    method Unregister(ghost call: nat, thread: Thread, event: nat)
      requires call in calls && calls[call] == Call(thread, event) && CountOf(State(), thread) > 0
      modifies this
      ensures State() == Left(old(State()), call)
    {
      refcounts := refcounts[thread := refcounts[thread] - 1];
      if refcounts[thread] <= 0 {
        refcounts := refcounts - {thread};
        assert refcounts == old(refcounts) - {thread};
        if thread in waiters && waiters[thread] == event {
          waiters := waiters - {thread};
        }
      }
      calls := calls - {call};
    }

    /** One announcement taken off the listener. */
    method Deliver(thread: Thread)
      modifies this
      ensures State() == Announced(old(State()), thread)
    {
      if thread !in waiters {
        return;
      }
      fired := fired + {waiters[thread]};
      waiters := waiters[thread := created];
      created := created + 1;
    }
  }

  lemma NothingWaits()
    ensures Inv(IDLE)
  {
  }

  // ---- Every run

  datatype Step = Enter(call: nat, thread: Thread) | Leave(call: nat) | Announce(thread: Thread)

  predicate Enabled(n: Notifier, step: Step) {
    match step
    case Enter(call, _) => call !in n.calls
    case Leave(call) => call in n.calls
    case Announce(_) => true
  }

  function Next(n: Notifier, step: Step): Notifier
    requires Enabled(n, step)
  {
    match step
    case Enter(call, thread) => Entered(n, call, thread)
    case Leave(call) => Left(n, call)
    case Announce(thread) => Announced(n, thread)
  }

  function Replay(n: Notifier, steps: seq<Step>): Option<Notifier> {
    if steps == [] then Some(n)
    else
      var m := Replay(n, steps[..|steps| - 1]);
      if m.Some? && Enabled(m.value, steps[|steps| - 1]) then Some(Next(m.value, steps[|steps| - 1])) else None
  }

  ghost predicate Reachable(n: Notifier) {
    exists steps :: Replay(IDLE, steps) == Some(n)
  }

  lemma {:induction false} ReplayKeepsInv(n: Notifier, steps: seq<Step>)
    requires Inv(n) && Replay(n, steps).Some?
    ensures Inv(Replay(n, steps).value)
    decreases |steps|
  {
    if steps != [] {
      var front, last := steps[..|steps| - 1], steps[|steps| - 1];
      ReplayKeepsInv(n, front);
      var m := Replay(n, front).value;
      match last
      case Enter(call, thread) => EnterKeepsInv(m, call, thread);
      case Leave(call) => LeaveKeepsInv(m, call);
      case Announce(thread) => AnnounceKeepsInv(m, thread);
    }
  }

  /** In every reachable state the counts are those of the calls waiting, every event in the map is
      unset, and every call's event is set or is the one in the map. */
  lemma ReachableInv(n: Notifier)
    requires Reachable(n)
    ensures Inv(n)
  {
    NothingWaits();
    var steps :| Replay(IDLE, steps) == Some(n);
    ReplayKeepsInv(IDLE, steps);
  }

  ghost predicate Woken(n: Notifier, call: nat)
    requires call in n.calls
  {
    n.calls[call].event in n.fired
  }

  /** While a call waits, it is woken by the announcements of its thread and by nothing else. */
  lemma {:induction false} WokenWhileWaiting(n: Notifier, call: nat, steps: seq<Step>)
    requires Inv(n) && call in n.calls && Replay(n, steps).Some? && Leave(call) !in steps
    ensures var m := Replay(n, steps).value;
      && call in m.calls && m.calls[call] == n.calls[call]
      && (Woken(m, call) <==> Woken(n, call) || Announce(n.calls[call].thread) in steps)
    decreases |steps|
  {
    if steps != [] {
      var front, last := steps[..|steps| - 1], steps[|steps| - 1];
      assert steps == front + [last];
      WokenWhileWaiting(n, call, front);
      ReplayKeepsInv(n, front);
      OneStepWakes(Replay(n, front).value, call, last);
    }
  }

  lemma OneStepWakes(n: Notifier, call: nat, step: Step)
    requires Inv(n) && call in n.calls && Enabled(n, step) && step != Leave(call)
    ensures var m := Next(n, step);
      && call in m.calls && m.calls[call] == n.calls[call]
      && (Woken(m, call) <==> Woken(n, call) || step == Announce(n.calls[call].thread))
  {
  }

  /** No lost wake-up and none invented: a call that enters is awake, before it leaves, exactly when its
      thread was announced since. */
  lemma WokenIffAnnounced(n: Notifier, call: nat, thread: Thread, steps: seq<Step>)
    requires Reachable(n) && call !in n.calls
    requires Replay(Entered(n, call, thread), steps).Some? && Leave(call) !in steps
    ensures var m := Replay(Entered(n, call, thread), steps).value;
      call in m.calls && (Woken(m, call) <==> Announce(thread) in steps)
  {
    ReachableInv(n);
    EnterKeepsInv(n, call, thread);
    WokenWhileWaiting(Entered(n, call, thread), call, steps);
  }

  /** An announcement leaves the calls, their counts and the set of threads that have an entry as they are; for a
      thread that has none it changes nothing at all. */
  lemma AnnouncementAddsNoEntry(n: Notifier, thread: Thread)
    ensures var m := Announced(n, thread);
      && m.calls == n.calls && m.refcounts == n.refcounts && m.waiters.Keys == n.waiters.Keys
      && (forall t :: t in n.waiters && t != thread ==> m.waiters[t] == n.waiters[t])
      && (thread !in n.waiters ==> m == n)
  {
  }

  /** Only a call that registers makes an entry: a thread that nobody ever watched has none, however often it was
      announced. */
  lemma {:induction false} EntryWasWatched(steps: seq<Step>, thread: Thread)
    requires Replay(IDLE, steps).Some? && thread in Replay(IDLE, steps).value.waiters
    ensures exists call: nat :: Enter(call, thread) in steps
  {
    if steps != [] {
      var front, last := steps[..|steps| - 1], steps[|steps| - 1];
      assert steps == front + [last];
      if thread in Replay(IDLE, front).value.waiters {
        EntryWasWatched(front, thread);
        var call: nat :| Enter(call, thread) in front;
        assert Enter(call, thread) in steps;
      } else {
        assert Enter(last.call, thread) in steps;
      }
    }
  }

  /** What is left behind when nobody watches a thread any more: no count, and an entry in the map exactly
      when the last call to leave had been woken. The entry is then a fresh event that nobody holds. */
  lemma EntryOutlivesWatchersIff(n: Notifier, call: nat)
    requires Reachable(n) && call in n.calls
    requires CallsOn(n.calls, n.calls[call].thread) == {call}
    ensures var m, thread := Left(n, call), n.calls[call].thread;
      && thread !in m.refcounts
      && (thread in m.waiters <==> Woken(n, call))
      && (thread in m.waiters ==> m.waiters[thread] !in m.fired && forall c :: c in m.calls ==> m.calls[c].event != m.waiters[thread])
  {
    ReachableInv(n);
    LeaveKeepsInv(n, call);
    var m, thread := Left(n, call), n.calls[call].thread;
    assert Served(n, n.calls[call]);
    forall c | c in m.calls && thread in m.waiters ensures m.calls[c].event != m.waiters[thread] {
      assert Served(m, m.calls[c]);
      assert m.calls[c].thread == thread ==> c in CallsOn(n.calls, thread);
    }
  }

  lemma ReplayOneMore(n: Notifier, steps: seq<Step>, step: Step)
    requires Replay(n, steps).Some? && Enabled(Replay(n, steps).value, step)
    ensures Replay(n, steps + [step]) == Some(Next(Replay(n, steps).value, step))
  {
    assert (steps + [step])[..|steps|] == steps;
  }

  /** It does happen: a call, an announcement that wakes it, and the entry stays when it leaves. */
  lemma EntryCanOutliveWatchers(thread: Thread)
    ensures exists n :: Reachable(n) && CallsOn(n.calls, thread) == {0} && thread in Left(n, 0).waiters
  {
    var entered := Entered(IDLE, 0, thread);
    var woken := Announced(entered, thread);
    ReplayOneMore(IDLE, [], Enter(0, thread));
    assert [] + [Enter(0, thread)] == [Enter(0, thread)];
    ReplayOneMore(IDLE, [Enter(0, thread)], Announce(thread));
    assert Reachable(woken);
    assert woken.calls == map[0 := Call(thread, 0)] && CallsOn(woken.calls, thread) == {0};
  }
}
