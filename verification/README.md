# A verified model of Zentra's workflows, delivery protocols and agent loops

This project models the parts of Zentra where a mistake would be hard to see in any one function, and
proves what they guarantee together:

* **Workflows.** An untrusted agent answers at every node of a published graph. The engine has no step
  limit of its own; it stops because the document check refused every graph with a way round that no loop
  edge counts. `WorkflowValidator` proves the check (a reachability loop and a search over simple paths)
  equal to a statement about walks, `WorkflowEngine` proves that every run of an accepted document ends
  within a bound read off the document, and `WorkflowTheorems` proves which documents can be completed,
  which can be kept running for ever, and that only the controller steers.
* **Delivery.** The audit outbox, the notifier and the single-flight inventory are state machines with one
  step for each stretch between two awaits or commits. Their invariants hold over every interleaving, failure
  and crash; the classes beside them are proved to make exactly those steps. The event stream is the reader's
  loop, one turn a poll, over whatever log each poll finds.
* **Agent loops.** The tool conversation, the orchestrated run with its rechecks and its fan-out, the
  board, the work items and the assembly of citations: what each conserves, bounds and reports.
* **Names.** Members qualified by their source and identifiers quoted for SQL: printing and reading are
  proved exact inverses, so that no two sources share a name and, to a reader who knows doubling alone, no name
  changes how a statement reads.

Each file is one component:

| file | component |
|---|---|
| `WorkflowDocument.dfy`, `WorkflowValidator.dfy` | the document, its walks, and the check made before saving or publishing |
| `WorkflowEngine.dfy`, `WorkflowTheorems.dfy` | the executor, and what check and executor guarantee together |
| `AuditOutbox.dfy`, `AuditFlush.dfy`, `AuditDelivery.dfy`, `AuditHeldUp.dfy`, `AuditTimeline.dfy` | outbox and ledger as a state machine; what a flush does; the coordinator's flush and sweep; what a refused page holds up; the timeline |
| `ThreadEventNotifier.dfy`, `ChatEventStream.dfy` | wake-ups, and the reader's cursor loop |
| `AgentDataDiscovery.dfy` | the single-flight inventory of a run |
| `AgentRuntime.dfy` | the tool conversation |
| `AnalysisBoard.dfy`, `Orchestrator.dfy`, `WorkItems.dfy` | board, orchestrated run, and the lives of its executions |
| `Citations.dfy` | claims and the citations they rest on |
| `SourceScoping.dfy`, `IdentifierQuoting.dfy` | qualified members and quoted identifiers |
| `Wrappers.dfy`, `Sequences.dfy` | an option type; facts about sequences without repetition |

Environments are universally quantified: an agent is any function of the invocation's number, the node and
the handoff; a model and a tool any function of the call; a ledger may land a row and still raise. Clocks,
fresh ids, network answers and cancellations are parameters or steps.

## Where the code and what is said of it differ

The model follows the code. Where a promise fails, a lemma names when.

* The check finds triggers by type, the engine starts from the id `trigger`: an accepted document may stop
  before its first agent, exactly when no edge leaves that id (`AcceptedNeedNotStart`).
* Loop counters are kept by edge id and ids may repeat. Each loop edge still stays within its own limit
  (`CompletedRunIsDeclared`); the bound on a run counts each id once, with its largest limit
  (`EveryRunEnds`). An accepted document whose loop edges share an id may have no agents that complete it
  (`AcceptedNeedNotComplete`); a document can be completed exactly when a simple path leads to a result on
  which no loop edge is refused (`CompletableIff`).
* The notifier's comments say that a thread nobody watches keeps nothing. Its entry in the map outlives the
  last watcher exactly when that watcher was woken; no count and no event in use remains
  (`EntryOutlivesWatchersIff`, `EntryCanOutliveWatchers`).
* A timeline is two reads. An event that reached the ledger and was marked between them is missing from
  both (`TimelineCanMissAnEvent`); an event is missing exactly when it was dispatched by the second read
  and not yet in the ledger at the first (`MissingIff`).
* A flush reads one page of 100 rows. Within the page no failing record stops another (`TriedAt`), but records
  that fail for good can hold up others: an event is delivered by some number of flushes exactly when it is not
  refused itself and fewer than 100 refused events of its run stand before it (`DeliveredInTheEndIff`,
  `AcceptedEventIsHeldUp`).
* The sweep reads one page of 100 rows for a whole organization. The page stays what it is exactly when all on
  it is refused (`PageStaysIff`), and then no sweep touches a run without an event on it, however well that
  run's own events would be received (`RefusedPageHides`, `AcceptedEventIsHidden`).
* Citations are reused by metric and period without looking at the value again: a citation carries the
  figure of every claim that cites it exactly when claims that share metric and period agree
  (`FiguresMatchIff`).
* `_invoke` says that nothing in it raises. Kinds of exception it does not name pass through, and the run
  ends without a result; this is the outcome `ToolBroke` of `AgentRuntime.Run`, which it has exactly when a
  call that was asked for breaks.
* A call that arrives between a failed load and that load's callback joins it and gets the failure:
  that happens (`CallCanJoinAFailedLoad`), and exactly while the registered load has failed without being
  discarded (`WhatACallMeets`).
* A run's view of its connections is meant to be one snapshot. Catalogs are kept as they are harvested, and a load
  that fails leaves its own behind: `schema_inspect` can serve one that the later, successful snapshot does not
  have (`CatalogCanOutliveItsLoad`); the two agree exactly when the load that succeeded harvested every
  connection that any load had (`SnapshotCatalogsIff`).
* A rejection needs a reason that is not blank, so an agent that raises with no message leaves its work
  item running for good (`SettledIff`).
* The board in memory is changed before its rows. A commit that fails during a merge leaves it one fact ahead
  (`BoardCoordinator.Merge`), one that fails while settling or opening leaves it ahead by that change.
* The query tool turns away a query that the layer would route exactly when the source's catalog is empty
  (`InScopeIff`).
* The coordinator calls `list_for_analysis_run`; the ledger's adapter in this repository names that method
  `list_for_investigation`. They are modelled as one operation. Nor does the entry fit:
  `AuditDeliveryCoordinator._entry` passes `analysis_run_id` (audit_delivery.py:290-295) to an `AuditEntry` that
  forbids extra fields and requires `investigation_id` (clickhouse audit.py:49-56), so as written every append
  raises before it reaches the ledger. The model takes the entry as the coordinator means it; the code as
  written is the ledger that refuses everything, one of those the theorems range over.
* `quote_identifier` calls doubling the ledger's own escaping rule. It is undone exactly by a reader for whom
  doubling is the only escape (`ScanIff`, `TokensIff`); one that also takes a backslash and the character after
  it for one character reads back exactly the names without a backslash (`EscapedIff`).

## Model

| member | source | states |
|---|---|---|
| `WorkflowDocument.ClosedWalkHasLasso` | apps/api/src/zentra_api/workflow_routes.py:157-169 | any closed walk without loop edges can be shortened to a simple path that returns onto itself by a stretch without loop edges, the shape the search looks for |
| `WorkflowDocument.UncountedCycleIffLasso` | apps/api/src/zentra_api/workflow_routes.py:151-174 | a document has a round no loop edge counts exactly when it has such a simple path |
| `WorkflowValidator.AgentVerdict` | apps/api/src/zentra_api/workflow_routes.py:99-112 | the scan of the agents, on the nodes' own fields: no error exactly when every agent node has data, none but the three tools, a supported role, the orchestrator's if it is the controller, and a cube analyst's or an evaluator's if it holds any tool; and each of the five errors exactly when the first node that is not so has that fault |
| `WorkflowValidator.AgentErrorIsFault` | apps/api/src/zentra_api/workflow_policy.py:55-64 | the policy check of one node, field by field: which of the five faults it reports |
| `WorkflowValidator.AgentErrorIff` | apps/api/src/zentra_api/workflow_routes.py:99-112 | the verdict on a document is an agent error exactly when its shape is right and the first bad agent has that fault |
| `WorkflowValidator.EdgeErrorIff` | apps/api/src/zentra_api/workflow_routes.py:113-129 | it is a dangling edge or a loop edge without a positive limit exactly when shape and agents are right and the first bad edge has that fault |
| `WorkflowValidator.AcceptedIff` | apps/api/src/zentra_api/workflow_routes.py:64-175 | a document is accepted exactly when ids are non-empty and distinct, there are a trigger, a result and one controller, agents and edges are as they must be, some trigger leads to a result, only the controller forks among agents, and no round goes uncounted |
| `WorkflowValidator.ReachableNodes` | apps/api/src/zentra_api/workflow_routes.py:130-137 | the growing set ends as exactly the nodes that a walk from some trigger-typed node reaches |
| `WorkflowValidator.ClosedSetHoldsWalkEnd` | apps/api/src/zentra_api/workflow_routes.py:132-137 | a set that no edge leaves holds the end of every walk that starts in it |
| `WorkflowValidator.BackEdgeLasso` | apps/api/src/zentra_api/workflow_routes.py:159-167 | for an edge back onto the path, examining the path from the returned-to node plus that edge for loop metadata decides exactly whether a round without loop edges goes through it |
| `WorkflowValidator.ForwardEdgeLasso` | apps/api/src/zentra_api/workflow_routes.py:168-169 | for an edge to a node off the path, the rounds through it are exactly those the recursive call looks for |
| `WorkflowValidator.CycleSearch.HasUnboundedCycle` | apps/api/src/zentra_api/workflow_routes.py:151-171 | the recursive search over a shared path list answers exactly whether a round without loop edges extends the current path; on a fruitless return the list is as it was; it terminates |
| `WorkflowValidator.LassoIffFromSomeNode` | apps/api/src/zentra_api/workflow_routes.py:173-174 | searching from every node in turn misses no round |
| `WorkflowValidator.SearchEveryNode` | apps/api/src/zentra_api/workflow_routes.py:173-174 | false from every node exactly when no closed walk uses only non-loop edges |
| `WorkflowValidator.ShapeErrorOf` | apps/api/src/zentra_api/workflow_routes.py:69-98 | ids present and unique, a trigger, a result and exactly one controller, the first failing in this order |
| `WorkflowValidator.GraphErrorOf` | apps/api/src/zentra_api/workflow_routes.py:130-174 | the first of: no walk from a trigger to a result, a choice outside the controller, a round without loop metadata |
| `WorkflowValidator.DocumentErrorOf` | apps/api/src/zentra_api/workflow_routes.py:64-175 | the verdict on every document is the first violated condition, stated by what the document is and not by the search; none exactly when the document conforms, an agent or edge error only with the first agent or edge at fault so |
| `WorkflowValidator.AcceptedIsSound` | apps/api/src/zentra_api/workflow_routes.py:113-175 | acceptance gives the engine distinct ids, resolved references, positive loop limits and no uncounted round |
| `WorkflowEngine.WalkLength` | apps/api/src/zentra_api/workflow_runtime.py:44-75 | where every round holds a loop edge, a walk with L loop edges is shorter than nodes times (1 + L) |
| `WorkflowEngine.LoopCountIsSumOfUses` | apps/api/src/zentra_api/workflow_runtime.py:69-72 | the loop edges a run took are the sum of its counters over the distinct loop ids |
| `WorkflowEngine.UsesWithinBudget` | apps/api/src/zentra_api/workflow_runtime.py:68-72 | counters within the largest limit of their id sum to at most the document's budget |
| `WorkflowEngine.RunIsDeclaredWalk` | apps/api/src/zentra_api/workflow_runtime.py:44-75 | invariant of every run and every agent: the edges taken are a walk of declared edges, each the first with its route at its node, chosen among several only by the controller, within every limit, leaving no result node |
| `WorkflowEngine.RunLength` | apps/api/src/zentra_api/workflow_runtime.py:44-75 | a run still going after n invocations has taken n edges |
| `WorkflowEngine.RunningIsEarly` | apps/api/src/zentra_api/workflow_runtime.py:44-75 | a run of a document without uncounted rounds can only be going before the bound |
| `WorkflowEngine.EveryRunEnds` | apps/api/src/zentra_api/workflow_runtime.py:37-77 | for every accepted document and every agent behaviour the run is over after nodes times (1 + B) invocations, B the sum over loop ids of the largest limit |
| `WorkflowEngine.PermittedIff` | apps/api/src/zentra_api/workflow_runtime.py:48-72 | what a reply leads to, on the document and the counters alone: the edge it picks (the first out of the node with the route, proposed by a controller wherever there is another way) is taken exactly when it is no loop edge or its counter is below its limit; loop limit reached exactly when the counter of the loop edge picked has come to its limit; every other refusal exactly with its own cause |
| `WorkflowEngine.Follow` | apps/api/src/zentra_api/workflow_runtime.py:48-74 | the checks on a proposed route give that verdict and no other, with the dictionary of loop counts kept equal to the uses along the trace |
| `WorkflowEngine.TakeTurn` | apps/api/src/zentra_api/workflow_runtime.py:44-75 | one turn of the loop ends the run where the step relation ends, or reaches the node it reaches |
| `WorkflowEngine.RunWithin` | apps/api/src/zentra_api/workflow_runtime.py:37-77 | the loop with its lists and dictionary ends exactly where the step relation does, and not before |
| `WorkflowEngine.Run` | apps/api/src/zentra_api/workflow_runtime.py:37-77 | running an accepted document terminates within the call bound with the outcome of its run, whose every invocation is what `InvocationIsVerdict` says |
| `WorkflowTheorems.CompletedRunIsDeclared` | apps/api/src/zentra_api/workflow_runtime.py:37-77 | a completed run reports as many routes as nodes as invocations, a declared walk to a result node, and the last handoff |
| `WorkflowTheorems.InvocationIsVerdict` | apps/api/src/zentra_api/workflow_runtime.py:44-75 | one invocation of any run: a raise stops it at its node, a refusal stops it there with the cause that document and counters give, and else the edge picked is taken with the handoff of the agent |
| `WorkflowTheorems.StartsAtFirst` | apps/api/src/zentra_api/workflow_runtime.py:38-39 | a run begins, with the message, at the target of the first declared edge out of the id trigger |
| `WorkflowTheorems.LimitIsReached` | apps/api/src/zentra_api/workflow_runtime.py:68-72 | a limit is reached and not passed: where a loop edge with its own id begins a playable round that has no other loop edge, some agents take it exactly max_iterations times, and the next time they choose it the run stops there with the loop limit reached |
| `WorkflowTheorems.OnlyControllerSteers` | apps/api/src/zentra_api/workflow_runtime.py:48-75 | two runs whose controllers propose the same routes wherever both answer take the same edges and stop at the same node, whatever the other agents propose and whatever the messages say, but that an agent that raises may cut one short on the way of the other |
| `WorkflowTheorems.SteeredAlike` | apps/api/src/zentra_api/workflow_runtime.py:48-75 | where the agents raise alike the two runs stay together to the end |
| `WorkflowTheorems.CompletableIff` | apps/api/src/zentra_api/workflow_runtime.py:38-75 | for every document in order, shared loop ids included: some agents complete it exactly when a simple path over edges the engine would choose leads to a result with no loop edge refused on it |
| `WorkflowTheorems.RunIsAllowed` | apps/api/src/zentra_api/workflow_runtime.py:68-72 | on every run no loop edge was refused where it was taken, counters being kept by id |
| `WorkflowTheorems.CutIsAllowed` | apps/api/src/zentra_api/workflow_runtime.py:68-72 | cutting a round out of a walk never makes a loop edge refused, so the path may be taken simple |
| `WorkflowTheorems.CompletableIffWithOwnIds` | apps/api/src/zentra_api/workflow_runtime.py:38-75 | where loop edges have ids of their own, any path will do |
| `WorkflowTheorems.AcceptedIsCompletable` | apps/api/src/zentra_api/workflow_routes.py:130-149 | an accepted document with one trigger named as the engine expects, one edge out of it, agents elsewhere, own loop ids and distinct non-empty controller routes can be completed |
| `WorkflowTheorems.AcceptedNeedNotStart` | apps/api/src/zentra_api/workflow_runtime.py:38-38 | an accepted document that stops before its first agent, and that a document does so exactly when no edge leaves the id trigger |
| `WorkflowTheorems.AcceptedNeedNotComplete` | apps/api/src/zentra_api/workflow_runtime.py:68-72 | an accepted document with two loop edges of one id and limit one that has a path to its result and that no agents complete |
| `WorkflowTheorems.LongRunHasEndlessRound` | apps/api/src/zentra_api/workflow_runtime.py:44-75 | a run that outlasts the bound has itself gone round without a loop edge |
| `WorkflowTheorems.EndlessIff` | apps/api/src/zentra_api/workflow_routes.py:151-174 | for every document in order, shared loop ids included: agents can keep the engine going for ever exactly when a simple path with no loop edge refused on it leads to a round without loop edges, which is what the cycle check is for |
| `WorkflowTheorems.EndlessIffWithOwnIds` | apps/api/src/zentra_api/workflow_routes.py:151-174 | where loop edges have ids of their own, any way to the round will do |
| `AuditOutbox.StepKeepsInv` | apps/api/src/zentra_api/audit_delivery.py:109-149 | every step of every flush, failed append and crash keeps: dispatched rows are in the ledger, ledger rows are outbox rows, instants increase within a run |
| `AuditOutbox.EnqueueKeepsTable` | libs/adapters/postgres/src/zentra_adapter_postgres/analysis_run.py:405-466 | the floor at enqueueing keeps each run's instants strictly increasing |
| `AuditOutbox.StampIsLeast` | libs/adapters/postgres/src/zentra_adapter_postgres/analysis_run.py:405-466 | enqueueing adds one row as the event has it, stamped with the event's own instant when that is after every earlier event of its run and else one tick after one of them |
| `AuditOutbox.ReplayKeepsInv` | apps/api/src/zentra_api/audit_delivery.py:109-149 | the invariant over any interleaving of any length, in which rows are never lost or undispatched and the ledger only grows |
| `AuditOutbox.NothingIsLost` | apps/api/src/zentra_api/audit_delivery.py:109-149 | from every reachable state on: no event disappears, a dispatched one is in the ledger, and the ledger invents nothing |
| `AuditOutbox.DeliveredMeansDispatched` | apps/api/src/zentra_api/audit_delivery.py:120-149 | a flush that answers true has dispatched, and the ledger holds, every record it saw |
| `AuditDelivery.AuditDeliveryCoordinator.DeliverPending` | apps/api/src/zentra_api/audit_delivery.py:109-149 | the new outbox and ledger, every record of the page tried, true exactly when no append raised; broken off at a commit that fails, with what had been done by then; a run of the state machine either way |
| `AuditDelivery.FlushIsARun` | apps/api/src/zentra_api/audit_delivery.py:121-148 | a flush, broken off or not, leads the state machine from the stores before it to those after |
| `AuditFlush.TriedAt` | apps/api/src/zentra_api/audit_delivery.py:121-148 | each record is marked by its own answer, whatever became of the others, and no other row is touched |
| `AuditFlush.TryingIsARun` | apps/api/src/zentra_api/audit_delivery.py:121-148 | trying the page record by record is a sequence of the state machine's steps |
| `AuditFlush.FlushesAreRounds` | apps/api/src/zentra_api/audit_delivery.py:109-149 | with a ledger that refuses certain events, n flushes act on a run's waiting events alone: each leaves of its page what is refused, and all behind it |
| `AuditFlush.RoundMovesUp` | apps/api/src/zentra_api/audit_delivery.py:116-149 | an event behind the page moves up by what the page delivers, and the refused events before it stay as many |
| `AuditFlush.DeliveredInTheEndIff` | apps/api/src/zentra_api/audit_delivery.py:109-149 | the exact limit of one failing record not stopping the rest: a waiting event is delivered by some number of flushes exactly when it is not refused and fewer than a page of refused events of its run stand before it |
| `AuditHeldUp.AcceptedEventIsHeldUp` | apps/api/src/zentra_api/audit_delivery.py:116-149 | a reachable outbox of a refused page and one event more, which the ledger would take and no number of flushes delivers |
| `AuditFlush.FailingPageStays` | libs/adapters/postgres/src/zentra_adapter_postgres/analysis_run.py:468-481 | while a page is refused every later flush finds the backlog as it was |
| `AuditFlush.DeliveriesDrain` | apps/api/src/zentra_api/audit_delivery.py:109-149 | when nothing is refused, n flushes leave exactly what lies behind the first n pages |
| `AuditDelivery.SweptRowIsPending` | apps/api/src/zentra_api/audit_delivery.py:266-279 | an event early enough for the sweep's page of its organization is early enough for its own run's page, so the flush the sweep starts tries it |
| `AuditDelivery.AuditDeliveryCoordinator.SweepOrganization` | apps/api/src/zentra_api/audit_delivery.py:260-281 | the exact table after an organization's turn: of each run it flushed the records reached are marked by their own answers, no other row touched; it flushed every run on its page, or ended with the first flush that broke off; a run of the state machine |
| `AuditDelivery.AuditDeliveryCoordinator.Sweep` | apps/api/src/zentra_api/audit_delivery.py:252-281 | the same over all organizations of a round, those seen and those bound but for those unreadable; a flush that breaks off ends its own organization's turn and no other |
| `AuditDelivery.SweepTriesItsPages` | apps/api/src/zentra_api/audit_delivery.py:252-281 | a round tries every event of the page of every organization in whose turn no flush breaks off, and delivers all of such an organization when nothing raises and its backlog is no larger than a page |
| `AuditDelivery.TurnIsSweepOnce` | apps/api/src/zentra_api/audit_delivery.py:266-279 | a turn in which no flush breaks off is one function of the table, in whatever order its runs are flushed |
| `AuditDelivery.RefusedPageHides` | apps/api/src/zentra_api/audit_delivery.py:266-279 | while all on an organization's page is refused, any number of turns sees that page, and the runs without an event on it are not touched |
| `AuditDelivery.PageStaysIff` | apps/api/src/zentra_api/audit_delivery.py:266-279 | the page stays what it is for every number of turns exactly when the ledger refuses all that is on it |
| `AuditHeldUp.AcceptedEventIsHidden` | apps/api/src/zentra_api/audit_delivery.py:266-279 | a reachable outbox in which one run's refused page keeps every sweep from another run's event, which a flush of its own run delivers |
| `AuditTimeline.ListForAnalysisRun` | libs/adapters/clickhouse/src/zentra_adapter_clickhouse/audit.py:216-244 | in the order of the query, one row an id, the first, for exactly the ids in the ledger |
| `AuditTimeline.QueriedAreThose` | libs/adapters/clickhouse/src/zentra_adapter_clickhouse/audit.py:224-230 | the query returns the run's rows, each as often as the ledger has it, sorted by instant and id |
| `AuditTimeline.RepeatsDoNotShow` | libs/adapters/clickhouse/src/zentra_adapter_clickhouse/audit.py:229-244 | the order of the query and dropping the rows that redelivery duplicated change no timeline |
| `AuditTimeline.ListTimeline` | apps/api/src/zentra_api/audit_delivery.py:174-239 | entries once an id, from the ledger when it has them, else undispatched outbox rows, all of them, sorted by instant and id |
| `AuditTimeline.SortedValues` | apps/api/src/zentra_api/audit_delivery.py:234-239 | the dictionary's values, each once, in timeline order |
| `AuditTimeline.TimelineOfTwoReads` | apps/api/src/zentra_api/audit_delivery.py:157-239 | exactly what a timeline shows when other steps came between its two reads, as a function of both states |
| `AuditTimeline.TimelineIsExact` | apps/api/src/zentra_api/audit_delivery.py:174-239 | read in one reachable state: every event of the run once, in order of enqueueing, complete exactly when the ledger holds it, whatever was delivered twice |
| `AuditTimeline.TimelineWithoutLedger` | apps/api/src/zentra_api/audit_delivery.py:163-172 | with the ledger unreadable, exactly the undispatched events |
| `AuditTimeline.MissingIff` | apps/api/src/zentra_api/audit_delivery.py:158-172 | an event is missing exactly when dispatched by the outbox read and not in the ledger at the ledger read |
| `AuditTimeline.TimelineCanMissAnEvent` | apps/api/src/zentra_api/audit_delivery.py:158-172 | a reachable state and a flush that make a timeline miss an event, for any event |
| `ThreadEventNotifier.Notifications.Register` | apps/api/src/zentra_api/thread_event_notifier.py:49-54 | the state after registering: the event taken or created, the count raised |
| `ThreadEventNotifier.Notifications.Unregister` | apps/api/src/zentra_api/thread_event_notifier.py:58-66 | the state after clean-up: the last call removes its own event and no fresher one |
| `ThreadEventNotifier.Notifications.Deliver` | apps/api/src/zentra_api/thread_event_notifier.py:68-78 | the state after an announcement: the event set and replaced |
| `ThreadEventNotifier.ReachableInv` | apps/api/src/zentra_api/thread_event_notifier.py:28-78 | in every reachable state counts are the waiting calls, every event in the map is unset, and every call's event is set or in the map |
| `ThreadEventNotifier.LeaveKeepsInv` | apps/api/src/zentra_api/thread_event_notifier.py:58-66 | clean-up never removes an event another call waits on |
| `ThreadEventNotifier.CallIsCounted` | apps/api/src/zentra_api/thread_event_notifier.py:59-60 | the count a call lowers is there and positive |
| `ThreadEventNotifier.WokenWhileWaiting` | apps/api/src/zentra_api/thread_event_notifier.py:49-78 | over any run in which a call keeps waiting, it is woken by announcements of its thread and by nothing else |
| `ThreadEventNotifier.WokenIffAnnounced` | apps/api/src/zentra_api/thread_event_notifier.py:49-78 | no wake-up is lost or invented: from registering on, awake exactly when announced since |
| `ThreadEventNotifier.EntryWasWatched` | apps/api/src/zentra_api/thread_event_notifier.py:49-78 | in every run a thread has an entry only if a call once registered for it, however often it was announced |
| `ThreadEventNotifier.AnnouncementAddsNoEntry` | apps/api/src/zentra_api/thread_event_notifier.py:68-78 | an announcement leaves calls, counts and the threads with an entry as they are, and for an unwatched thread changes nothing |
| `ThreadEventNotifier.EntryOutlivesWatchersIff` | apps/api/src/zentra_api/thread_event_notifier.py:58-78 | when the last watcher leaves, an entry stays in the map exactly when it was woken, and it is unset and unused |
| `ThreadEventNotifier.EntryCanOutliveWatchers` | apps/api/src/zentra_api/thread_event_notifier.py:58-78 | a reachable state in which the last watcher leaves an entry behind |
| `ChatEventStream.PageContinues` | libs/adapters/postgres/src/zentra_adapter_postgres/work_feed.py:115-130 | any part of a page after a cursor, taken from its start, continues exactly where the frames so far end |
| `ChatEventStream.LaterCommitsLieAhead` | libs/adapters/postgres/src/zentra_adapter_postgres/work_feed.py:44-78 | commits in increasing sequence never add an entry behind a reader |
| `ChatEventStream.EmitPage` | apps/api/src/zentra_api/chat_routes.py:656-664 | exactly one frame an event of the page, in order, for as long as the reader stays, the cursor on the last |
| `ChatEventStream.Turn` | apps/api/src/zentra_api/chat_routes.py:650-678 | one turn: all of the page that the reader stays for and nothing else, or a wait with a heartbeat exactly when one is due; the frames stay what the reader is owed |
| `ChatEventStream.EventStream` | apps/api/src/zentra_api/chat_routes.py:647-678 | whatever woke the reader and wherever it left, between two frames of a page included, its event frames are the log between start and cursor without gap or repeat; while it stays the cursor goes over the page of every poll in full; all of the log when a poll comes back empty; turn by turn what each poll emits, heartbeats included |
| `ChatEventStream.HeartbeatIff` | apps/api/src/zentra_api/chat_routes.py:665-678 | a poll that finds nothing emits a heartbeat exactly when the seven turns before it emitted nothing |
| `ChatEventStream.CatchesUp` | apps/api/src/zentra_api/chat_routes.py:650-664 | over a log that stands still every poll passes a full page of entries until all are passed |
| `ChatEventStream.ResumedSession` | apps/api/src/zentra_api/chat_routes.py:638-655 | a session resumed from the last id seen continues the one before: together they are what one session would be |
| `AgentDataDiscovery.StepKeepsInv` | apps/api/src/zentra_api/agent_data_discovery.py:49-110 | every interleaving of callers, cancellations, failures and callbacks keeps the single-flight invariant |
| `AgentDataDiscovery.SingleFlight` | apps/api/src/zentra_api/agent_data_discovery.py:49-110 | one load an organization at a time, none once it has a snapshot, calls equal to hits plus loads |
| `AgentDataDiscovery.CancellationDoesNotShow` | apps/api/src/zentra_api/agent_data_discovery.py:54-63 | cancelling callers shows in nothing: any run leads where it leads without its cancellations |
| `AgentDataDiscovery.SnapshotIsFinal` | apps/api/src/zentra_api/agent_data_discovery.py:105-119 | after a successful load no further load is the organization's, and inventory and catalogs stay as they were |
| `AgentDataDiscovery.SnapshotCatalogsIff` | apps/api/src/zentra_api/agent_data_discovery.py:80-119 | the catalogs a snapshot is read with are exactly those of the load that took it if and only if that load harvested every connection that any load of the organization had |
| `AgentDataDiscovery.CatalogCanOutliveItsLoad` | apps/api/src/zentra_api/agent_data_discovery.py:87-119 | steps after which a snapshot is read with a catalog that only a failed load had harvested |
| `AgentDataDiscovery.WhatACallMeets` | apps/api/src/zentra_api/agent_data_discovery.py:50-63 | when a call is answered, joins or starts a load; it joins a failed one exactly when there is no snapshot and the registered load has failed without being discarded, and a running one exactly when there is one |
| `AgentDataDiscovery.CallCanJoinAFailedLoad` | apps/api/src/zentra_api/agent_data_discovery.py:54-69 | a reachable state in which a call joins a failed load and counts as a hit |
| `AgentDataDiscovery.FailedLoadIsRetried` | apps/api/src/zentra_api/agent_data_discovery.py:58-69 | once its callback has run a failed load is out of the way, and the next call starts another |
| `AgentDataDiscovery.ConnectorDataDiscovery.EnterInventory` | apps/api/src/zentra_api/agent_data_discovery.py:49-63 | a call up to its first await is the machine's step |
| `AgentDataDiscovery.ConnectorDataDiscovery.FinishLoad` | apps/api/src/zentra_api/agent_data_discovery.py:105-110 | the snapshot is kept only when the load got through |
| `AgentDataDiscovery.ConnectorDataDiscovery.DiscardInventoryTask` | apps/api/src/zentra_api/agent_data_discovery.py:65-69 | a finished task removes itself and only itself |
| `AgentRuntime.UsageAddsUp` | libs/domain/agent-execution/src/zentra_domain_agent_execution/contracts.py:150-164 | tokens and cost add up over any split of the calls |
| `AgentRuntime.UsageNamesLatest` | libs/adapters/langgraph/src/zentra_adapter_langgraph/runtime.py:245-255 | the model reported is the last that named itself |
| `AgentRuntime.TotalIsBill` | libs/adapters/langgraph/src/zentra_adapter_langgraph/runtime.py:245-255 | the total is the sum of the responses' own input tokens, output tokens and costs, each to its own, and names the last model that was named, none when none was |
| `AgentRuntime.FirstOccurrencesAreEach` | libs/adapters/langgraph/src/zentra_adapter_langgraph/runtime.py:148-148 | fallbacks are each of those met, once |
| `AgentRuntime.FirstOccurrencesInOrder` | libs/adapters/langgraph/src/zentra_adapter_langgraph/runtime.py:148-148 | they stand in the order in which they were first met |
| `AgentRuntime.Remember` | libs/adapters/langgraph/src/zentra_adapter_langgraph/runtime.py:186-186 | updating the ordered dictionary turn by turn is deduplicating the whole list |
| `AgentRuntime.OfferedAreHeld` | libs/adapters/langgraph/src/zentra_adapter_langgraph/tools.py:245-253 | the tools offered are exactly those registered that the agent holds |
| `AgentRuntime.OfferedInOrder` | libs/adapters/langgraph/src/zentra_adapter_langgraph/tools.py:245-253 | in the order of the registry, each permitted place once |
| `AgentRuntime.OnlyHeldRan` | libs/adapters/langgraph/src/zentra_adapter_langgraph/tools.py:255-270 | what a session says ran is of held and registered tools only |
| `AgentRuntime.Invoke` | libs/adapters/langgraph/src/zentra_adapter_langgraph/runtime.py:207-242 | a tool runs exactly when held and registered; the result bears the call's id and what the tool or the refusal said |
| `AgentRuntime.InvokeAll` | libs/adapters/langgraph/src/zentra_adapter_langgraph/runtime.py:158-162 | the calls of a turn answered one for one in order, each result saying what its call came to, logged with its success; all answered exactly when none breaks; what ran is the held calls up to the first that breaks |
| `AgentRuntime.AskKeeps` | libs/adapters/langgraph/src/zentra_adapter_langgraph/runtime.py:132-148 | a model call keeps transcript, accounts and log, with schema and tools never sent together |
| `AgentRuntime.AnswerCalls` | libs/adapters/langgraph/src/zentra_adapter_langgraph/runtime.py:150-166 | a tool turn leaves every call of it answered exactly when none breaks, else the run ends at it |
| `AgentRuntime.BrokenIff` | libs/adapters/langgraph/src/zentra_adapter_langgraph/runtime.py:221-242 | a session ends with a broken tool exactly when some call that was asked for breaks |
| `AgentRuntime.ScriptReplies` | libs/adapters/langgraph/src/zentra_adapter_langgraph/runtime.py:150-200 | a pair of turns that replies to the last answer (its own words and calls, then the results, the closing turn or the reason of the refusal) keeps the conversation what its answers make it |
| `AgentRuntime.Close` | libs/adapters/langgraph/src/zentra_adapter_langgraph/runtime.py:168-187 | words that are to be closed are said back, followed by the closing turn and one call with the schema alone |
| `AgentRuntime.Judge` | libs/adapters/langgraph/src/zentra_adapter_langgraph/runtime.py:189-200 | an answer ends the run as malformed exactly when it does not parse, as accepted exactly when it parses and is not refused, and is otherwise said back with the reason |
| `AgentRuntime.JudgedWereRefused` | libs/adapters/langgraph/src/zentra_adapter_langgraph/runtime.py:189-200 | every judged answer that was replied to had parsed and was refused |
| `AgentRuntime.Conclude` | libs/adapters/langgraph/src/zentra_adapter_langgraph/runtime.py:168-200 | a turn without calls is closed by one call at most and judged |
| `AgentRuntime.Run` | libs/adapters/langgraph/src/zentra_adapter_langgraph/runtime.py:102-205 | for every model and tools: the conversation is exactly what the answers make it, each call made with it as it then stood, every answer but the one that ends the run replied to, so that the first acceptable answer is taken and the budget is spent only on refusals and calls; every result says what its call came to; calls answered and logged in order with their success; what ran exactly the held calls; the usage reported the sums of the responses' own tokens and costs, the fallbacks those they met in the order they met them; steps counted exactly, at most two model calls each; a broken tool exactly when a call breaks |
| `AnalysisBoard.ContradictedByFinds` | libs/domain/analysis_run/src/zentra_domain_analysis_run/analysis_run_board.py:144-165 | an incumbent is found exactly when a fact of the board disagrees |
| `AnalysisBoard.RecordKeepsMatch` | apps/api/src/zentra_api/orchestrator_board.py:87-102 | recording a fact keeps conflicts neither missed nor invented |
| `AnalysisBoard.MergeKeepsMatch` | apps/api/src/zentra_api/orchestrator_board.py:73-102 | so does merging any measurement |
| `AnalysisBoard.MergeOpens` | apps/api/src/zentra_api/orchestrator_board.py:73-102 | the facts of a measurement follow those of the board in order, and each that is against an earlier one opens one conflict, Open, from the value of the first fact it is against to its own; gaps and earlier conflicts stay as they were |
| `AnalysisBoard.ContradictedByFirst` | libs/domain/analysis_run/src/zentra_domain_analysis_run/analysis_run_board.py:144-165 | the incumbent is the first fact of the board with the metric and period and another value |
| `AnalysisBoard.ConflictIffDisagreement` | apps/api/src/zentra_api/orchestrator_board.py:73-102 | a board has a conflict exactly when two of its facts disagree, in whatever order they were merged |
| `AnalysisBoard.DocumentingSettles` | apps/api/src/zentra_api/orchestrator_board.py:104-125 | documenting leaves no conflict open and loses none |
| `AnalysisBoard.SettledConflicts` | apps/api/src/zentra_api/orchestrator_board.py:104-125 | documenting turns the open conflicts of a merge into documented ones between the same two values, one for one |
| `AnalysisBoard.BoardCoordinator.Merge` | apps/api/src/zentra_api/orchestrator_board.py:73-102 | the board grows as `MergeOpens` says; memory and rows agree after a merge that went through, and part at the first commit that did not, one fact behind |
| `AnalysisBoard.BoardCoordinator.DocumentConflicts` | apps/api/src/zentra_api/orchestrator_board.py:104-125 | every open conflict documented in memory, everything else as it was; the rows follow when the commit goes through and stay when it does not |
| `AnalysisBoard.BoardCoordinator.CloseBoard` | apps/api/src/zentra_api/orchestrator_board.py:151-170 | a gap is resolved afterwards exactly when it was or its normalised description was answered, and nothing else changes; the rows follow with the commit, which is not made when none was |
| `AnalysisBoard.BoardCoordinator.OpenGaps` | apps/api/src/zentra_api/orchestrator_board.py:138-149 | the new gaps follow the old ones in memory, and in the rows when the commit goes through |
| `Orchestrator.AcceptFollowups` | apps/api/src/zentra_api/orchestrator_evidence.py:103-118 | accepted follow-ups are stripped objectives of eligible proposals in order, distinct from each other and the question under case folding, none passed over without such a repeat, no more than a positive limit |
| `Orchestrator.GapsCloseWithTheirBranches` | apps/api/src/zentra_api/orchestrator_loop.py:388-392 | closing the board after a run closes the gap of the question, and that of a follow-up exactly when its own branch survived, because accepted objectives do not fold alike |
| `Orchestrator.Measure` | apps/api/src/zentra_api/orchestrator_measurements.py:91-150 | the loop ends after one to three rechecks, on the first pass or on the third, or where an agent raised |
| `Orchestrator.StepKeepsBranches` | apps/api/src/zentra_api/orchestrator_measurements.py:103-150 | every step of every branch keeps executions alternating and within the attempts |
| `Orchestrator.ReplayKeepsInv` | apps/api/src/zentra_api/orchestrator_loop.py:330-392 | the run's invariant over any interleaving of its branches |
| `Orchestrator.BoardIsOfRun` | apps/api/src/zentra_api/orchestrator_loop.py:349-368 | in every reachable state the board is what the steps of the run make it: the evidence of the primary and then of each follow-up, one measurement a branch and a broken one's empty, the conflicts among that evidence, open until settled and documented from then on, the question's gap and those of the accepted follow-ups |
| `Orchestrator.RunEndsAsItWent` | apps/api/src/zentra_api/orchestrator_loop.py:332-382 | a branch is broken exactly when it was given up, a run done exactly when Insight came back, and stopped exactly when it was called off or went on from a primary that was given up |
| `Orchestrator.RunIsBounded` | apps/api/src/zentra_api/orchestrator_loop.py:327-382 | at most 6 times (1 + fan-out) + 2 agent executions, on distinct ledger steps |
| `Orchestrator.StepKeepsRows` | apps/api/src/zentra_api/orchestrator_loop.py:327-382 | every step keeps the ledger's rows of each branch, kind by kind, equal to what that branch started |
| `Orchestrator.MeasurementsAreRechecked` | apps/api/src/zentra_api/orchestrator_measurements.py:114-150 | in the ledger, each completed measurement has as many evaluator as analyst executions of its own, one to three, ending on a pass or the third |
| `Orchestrator.PastMeasuringIsMeasured` | apps/api/src/zentra_api/orchestrator_loop.py:332-382 | nothing is planned, merged or drafted before the primary was measured |
| `Orchestrator.SettlesWhatWasMeasured` | apps/api/src/zentra_api/orchestrator_loop.py:354-367 | just before they are settled the conflicts are open and are those among the evidence of every branch; settling documents each and changes nothing else |
| `Orchestrator.InsightSeesSettledBoard` | apps/api/src/zentra_api/orchestrator_loop.py:349-368 | from drafting on the board holds the evidence of every measurement merged, with one documented conflict for each fact of it that was against an earlier one, so a conflict exactly when two measurements disagree; none is open, and the check before Insight passes |
| `Orchestrator.InsightStartsSettled` | apps/api/src/zentra_api/orchestrator_evidence.py:129-135 | the step that starts Insight happens only on a settled board, and once |
| `WorkItems.WorkItem.Start` | libs/domain/analysis_run/src/zentra_domain_analysis_run/work_item.py:95-101 | from which statuses an item starts |
| `WorkItems.WorkItem.Complete` | libs/domain/analysis_run/src/zentra_domain_analysis_run/work_item.py:118-125 | only a running item completes, with its artifact |
| `WorkItems.WorkItem.Reject` | libs/domain/analysis_run/src/zentra_domain_analysis_run/work_item.py:127-134 | only an unsettled item is rejected, and only with a reason that is not blank |
| `WorkItems.StepKeepsInv` | apps/api/src/zentra_api/orchestrator_steps.py:62-161 | each stretch of any execution, side by side with any others, keeps rows, starts and records what the items' histories say |
| `WorkItems.LedgerPairs` | apps/api/src/zentra_api/orchestrator_steps.py:78-150 | however executions overlap and break off: steps, ids and items distinct, every record closes a start, no start closed twice |
| `WorkItems.StepsHaveNoGap` | apps/api/src/zentra_api/orchestrator_steps.py:62-100 | however executions overlap, the steps drawn are 1, 2, 3 and so on, each by exactly one item |
| `WorkItems.StepRunner.Execute` | apps/api/src/zentra_api/orchestrator_steps.py:62-159 | one execution is a run of its stretches, however the agent ends it |
| `WorkItems.StepRunner.Run` | apps/api/src/zentra_api/orchestrator_steps.py:48-161 | the whole outcome table of one work item, cancellation at either checkpoint included, as a run of the state machine that branches share |
| `WorkItems.SettledIff` | apps/api/src/zentra_api/orchestrator_steps.py:100-159 | under every interleaving, an item nothing works on any more is settled exactly when it was not cut off and its execution left a record that is not a failure without words; completed and rejected are what the record says |
| `Citations.RepeatsMetric` | apps/api/src/zentra_api/pipeline.py:483-493 | evidence is refused exactly when it measures a metric twice |
| `Citations.DraftWithCitations` | apps/api/src/zentra_api/pipeline.py:483-557 | succeeds exactly when no claim stops it; then positions are contiguous, each observed claim rests on one citation of its metric and period and interpretations on none, citations are one a key with a figure that is a side of their measurement; else the first claim that stopped it and why |
| `Citations.AddCitation` | apps/api/src/zentra_api/pipeline.py:504-537 | a claim with a new metric and period extends the assembly by one citation |
| `Citations.FiguresMatchIff` | apps/api/src/zentra_api/pipeline.py:514-524 | each citation carries the figure of all claims that cite it exactly when claims of one metric and period agree |
| `Citations.CitationCanCarryAnotherFigure` | apps/api/src/zentra_api/pipeline.py:569-579 | two claims naming the two sides of a measurement are drafted onto one citation with only one of the figures |
| `SourceScoping.LabelIsExact` | apps/api/src/zentra_api/source_scoped_semantic.py:25-26 | the text of a source id identifies it |
| `SourceScoping.LocalIffQualified` | apps/api/src/zentra_api/source_scoped_semantic.py:123-130 | localising is the inverse of qualifying, for every text |
| `SourceScoping.QualifiedIsExact` | apps/api/src/zentra_api/source_scoped_semantic.py:25-26 | names of different sources never collide, and a source's name localises in that source alone |
| `SourceScoping.RoutedIff` | apps/api/src/zentra_api/source_scoped_semantic.py:77-105 | a query is routed to a layer in certain words exactly when re-qualifying those words gives the query back |
| `SourceScoping.RefusedIff` | apps/api/src/zentra_api/source_scoped_semantic.py:80-87 | each refusal, exactly when |
| `SourceScoping.EachSourceKeepsItsPart` | apps/api/src/zentra_api/source_scoped_semantic.py:39-64 | each source's members are read back off the composed catalog, all, in order, and no others |
| `SourceScoping.DescriptionIsExact` | apps/api/src/zentra_api/source_scoped_semantic.py:114-116 | a composed description tells its source and the member's own text apart |
| `SourceScoping.NameIff` | apps/api/src/zentra_api/source_scoped_semantic.py:42-61 | a qualified name is in the composed catalog exactly when its source has that member |
| `SourceScoping.GovernedIff` | libs/domain/agent-execution/src/zentra_domain_agent_execution/ports.py:73-91 | the composed catalog governs a query, all its measures, dimensions, time dimensions and filters being in it, exactly when the source's catalog governs what is sent to it |
| `SourceScoping.BeforeStopsAtColons` | libs/adapters/langgraph/src/zentra_adapter_langgraph/tools.py:211-215 | splitting at the first double colon gives the source's text, whatever the member is called |
| `SourceScoping.KnownIff` | libs/adapters/langgraph/src/zentra_adapter_langgraph/tools.py:210-219 | a source is known from the catalog's names exactly when it is in the layer and its catalog is not empty |
| `SourceScoping.InScopeIff` | libs/adapters/langgraph/src/zentra_adapter_langgraph/tools.py:195-219 | the tool's check and the layer's routing agree but for sources with an empty catalog |
| `SourceScoping.InScopeIsFaithful` | libs/adapters/langgraph/src/zentra_adapter_langgraph/tools.py:195-219 | a query in scope reaches its own source without refusal, and re-qualifying what arrives restores it |
| `SourceScoping.SourceScopedSemanticLayer.ComposedCatalog` | apps/api/src/zentra_api/source_scoped_semantic.py:36-65 | composed from the sources' answers once, and kept |
| `SourceScoping.DataQueryTool.Invoke` | libs/adapters/langgraph/src/zentra_adapter_langgraph/tools.py:179-219 | the answer is the query's own source's to the localised query; refusals change nothing remembered, and a foreign name is refused before the catalog is asked for |
| `IdentifierQuoting.ScanIff` | libs/adapters/clickhouse/src/zentra_adapter_clickhouse/sql.py:13-20 | a scanner that undoes doubling reads a name and stops exactly when the text is that name quoted and no backtick follows |
| `IdentifierQuoting.EscapedIff` | libs/adapters/clickhouse/src/zentra_adapter_clickhouse/sql.py:13-20 | a reader that takes backslashes for escapes reads back exactly the names that hold none |
| `IdentifierQuoting.TokensIff` | libs/adapters/clickhouse/src/zentra_adapter_clickhouse/sql.py:13-20 | to a reader who knows doubling alone, a statement reads back as the author's text and exactly the names put in |
| `IdentifierQuoting.QualifyIsExact` | libs/adapters/clickhouse/src/zentra_adapter_clickhouse/sql.py:23-25 | a reference reads back as exactly its database and table, and no two pairs share one |
| `IdentifierQuoting.AdjacentNamesRunTogether` | libs/adapters/clickhouse/src/zentra_adapter_clickhouse/sql.py:13-25 | two quoted names with nothing between them read as one other name |

## Left out

- Untyped documents: nodes and edges are records; a missing id, data that is no object or a route that is
  no string are not part of this model. A stored role is the role it resolves to, or none.
- HTTP routes, SQL statements, frame text, authentication, settings and telemetry.
- The text of prompts, skills, tool results and error messages beyond what the contracts name; latencies;
  errors of the model provider.
- The inventory: the deep copies handed out, the payload of `schema_inspect` and the join graphs,
  which are stored beside the catalogs.
- Scheduling of the retry loop: one round is `Sweep`; how long it sleeps between rounds is not modelled, nor is
  a fairness assumption under which everything is delivered in the end.
- Sweep: the table after a round is stated for a round with nothing beside it; the round is a run of the state
  machine, whose invariants hold with any other steps in between (`AuditOutbox`). A flush whose first read fails
  leaves the stores as one does that breaks off at a first append that did not land.
- Redaction and metadata of ledger entries; an entry is its id, organization, run, instant and two texts.
- DeliverPending: the stores after it are stated for a flush with nothing beside it; interleavings are the state
  machine's (`AuditOutbox`). One ledger answer stands for one append.
- EventStream: assumes that sequence numbers grow with the commits, which the chat's row lock gives. How
  long a wait lasts is not modelled, and a reader leaves after an event or between polls, not within a frame.
- Register: thread ids are numbers and events are numbered as created; the timeout is the caller leaving.
- DocumentConflicts: conflicts are found by place, where the source looks up their ids; so are gaps in
  CloseBoard. A commit either goes through or leaves the rows as they were.
- Orchestrator: what evidence measurements carry, the deduplication of evidence references, confidence and
  the closing narrative. Starting an execution and entering it in the ledger is one step, so rows appear in
  the order of their step numbers. The machine ends with Insight; what closing the board then closes is
  `GapsCloseWithTheirBranches`, for a stripping that changes nothing when repeated.
- Execute: one execution alone; what overlaps with it, or a store that fails, is the state machine's, where
  being cut off stands for both. Ids are drawn from a counter.
- IdentifierQuoting: escapes that take more than one character after the backslash.
- DraftWithCitations: filters, grain, texts, ids and the rest of the draft, which are copied.
- Case folding, stripping and JSON parsing are arbitrary functions.
- ComposedCatalog: type, format and values of a member are one text, carried along unchanged.
- DataQueryTool.Invoke: parsing of the arguments, and the rendering and truncation of rows.
- Role alias tables, time-to-live checks, pagination and wire schemas: easy, and nothing here rests on them.
