# Restaurant Sahayak: a verified model of the services behind the agents

Restaurant Sahayak lets a manager talk to an orchestrator agent, which delegates to specialist agents; those act only
through typed tools on a reservation book, purchase requests, an approval queue, a memory store and an event bus. This
project models those services, and the agent loops above them, with the language model as an arbitrary oracle: the
theorems hold whatever the model, the specialists, the managers and the event handlers do.

## How the model is built

* `Schema` holds the rows and the errors. `Booking`, `Purchasing`, `Approvals` and `MemoryTable` say, as functions on one
  immutable database state, what a service call leaves behind and what it returns or raises.
* `Session`, `Memories` and `Services` are the mutable form: a session whose tables are fields, and the repository and
  service classes with their loops, early returns, savepoints and field-by-field updates. Every method is proved to do
  to the session exactly what the function prescribes.
* `System` puts the calls together as one transition system, in which a run is any interleaving of create, modify, cancel,
  purchase, approve, reject, expire and the seven memory calls. `DoubleBooking`, `TableSearch`, `UncheckedChanges`, `Gate`,
  `PurchaseLinks`, `Lifecycle`, `DecisionMemories` and `MemoryFacts` hold the theorems over all calls and all runs.
* `EventBus`, `AgentRuns`, `ToolLoop` and `Orchestrator` each hold a specification by functions, the theorems about it,
  and the class that refines it. `Oversight` composes the orchestrator with the database: what a specialist reports is
  what its own tool calls did there, and other requests interleave between any two of them.
* `Calendar` and `Analytics` model the pure date and reporting code.
* `ReservationRules`, `MemoryRules`, `DecisionRules`, `OrchestratorRules`, `ToolLoopRules`, `EventBusRules` and
  `AnalyticsRules` tell what every operation does a second time, on requests and row fields alone, with its constants written
  out and none of the functions the services are specified by, and prove that the model does just that. Only rounding,
  trimming and the sums of a report are used there by name; lemmas of their own say what they are.
* `Prelude` has the option and result types and `OrderBy`, the ORDER BY of a query, with the lemma that a sorted
  listing is unique.

Times are microseconds on the UTC time line. Money and quantities are real numbers, rounded where a column stores them;
`SMALLINT` limits, column widths and CHECK constraints are explicit in `Booking.RowAccepted` and
`Purchasing.PurchaseAccepted`. A service call is one atomic step. `begin_nested()` is a snapshot of the session restored on
failure. An executor may raise before it writes, after it wrote, or after its event was published and subscribers have left
the session in any state; a memory may fail to be embedded or to be stored. Ids are numbers from a counter: only their
freshness is used, except that `AgentRuns` relies on parents existing before children and that ties in an ORDER BY are
broken by id. A memory's topic and scope write an id in decimal, where the code writes a UUID.

## What the code does that one might not expect

* An approved change to the notes alone (or to nothing) is executed on a reservation that is no longer active without a
  conflict check and makes it active again (app/services/reservation_service.py:291-293, 332-335). Executed changes are
  the only way back to being active (`UncheckedChanges.StepReactivates`). `DoubleBooking.RunIsSafe` shows that such an
  unchecked reactivation is the only way to a double booking, and `ReactivationDoubleBooks` exhibits one.
* `_apply_modification` checks neither the table's restaurant nor that the new time lies ahead. `UncheckedChanges` shows
  that reservations stay at their own restaurant's tables, and are only moved ahead, exactly as long as no change that is
  carried out names another restaurant's table or a time gone by, and gives a run for each.
* `created_via` admits only two of the three trigger types (app/models/reservation.py:24-26), so creating a reservation
  from a scheduled run always fails.
* `approve` looks only at the status. `expires_at` matters only to the sweep, and no caller of `create_approval_request`
  sets it, so that from an empty database nothing ever expires (`Lifecycle.RunExpiresNothing`).
* The cost gate compares the proposed cost, and the column rounds it: 199.995 is filed at once as approved and stored as
  200.00, at the threshold (`PurchaseLinks.RoundingBreaksTheGate`). `CostGateIsExact` shows that this is the only leak, and
  `ProposedCostGateHolds` that the proposed cost is gated without exception.
* A memory's scope is one text for customers and agents. A memory added under an agent name that reads like a customer's id
  supersedes what was remembered about that customer (`DecisionMemories.NameReadAsCustomer`).
* `handle` of a specialist promises never to raise, but starting the run and logging its task are outside its `try`
  (app/agents/tool_calling_agent.py:79-114).
* A rejected or expired purchase approval leaves its request open, so the item can never be proposed again
  (`PurchaseLinks.DeadApprovalBlocksItem`). A specialist that proposes it in an orchestrated run parks that run on the dead
  approval for good (`Oversight.DeadProposalParksRun`).
* The comment at app/agents/orchestrator_agent.py:577-580 says a pending result is never retried. What is retried, exactly,
  is a run that did not end with an answer, whatever it had proposed (`Orchestrator.UnansweredRunsAreRetried`). If it
  proposes again, two equal approvals wait (`Oversight.RetryDuplicatesApproval`).
* The record of a decision is an ordinary memory. The customer agent's memory tools can replace, change, forget or delete
  it, and a memory stored under its key beforehand is replaced by it. `DecisionMemories` says exactly when a record lasts.
* An `update_memory` whose new text cannot be embedded reports an error, but the fields it had assigned are written with the
  session's next statement (`System.FailedCallChangesNothing`).
* A gated tool call followed by another successful call in the same run is reported as completed
  (app/agents/tool_calling_agent.py:271-274).
* `start_run` accepts any correlation id; that delegated runs share their parent's is the orchestrator's doing
  (app/agents/orchestrator_agent.py:561-573). `AgentRuns.TraceIsExact` needs it and `AgentRuns.BuildIsExact` says what the
  tree holds without it.
* Covers on a day without sales are missing from the daily report (`Analytics.ReportDropsSalelessCovers`).

## Model

| member | source | states |
|---|---|---|
| DoubleBooking.RunIsSafe | app/services/reservation_service.py:119-152 | Over any run from a valid book, no state has two active reservations on one table at one moment if and only if no step executes an approved slot-preserving change on an inactive reservation whose slot is taken |
| DoubleBooking.NoDoubleBookingUnderProviso | app/services/reservation_service.py:282-341 | If every approved change executed on an inactive reservation names a table, time or party, no state of the run has a double booking |
| DoubleBooking.StepIsSafe | app/services/reservation_service.py:313-349 | The single-step form of the exact condition, for every kind of call |
| DoubleBooking.ReactivationDoubleBooks | app/services/reservation_service.py:291-293 | From an empty book a six-call run ends with two active reservations at one table and moment, so the proviso is needed |
| DoubleBooking.BothProposalsWait | app/services/reservation_service.py:203-219 | A cancellation and a notes-only change of one large booking can both be pending |
| DoubleBooking.DecidingBothRevives | app/services/reservation_service.py:325-341 | Approving both, with a booking of the freed slot in between, double books the table |
| DoubleBooking.ConflictCheckIsExact | app/repositories/reservation_repo.py:53-73 | In a conflict-free book, writing a row keeps it conflict-free if and only if the conflict query for that row finds nothing |
| DoubleBooking.WriteIsSafe | app/services/reservation_service.py:282-311 | Carrying out a change or cancellation keeps the book conflict-free unless it is an unchecked reactivation, and only then |
| DoubleBooking.InsertIsSafe | app/services/reservation_service.py:142-152 | A newly created booking never collides with another |
| DoubleBooking.ChosenTableFits | app/services/reservation_service.py:121-140 | The table of a new booking, named or found, is an active table of the restaurant, seats the party and is free for the whole interval |
| DoubleBooking.PartiesAlwaysFit | app/services/reservation_service.py:294-301 | Without any proviso, in every state of every run each reservation with a table fits its capacity |
| DoubleBooking.StepKeepsRows | app/models/reservation.py:18-26 | Every step keeps the CHECK constraints of the rows and the capacity invariant |
| DoubleBooking.RunKeepsValid | app/models/approval.py:41-47 | Id freshness, row constraints, capacity, decision consistency and unique memory keys hold in every state of every run, agents' memory calls included |
| Booking.OverlapMeansSharedMoment | app/repositories/reservation_repo.py:69-72 | The two-inequality test is true exactly when the half-open intervals share a moment |
| UncheckedChanges.StepReactivates | app/services/reservation_service.py:332-335 | An inactive reservation becomes active exactly when the step carries out a change naming it, and then that is an executed approval |
| UncheckedChanges.OwnTablesAreKeptExactly | app/services/reservation_service.py:289-305 | In every state of a run reservations sit at their own restaurant's tables if and only if no change carried out names another's |
| UncheckedChanges.StepKeepsOwnTables | app/services/reservation_service.py:294-296 | The single-step form, for every kind of call |
| UncheckedChanges.BooksAheadExactly | app/services/reservation_service.py:284-288 | A run makes and moves reservations only to times ahead of the clock if and only if no change carried out names another time that is not |
| UncheckedChanges.StepBooksAhead | app/services/reservation_service.py:116-117 | The single-step form; creating checks the time, changing does not |
| UncheckedChanges.ChangesGoAnywhere | app/services/reservation_service.py:221-223 | One ungated tool call moves a couple's booking to another restaurant's table, another moves it to the past |
| TableSearch.SearchIsExact | app/repositories/reservation_repo.py:75-99 | A table is offered if and only if booking it explicitly would be accepted, the other checks passing |
| TableSearch.SmallestFirst | app/repositories/reservation_repo.py:85-93 | Offers seat the party and come in non-decreasing capacity |
| TableSearch.AutoAssignmentIsBestFit | app/services/reservation_service.py:133-140 | Booking without a table fails exactly when no explicit choice would succeed, changing nothing, and otherwise equals an explicit booking of a smallest acceptable table |
| ReservationRules.RunsKeepApart | app/repositories/reservation_repo.py:53-73 | In every state of a run, of two active reservations of one table one ends, its minutes after its start, before the other starts, if and only if no step is an unchecked reactivation |
| ReservationRules.ApartMeansNoDoubleBooking | app/repositories/reservation_repo.py:66-72 | One ending before the other starts is the same as never holding the table at one moment |
| ReservationRules.OffersAreFitting | app/repositories/reservation_repo.py:75-99 | A table is offered if and only if it is an active table of the restaurant, seats the party, and every active reservation of it ends before the slot or starts after it |
| ReservationRules.CreateAnswers | app/services/reservation_service.py:100-166 | Every answer of create in the order of its checks, `table_conflict` exactly when an active reservation of the named table reaches into the slot; otherwise the one row inserted, at the named or a smallest fitting table, and its event |
| ReservationRules.ModifyAnswers | app/services/reservation_service.py:168-231 | Unknown and inactive reservations are refused; a party at the threshold before or after the change makes it one pending MEDIUM-risk approval; any other change is carried out or refused at once |
| ReservationRules.CancelAnswers | app/services/reservation_service.py:233-280 | The same for cancellations; a reason is put below the notes |
| ReservationRules.ChangesAreWritten | app/services/reservation_service.py:282-311 | A change carried out, at once or as an approval, leaves the row with the party, time, table and notes it gives and its own otherwise, modified; nothing else about it and no other row is different |
| ReservationRules.TooSmallExactly | app/services/reservation_service.py:294-298 | A small party is told `table_too_small` exactly when the change touches the slot and the party asked for, or else its own, exceeds the active table it ends on |
| ReservationRules.ActionsFollow | app/services/reservation_service.py:313-341 | The row an action leaves, or the first check it fails, field by field |
| ReservationRules.StripIsExact | app/services/reservation_service.py:271 | Stripping notes cuts whitespace off both ends and nothing else |
| ReservationRules.WhitespaceIsPythons | app/services/reservation_service.py:271 | Whitespace is the 29 characters Python's `str.strip` removes, written out |
| Gate.LargePartiesChangeOnlyByApproval | app/services/reservation_service.py:188-219 | A reservation large before or after a step changes only by executing a pending approval that names it, and becomes exactly the prescribed row |
| Gate.LargeChangesAreApproved | app/services/approval_service.py:138-146 | If a run changes a reservation that is large before it or after it, some call of it approved a then pending approval naming it, and that approval is still approved at the end |
| Gate.NoApprovalNoLargeChange | app/services/reservation_service.py:250-267 | A run without an approve call leaves every large reservation untouched |
| Gate.RepeatedProposalsDuplicate | app/services/reservation_service.py:203-219 | Proposing a gated change or cancellation again opens a second, equal pending approval |
| Lifecycle.StepProgresses | app/services/approval_service.py:194-208 | A step changes only pending approvals, and only to a terminal status; what was proposed stays |
| Lifecycle.DecisionsAreTerminal | app/services/approval_service.py:203-208 | Over any run an approved, rejected or expired row never changes again |
| Lifecycle.ExecutesAtMostOnce | app/services/approval_service.py:210-237 | In any run an approval's executor is called at most once and never for a decided approval, and a result is recorded exactly when it was called |
| Lifecycle.ExecutionDecides | app/services/approval_service.py:140-146 | Executing leaves the approval approved with a recorded result |
| Lifecycle.OnlyExecutionRecordsResult | app/services/approval_service.py:211-216 | Any other step leaves the result empty |
| Lifecycle.SweepIsExact | app/services/approval_service.py:182-190 | After the sweep no overdue pending approval of the restaurant is left, exactly those that were are reported and expired, all else is as before |
| Lifecycle.RunExpiresNothing | app/services/approval_service.py:92 | A database without expiry dates stays so over every run, and no sweep ever expires anything |
| System.FailedCallChangesNothing | app/services/memory_service.py:224-237 | A call that raises leaves the database as it was, except exactly an update of a memory whose new text cannot be embedded |
| MemoryTable.FailedServeChangesNothing | app/services/memory_service.py:224-237 | The same for the memories table alone |
| System.StepKeepsMemoryTable | app/models/memory.py:75-83 | Decisions and agents' memory calls alike keep active memory keys unique and inactive rows as they were but for their access count |
| System.StepFrame | app/repositories/reservation_repo.py:43-51 | Tables, customers and items are never edited, the event log only grows, ids only advance |
| System.RulingKeepsConsistency | app/models/approval.py:41-47 | The decision-consistency constraint is kept by every step |
| PurchaseLinks.CostGateIsExact | app/services/inventory_service.py:253-319 | In every state of a run each request whose stored cost meets the threshold is approved only under an approved approval naming it, if and only if no step files at once a cost below the threshold which rounds up to it |
| PurchaseLinks.StepKeepsCostGate | app/services/inventory_service.py:253-255 | The single-step form, for every kind of call |
| PurchaseLinks.ProposedCostGateHolds | app/services/inventory_service.py:257-310 | A request opened by a proposal that meets the threshold is, whatever follows, approved only under an approved approval that names it |
| PurchaseLinks.RoundingBreaksTheGate | app/models/purchase_request.py:47 | A proposed cost of 199.995 is filed approved without an approval and stored as 200.00 |
| PurchaseLinks.SlippingCosts | app/models/purchase_request.py:47 | For a threshold in whole cents, the costs that slip through are those less than half a cent below it |
| PurchaseLinks.OneOpenRequestAlways | app/services/inventory_service.py:240-251 | Started empty, no run ever opens two requests for an item |
| PurchaseLinks.PendingRequestChangesOnlyByApproval | app/services/inventory_service.py:335-348 | A pending request changes only by executing the approval it is linked to |
| PurchaseLinks.PurchasesAreApproved | app/services/approval_service.py:138-146 | If a run changes a pending request, some call of it executed its approval |
| PurchaseLinks.ApprovalsMatchRequests | app/services/inventory_service.py:264-296 | Purchase approvals and the requests they name correspond one to one in every reachable state |
| PurchaseLinks.RepeatChangesNothing | app/services/inventory_service.py:240-251 | While an item has an open request, any later proposal at any point of any run changes nothing and returns that request or its approval |
| PurchaseLinks.DeadApprovalBlocksItem | tests/integration/test_inventory_tools.py:133-154 | After a rejection or expiry the request stays open: in every later state the item's proposals are answered with the dead approval |
| PurchaseLinks.RunKeepsLinks | app/services/inventory_service.py:335-348 | The link invariant between requests and approvals and the one-open-request rule are kept by every run |
| PurchaseLinks.StepKeepsLinks | app/services/inventory_service.py:295-296 | The same for one step |
| PurchaseLinks.OpenRequestIsFound | app/repositories/inventory_repo.py:57-71 | The open-request query answers with an open request of the item, and with none exactly when there is none |
| PurchaseLinks.RunKeepsOpen | app/repositories/inventory_repo.py:57-71 | No run closes an open request or changes its item or approval |
| DecisionRules.ApproveAnswers | app/services/approval_service.py:138-159 | Approving is refused by status; otherwise the row says who and when and how the execution ended, the tables hold what the action writes or nothing, the decision is remembered, and its events follow the action's, a purchase's own one first |
| DecisionRules.RejectAnswers | app/services/approval_service.py:161-180 | Rejecting does the same without executing, under its own event |
| DecisionRules.ExpireAnswers | app/services/approval_service.py:182-190 | The sweep reports and expires exactly the restaurant's pending approvals whose expiry is past |
| DecisionRules.ExecutionFollows | app/services/approval_service.py:210-237 | What an executor leaves and reports, for each domain, action, refusal and moment of failure |
| DecisionRules.RecordFollows | app/services/approval_service.py:239-274 | The memory of a decision, field by field: agent, topic, importance 5 for HIGH risk and 3 otherwise |
| DecisionRules.ProposalAnswers | app/services/inventory_service.py:229-333 | Every answer to a proposal: an unknown item, the newest open request, a missing agent run, amounts that do not fit, a request waiting for a HIGH-risk approval, or an approved one |
| DecisionRules.OpenFollows | app/repositories/inventory_repo.py:57-71 | The query finds the newest request of the item that is draft, pending or approved |
| DecisionRules.AmountsAreRounded | app/models/purchase_request.py:46-47 | Quantities and costs are stored as the nearest thousandth and cent, halves away from zero |
| DecisionMemories.DecisionsAreRemembered | app/services/approval_service.py:256-270 | A recorded decision is kept as it was written throughout whatever follows if and only if no later memory call overwrites its row; later decisions never do |
| DecisionMemories.MemoriesLastUntilDisturbed | app/services/memory_service.py:91-97 | Any active memory stays active with its content throughout a run if and only if no call adds under its key, changes what it says, forgets it or deletes it |
| DecisionMemories.StepKeepsMemory | app/services/memory_service.py:197-300 | The single-step form, for decisions and all seven memory calls |
| DecisionMemories.RecordedOnce | app/services/approval_service.py:203-208 | No approval is recorded twice in a run |
| DecisionMemories.DecisionsDisturbNoRecord | app/services/approval_service.py:261-264 | No decision supersedes the record of another |
| DecisionMemories.AnyRecordCanBeDeleted | app/api/stack.py:165-171 | Every record can be deleted by a later tool call |
| DecisionMemories.AnyRecordCanBeReplaced | app/services/memory_service.py:91-97 | Every record can be superseded by a memory an agent adds under its key |
| DecisionMemories.NameReadAsCustomer | app/services/memory_service.py:321-326 | A memory added under an agent name that reads like a customer's id supersedes the customer's memory under the same type and topic |
| DecisionMemories.RecordsReplaceSquatters | app/services/approval_service.py:256-270 | A memory an agent stored under the key while the approval waited is superseded by the record |
| DecisionMemories.RecordingIsAppending | app/services/approval_service.py:261-264 | Recording adds one row and deactivates exactly the active rows holding its key, so it leaves all others alone if and only if there is none |
| DecisionMemories.TopicsAreDistinct | app/services/approval_service.py:264 | Different approvals never share a memory topic |
| MemoryFacts.AddIsUpdate | app/services/memory_service.py:82-112 | `add_memory` is map update on (restaurant, type, scope, topic), the confidence rounded to two decimals |
| MemoryFacts.ForgetIsRemoval | app/services/memory_service.py:268-300 | `forget_memory` and `delete_memory` remove exactly the fact the row held; an inactive row held none |
| MemoryFacts.UpdateIsRename | app/services/memory_service.py:197-240 | A valid correction moves the fact to its new key, and is refused exactly when that key belongs to another fact |
| MemoryFacts.CollisionMeansTaken | app/models/memory.py:75-83 | The unique index is violated exactly when the new key is another active row's |
| MemoryFacts.ReinforceIsUpdate | app/services/memory_service.py:244-264 | Reinforcing changes only the confidence of the row's fact, to the raised and rounded value, and keeps it in [0, 1] |
| MemoryTable.RoundingStaysInRange | app/services/memory_service.py:232 | Rounding a confidence keeps it in range and moves it by at most 0.005 |
| MemoryTable.CallKeepsTable | app/services/memory_service.py:304-307 | Every memory call keeps active keys unique and leaves inactive rows as they were but for their access count |
| MemoryFacts.RunKeepsStore | app/models/memory.py:75-83 | In every state of every run, memory calls and decisions interleaved, active keys are unique, and no inactive row has been reactivated or changed, nor a deleted id used again |
| MemoryRules.ActiveFactsAreUnique | app/models/memory.py:75-83 | In every state of a run two active memories of one restaurant, type and topic whose scope reads the same, be it the customer's id, the agent's name or "restaurant", are the same row |
| MemoryRules.SameFactIsSameKey | app/services/memory_service.py:321-326 | Agreeing in those four is having the same key |
| MemoryRules.AddAnswers | app/services/memory_service.py:52-116 | Adding checks importance and confidence, embeds, and then makes inactive exactly the active rows that agree in those four and stores the new row, leaving every other as it was |
| MemoryRules.UpdateAnswers | app/services/memory_service.py:197-240 | Every answer of update in the order of its checks and the corrected row field by field, also when the new text cannot be embedded or its place is taken |
| MemoryRules.ReinforceAnswers | app/services/memory_service.py:244-264 | The confidence plus the step, at most 1, rounded, and one access more; or the refusal |
| MemoryRules.RowCallsAnswer | app/services/memory_service.py:268-300 | Forgetting makes one row inactive, deleting drops one, getting counts an access if asked to; a missing or foreign row is refused |
| MemoryRules.ConfidencesAreRounded | app/models/memory.py:131-134 | A confidence is stored as the nearest hundredth, halves going to the even one |
| MemoryFacts.SearchCommutes | app/repositories/memory_repo.py:44-58 | Cutting to the nearest `top_k` and then dropping those below the threshold gives the `top_k` nearest of those above it |
| MemoryFacts.FilterCommutesWithTopK | app/services/memory_service.py:146-166 | The list form: filtering and cutting a listing sorted by distance commute |
| MemoryFacts.HitsAreRanked | app/services/memory_service.py:152-166 | Results match the filters and the threshold, are distinct, at most `top_k`, in non-increasing similarity |
| MemoryRules.SearchFindsNearest | app/repositories/memory_repo.py:34-58 | A search returns active rows of the restaurant that pass the filters given and the threshold, nearest first, and leaves such a row out only for `top_k` others that are no farther |
| MemoryRules.SearchAnswers | app/services/memory_service.py:120-166 | Each hit is counted as read once and nothing else changes; a query that cannot be embedded changes nothing |
| MemoryRules.LostIsNeverFound | app/repositories/memory_repo.py:45-49 | A forgotten or deleted memory is never found again, whatever calls follow |
| MemoryFacts.SearchReadsOnly | app/repositories/memory_repo.py:72-76 | Exactly the returned rows get one access more, and the remembered facts stay |
| MemoryTable.AddKeepsUniqueKeys | app/services/memory_service.py:91-97 | Superseding the holder first keeps the unique index satisfied |
| EventBus.PublishGrows | app/services/event_bus.py:116-153 | However deeply handlers publish in turn, keys stay unique per restaurant, rows already there stay, new ones end handled, and no earlier event is dispatched again |
| EventBus.FirstPublishReachesEveryHandler | app/services/event_bus.py:130-153 | A first publication stores one handled event and calls every subscribed handler in order; its recorded result is a success exactly when one attempt within the limit succeeded |
| EventBus.TriesStopAtFirstSuccess | app/services/event_bus.py:168-191 | A handler is attempted 1 to r+1 times, stopping at its first success, depending on its own behaviour alone |
| EventBus.RepublishingIsSkipped | app/services/event_bus.py:116-128 | After any later publications, publishing a used key again changes nothing |
| EventBus.RepublishingDuringDispatchIsSkipped | app/models/event.py:57-66 | A handler that publishes the key of an event while it is being dispatched changes nothing, at whatever depth of handlers publishing in turn |
| EventBus.DispatchKeepsKeys | app/services/event_bus.py:130-153 | At every publication a dispatch makes, the dispatched event and all earlier ones are stored with their keys |
| EventBus.DispatchPassesHandlers | app/services/event_bus.py:147-148 | Dispatching passes through the state before each handler |
| EventBus.RetryPassesAttempts | app/services/event_bus.py:170-181 | Retrying passes through the state at each attempt the earlier failures lead to |
| EventBus.AttemptPassesPublications | app/services/event_bus.py:172 | An attempt passes through the state before each of its publications |
| EventBus.RecoversMeans | app/services/event_bus.py:170-177 | The retry loop reports success exactly when some attempt within the limit succeeds |
| EventBusRules.PublishAnswers | app/services/event_bus.py:97-157 | An event of an unknown type, or whose key the restaurant has used, changes nothing; any other becomes one handled row with its type, restaurant and key and a result for exactly its handlers |
| EventBusRules.NestedIsPublished | app/services/event_bus.py:168-191 | What a handler publishes while an event is dispatched is stored and handled when that event is through, unless its key was taken already |
| EventBus.InProcessEventBus.Subscribe | app/services/event_bus.py:91-95 | A known type gains the handler at the end of its list, an unknown type is refused, other lists stay |
| EventBus.InProcessEventBus.PublishEvent | app/services/event_bus.py:97-157 | The method, re-entered by handlers, leaves exactly the specified bus and returns the id of the new event, or of the stored one |
| EventBus.InProcessEventBus.DispatchAll | app/services/event_bus.py:146-148 | The handler loop, with results by handler name |
| EventBus.InProcessEventBus.DispatchOne | app/services/event_bus.py:159-191 | The retry loop calls until the first success or the limit and reports which |
| EventBus.InProcessEventBus.CallHandler | app/services/event_bus.py:170-181 | A handler attempt publishes in order up to the first publication that raises |
| AgentRuns.TraceIsExact | app/services/agent_activity_service.py:39-68 | When delegated runs inherit the correlation id, the trace holds the run and all its transitive delegates, each exactly once |
| AgentRuns.BuildIsExact | app/services/agent_activity_service.py:45-56 | In general it holds exactly the runs reachable through same-trace runs, each once |
| AgentRuns.TraceIsParented | app/services/agent_activity_service.py:47-56 | Every node of the tree hangs under its own parent |
| AgentRuns.TraceIsOldestFirst | app/repositories/agent_run_repo.py:21-23 | At every node of the tree the delegated runs are listed oldest first |
| AgentRuns.InheritanceReachesAll | app/agents/orchestrator_agent.py:561-573 | Inherited correlation ids make the same-trace descendants all the descendants |
| AgentRuns.LoggingKeepsNumbers | app/services/agent_run_service.py:54-71 | Logging keeps every run's sequence numbers exactly 1, 2, 3, ... |
| AgentRuns.AgentRunService.StartRun | app/services/agent_run_service.py:26-52 | Inserts one new run with the given agent, start, parent and correlation id, or one no other run has, refuses a missing parent, and keeps inheritance if the caller passes the parent's id on |
| AgentRuns.AgentRunService.NextSequenceNumber | app/repositories/agent_run_repo.py:38-41 | The largest number plus one is the number of messages plus one |
| AgentRuns.AgentRunService.LogMessage | app/services/agent_run_service.py:63-71 | Appends one message with the next number of its run |
| AgentRuns.AgentRunService.GetTrace | app/services/agent_activity_service.py:39-52 | The tree of the requested run, or none for an unknown run |
| AgentRuns.AgentRunService.GroupByParent | app/services/agent_activity_service.py:47-50 | The grouping loop gives each parent its children of the trace, oldest first |
| AgentRuns.AgentRunService.BuildNode | app/services/agent_activity_service.py:54-68 | The recursion terminates with the specified tree |
| ToolLoop.TranscriptIsPaired | app/agents/tool_calling_agent.py:195-208 | Every assistant message of a transcript is followed by exactly one tool message per call, in order |
| ToolLoop.RecordsAreSuccesses | app/agents/tool_calling_agent.py:254-264 | The recorded tool calls are the successful subsequence of the tool messages |
| ToolLoop.PendingMeansLastCallGated | app/agents/tool_calling_agent.py:271-274 | A result is pending exactly when the run ended with an answer and its last successful call was gated, and then carries that call's approval |
| ToolLoopRules.TranscriptAt | app/agents/tool_calling_agent.py:161-217 | Turn by turn, the conversation is the model's message and, for each of its calls, what the tool did or that there is no such tool |
| ToolLoopRules.LogAt | app/agents/tool_calling_agent.py:195-208 | So is the persisted log, entry by message, with role and tool |
| ToolLoopRules.RecordsGrow | app/agents/tool_calling_agent.py:254-264 | Each turn adds a record of each of its successful calls, with its output and in order, and of nothing else |
| ToolLoop.ToolCallingAgent.ExecuteToolCall | app/agents/tool_calling_agent.py:219-269 | One tool message and one log entry under the tool's name per call; a record exactly on success |
| ToolLoop.ToolCallingAgent.TakeTurn | app/agents/tool_calling_agent.py:195-208 | A turn appends the assistant message and the outcomes of its calls in order |
| ToolLoop.ToolCallingAgent.RunLoop | app/agents/tool_calling_agent.py:161-217 | For any model the loop stops within `max_iterations`, ends as its first turn without calls or its cap says, and logs each message of its turns with role and tool |
| ToolLoop.ToolCallingAgent.HandleTask | app/agents/tool_calling_agent.py:111-159 | The result, transcript and persisted log of a whole run that could be started; a failing model comes back as an error |
| Orchestrator.RunsAreConserved | app/agents/orchestrator_agent.py:575-601 | For any behaviour, delegations plus remaining steps equal the budget, invocations equal delegations plus resolved approvals, node steps are at most 3·max_delegations+3 and specialist calls at most max_delegations·(1+max_retries) |
| Orchestrator.RunsTerminate | app/agents/orchestrator_agent.py:399-424 | Every run ends within 3·max_delegations+3 steps once its pauses are resolved |
| Orchestrator.StepBurnsFuel | app/agents/orchestrator_agent.py:404-415 | Every node step but a waiting pause decreases a measure; halted runs stay |
| Orchestrator.CombineIsComplete | app/agents/orchestrator_agent.py:450-478 | Whenever a run combines, each domain that a well-formed scope reply named and that has a specialist has an invocation, or the budget of delegations is used up |
| Orchestrator.LazyModelStillCovers | app/agents/orchestrator_agent.py:508-547 | A model that never validly delegates still drives exactly one delegation per distinct domain its scope reply requires, in order, up to the budget |
| Orchestrator.ScopeIsRequired | app/agents/orchestrator_agent.py:428-448 | Throughout a run the required domains are those of the scope reply there is a specialist for, in order and with repetition, if the reply names the five domains only, and none otherwise |
| Orchestrator.KnownAreKept | app/agents/orchestrator_agent.py:445 | Filtering from the front keeps exactly the domains there is a specialist for |
| OrchestratorRules.DecideAnswers | app/agents/orchestrator_agent.py:471-547 | Without budget the run combines; a failing model fails it; a valid choice is followed; in place of any other answer the first required domain without an invocation comes next, and without one the run combines |
| OrchestratorRules.DelegateAnswers | app/agents/orchestrator_agent.py:549-601 | The specialist is called until a call is no error or the retries are used up; that result is one invocation, takes one step off the budget, and pauses the run on the approval it names if it is pending |
| OrchestratorRules.OtherNodesAnswer | app/agents/orchestrator_agent.py:603-658 | A pause ends only with the manager's decision, an invocation of the agent that paused; combining fails only with the model, and only if there is something to combine |
| Orchestrator.FirstMissingIsNext | app/agents/orchestrator_agent.py:450-469 | With the first k distinct required domains covered, the forced delegation is the next one |
| Orchestrator.MissingMeansUncovered | app/agents/orchestrator_agent.py:450-452 | The missing list is empty exactly when all required domains are covered |
| Orchestrator.KnownAreSpecialists | app/agents/orchestrator_agent.py:441-448 | Required domains are domains the orchestrator has specialists for |
| Orchestrator.AttemptsBounds | app/agents/orchestrator_agent.py:575-583 | Between 1 and 1+max_retries calls; every call but the last failed, and the last only if retries are used up |
| Orchestrator.PauseMeansGated | app/agents/orchestrator_agent.py:421-424 | A delegation pauses the run exactly when the specialist's last call of its final attempt was gated, with that approval's id; earlier attempts all failed |
| Orchestrator.RetriedExactlyOnError | app/agents/orchestrator_agent.py:575-583 | After its k-th call a specialist is called again if and only if that call reported an error and retries are left |
| Orchestrator.UnansweredRunsAreRetried | app/agents/tool_calling_agent.py:210-217 | For a specialist's run: if and only if it did not end with an answer, whatever it had proposed |
| Orchestrator.GatedCallMayBeRetried | app/agents/orchestrator_agent.py:577-583 | A specialist that proposed an approval and then ran out of steps is called again |
| Orchestrator.RunKeepsValid | app/agents/orchestrator_agent.py:399-424 | The counting, routing and completeness invariants hold in every state of every run |
| Orchestrator.DecideKeepsValid | app/agents/orchestrator_agent.py:471-547 | Deciding never finishes with a missing domain while budget is left |
| Orchestrator.DelegateKeepsValid | app/agents/orchestrator_agent.py:549-601 | A delegation covers its domain and keeps the counts |
| Orchestrator.ResolveKeepsValid | app/agents/orchestrator_agent.py:603-658 | A resolved pause adds one invocation and clears the pending approval |
| Orchestrator.OrchestratorAgent.CallSpecialist | app/agents/orchestrator_agent.py:575-583 | The retry loop returns the first result that is not an error, or the last |
| Orchestrator.OrchestratorAgent.DelegateToNext | app/agents/orchestrator_agent.py:549-601 | The delegate node takes the machine's step |
| Orchestrator.OrchestratorAgent.TakeStep | app/agents/orchestrator_agent.py:399-424 | Every node takes the machine's step, and the run goes on unless it stands at a pause |
| Orchestrator.OrchestratorAgent.Invoke | app/agents/orchestrator_agent.py:176-306 | The graph takes its inputs in order until it halts or pauses, within the measure of its start plus one step |
| Oversight.ResumesDecideOnce | app/agents/orchestrator_agent.py:616-658 | With other requests interleaving, no approval is resolved twice by a run and each resolved one is decided |
| Oversight.StepResolvesOnce | app/agents/orchestrator_agent.py:636-658 | A move resolves only by a manager's answer that turns a still pending approval into a decided one and clears the pause |
| Oversight.DecisionDecidesPending | app/services/approval_service.py:194-208 | A decision succeeds exactly on a pending approval, decides it, and otherwise changes nothing |
| OrchestratorRules.ResumeAnswers | app/agents/orchestrator_agent.py:616-658 | A resumed run approves or rejects, as the manager decides, the approval it waits for; a refused decision leaves it paused, any other is an invocation, an error only if the approved action failed |
| Oversight.OrchestrationCannotBypassTheGate | app/agents/orchestrator_agent.py:24-29 | If an orchestrated run changes a reservation that is large before it or after it, then in some node step of it a manager approves an action on that reservation: by another request, or by resuming the run from that very approval |
| Oversight.OrchestrationCannotBuyUnapproved | app/agents/orchestrator_agent.py:24-29 | If an orchestrated run changes a pending purchase request, then in some node step of it a manager has exactly its approval executed, by another request or by resuming the run from it |
| Oversight.PurchasesInStep | app/agents/orchestrator_agent.py:549-658 | The same for one node step |
| Oversight.LargeChangesAtEntry | app/agents/orchestrator_agent.py:24-30 | The same for every single call of a node step, whether the reservation is large before or after it |
| Oversight.LargeChangesInStep | app/agents/orchestrator_agent.py:549-658 | The same for one node step |
| Oversight.ToolsDecideNothing | app/agents/orchestrator_agent.py:636-644 | In a node step only other requests and the resuming manager decide approvals, the latter only the one the run waits for |
| Oversight.PauseNamesStoredApproval | app/agents/orchestrator_agent.py:597-600 | A delegation pauses exactly when its last attempt answered and its last successful tool call was told to wait; the pause carries that call's approval, which exists |
| Oversight.PausesNameApprovals | app/agents/orchestrator_agent.py:603-614 | Whenever an orchestrated run waits, it waits for an approval that exists |
| Oversight.RecordsAreStored | app/agents/tool_calling_agent.py:254-257 | Every approval a specialist's records name is stored when its run ends |
| Oversight.DeadPauseIsForever | app/services/approval_service.py:194-208 | A run that waits for an approval already decided or expired waits forever |
| Oversight.DeadProposalParksRun | app/services/inventory_service.py:244-250 | Proposing an item whose purchase approval was rejected or expired pauses the run on it, and no later resume is accepted |
| Oversight.RetryDuplicatesApproval | app/agents/orchestrator_agent.py:577-583 | A retried specialist that proposes again leaves two equal pending approvals, and the run waits for the second only |
| Services.ReservationRepository.TableHasConflict | app/repositories/reservation_repo.py:53-73 | The loop with early return answers whether any other active reservation of the table overlaps |
| Services.ReservationRepository.FindAvailableTables | app/repositories/reservation_repo.py:75-99 | The accumulating loop returns the free suitable tables, smallest first |
| Services.ReservationService.CreateReservation | app/services/reservation_service.py:100-166 | The new session state and the result, error by error |
| Services.ReservationService.ApplyModification | app/services/reservation_service.py:282-311 | The row's new fields, or the first check that fails |
| Services.ReservationService.ModifyReservation | app/services/reservation_service.py:168-231 | Gated changes become one pending approval, others are carried out, errors change nothing |
| Services.ReservationService.CancelReservation | app/services/reservation_service.py:233-280 | The same for cancellations |
| Services.ReservationService.ExecuteApprovedAction | app/services/reservation_service.py:313-349 | The executor's writes and event, or its refusal, or a failure before it reads or between saving and publishing |
| Services.InventoryService.CreatePurchaseRequest | app/services/inventory_service.py:229-333 | The open request is returned unchanged, a costly proposal is filed pending with its linked approval, any other is filed approved, cost and quantity rounded as stored |
| Services.InventoryService.ExecuteApprovedAction | app/services/inventory_service.py:335-348 | The named request becomes approved, or its refusal, or a failure before or after the write |
| Services.ApprovalService.CreateApprovalRequest | app/services/approval_service.py:81-133 | LOW risk is refused; otherwise one pending row with the given expiry and one event |
| Services.ApprovalService.RunExecutor | app/services/approval_execution.py:29-41 | The action's writes and events, or a failure, which may come after they are published and subscribers have left the session in any state |
| Services.ApprovalService.Execute | app/services/approval_service.py:210-237 | Wherever the executor raises and whatever was written by then, every table and event is as at the savepoint and only the result is recorded on the approval |
| Services.ApprovalService.Remember | app/services/approval_service.py:239-274 | The memory is added, or, however embedding or storing it fails, the session is as before |
| Services.ApprovalService.Conclude | app/services/approval_service.py:147-150 | The end of both decisions: memory and events |
| Services.ApprovalService.Approve | app/services/approval_service.py:138-159 | Decision, execution, memory and events of an approval, or its error with nothing changed |
| Services.ApprovalService.Reject | app/services/approval_service.py:161-180 | The same for a rejection, without execution |
| Services.ApprovalService.Expire | app/services/approval_service.py:182-190 | The loop expires exactly the overdue rows |
| Memories.MemoryService.FindActive | app/repositories/memory_repo.py:22-32 | The active row of a key, if there is one |
| Memories.MemoryService.AddMemory | app/services/memory_service.py:52-116 | Supersedes the holder of the key and inserts the new row; a text that cannot be embedded changes nothing, an insert that fails or names an unknown customer leaves the old row superseded |
| Memories.MemoryService.SearchMemory | app/services/memory_service.py:120-166 | The result loop returns the specified hits and touches exactly those, or nothing happens if the query cannot be embedded |
| Memories.MemoryService.GetMemory | app/services/memory_service.py:189-193 | The row, counted as read if asked; the error for a missing or foreign row |
| Memories.MemoryService.UpdateMemory | app/services/memory_service.py:197-240 | The corrected row, or the error with the table unchanged, or, if the new text cannot be embedded, the error with the fields already assigned |
| Memories.MemoryService.ReinforceMemory | app/services/memory_service.py:244-264 | The raised confidence, capped at 1 and rounded, or the error |
| Memories.MemoryService.ForgetMemory | app/services/memory_service.py:268-285 | The row becomes inactive |
| Memories.MemoryService.DeleteMemory | app/services/memory_service.py:287-300 | The row is gone |
| Calendar.OrdinalIsMonotone | app/tools/analytics_tools.py:28-58 | Counting days by the Gregorian rules respects the order of dates |
| Calendar.AddDaysOrdinal | app/tools/analytics_tools.py:37-49 | Adding days moves the day count by as many and overflows exactly outside years 1 to 9999 |
| Calendar.PeriodSpans | app/tools/analytics_tools.py:28-55 | Each of the eight periods is a range of real dates, from not after to, covering exactly its days; resolving fails exactly when that leaves the calendar |
| Calendar.WeeksAreMondayToSunday | app/tools/analytics_tools.py:39-45 | `this_week` runs Monday to Sunday, contains today and starts the day after `last_week` ends |
| Calendar.LastMonthIsWhole | app/tools/analytics_tools.py:50-55 | `last_month` is the whole previous month, leap years and January included, and `this_month` starts the day after it |
| Calendar.MonthsAreGregorian | app/tools/analytics_tools.py:50-55 | Month lengths and leap years, written out |
| Calendar.WeekdaysFollow | app/tools/analytics_tools.py:40 | The next day has the next weekday, Monday after Sunday |
| Analytics.WindowIsWholeDays | app/services/analytics_service.py:19-22 | A moment lies in the half-open bounds exactly when its date is one of the days |
| Analytics.WindowsAdd | app/repositories/analytics_repo.py:20-31 | Splitting a window anywhere splits its revenue and units additively |
| Analytics.DailyRevenueIsConserved | app/services/analytics_service.py:29-44 | Daily revenues over a range sum to all sales in its window |
| Analytics.DailySalesSplit | app/services/analytics_service.py:29-44 | Splitting the range at any day splits the report |
| Analytics.DailyRowsAreDaysWithSales | app/repositories/analytics_repo.py:20-31 | A row for exactly the days with a sale, with that day's sums, in increasing day order |
| Analytics.DailyAndItemTotalsAgree | app/repositories/analytics_repo.py:47-61 | The per-item total equals the daily total when the limit covers all items |
| Analytics.ReportDropsSalelessCovers | app/services/analytics_service.py:36-44 | The report's covers fall short of the window's by exactly the covers of days without sales |
| Analytics.NoShowRateIsAccurate | app/services/analytics_service.py:53-62 | The rate is in [0, 1], within 0.00005 of the exact share, and absent exactly when the days hold no such visit |
| Analytics.QuantizeIsNearest | app/services/analytics_service.py:61 | Rounding to four places half to even is nearest and stays in range |
| Analytics.DivisionDigitsDoNotMatter | app/services/analytics_service.py:61 | Dividing with 28 significant digits first gives the same rate, for up to 10^20 visits |
| AnalyticsRules.WindowIsExact | app/services/analytics_service.py:19-22 | A report reads exactly the restaurant's sales of its days, each as often as it is there |
| AnalyticsRules.SumsAreTotals | app/repositories/analytics_repo.py:21-26 | Revenue is the sum of quantity times unit price, units the sum of quantities |
| AnalyticsRules.ItemReportIsRanked | app/repositories/analytics_repo.py:47-61 | The item report sums up different items, best-selling first, at most `limit`, leaving out only items that sold no more than any listed |
| AnalyticsRules.CountsAreExact | app/repositories/analytics_repo.py:33-75 | Covers and status counts are of exactly the restaurant's visits of the days |
| AnalyticsRules.NoShowRateIsShare | app/services/analytics_service.py:53-62 | The rate is the nearest ten-thousandth of the share of no-shows among no-shows and completed visits, of two equally near the even one; without such visits there is none |

## Left out

- AgentRuns.TraceIsExact: assumes that delegated runs carry their parent's correlation id, because `start_run` itself does not enforce it.
- AgentRuns.AgentRunService.BuildNode: the specification carries a bound on ids so that it terminates; a parent cycle, which no sequence of `start_run` calls can build, is outside the model.
- MemoryFacts.ReinforceIsUpdate: the sum of confidence and step is exact; a binary floating-point error that carries it over a rounding boundary is not modelled.
- System.FailedCallChangesNothing: each call is its own transaction. In the code a statement the database refuses also undoes what the same request wrote before, and a half-made update whose new key is taken is refused by such a statement.
- Services.ApprovalService.Remember: the wording of the remembered sentence is a parameter.
- Analytics.DailyRowsAreDaysWithSales: takes the days `func.date` groups by to be UTC days, as the window's bounds are; the query groups in the time zone of the database session, which the code does not set.
- Analytics.DailySalesSplit: the same holds of the days the report is split at.
- ToolLoop.ToolCallingAgent.HandleTask: a message that cannot be logged, or a run that cannot be started, is not modelled.
- Analytics.ReportDropsSalelessCovers: the same holds of the days covers are counted on.
- Oversight.ResumesDecideOnce: a refused resume leaves the run paused; that the caller is also told the run failed, and its run row marked so, is not modelled.
- Event delivery between the services and the bus: the services' events are rows appended to the database, and what their subscribers call appears as later calls of a run; the bus itself is modelled in `EventBus`.
- Subscribers that change the database inside `create_purchase_request`, between its two writes.
- Handlers subscribed during a dispatch, and a negative retry limit of the bus.
- Overlapping database transactions: each service call is one atomic step.
- Foreign keys to users, restaurants and agent runs, deleting a customer, and numeric and timestamp overflow outside the modelled SMALLINT columns.
- Equal sort keys: ties in an ORDER BY are broken by id, and the newest of several open requests is the one with the largest id; the database leaves both unspecified or uses timestamps.
- Exceptions other than a failing model inside a graph node, and a second `ainvoke` on a failed graph.
- An approval service missing from the orchestrator, and a resume without a deciding user, which both end in an error before any decision.
- Stock classification, alerts, required and reorder quantities, staffing, customer records and menu data: single-formula members.
- `complete_run`, run listings and the message text of the logs.
- The language model, HTTP, embeddings and vector index: oracles, or a given distance per row.
- Routes, dashboard, workflows, scheduler, scripts, migrations, telemetry and prompt texts: plumbing.
