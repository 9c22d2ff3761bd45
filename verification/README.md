# Skeleton core: a verified model

This project models the stateful core of Skeleton in Dafny and proves what that core is for: that derived
stores catch up with the canonical one, that versioned logs are sequential histories, that files which move
between directories are neither lost nor handled twice, and that the planning and reporting algorithms meet
their declarative meaning. `dafny verify dfyconfig.toml` checks all of it.

| component | modules | main results |
|---|---|---|
| Projection outbox | `CanonicalRef`, `ProjectionOutbox`, `ProjectionInvariant`, `ProjectionTheorems`, `ProjectionNames`, `ProjectionStale`, `ProjectionHistory`, `ProjectionWork`, `ProjectionDrain` | whenever no work is pending the index is right about the canonical facts and shows what was written last, through any crashes, failures and half-done rebuilds; for which names this is so and which can be indexed at all, exactly; when a drain succeeds, exactly, and what a row that cannot be read does to the rows behind it |
| Loop engine | `LoopController`, `LoopRuns`, `LoopStore`, `LoopWorkers`, `Json`, `ContextCodec` | interleaved workers leave a sequential fold; where every step leads and why, and how every log ends; counters are statistics of the log; budget bounds and an exact halting condition; a codec that accepts precisely its own encodings |
| Calendar planning | `CalendarIntervals`, `CalendarSlots`, `CalendarReconcile`, `CalendarDecisions` | a unique normal form of busy time; a slot is conflict-free exactly when it lies in a free window; every proposal, reason and field by an exact condition; updates are safe and converge |
| Inference queue | `InferenceStates`, `InferenceTheorems`, `InferenceWorker`, `InferenceOutcomes`, `InferenceRounds` | one place per request at every crash point; where each round leaves it, to the field; final results; exactly which requests can still finish, in the order the worker takes them too |
| Handoff ingestor | `HandoffStates`, `HandoffTheorems`, `HandoffRounds`, `HandoffOutcomes`, `HandoffLiveness`, `HandoffIngestor` | exactly-once handoff through crashes; exactly which packets can still settle |
| Control recovery | `ControlRecovery`, `ControlRecoveryRuns`, `ControlRecoveryPackets`, `ControlRecoveryAnswers`, `ControlRecoveryStore` | a case is closed only when all that its class asks for was done; bounded starts, honoured backoff, terminal states, at most one operator notification and exactly when there is one, termination |
| Domain event graph | `DomainEventGraph`, `DomainEventRuns`, `DomainEventAnswers`, `DomainEventStore` | every answer of the graph from its log alone; the two-index timeline is a filter and a sort; order independence; who authorises a destructive action, and when the order of arrival decides it, exactly |
| Smaller algorithms | `PendingWork`, `ReportPacking`, `CalculationHistory` | limit pushdown; fewest messages; a bounded history that refines the unbounded one |

`Common` and `Sorting` hold result types, map lemmas and the sort that the components share.

Where the source updates objects the model has a class whose methods are proved against functions on values;
protocols that survive crashes are state machines over their atomic steps, and the methods are proved to be
runs of these machines. Hashes (SHA-256, UUIDv5 of RFC 9562) are taken as injective: the hashed value stands
for its hash, or the hash is an injective function parameter.

## What the code does not meet

Several promises hold only under a condition. Where an exact condition is named below, both directions are proved.

- Outbox: the drain cuts a name at its first colon, so a fact with a colon in its namespace is read as another one,
  or not at all. It is read as another one exactly when neither part around that colon is refused, and a part of more
  than 128 characters is (`MisreadExactly`, `LongRemainderRefused`). The index is right about all of a set of facts, in
  all quiet states of all runs over them, exactly when no name of the set is misread so (`AgreesExactly`); a misread
  fact can also remove the entry of the fact whose name it shares (`SharedNameLost`). A fact can be indexed at all
  exactly when its name reads back as itself and has at most 256 characters (`ReachesExactly`).
- Outbox: while a fact with a refused name exists the outbox is never quiet (`RefusedNeverQuiet`) and its row is never
  DONE (`UnreadableNeverDone`). A drain succeeds exactly when none of the rows it claims is stuck behind such a name
  and the calls to the backend suffice (`Drain`); once a stuck row is the first unfinished one every drain fails and
  keeps all rows behind it from DONE (`BlockedDrain`), and while no stuck row waits repeated drains leave every row
  DONE (`RepeatedDrains`).
- Outbox: a fact last written through another dataset goes stale in a quiet state (`SecondDatasetGoesStale`) and
  stays so until a step wipes the index or projects its name (`StaleUntilTouched`), for ever if this dataset writes
  nothing (`StaleWhileQuiet`); `StaleSettledBy` says exactly which rows put it right.
- Loop engine: without a lease a charged loop halts or stays in budget, but a checkpointed loop accepts
  LEASE_EXPIRED events for ever (`HaltsExactly`, `LeaseEventsNeverHalt`).
- Inference queue: the result schema allows attempts up to five while stale recovery does not count against
  `max_attempts`, so a request can be claimed and worked on without end, its results refused
  (`FinishesExactly`, `RecoveriesWearOut`). The order in which the worker takes files costs no other request its
  result (`FinishesInOrderExactly`).
- Handoff: a packet whose key already names another request raises an error the ingestor does not catch, so it
  returns for ever and holds up every packet with a later name (`ConflictBlocks`). A packet can still settle exactly
  when it has settled, or is at hand without a conflict, or no waiting packet with a name up to its own can meet a
  different request under its key (`SettlesExactly`).
- Recovery: a plan with `max_attempts` of zero still starts once (`NoAttemptsStartsOnce`), and a crash is not a
  failed attempt, so no backoff follows it (`CrashSkipsBackoff`). A key goes to the operator when an escalation is
  recorded for it, when a call that nothing stops finds no response or no attempt left, or when its last attempt
  fails, and is announced exactly when the receipt of the first such event was delivered and the lesson of its
  fingerprint had not been announced before (`ToldExactly`, `SharedFingerprintSilences`, `LostReceiptSilences`).
- Event graph: node refs, edge refs, counts and timelines do not depend on the order of arrival; whether an edge
  authorises does not either exactly when all events that carry it agree on being exact
  (`AuthorityIndependentExactly`).
- Calculation memory: a write that dies after its first put is refused on retry, or reported as done with facts
  missing or out of date (`RetryAfterCrash`, `StaleButDone`); `DoneMeansStored` says exactly when an answer of done
  means that every fact is stored.

## Model

| member | source | states |
|---|---|---|
| CanonicalRef.ParseRender | core/cognee_projection_outbox.py:223-233 | a rendered name reads back as its own key iff the namespace has no colon and neither part a double dot |
| CanonicalRef.ParsesExactly | core/cognee_projection_outbox.py:223-233 | which names are cut, and into what: at the first colon, unless there is a slash or a backslash, an empty part or two dots in a row |
| CanonicalRef.RenderInjective | core/cognee_projection_outbox.py:166-186 | without colons in namespaces no two facts share a name in the outbox |
| CanonicalRef.RenderCollides | core/private_memory_history.py:396-404 | two safe keys with a colon can share one name |
| CanonicalRef.TargetExactly | core/private_memory_stack.py:158-160 | the name of a safe key reads as a fact iff neither part around its first colon is refused and what is behind it has at most 128 characters |
| ProjectionInvariant.ListRefsKeeps | core/cognee_projection_outbox.py:166-186 | after the wipe of a delete row every existing fact is on the active list or has newer work of its own |
| ProjectionInvariant.ProjectRebuildKeeps | core/cognee_projection_outbox.py:63-70 | projecting one fact in the middle of a rebuild keeps the invariant |
| ProjectionInvariant.FinishKeeps | core/cognee_projection_outbox.py:148-163 | finishing a row uses up work that no fact still relies on |
| ProjectionInvariant.StepKeeps | core/cognee_projection_outbox.py:43-90 | every atomic step of writers and drainer, crashes and failures included, keeps the invariant |
| ProjectionInvariant.RunKeeps | core/cognee_projection_outbox.py:43-90 | so does every run |
| ProjectionTheorems.QuietMeansSettled | core/cognee_projection_outbox.py:43-90 | in any run over safe names, when nothing is pending, the index says of every colon-free fact that this dataset wrote last, and whose name no colon fact took since, what the canonical store says |
| ProjectionTheorems.QuietMeansExact | core/cognee_projection_outbox.py:43-90 | in any run over safe names, when nothing is pending and all facts were last written so, the index is the colon-free canonical facts, no more and no less, each with its name, its revision and its text cut to 4096 characters |
| ProjectionTheorems.LedgerCoversDone | core/cognee_projection_outbox.py:236-261 | in any run at all the recorded revision never runs behind a DONE row |
| ProjectionTheorems.UnreadableNeverDone | core/cognee_projection_outbox.py:223-233 | a put row is not DONE in any run while its name is refused, the parts that `safe_token` refuses included, or too long for an event and its fact there throughout |
| ProjectionTheorems.DoneWasRead | core/cognee_projection_outbox.py:189-220 | a DONE put row had its name read successfully at some point before |
| ProjectionOutbox.ReadsExactly | core/cognee_projection_outbox.py:189-220 | a read raises iff the name is no fact's, or is over 256 characters and its fact there; else it gives the fact's name, revision and text, cut to 4096 characters, or nothing if the fact is gone |
| ProjectionHistory.FactsAreLastWrites | core/memory_gateway_storage.py:629-658 | in any run the store holds of a fact the value and revision of its last write, and nothing after a deletion |
| ProjectionHistory.QuietShowsLastWrite | core/cognee_projection_outbox.py:189-220 | in any run over safe names, when nothing is pending, the index shows of every fact this dataset wrote last the revision and the cut text of that write, and nothing if it was a deletion |
| ProjectionNames.AgreesExactly | core/cognee_projection_outbox.py:189-233 | for every set of safe names: all quiet states of all runs over them agree with the store on all of them iff none is read as another fact |
| ProjectionNames.MisreadDisagrees | core/cognee_projection_outbox.py:189-220 | a complete failure-free run that ends quiet without the misread fact |
| ProjectionNames.MisreadExactly | core/cognee_projection_outbox.py:223-233 | a safe name is read as another fact iff its namespace has a colon, neither part around the first one is refused and the second has at most 128 characters |
| ProjectionNames.LongRemainderRefused | core/private_memory_history.py:396-404 | a safe name with more than 128 characters behind its first colon is not misread but refused |
| ProjectionNames.SharedNameLost | core/cognee_projection_outbox.py:166-186 | put both facts of one name and delete the misread one: all rows drain, and the other fact is in the store but not in the index |
| ProjectionNames.ReachesExactly | core/cognee_projection_outbox.py:189-233 | some run over a fact ends quiet with the fact in store and index iff its name reads back as itself and has at most 256 characters |
| ProjectionNames.RefusedNeverQuiet | core/cognee_projection_outbox.py:223-233 | while a fact exists whose name is refused, or has a part that `safe_token` refuses, something is pending |
| ProjectionStale.SecondDatasetGoesStale | core/memory_gateway_storage.py:629-658 | from any quiet state of any run a write through another dataset leaves a fact stale with nothing pending |
| ProjectionStale.StaleUntilTouched | core/cognee_projection_outbox.py:59-85 | in any run a stale fact stays stale until a step wipes the index or projects its name |
| ProjectionStale.StaleWhileQuiet | core/cognee_projection_outbox.py:43-90 | in a quiet dataset it stays stale through any drains and foreign writes as long as this dataset writes nothing |
| ProjectionStale.RowLeaves | core/cognee_projection_outbox.py:59-85 | the index entry of a fact after any one row, exactly, and whether it is right |
| ProjectionStale.StaleSettledBy | core/cognee_projection_outbox.py:59-85 | which rows put a stale fact right, both directions |
| ProjectionWork.RebuildYields | core/cognee_projection_outbox.py:63-70 | a rebuild projects one event for each active name whose fact exists |
| ProjectionWork.FailsOrGoes | core/cognee_projection_outbox.py:43-90 | a drain with a row that does not get through is not one that succeeds |
| ProjectionWork.BlockedDrain | core/cognee_projection_outbox.py:117-145 | whatever a drain does while a stuck row is the first unfinished one, it fails, and that row stays stuck and first |
| ProjectionWork.DrainProgress | core/cognee_projection_outbox.py:43-90 | with no stuck row waiting and calls enough a drain succeeds, takes as many rows off as its limit allows and leaves no stuck row waiting |
| ProjectionWork.RepeatedDrains | core/cognee_projection_outbox.py:43-90 | with no stuck row waiting any sequence of drains that may take as many rows as wait leaves every row DONE |
| ProjectionDrain.Backend.Project | core/cognee_projection_adapter.py:63-64 | one entry of one scope is set, all other scopes stay |
| ProjectionDrain.Backend.ForgetProjection | core/cognee_projection_adapter.py:122-123 | the scope is emptied and the count returned, all other scopes stay |
| ProjectionDrain.Backend.Health | core/cognee_projection_adapter.py:105-120 | the highest indexed revision, and READY iff it equals the store's |
| ProjectionDrain.Outbox.ClaimRows | core/cognee_projection_outbox.py:117-145 | claims the lowest-revision unfinished rows up to the limit, in order, and leaves none below them behind |
| ProjectionDrain.Outbox.ActiveScopeRefs | core/cognee_projection_outbox.py:166-186 | each name whose newest row is not a delete, once, in order |
| ProjectionDrain.Outbox.MarkDatasetRevision | core/cognee_projection_outbox.py:236-261 | the recorded revision is the maximum seen |
| ProjectionDrain.ProjectRef | core/cognee_projection_outbox.py:189-220 | projects the mirror of the fact that the name reads as, or nothing if it is gone; fails, changing nothing, only if the name cannot be read or an event finds no call left |
| ProjectionDrain.Rebuild | core/cognee_projection_outbox.py:63-70 | forget and re-project as steps of the machine, wherever it fails; succeeds, with one event for each active fact, iff every active name can be read and the calls suffice |
| ProjectionDrain.DrainRow | core/cognee_projection_outbox.py:59-85 | the row ends DONE, or QUEUED after a failure, through drain steps only; DONE iff it is not stuck and its calls suffice, with the events projected and the calls used counted |
| ProjectionDrain.Drain | core/cognee_projection_outbox.py:43-90 | takes the outbox through drain steps only and holds no claim afterwards; succeeds iff no claimed row is stuck and the calls suffice, with exactly the claimed rows DONE and counted and one call used for each row, forgetting and projection; else exactly the rows before the first that does not get through are DONE |
| ProjectionDrain.DrainsKeep | core/cognee_projection_outbox.py:43-90 | drain steps keep the invariant |
| ProjectionDrain.DrainedMeansSettled | core/cognee_projection_outbox.py:43-90 | after a drain that leaves no unfinished row the index agrees with the store on every tracked fact |
| LoopController.AdvanceKeepsWithinPolicy | core/loop_controller.py:111-203 | one step keeps retries, iterations and, wherever the loop can run, the budget within the policy |
| LoopController.OverspentStays | core/loop_controller.py:130-182 | an overspent context stays overspent and out of READY and RUNNING |
| LoopController.OverBudgetHalts | core/loop_controller.py:130-182 | an accepted step that ends over budget halts the loop iff it is not a lease step |
| LoopController.HaltedStays | core/loop_controller.py:111-130 | no event leaves a halted state |
| LoopController.AcceptedExactly | core/loop_controller.py:111-203 | which steps are accepted: of a live loop every immediate event but a lease lost before there is one, every guarded step, and of the ordinary ones the legal pairs; rejections change nothing and say which kind they are |
| LoopController.LeadsExactly | core/loop_controller.py:130-182 | the state an accepted step leads to, each by its exact cause |
| LoopController.DecidesExactly | core/loop_controller.py:130-182 | the decision says where the step led |
| LoopController.SaysWhy | core/loop_controller.py:130-182 | the reason is the one that fits, and by `OneReasonFits` no other does |
| LoopRuns.CountersAreStatistics | core/loop_controller.py:111-203 | iterations, retries and budget used are the steps that ran, the failure streak since the last success and the sum of accepted charges of the log |
| LoopRuns.RunsStayWithinPolicy | core/loop_controller.py:111-203 | in every run retries <= iterations <= max_iterations, retry_limit + 1 retries only when exhausted, and READY or RUNNING only within budget |
| LoopRuns.OverspentNeverRuns | core/loop_controller.py:130-182 | a checkpointed run that overspent is never READY or RUNNING again |
| LoopRuns.HaltsExactly | core/loop_controller.py:130-182 | a run is halted over budget iff some accepted step over budget was not a lease step |
| LoopRuns.RunsWithinBudget | core/loop_controller.py:130-182 | without lease events every run is halted or within budget |
| LoopRuns.ChargedRunsHalt | core/loop_controller.py:130-182 | with a charge of at least one per step every run halts within max_budget_units + 1 accepted steps |
| LoopRuns.LeaseEventsNeverHalt | core/loop_controller.py:130-182 | a checkpointed loop accepts any number of charged LEASE_EXPIRED events |
| LoopRuns.EndsExactly | core/loop_controller.py:111-203 | for every log: done iff the last accepted step completed the loop out of RUNNING, cancelled iff it was CANCEL, in review, blocked, with the operator or checkpointed likewise by cause |
| LoopRuns.HaltedIsLast | core/loop_controller.py:111-128 | a halted loop accepts nothing after the step that halted it |
| LoopStore.LoopStateStore.CreateRun | core/loop_state_store.py:104-147 | inserts version 0 of a new run or reports the existing one |
| LoopStore.LoopStateStore.LoadRun | core/loop_state_store.py:149-157 | the run's head row, or not found |
| LoopStore.LoopStateStore.AppendResult | core/loop_state_store.py:159-260 | compare-and-swap on the version, the context check, one event and the new head, or no change at all |
| LoopStore.LoopStateStore.ListEvents | core/loop_state_store.py:262-269 | all events of a run in version order, none for an unknown run |
| LoopStore.CreatesExactly | core/loop_state_store.py:104-147 | version 0 with the context given iff the run is not there |
| LoopStore.AppendsExactly | core/loop_state_store.py:159-260 | each of the four refusals iff, and every field of the event and the head it writes |
| LoopStore.LoopEngine.Step | core/loop_engine.py:76-106 | load, compute and append against the loaded version |
| LoopWorkers.AppendOnlyConflicts | core/loop_state_store.py:159-260 | for engine-computed results a version match already implies every later check, so an append fails only with a version conflict |
| LoopWorkers.Reachable | core/loop_engine.py:76-106 | every interleaving of loads and appends keeps rows, histories and what workers hold consistent |
| LoopWorkers.Serializable | core/loop_state_store.py:159-260 | each run's committed events are versions 1 to its head, chained, and one sequential fold of the transition function from the context its first create gave, by inputs that workers loaded it for |
| LoopWorkers.ListedWithoutGaps | core/loop_state_store.py:262-269 | in every reachable store that list is the events of versions 1 to the head |
| LoopWorkers.OnlyVersionConflicts | core/loop_engine.py:76-106 | no interleaving produces another error |
| LoopWorkers.ReachableWithinPolicy | core/loop_engine.py:76-106 | every stored head of every interleaving is within the policy |
| Json.PrintNatValue | core/loop_state_store.py:341-353 | the digits printed for a natural number have its value |
| Json.ParsePrintedNat | core/loop_state_store.py:356-386 | a printed number parses to itself (section 6 of RFC 8259) |
| Json.ParseStringText | core/loop_state_store.py:356-386 | a quoted plain text parses to itself (section 7 of RFC 8259) |
| ContextCodec.LoadsOfEncode | core/loop_state_store.py:341-353 | an encoded context parses as the object of its six fields (section 4 of RFC 8259) |
| ContextCodec.EncodeText | core/loop_state_store.py:341-353 | the text member by member: the six names in order, no spaces |
| ContextCodec.DecodeIffEncode | core/loop_state_store.py:341-386 | a text decodes to a context iff it is that context's encoding |
| ContextCodec.EncodeInjective | core/loop_state_store.py:341-353 | different contexts have different encodings |
| CalendarIntervals.NormalizeBusyIntervals | core/calendar_planning.py:46-71 | the result is sorted, strictly separated, inside the window and covers exactly the busy instants |
| CalendarIntervals.Merge | core/calendar_planning.py:60-71 | the merge loop covers the same instants in canonical form |
| CalendarIntervals.CanonicalUnique | core/calendar_planning.py:46-71 | two canonical lists that cover the same instants are equal |
| CalendarIntervals.NormalFormDependsOnInstants | core/calendar_planning.py:46-71 | the normal form depends on the covered instants alone, not on order or repetition |
| CalendarIntervals.SameSetOccupies | core/calendar_planning.py:46-71 | order and duplicates of the input do not change what is occupied |
| CalendarSlots.GapsBounds | core/calendar_planning.py:74-101 | free windows are canonical and at least as long as asked |
| CalendarSlots.GapsCriterion | core/calendar_planning.py:74-101 | a long enough stretch is clear of busy windows iff it lies inside one gap |
| CalendarSlots.BusyPlusFree | core/calendar_planning.py:74-101 | with minimum one, busy and free time add up to the window |
| CalendarSlots.FindFreeWindows | core/calendar_planning.py:74-101 | the gaps of the unique normal form, or the validation error |
| CalendarSlots.ConflictsExactly | core/calendar_planning.py:104-133 | the overlapping, not ignored intervals, each as often as given, in sorted order |
| CalendarSlots.NoConflictsMeansUnoccupied | core/calendar_planning.py:104-133 | no conflicts iff no instant of the slot is occupied |
| CalendarSlots.SlotCriterion | core/calendar_planning.py:74-133 | a slot has no conflict iff it lies inside one free window of the same intervals |
| CalendarSlots.FreeMeansNoConflict | core/calendar_planning.py:74-136 | with nothing ignored `find_conflicts` finds nothing for a slot iff one of the windows that `find_free_windows` returns contains it |
| CalendarReconcile.JudgeFields | core/calendar_planning.py:284-329 | the field loop collects changed fields and both kinds of reasons |
| CalendarReconcile.ReconcileCalendarEvent | core/calendar_planning.py:136-365 | the whole decision, branch by branch |
| CalendarReconcile.ProposalsAreValid | core/calendar_planning_models.py:235-286 | every proposal passes its constructor, the bound of 32 reason codes included |
| CalendarReconcile.JudgeExactly | core/calendar_planning.py:287-329 | a field is the operator's iff one of the listed conditions holds, and safe iff it differs and is not |
| CalendarReconcile.FieldsDecideExactly | core/calendar_planning.py:284-365 | NEEDS_OPERATOR, UPDATE and NOOP each iff, and an update's fields are exactly those that differ |
| CalendarReconcile.UpdateOnlyByFields | core/calendar_planning.py:136-282 | UPDATE comes from no early branch |
| CalendarReconcile.UpdateIsSafe | core/calendar_planning.py:293-329 | an update never touches attendees, foreign-owned fields, a confirmed time or a drifted or shared time |
| CalendarReconcile.UpdateConverges | core/calendar_planning.py:136-365 | after carrying out an update the same call answers NOOP |
| CalendarDecisions.ErrorsExactly | core/calendar_planning.py:136-206 | each of the three errors, iff |
| CalendarDecisions.CreatesAndCancelsExactly | core/calendar_planning.py:163-255 | CREATE iff neither side has an event, it is wanted, no work calendar is blocked and nobody invited; CANCEL iff the bound event is live, unconfirmed and Skeleton's own |
| CalendarDecisions.UpdatesExactly | core/calendar_planning.py:284-365 | UPDATE iff the fields decide, some differ and none needs an operator |
| CalendarDecisions.AsksExactly | core/calendar_planning.py:136-365 | NEEDS_OPERATOR iff one of the listed situations holds |
| CalendarDecisions.ReasonsExactly | core/calendar_planning.py:136-365 | for every answer, a reason is given iff it holds |
| CalendarDecisions.CarriesExactly | core/calendar_planning.py:136-365 | every proposal names the desired event and the remote revision it was made for, and carries the payload iff it writes |
| CalendarDecisions.FieldsExactly | core/calendar_planning.py:136-365 | every proposal lists exactly the fields it is about |
| InferenceStates.RequestIdInjective | core/local_inference_runtime.py:143-149 | a request id names one request type and one idempotency key |
| InferenceStates.StepFrame | core/local_inference_runtime.py:133-296 | a file operation leaves every other request alone |
| InferenceStates.SubmitKeeps | core/local_inference_runtime.py:162-186 | submission keeps the request's file, result and counts in order |
| InferenceStates.ClaimKeeps | core/local_inference_runtime.py:207-222 | so do the rename into processing and the counted rewrite |
| InferenceStates.ResultKeeps | core/local_inference_runtime.py:225-232 | so do the result file and the rename to done |
| InferenceStates.FailWriteKeeps | core/local_inference_runtime.py:243-255 | so does the rewrite of a failed attempt |
| InferenceStates.RecoverKeeps | core/local_inference_runtime.py:259-296 | so do the steps of stale recovery |
| InferenceStates.StepKeeps | core/local_inference_runtime.py:133-296 | every file operation keeps the invariant, a crash between any two included |
| InferenceTheorems.ExactlyOnePlace | core/local_inference_runtime.py:133-296 | in every reachable queue a submitted request is in exactly one directory, unchanged, and nothing else is there |
| InferenceTheorems.DoneHasResult | core/local_inference_runtime.py:225-232 | done implies the request's own result with an attempt from 1 to 5 |
| InferenceTheorems.AttemptsBounded | core/local_inference_runtime.py:188-296 | attempts <= max_attempts + stale recoveries of the request |
| InferenceTheorems.SubmitAnswers | core/local_inference_runtime.py:162-186 | the answer depends on the first request under the id alone; `idempotency_state_incomplete` cannot occur |
| InferenceTheorems.SubmitOnce | core/local_inference_runtime.py:162-186 | after any later run a repeated submission changes nothing and names the same id |
| InferenceTheorems.ResultIsFinal | core/local_inference_runtime.py:225-296 | once written a result is never replaced and its request never claimed, retried or quarantined again |
| InferenceTheorems.FinishesExactly | core/local_inference_runtime.py:188-296 | some run still brings the request to done iff it is not quarantined and a result of at most five attempts is there or can still come |
| InferenceTheorems.LostForever | core/local_inference_runtime.py:225-232 | a request past that point is never done |
| InferenceTheorems.RecoveriesWearOut | core/local_inference_runtime.py:259-296 | every valid request can be worn out by crashes and recoveries while it waits for retry |
| InferenceWorker.InferenceQueue.Submit | core/local_inference_runtime.py:133-186 | the loop over the directories computes the submission |
| InferenceWorker.InferenceQueue.ClaimNext | core/local_inference_runtime.py:188-223 | takes the first due retry by name, else the first pending file, and counts the attempt; nothing iff there is neither |
| InferenceWorker.InferenceQueue.Complete | core/local_inference_runtime.py:225-232 | result and rename, or no change when the attempt exceeds the result schema |
| InferenceWorker.InferenceQueue.Fail | core/local_inference_runtime.py:234-257 | retry iff the fault may pass and the attempt is below max_attempts, else quarantine; the file's fields are those of `RoundExactly` |
| InferenceWorker.InferenceQueue.RecoverStaleProcessing | core/local_inference_runtime.py:259-296 | recovers the stale files one after the other by name and returns their number, as a run of file operations |
| InferenceWorker.RecoveredExactly | core/local_inference_runtime.py:259-296 | every stale file goes to done if its result is there and to retry if not, counted, and every other request stays as it is |
| InferenceWorker.InferenceQueue.ProcessOne | core/local_inference_runtime.py:380-428 | one round is a run of file operations that settles the chosen request by the model's outcome |
| InferenceWorker.RecoveryIsRun | core/local_inference_runtime.py:259-296 | recovering any set of stale files is a run of single file operations |
| InferenceWorker.RoundIsRun | core/local_inference_runtime.py:380-428 | so is a round of the worker |
| InferenceOutcomes.DelayDoubles | core/local_inference_runtime.py:249-251 | the backoff is one second after the first attempt, doubles with each further one and never exceeds 60 |
| InferenceOutcomes.RefusedExactly | core/local_inference_runtime.py:133-161 | a submission is refused iff a field is out of bounds, and then changes nothing |
| InferenceOutcomes.CreatedExactly | core/local_inference_runtime.py:162-186 | a new request waits unattempted in pending and all others stay |
| InferenceOutcomes.ChosenExactly | core/local_inference_runtime.py:188-205 | a claim takes the first by name of the retries that are due, else the first pending file |
| InferenceOutcomes.ClaimExactly | core/local_inference_runtime.py:188-223 | a claim moves the one file, counts its attempt and clears its time; all others stay |
| InferenceOutcomes.RoundExactly | core/local_inference_runtime.py:380-428 | a round leaves the claimed request done with its result, in retry until now plus the backoff iff the fault may pass and attempts are left, in quarantine otherwise, or in processing past the fifth attempt; every other field and request stays |
| InferenceOutcomes.StaleExactly | core/local_inference_runtime.py:259-296 | a recovered file goes to done with its result, or is due at once with its attempts as they were |
| InferenceOutcomes.QuarantinedOnlySpent | core/local_inference_runtime.py:234-257 | in every run a request without a final fault is in quarantine only at max_attempts or more |
| InferenceOutcomes.ResultWasGiven | core/local_inference_runtime.py:225-232 | in every run a result holds an output that was written for this request |
| InferenceRounds.ClearedAway | core/local_inference_runtime.py:188-257 | a round whose model call fails for good takes the file before a waiting one out of its way, and the waiting one still waits |
| InferenceRounds.FinishesInOrderExactly | core/local_inference_runtime.py:188-428 | the same condition decides it when the worker takes the files in its order, by whole rounds, recoveries and deaths |
| HandoffStates.HandedQueue | core/family_document_local_inference.py:396-414 | what submission does to a packet depends on its schemas and the first request under its key alone |
| HandoffStates.StepFrame | core/family_document_local_inference.py:388-443 | a file operation leaves every other packet alone |
| HandoffStates.StepKeeps | core/family_document_local_inference.py:388-443 | every file operation of ingestor, queue and producers keeps the combined invariant, a crash between any two included |
| HandoffTheorems.QueueReachable | core/family_document_local_inference.py:388-435 | whatever the ingestor does, the queue is one its own operations could have produced |
| HandoffTheorems.NeverLostNorDoubled | core/family_document_local_inference.py:388-443 | a dropped packet is in exactly one directory with its content at every point of every run |
| HandoffTheorems.AcceptedIsQueued | core/family_document_local_inference.py:400-425 | an accepted packet's bound payload is that of the single queued request with its key, and the receipt names it |
| HandoffTheorems.QueuedFields | core/family_document_local_inference.py:396-414 | field by field: text, source kind, languages, pages, mime type and key of the queued request are the packet's, all else the configuration's |
| HandoffTheorems.RefusedExactly | core/family_document_local_inference.py:396-414 | a packet is refused iff the packet, the aliases or the request it becomes is out of the schemas' bounds |
| HandoffTheorems.ReviewIsRefused | core/family_document_local_inference.py:426-434 | only packets that a schema refuses are in review |
| HandoffTheorems.RecoveryReturns | core/family_document_local_inference.py:437-443 | with fresh names recovery never finds the pending place taken |
| HandoffTheorems.OneCreator | core/family_document_local_inference.py:416-424 | at most one packet has the QUEUED receipt of a request |
| HandoffTheorems.SameKeySamePayload | core/local_inference_runtime.py:162-186 | two accepted packets share a request iff they share a key, and then they are equal |
| HandoffLiveness.SettlesExactly | core/family_document_local_inference.py:388-443 | some run accepts or reviews a packet iff it is settled, or at hand without a conflict, or no waiting packet with a name up to its own can meet a different request under its key |
| HandoffIngestor.FamilyDocumentHandoffIngestor.RecoverProcessingClaims | core/family_document_local_inference.py:437-443 | every claim is back in pending, or in review where its place is taken |
| HandoffIngestor.FamilyDocumentHandoffIngestor.IngestOne | core/family_document_local_inference.py:388-435 | recovers, then settles the first packet by name, and raises exactly on a key conflict |
| HandoffRounds.IngestIsRun | core/family_document_local_inference.py:388-435 | settling the first listed packet is a run of single file operations |
| HandoffRounds.ReturnIsRun | core/family_document_local_inference.py:437-443 | recovering all claims is a run of single file operations |
| HandoffRounds.ConflictBlocks | core/family_document_local_inference.py:388-443 | once the first packet by name conflicts, further rounds change nothing |
| HandoffOutcomes.IngestExactly | core/family_document_local_inference.py:388-435 | one round leaves the packet in review iff a schema refuses it, accepted as QUEUED iff its key is new, as DUPLICATE iff its own request holds the key, and in processing otherwise; every other desk stays, and the queue gets its request iff the key is new |
| HandoffOutcomes.ReturnExactly | core/family_document_local_inference.py:437-443 | recovery moves exactly the claims, desk by desk |
| ControlRecovery.VerifiedExactly | core/control_recovery.py:257-296 | verified iff all actions reported done, all canaries passed and the queue was reopened; only registered actions that reported are listed, in order, the reopening last |
| ControlRecovery.SelectedExactly | core/control_recovery.py:459-504 | a verified response is reused, a failed one avoided, the operator asked only when all have failed |
| ControlRecovery.PacketPlans | core/control_recovery.py:793-835 | a packet's plan has 1 to 5 attempts, 1 to 3600 seconds of backoff and registered actions |
| ControlRecoveryRuns.StepKeeps | core/control_recovery.py:179-429 | every transaction, a stop before the claim and a crash between claim and outcome included, keeps the per-key invariant while other keys interleave |
| ControlRecoveryRuns.CallInOneGo | core/control_recovery.py:179-250 | a whole call is the choice of a response and what follows it, between which other keys' events may come |
| ControlRecoveryRuns.StartsBounded | core/control_recovery.py:209-250 | in every history the actions of a key start as often as its row counts attempts, at most the largest max_attempts given |
| ControlRecoveryRuns.PacketStartsBounded | core/control_recovery.py:793-835 | at most five times for packet-built plans |
| ControlRecoveryRuns.NoAttemptsStartsOnce | core/control_recovery.py:245-249 | a plan without attempts starts once all the same |
| ControlRecoveryRuns.OperatorToldOnce | core/control_recovery.py:362-429 | in every history at most one delivered receipt of a key carries the notification, and only of a key in NEEDS_OPERATOR |
| ControlRecoveryRuns.ToldExactly | core/control_recovery.py:362-429 | a key is in NEEDS_OPERATOR iff an escalation was recorded for it, a call that nothing stopped found no response or no attempt left, or its last attempt failed; announced iff the receipt of the first such event was delivered and its lesson not announced before |
| ControlRecoveryRuns.SharedFingerprintSilences | core/control_recovery.py:376-401 | of two keys with one fingerprint the second is never announced, whatever follows |
| ControlRecoveryRuns.LostReceiptSilences | core/control_recovery.py:362-429 | a death between commit and return loses the notice for good |
| ControlRecoveryRuns.TerminalStays | core/control_recovery.py:506-523 | NEEDS_OPERATOR is never left, RECOVERED only for it, and neither starts actions again |
| ControlRecoveryRuns.BackoffHonoured | core/control_recovery.py:216-227 | before a waiting key's retry time no call starts it, whatever else happens, provided none for it was under way when it began to wait |
| ControlRecoveryRuns.FailureWaits | core/control_recovery.py:298-341 | a failed attempt waits backoff times attempt, or goes to the operator with the last one |
| ControlRecoveryRuns.CrashSkipsBackoff | core/control_recovery.py:240-251 | after a crash the next call may start in the same second |
| ControlRecoveryRuns.DueCallProgress | core/control_recovery.py:209-250 | a due call ends the case or uses an attempt |
| ControlRecoveryRuns.RecoveryEnds | core/control_recovery.py:179-360 | more due calls than max_attempts leave the key recovered or with the operator |
| ControlRecoveryPackets.PacketAsks | core/control_recovery.py:793-835 | for every packet: its plan asks for the calls and canaries of its class, takes the packet's attempts and backoff if in bounds and else 3 and 60, and is fingerprinted iff the packet or its class is |
| ControlRecoveryPackets.ChoiceServes | core/control_recovery.py:459-504 | whatever the lessons, the chosen response leaves all that the class asks for or gives the case to the operator |
| ControlRecoveryPackets.OwnOutcomeCloses | core/control_recovery.py:252-360 | an outcome closes the case iff every call and canary of the class was reported done, and then the row lists exactly these |
| ControlRecoveryPackets.RecoveredMeansDone | core/control_recovery.py:793-835 | in every history driven by packets a key is RECOVERED only if all that its class asks for was done, the reopening of the queue included, and its row lists exactly that |
| ControlRecoveryAnswers.StoppedExactly | core/control_recovery.py:506-523 | a call for a closed, escalated or waiting case changes nothing, repeats the row and says which it is |
| ControlRecoveryAnswers.ClaimedExactly | core/control_recovery.py:209-250 | the row and the flight of a claimed attempt, field by field, and when there is one |
| ControlRecoveryAnswers.ExhaustedExactly | core/control_recovery.py:228-239 | row and receipt of a case without an attempt left |
| ControlRecoveryAnswers.StopsExactly | core/control_recovery.py:257-296 | at which action, canary or reopening an execution stops, with which reason and which calls on record |
| ControlRecoveryAnswers.FinishedExactly | core/control_recovery.py:297-360 | row and receipt of an outcome, field by field; the operator is told iff the case is his now and he has not been told |
| ControlRecoveryAnswers.EscalatedExactly | core/control_recovery.py:362-429 | row, lesson and receipt of an escalation, field by field; all other rows and lessons stay |
| ControlRecoveryAnswers.LessonsRemember | core/control_recovery.py:545-613 | in every history a lesson lists the last ten attempts under its fingerprint, in order, each with its response and whether it failed |
| ControlRecoveryAnswers.LessonAfter | core/control_recovery.py:545-613 | a success is verified and preferred from then on, a failure leaves the preference |
| ControlRecoveryAnswers.ChosenExactly | core/control_recovery.py:459-504 | which response a lesson leads to, case by case, and that only giving up is written down |
| ControlRecoveryAnswers.ChoiceExactly | core/control_recovery.py:179-205 | the choice writes the one lesson and nothing else |
| ControlRecoveryAnswers.ResponsePlanExactly | core/control_recovery.py:919-935 | what each response makes of any plan, field by field |
| ControlRecoveryStore.RecoveryStore.SelectResponse | core/control_recovery.py:459-504 | the search for a response and its lesson row |
| ControlRecoveryStore.RecoveryStore.RecordLessonAttempt | core/control_recovery.py:545-613 | the lesson after a verified or failed attempt |
| ControlRecoveryStore.RecoveryStore.RecordNeedsOperator | core/control_recovery.py:362-429 | row, lesson and notification of an escalation |
| ControlRecoveryStore.RecoveryStore.RunRecovery | core/control_recovery.py:179-360 | a whole call is its claim transaction, the actions and its outcome transaction |
| ControlRecoveryStore.ExecutePlan | core/control_recovery.py:257-296 | the loops over actions and canaries compute the execution |
| DomainEventGraph.NodeRefInjective | core/domain_event_graph.py:478-479 | no two refs have the same node ref, although ids may hold colons |
| DomainEventGraph.ByRulesExact | core/domain_event_graph.py:277-295 | an envelope carries an edge iff a rule joins two of its refs by it |
| DomainEventGraph.EdgeAtCase | core/domain_event_graph.py:247-253 | an edge at a case's node is carried only by envelopes that name the case |
| DomainEventRuns.BuildReflects | core/domain_event_graph.py:102-148 | records, node refs, edge refs and both indexes are those of the first valid envelope under each key; `FirstSeen` and `FirstWriterWins` give the contents of nodes and edges |
| DomainEventRuns.TimelineIsFilter | core/domain_event_graph.py:247-253 | the two-index query finds exactly the ingested events that name the case, and the edge pass adds none |
| DomainEventRuns.EveryEventFound | core/domain_event_graph.py:255-259 | looking an indexed event up never fails and finds one record |
| DomainEventRuns.ReplayChangesNothing | core/domain_event_graph.py:102-115 | an accepted envelope replayed changes nothing and is answered with the first refs |
| DomainEventRuns.OrderDoesNotMatter | core/domain_event_graph.py:102-180 | any order and repetition of a conflict-free batch gives the same records, node and edge refs, counts and timelines |
| DomainEventRuns.FirstWriterWins | core/domain_event_graph.py:297-329 | an edge is what the first event that carried it made it |
| DomainEventRuns.FirstSeen | core/domain_event_graph.py:261-275 | a node stands for the ref it is named by and remembers the first event that named it |
| DomainEventRuns.AuthorizedExactly | core/domain_event_graph.py:182-191 | an edge authorises iff the first event that carried it was exact |
| DomainEventRuns.AuthorizedHasExactEvent | core/domain_event_graph.py:182-191 | an authorised edge has an exact event that names both of its ends |
| DomainEventRuns.OrderDecidesAuthority | core/domain_event_graph.py:297-329 | an exact and an inferred event of one edge authorise it in one order and not in the other |
| DomainEventRuns.AuthorityIndependentExactly | core/domain_event_graph.py:182-191 | all orders of a conflict-free batch agree on an edge's authority iff all its events that carry the edge agree on being exact |
| DomainEventRuns.OrderDecidesWitness | core/domain_event_graph.py:297-329 | such a pair of valid envelopes |
| DomainEventAnswers.CarriesByEnds | core/domain_event_graph.py:277-295 | an envelope carries an edge iff two of its refs are of the kinds that edges of this type join |
| DomainEventAnswers.EdgesOnce | core/domain_event_graph.py:277-295 | an envelope that names no ref twice lists no edge twice |
| DomainEventAnswers.ValidExactly | core/domain_event_graph.py:403-476 | an envelope is valid iff its tokens, hashes, lists and confidence are in bounds |
| DomainEventAnswers.AnswersExactly | core/domain_event_graph.py:102-148 | in every reachable graph: refused iff invalid, a conflict iff the log has another envelope under the key, new iff it has none; the receipt names the source, the refs and exactly the edges; nothing but a new event changes anything |
| DomainEventAnswers.EdgeRemembers | core/domain_event_graph.py:297-329 | confidence, inference and provenance of an edge are those of the first event that carried it |
| DomainEventStore.EventGraph.Ingest | core/domain_event_graph.py:102-148 | the loops over refs, rules and cases compute the graph, which stays what its log makes it, and the answer is that of `AnswersExactly` for the log |
| DomainEventStore.EventGraph.EnsureBridgeEdges | core/domain_event_graph.py:277-295 | the nested loops add the bridge edges in order |
| DomainEventStore.EventGraph.EventsForCase | core/domain_event_graph.py:247-253 | the set found over both indexes |
| DomainEventStore.EventGraph.CaseTimeline | core/domain_event_graph.py:150-180 | the timeline has one row for each event of the log that names the case, by time and event ref |
| DomainEventStore.SortedRows | core/domain_event_graph.py:167-168 | the sorted rows do not depend on the order they were found in |
| DomainEventStore.TimelineExactly | core/domain_event_graph.py:150-180 | one row for every ingested event that names the case, earliest first, each naming what its event put into the graph |
| PendingWork.SharedPendingLifecycleWork | core/intake_lifecycle.py:428-465 | the first rows of all pending rows of all stores for a limit from 1 to 1000, or the limit error |
| PendingWork.LimitPushdown | core/intake_lifecycle.py:299-318 | cutting each store to k rows before the merge does not change the first k |
| PendingWork.PushDownOne | core/intake_lifecycle.py:299-318 | for any total order one source may be cut before merging |
| PendingWork.FirstRowsExactly | core/intake_lifecycle.py:425-450 | the answer lists rows that are not done, earliest first, and every other such row comes after all of a full list |
| ReportPacking.RenderPackageReport | core/family_document_report.py:68-83 | the loop computes the greedy packing |
| ReportPacking.NothingLost | core/family_document_report.py:68-83 | the messages joined give back header and sections in order, and each fits or is one block |
| ReportPacking.AllFitExactly | core/family_document_report.py:68-83 | all messages fit iff every block does |
| ReportPacking.FewestMessages | core/family_document_report.py:68-83 | no in-order division into sendable messages uses fewer |
| CalculationHistory.BoundedRefinesUnbounded | core/aufmass_memory_bridge.py:418-438 | the stored history is the last fifty of the distinct hashes by most recent write, each with its latest entry |
| CalculationHistory.HistoryIsSuffix | core/aufmass_memory_bridge.py:74-83 | a history query shows a suffix of it of one to ten entries |
| CalculationHistory.HistoryOfWrites | core/aufmass_memory_bridge.py:101-173 | after any calls for any projects, with repeats and interruptions anywhere, each project's history is that of its non-duplicate writes that reached the index |
| CalculationHistory.RepeatChangesNothing | core/aufmass_memory_bridge.py:130-142 | a repeat of a call that began changes nothing and is answered as done iff the calculation is there |
| CalculationHistory.RepeatAnswers | core/aufmass_memory_bridge.py:122-142 | a call whose key is there changes nothing; collision, missing record or done, each iff |
| CalculationHistory.RetryAfterCrash | core/aufmass_memory_bridge.py:130-173 | for every store, what a retry answers and stores after a crash at any put, an earlier calculation of the input included |
| CalculationHistory.DoneMeansStored | core/aufmass_memory_bridge.py:130-173 | for every store, a retry is answered as done with every fact stored, rooms, blockers and evidence too, iff no fact is put with two values and the first try died before its first put or all it had not reached was there |
| CalculationHistory.StaleButDone | core/aufmass_memory_bridge.py:130-142 | on an input calculated before, a retry is answered as done while the old calculation is still stored |
| CalculationHistory.WriteStores | core/aufmass_memory_bridge.py:377-420 | what a first call leaves after any number of its puts, document by document |
| CalculationHistory.WriteStoresDetails | core/aufmass_memory_bridge.py:399-420 | a room, blocker or evidence fact holds what its last put gave it |
| CalculationHistory.AufmassMemoryBridge.WriteCalculation | core/aufmass_memory_bridge.py:101-173 | the puts one after the other, up to a crash |
| CalculationHistory.AufmassMemoryBridge.LatestCalculation | core/aufmass_memory_bridge.py:220-231 | the most recent entry of another input that has a record |
| Sorting.OnlyArrangement | core/intake_lifecycle.py:447-448 | however a list's elements are put in order under a total order, the result is the one sort makes |
| Sorting.SortMapped | core/intake_lifecycle.py:447-448 | sorting by a key commutes with building rows from it |

## Left out

- Two concurrent drainers, concurrent recoveries of one failure key, and submissions that race the worker's
  renames: the code serialises these by its locks and callers, and the model takes them in that order.
- The writer of the outbox is reduced to its two commits, the mutation and the insertion of its row; a mutation
  of several facts at once and the gateway around it are not part of this model.
- The receipts ledger of the projection keeps only the indexed revision.
- ProjectionDrain.Outbox.ClaimRows: leaves the order of rows with equal revision open, because creation times and
  the hashed work keys that break these ties are not part of this model.
- ProjectionDrain.Drain: leaves open which of the two error codes a failed drain reports.
- A canonical database that fails its integrity check, which the drain reads as if the fact were not there.
- Private-marker words that `safe_token` also refuses: the theorems about names hold for more names than it lets
  through.
- Files that cannot be read, locks, SQLite, HTTP and clocks: tables are maps, renames are map moves, times and
  answers of models, executors and backends are parameters.
- Envelope fields of the inference queue that nothing decides on (timestamps, model allow-list and adapters, which
  appear as the outcome of a model call); of the result schema only the attempt bound can fail.
- Learning metrics, timestamps and the evidence hash of control recovery; failure classification by text.
- Of the memory gateway, only that a put may be refused, for instance when a transaction ref is used again: a
  refused put is one more way for a calculation write to stop.
- Python's limit on the digits of an integer literal, so the codec has none.
- Sorting by `list.sort` is modelled as insertion sort; only its result is spoken of.
- Floating-point confidence is a real number; only its equality with one and its range matter.
- Store refs of the pending-work merge are taken as already stripped and distinct.
- Area, perimeter and room matching of the measurements: floating-point geometry.
- ProjectionTheorems.QuietMeansExact: speaks of colon-free facts and of a single dataset, because AgreesExactly and
  SecondDatasetGoesStale show that it fails otherwise.
- HandoffTheorems.ReviewIsRefused: does not cover I/O errors, after which the ingestor sends a packet to review even
  if it has been submitted; no file operation of the model raises one.
- InferenceWorker.InferenceQueue.Complete: of the result schema only the attempt bound can fail, because the output
  validator belongs to the adapter, which appears as the outcome of the model call.
- CalendarReconcile.ProposalsAreValid: the token checks of the constructor are not modelled, because its refs come
  from objects that have passed the same checks.
- Validators, manifests, redaction, receipts' formatting, OCR, messaging and mail: single-pass checks and I/O, with
  no state that outlives a call.
