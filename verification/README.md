# Verified models of the research agent's core

A Dafny 4.11 model of the parts of the search assistant that keep books while
concurrent workers run: the run budget ledger, the span recorder and the causal
tree built from its journal, the single-flight retrieval cache, the event log
with its cached projections, citation numbering, context layer eviction and the
pause clock of a run.  `dafny verify dfyconfig.toml` checks all of it.

How it is laid out:

| files | component |
|---|---|
| `RunBudget`, `RunBudgetInvariant`, `RunBudgetRuns`, `RunBudgetLeases`, `RunBudgetOutcomes`, `RunBudgetManager` | the ledger as values, what every operation keeps, theorems over whole runs, the life of one lease, what each operation answers and books in numbers, and the object whose methods update the ledger in place |
| `Events`, `SpanTree`, `Recorder`, `RecorderEvents`, `RecorderTree`, `RecorderStages`, `AgentTelemetry`, `TraceReplay` | the causal tree of any event list, the recorder as a protocol, which events each operation leaves in the journal, when the journal is one tree, the recorder object, and the way from the recorder through the store back to the tree |
| `RetrievalCache`, `SingleFlight`, `RetrievalCacheObject` | the lock regions of the cache, the concurrent protocol over them, and the dictionaries as an object |
| `Replay`, `Paging`, `Following`, `Projections`, `ProjectionStore` | loading events, reading a run back and forward page by page, cached projections under interleaved appends, and the store object |
| `Citations`, `CitationTracker` | numbers and the reference block, and the collector object |
| `ContextBudget`, `LayerOrder` | eviction passes and the loops that run them, and how much they take in which order |
| `PauseClock`, `RunStore` | elapsed time against a meter, and the run table object |
| `Common`, `Sorting`, `Text` | sums, stable sorting, numerals and white space |

Conventions.  A method that holds a lock is one atomic step.  A Python dictionary
is a sequence of entries in insertion order, or a map where order does not
matter.  Code that updates fields is a class whose methods are proved equal to a
step on values; the theorems are about those steps and about every finite run of
them.  Random identifiers are counters or parameters required to be fresh, and a
clock reading is a parameter.

Where the code does less than its documentation suggests, the model follows the
code, a lemma shows an input on which it fails, and the exact condition or the
caller's obligation is proved:

- `Citations.ReferenceClosure`: the block of a cited report lists exactly the
  cited numbers if and only if every number is represented by an id that belongs
  to its own sources; `SharedIdLosesAReference` is the failing case.
- `RecorderTree.RunIsOneTreeIff`: a span opened by `start_span` and not announced
  can become its own parent (`AgentTelemetry.UnannouncedSpanCanBecomeItsOwnParent`).
  A journal is one tree after every event if and only if every kept event named a
  span, or a parent, that was shown before.  `RecorderTree.Guard` is a discipline
  that sees to it; the worker's and the synthesis stage's use of `start_span` follow it.
- `SingleFlight.ClearIsSafeIff`: clearing the cache keeps single flight if and only
  if nothing is in flight; runs contain such clears.  `SingleFlight.AbortStrandsIff`:
  a producer ended by an exception that is no `Exception` strands exactly the calls
  that wait for its future.
- `Replay.LimitPushdownIsExact`: the limit is exact unless zero events from the end
  are asked for while the file or the journal holds some.
- `Paging.PagingEnumeratesTheLog` and `Replay.WindowIsPartOfTheWholeIff`: `emit` lets
  the store miss an event and counts on the journal and the file, but `load_events`
  turns to the file only where the store has nothing, so that an event above some row
  is lost (`Paging.GapIsLost`) and a window may hold what the whole does not
  (`Replay.StoreHidesTheFile`).
- `Following.FollowingEnumeratesTheRest`: the same for a reader that follows the run by
  the last number it has seen.
- `PauseClock.RunIsChargeFreeIff` and `StepIsRightIff`: a pause that ends other than by
  `clear_hitl` is charged as working time, a pause outside the run is credited to it,
  and a second completion charges the time since the first; these are the only ways.

A source id is shared by two canonical ids when a snapshot says so:
`load_from_snapshot` (app/agent/harness/citations.py:972-985) takes ids as they are
given, and a missing id becomes the empty one.  Registration numbers its ids from a
counter; when a snapshot has none the counter starts from the number of sources, so
that a later id may repeat a restored one.

Beside the methods in the table below, the objects have small methods that assign
one field or call one step (`CommitTokens`, `NoteLlmCall`, `Fail`, `Leave`, `Clear`,
`Append`, `GetProjection`, `DeltaMs`, `BindWorker` and the like).  They tie the
objects to the steps the theorems are about and are not listed as results.

## Model

| member | source | states |
|---|---|---|
| `RunBudget.ShareTokens` | app/agent/harness/run_budget.py:191-194 | the tokens of a stage share never exceed the run limit, whatever share is configured |
| `RunBudget.MakeConfig` | app/agent/harness/run_budget.py:125-165 | construction yields 0 <= research cap <= repair cap <= token limit, and no caps when there is no limit |
| `RunBudgetInvariant.StepKeepsInv` | app/agent/harness/run_budget.py:288-661 | every operation keeps the representation invariant: the call counter is the number of live reservations, the plain reserve is the sum of the non-worker estimates, the first lease of a task carries all its live estimates and any other lease of it none, every worker reservation has a live lease, ids are distinct and calls stay within each lease's limit |
| `RunBudgetInvariant.ReservedIsLive` | app/agent/harness/run_budget.py:282-286 | plain reserve plus in-flight totals of all leases is exactly the sum of the live estimates |
| `RunBudgetInvariant.RemainingOfTask` | app/agent/harness/run_budget.py:368-378 | when one of several leases of a task is released, the remaining ones carry all or nothing of what is in flight, and never twice |
| `RunBudgetInvariant.LeaseReleaseKeepsInv` | app/agent/harness/run_budget.py:368-378 | releasing a lease, with every reservation of its task, keeps the invariant |
| `RunBudgetInvariant.AdmissionKeepsInv` | app/agent/harness/run_budget.py:459-593 | a reservation, granted or refused, keeps the invariant |
| `RunBudgetInvariant.SettleKeepsInv` | app/agent/harness/run_budget.py:595-661 | taking a reservation out of the ledger keeps the invariant |
| `RunBudgetInvariant.GrantKeepsInv` | app/agent/harness/run_budget.py:422-457 | the finalization grant keeps the invariant |
| `RunBudgetRuns.InvariantHolds` | app/agent/harness/run_budget.py:118-661 | the invariant holds after every sequence of operations |
| `RunBudgetRuns.TokenConservation` | app/agent/harness/run_budget.py:282-661 | over any run, used tokens are what commits spent plus what was booked without a reservation, and used plus in-flight tokens pass the hard cap by no more than commits overran their estimates |
| `RunBudgetRuns.ResearchStaysInItsShare` | app/agent/harness/run_budget.py:191-206 | over any run, tokens charged to research calls stay in the research cap and research plus repair in the repair cap, up to their own overruns |
| `RunBudgetRuns.ProtectedShareIsAvailable` | app/agent/harness/run_budget.py:534-568 | whatever research did, a run-level call outside research that fits the protected rest is never refused for tokens |
| `RunBudgetRuns.CallSlotConservation` | app/agent/harness/run_budget.py:470-483 | every granted reservation is live or settled exactly once, and settled plus live calls never pass the call limit |
| `RunBudgetRuns.SettledOnce` | app/agent/harness/run_budget.py:595-661 | once settled, by commit, release or lease release, a reservation never comes back, and settling it again changes nothing |
| `RunBudgetRuns.SettlingEndsIt` | app/agent/harness/run_budget.py:595-661 | commit and release end a live reservation and cost one call slot, release costs no tokens |
| `RunBudgetRuns.ExhaustedIsMustSynthesize` | app/agent/harness/run_budget.py:680-694 | the exhaustion reason and the forcing of synthesis fire on the same states |
| `RunBudgetRuns.ExhaustionIsAbsorbing` | app/agent/harness/run_budget.py:789-831 | once exhausted, after any operations and at any later time the budget is exhausted, synthesis is forced and no research lease is granted |
| `RunBudgetLeases.ReserveKeptAlways` | app/agent/harness/run_budget.py:499-533 | over any run, what a lease used and has in flight stays below its ceiling less the finalization reserve, up to finalize calls and overruns |
| `RunBudgetLeases.FinalizationReserveIsAvailable` | app/agent/harness/run_budget.py:499-533 | a finalize call that fits what is left of the reserve is never refused with the worker token cap |
| `RunBudgetLeases.LeaseLife` | app/agent/harness/run_budget.py:422-457 | over its life a lease keeps task, ceiling and stage, its calls never pass its limit, and the limit grows by at most one, with the one grant |
| `RunBudgetOutcomes.ShareIs` | app/agent/harness/run_budget.py:191-194 | a share is the largest number of whole tokens within it; shares outside 0..1 are nothing and everything |
| `RunBudgetOutcomes.ConfigIs` | app/agent/harness/run_budget.py:125-206 | the defaults for zero, negative limits as none, the research cap, and a repair cap of both shares within the limit |
| `RunBudgetOutcomes.GrantedIff` | app/agent/harness/run_budget.py:459-593 | a call is granted if and only if settled plus live calls leave a slot, the first lease of its task has a call and, reserve apart, the tokens left, used tokens plus the sum of live estimates leave them within the run limit, and a research phase within its stage's cap |
| `RunBudgetOutcomes.RefusalIs` | app/agent/harness/run_budget.py:470-568 | which of these fails first is the reason given |
| `RunBudgetOutcomes.RunCallCapIff` | app/agent/harness/run_budget.py:470-483 | over any run, a request is refused for want of a call slot if and only if there is a call limit and settled, outside and live calls have reached it |
| `RunBudgetOutcomes.GrantBooks` | app/agent/harness/run_budget.py:570-593 | a granted call enters once, in flight and as a call on the first lease of its task or in the plain reserve; no other lease and no counter moves; a refused one changes nothing |
| `RunBudgetOutcomes.CommitBooks` | app/agent/harness/run_budget.py:595-627 | used tokens, of the run and of the first lease of the task, grow by what was reported, by the estimate for a report of zero, by one for a negative one; the estimate leaves the reserve and nothing else moves |
| `RunBudgetOutcomes.ReleaseBooks` | app/agent/harness/run_budget.py:629-661 | a release takes the estimate out of its lease, counts one call and books no tokens |
| `RunBudgetOutcomes.LeaseGrantedIff` | app/agent/harness/run_budget.py:288-366 | a lease is granted if and only if used plus live tokens are below the run limit and its stage's cap, a call slot and a tool call are free and the time for synthesis has not come |
| `RunBudgetOutcomes.LeaseReasonIs` | app/agent/harness/run_budget.py:789-808 | the reason of a refusal, in numbers of live estimates and instants |
| `RunBudgetOutcomes.CeilingIsLargest` | app/agent/harness/run_budget.py:318-347 | the granted ceiling is the largest that is asked for, or is an even share of the cap, and that the stage and the run have left |
| `RunBudgetOutcomes.LeaseBooks` | app/agent/harness/run_budget.py:348-366 | a new lease enters at the end with its limits and empty counters; nothing else moves |
| `RunBudgetOutcomes.LeaseReleaseBooks` | app/agent/harness/run_budget.py:368-378 | exactly the reservations of the task end, at a call each and no tokens |
| `RunBudgetOutcomes.LeaseReleaseLeaves` | app/agent/harness/run_budget.py:368-378 | the lease goes; other leases of its task have nothing in flight any more, and those of other tasks are unchanged |
| `RunBudgetOutcomes.FinalizationIs` | app/agent/harness/run_budget.py:422-457 | the extra call is granted if and only if a slot is free and the first lease of the task has not had it, and changes that lease alone |
| `RunBudgetOutcomes.ToolsBook` | app/agent/harness/run_budget.py:663-678 | a batch of at least one is refused exactly when it passes a limit, and counted whole otherwise |
| `RunBudgetOutcomes.UsageBooks` | app/agent/harness/run_budget.py:216-277 | observed usage raises each counter to itself or leaves it; the tool limit is only lowered or first set |
| `RunBudgetOutcomes.ExhaustedIff` | app/agent/harness/run_budget.py:815-831 | exhaustion is the research cap, the call limit or the tool limit reached by committed usage, or the time for synthesis |
| `RunBudgetOutcomes.ExhaustionReasonIs` | app/agent/harness/run_budget.py:815-831 | and the first of these is its reason |
| `RunBudgetOutcomes.FlagIs` | app/agent/harness/run_budget.py:680-698 | the flag is up after an operation if and only if it was, it is raised by hand, or the operation looks at the budget again and leaves it exhausted; the operations that look are listed |
| `RunBudgetManager.ReleaseFirstIsReleasedTo` | app/agent/harness/run_budget.py:368-378 | releasing the reservations of a task one by one is the same as dropping them all at once |
| `RunBudgetManager.ReleasingIsReleaseTask` | app/agent/harness/run_budget.py:368-378 | the whole loop over the snapshot is the one step of the value model |
| `RunBudgetManager.Manager.constructor` | app/agent/harness/run_budget.py:125-165 | a new manager is the initial ledger and satisfies the invariant |
| `RunBudgetManager.Manager.ActiveWorkerReserved` | app/agent/harness/run_budget.py:282-283 | the sum of the in-flight totals of the leases |
| `RunBudgetManager.Manager.FindLease` | app/agent/harness/run_budget.py:485-498 | the first lease with the given task id |
| `RunBudgetManager.Manager.MaybeForceSynthesis` | app/agent/harness/run_budget.py:680-689 | the flag rises exactly when a limit or the deadline demands it, and nothing else changes |
| `RunBudgetManager.Manager.ResearchBlockReason` | app/agent/harness/run_budget.py:789-808 | the first applicable reason, in the source's order |
| `RunBudgetManager.UnblockedHasRoom` | app/agent/harness/run_budget.py:325-355 | a lease that is not blocked has room under both caps, so the two refusals for lack of room never come to pass |
| `RunBudgetManager.Manager.ReserveWorkerLease` | app/agent/harness/run_budget.py:288-366 | a refused request changes nothing; a granted lease gets the fair share of what its stage has left |
| `RunBudgetManager.Manager.ReleaseWorkerLease` | app/agent/harness/run_budget.py:368-378 | the lease goes, and every reservation of its task is settled as errored |
| `RunBudgetManager.Manager.ReleaseReservationsOf` | app/agent/harness/run_budget.py:368-378 | the loop over a snapshot of the reservations settles all those with the given task id at once |
| `RunBudgetManager.Manager.GrantWorkerFinalizationCall` | app/agent/harness/run_budget.py:422-457 | one extra call, once per lease, and only while the run has a free call slot |
| `RunBudgetManager.Manager.CheckWorker` | app/agent/harness/run_budget.py:485-533 | the refusal by the worker's own lease: missing, call cap, token cap less the reserve |
| `RunBudgetManager.Manager.ReserveLlmCall` | app/agent/harness/run_budget.py:459-593 | the method is the one step of which `RunBudgetOutcomes.GrantedIff`, `RefusalIs` and `GrantBooks` say when it grants and what it books |
| `RunBudgetManager.Manager.Admit` | app/agent/harness/run_budget.py:570-593 | an admitted call is charged to the lease or to the run, never to both |
| `RunBudgetManager.Manager.PopReservation` | app/agent/harness/run_budget.py:595-661 | a reservation leaves the ledger and is charged where it was reserved |
| `RunBudgetManager.Manager.CommitLlmUsage` | app/agent/harness/run_budget.py:595-627 | the method is the one step of which `RunBudgetOutcomes.CommitBooks` says what it books; an unknown id changes nothing |
| `RunBudgetManager.Manager.ReleaseLlmReservation` | app/agent/harness/run_budget.py:629-661 | a call slot is spent and no tokens; the flag is not refreshed; an unknown id changes nothing |
| `RunBudgetManager.Manager.ReserveToolCalls` | app/agent/harness/run_budget.py:663-678 | a batch of tool calls is granted whole or not at all |
| `RunBudgetManager.Manager.CapToolCalls` | app/agent/harness/run_budget.py:236-243 | the tool limit is only lowered |
| `RunBudgetManager.Manager.SyncFromUsage` | app/agent/harness/run_budget.py:216-234 | counters are raised to the observed usage and never lowered |
| `RunBudgetManager.Manager.ForceSynthesis` | app/agent/harness/run_budget.py:691-694 | the answer is the sticky flag after refreshing it |
| `SpanTree.FirstEventFixesParent` | app/observability/journal.py:60-91 | the first kept event of a span fixes its parent |
| `SpanTree.LaterEventsKeepParents` | app/observability/journal.py:91 | later events never change a parent |
| `SpanTree.ExpectedCountIsSpanCount` | app/observability/journal.py:39-49 | when every kept event names a span, the expected count is the number of spans in the tree |
| `SpanTree.LeftOutEventsDoNotMatter` | app/observability/journal.py:36-64 | taking every `llm_usage` and `gen_ai.chat` event out of a list changes neither spans, nor order, nor recorded parents |
| `SpanTree.InTreeIff` | app/observability/journal.py:60-91 | a span is in the tree if and only if an event of another kind has its identity, and its parent is that of the first such event |
| `SpanTree.OrderOfAppearance` | app/observability/journal.py:57-101 | spans stand in order of first appearance |
| `SpanTree.OmittedAreTheRest` | app/observability/journal.py:62-64 | omitted events and events of other kinds make up the list |
| `SpanTree.AcyclicIffEnds` | app/observability/journal.py:114-124 | a parent relation is acyclic if and only if following parents from every span leaves the set |
| `SpanTree.SpansFormForest` | app/observability/journal.py:52-145 | for any event list every kept span has exactly one place, is reached from a root along exactly one path, child links never lead back, and spans imply a root |
| `SpanTree.CycleDetectionIsExact` | app/observability/journal.py:103-144 | the cycle count is zero if and only if the recorded parents are acyclic, then every link is kept; orphans are exactly the spans whose recorded parent is no span |
| `SpanTree.RootedTree` | app/observability/journal.py:103-145 | if every span but the first names an earlier one, the tree has one root, no orphan and no cycle |
| `SpanTree.RunsIntoCycle` | app/observability/journal.py:114-124 | the ancestor walk ends, and reports a cycle if and only if following parents never leaves the set |
| `SpanTree.GatherNodes` | app/observability/journal.py:57-101 | the loop gathers the spans of the events that are no model calls, in order of first appearance, and counts the others |
| `SpanTree.LinkNodes` | app/observability/journal.py:103-135 | the linking loop, with its in-place cuts, computes the forest the theorems are about |
| `SpanTree.BuildSpanTree` | app/observability/journal.py:52-145 | the result is the forest of the events that are no model calls, and the others are counted; it is called valid exactly when there is a span and the recorded parents are acyclic |
| `Recorder.RunIsFormed` | app/observability/recorder.py:119-708 | whatever the callers do, a journal begins with the start of the run on the root span, its events are numbered 1, 2, 3, ... and no span without a name is open or current |
| `Recorder.OriginForEver` | app/observability/recorder.py:258-282 | the span that was current when a span was opened is noted for good |
| `RecorderEvents.RunTells` | app/observability/recorder.py:151-708 | in every run each operation extends the journal by exactly its own events: a begun phase, tool or generation on its new span below the current one, a later phase event and a tool's outcome of the given kind, after one `retrieval.search` event for a search, on the span that is open for it with the parent noted at its opening, all else on the current span |
| `RecorderEvents.FinishedToolIsOnItsSpan` | app/observability/recorder.py:517-668 | in every run, whatever happened since the tool was begun and whoever finishes it, its outcome, of the kind given, is on the span begun for the call, below the span current then; on the current span if it was closed meanwhile |
| `RecorderEvents.UnknownToolIsOnCurrentSpan` | app/observability/recorder.py:582-668 | a tool that nobody began leaves its events on the current span |
| `RecorderEvents.FinishToolTells` | app/observability/recorder.py:605-666 | finishing a tool leaves one event of the given kind, after one search event for a search, on the same span |
| `RecorderEvents.PhaseOtherTells` | app/observability/recorder.py:421-470 | a later phase event is on the phase's span while that is open, else on the current one |
| `RecorderEvents.OpenedIs` | app/observability/recorder.py:258-282 | an opened span is noted below the current one and becomes current |
| `RecorderEvents.ClosedIs` | app/observability/recorder.py:284-320 | closing a span that is not current moves nobody; closing the current one moves the actor to where it was opened |
| `RecorderEvents.BoundWorkerIs` | app/observability/context.py:99-119 | a bound worker stands on the root span |
| `RecorderEvents.RunIsTrue` | app/observability/recorder.py:119-708 | over any run the table says of every open span where it was opened, only the root span was opened in none, and every context is of this run |
| `RecorderTree.EmitKeepsOneTreeIff` | app/observability/recorder.py:322-419 | an event keeps one tree if and only if it is left out of the tree or its span, or the parent it will be given, is shown |
| `RecorderTree.AlwaysOneTreeIff` | app/observability/journal.py:52-145 | a journal is one tree after every event if and only if every kept event named a span or a parent shown before |
| `RecorderTree.RunIsOneTreeIff` | app/observability/recorder.py:258-708 | so it is for every recorder run, with any spans opened and left unannounced |
| `RecorderTree.RunEndsInOneTreeIff` | app/observability/recorder.py:258-708 | a run ends in one tree, whatever it was in between, if and only if every shown span but the root was recorded below a shown one and the recorded parents are acyclic |
| `RecorderTree.RunKeepsInv` | app/observability/recorder.py:119-708 | in a guarded run the current span of every context is shown or was opened in a shown span, and the tree's links are the openings |
| `RecorderTree.GuardedRunIsOneTree` | app/observability/recorder.py:258-708 | a guarded run yields events whose tree has the run's root span as its only root, no orphan, no cycle and every recorded link |
| `RecorderTree.GuardedRunIsAlwaysOneTree` | app/observability/recorder.py:258-708 | and it was one tree after every event |
| `RecorderTree.SpanHangsWhereItWasOpened` | app/observability/recorder.py:258-282 | in a guarded run every shown span is a child of the span that was current when it was opened |
| `RecorderTree.BegunIsShown` | app/observability/recorder.py:421-580 | a phase or a tool is in the tree as soon as it begins |
| `RecorderStages.AnnouncedSpanIsFree` | app/research/runtime/worker.py:339-366 | a span opened and announced by the next event leaves the worker free to do anything |
| `RecorderStages.UnannouncedStageIsGuarded` | app/research/runtime/runner.py:2573-2599 | when an actor records generations and plain events only between opening a span and closing it, and the others leave that span alone, the run stays guarded, announced or not, and the actor ends up where it was |
| `RecorderTree.ToolRoundTrip` | app/observability/recorder.py:517-668 | finishing a tool just begun restores the current span and both tables |
| `RecorderTree.FinishToolOk` | app/observability/recorder.py:582-668 | finishing a tool, known or not, by name or not, keeps the recorder invariant |
| `RecorderTree.GenerationIs` | app/observability/recorder.py:670-708 | after a generation, whose event the tree leaves out, tables and current span are as before, and the context's parent is the parent of the open span it is on |
| `RecorderTree.GenerationOk` | app/observability/recorder.py:670-708 | a generation may be recorded while the current span is shown or still open |
| `RecorderTree.EndSpanOk` | app/observability/recorder.py:284-320 | closing a span, in any order, keeps the recorder invariant |
| `AgentTelemetry.Telemetry.constructor` | app/observability/recorder.py:119-149 | starting a run on a fresh recorder establishes both invariants |
| `AgentTelemetry.Telemetry.DoEmit` | app/observability/recorder.py:322-419 | the event gets the next number, the explicit or current span, and no parent on the root span |
| `AgentTelemetry.Telemetry.DoStartSpan` | app/observability/recorder.py:258-282 | the span is opened below the current one and becomes current |
| `AgentTelemetry.Telemetry.DoEndSpan` | app/observability/recorder.py:284-320 | both keys of the span go; the context moves up only if the span is current |
| `AgentTelemetry.Telemetry.FindGrandparent` | app/observability/recorder.py:284-320 | the parent of the first open span with the given id |
| `AgentTelemetry.Telemetry.EmitPhaseStart` | app/observability/recorder.py:421-470 | a phase start opens a span under two keys and announces it |
| `AgentTelemetry.Telemetry.EmitPhaseOther` | app/observability/recorder.py:421-470 | a later phase event is put on the phase's span if it is open; an end closes it first |
| `AgentTelemetry.Telemetry.BeginTool` | app/observability/recorder.py:517-580 | the tool's span is opened, noted under the call and announced |
| `AgentTelemetry.Telemetry.FinishTool` | app/observability/recorder.py:582-668 | the method is the step of which `RecorderEvents.RunTells` says which events it leaves; the noted call is taken and its span closed |
| `AgentTelemetry.Telemetry.RecordGeneration` | app/observability/recorder.py:670-708 | a generation opens, emits and closes its span |
| `AgentTelemetry.UnannouncedSpanCanBecomeItsOwnParent` | app/observability/recorder.py:258-320 | a run with a span opened but not announced whose tree has a cycle to cut |
| `TraceReplay.RecordedRunIsLog` | app/observability/recorder.py:322-419 | every recorded journal, whatever spans were opened, is a log: numbers from one upwards, event ids not blank |
| `TraceReplay.RecordedRunIsReadIff` | app/observability/recorder.py:400-407 | whatever the store missed of a recorded run, paging gives back the recorded events at every page size if and only if every event is reachable |
| `TraceReplay.StoredRunRebuildsItsTree` | app/observability/replay.py:60-139 | and then they are one tree at every moment if and only if every event was placeable, and one tree for a guarded run |
| `RetrievalCache.EvictionDropsOldest` | app/tools/retrieval_cache.py:47-54 | eviction drops exactly the older half of an overfull store, and nothing newer than what it keeps |
| `RetrievalCache.NewRowSurvives` | app/tools/retrieval_cache.py:47-54 | under a monotone clock the row just stored survives, and the store is within its bound |
| `SingleFlight.RunKeepsInv` | app/tools/retrieval_cache.py:67-106 | in every interleaving, with clears while nothing is in flight, futures, registrations and calls agree |
| `SingleFlight.AtMostOneLeader` | app/tools/retrieval_cache.py:78-106 | at most one call per kind and key runs the producer or is on its way out |
| `SingleFlight.LeaderRemovesItsOwnFuture` | app/tools/retrieval_cache.py:104-106 | the future a leader unregisters is its own |
| `SingleFlight.NoStrandedFollower` | app/tools/retrieval_cache.py:86-92 | the future a follower waits for is resolved, or its leader is still running the producer |
| `SingleFlight.FollowerGetsLeadersResult` | app/tools/retrieval_cache.py:86-103 | a follower ends with exactly what its leader returned or raised |
| `SingleFlight.CacheBoundedAndCurrent` | app/tools/retrieval_cache.py:78-99 | in every reachable state each store holds at most 256 rows, each the latest value stored for its key |
| `SingleFlight.PublishedValueIsCached` | app/tools/retrieval_cache.py:94-99 | a value just stored is there, eviction or not |
| `SingleFlight.HitIsLatestAndFresh` | app/tools/retrieval_cache.py:56-83 | a hit is the latest value stored for its key and no older than its limit |
| `SingleFlight.HitIff` | app/tools/retrieval_cache.py:56-83 | in every run a call that enters is a hit if and only if the store of its kind holds a row of its key whose value is something and whose age is at most the limit |
| `SingleFlight.HitIsTheRow` | app/tools/retrieval_cache.py:78-83 | and then it ends with that row's value and shared state is untouched |
| `SingleFlight.MissFollowsOrLeads` | app/tools/retrieval_cache.py:56-92 | without a hit it follows the registered future, or registers a new one and leads; exactly a row of its key that is too old is gone |
| `SingleFlight.HitAfterPublish` | app/tools/retrieval_cache.py:94-99 | a call that enters right after something was published under its key, within its limit, gets it and makes no future |
| `SingleFlight.PublishStores` | app/tools/retrieval_cache.py:94-99 | in every run a publish leaves the new row and all rows of other keys, or, when that is one too many, the newer 129 |
| `SingleFlight.OtherStoresStay` | app/tools/retrieval_cache.py:67-122 | a step leaves the store of the other kind alone, one that neither enters nor publishes both; a clear empties both |
| `SingleFlight.ClearedKeepsInvIff` | app/tools/retrieval_cache.py:117-122 | clearing keeps the protocol's invariant if and only if nothing is in flight |
| `SingleFlight.ClearIsSafeIff` | app/tools/retrieval_cache.py:117-122 | after a clear at most one call per key leads, whatever happens next, if and only if nothing was in flight |
| `SingleFlight.ClearingLetsASecondLead` | app/tools/retrieval_cache.py:117-122 | clearing while a call runs its producer or is on its way out lets a second one lead for the same key |
| `SingleFlight.FirstLeaderRemovesTheSecond` | app/tools/retrieval_cache.py:104-106 | and the first one, leaving, removes the second one's future |
| `SingleFlight.AbortStrandsIff` | app/tools/retrieval_cache.py:94-106 | a producer ended by an uncaught exception strands a waiting call if and only if that call waits for its future |
| `SingleFlight.StrandedForEver` | app/tools/retrieval_cache.py:94-106 | such a follower waits for ever, whatever happens next |
| `RetrievalCacheObject.PopDropped` | app/tools/retrieval_cache.py:47-54 | popping one more key from what is left drops one more key |
| `RetrievalCacheObject.Cache.GetFresh` | app/tools/retrieval_cache.py:56-64 | the lookup of which `SingleFlight.HitIff` says when it answers; a stale row is dropped |
| `RetrievalCacheObject.Cache.Enter` | app/tools/retrieval_cache.py:78-92 | the step of which `SingleFlight.HitIff`, `HitIsTheRow` and `MissFollowsOrLeads` say when it is a hit, a wait or a lead |
| `RetrievalCacheObject.Cache.EvictRows` | app/tools/retrieval_cache.py:47-54 | popping the older half key by key is eviction |
| `RetrievalCacheObject.Cache.Publish` | app/tools/retrieval_cache.py:94-99 | the value is stored, the store evicted and the future resolved with it |
| `Replay.MergeIsLogOrder` | app/observability/replay.py:120-139 | merging what store, file and journal hold of one log lists it once each, in log order |
| `Replay.MergeKeepsTheLast` | app/observability/replay.py:120-139 | for any events whatever: of those that share number and id exactly the last is kept, every one without id is kept, and the result is in order of number |
| `Replay.LastOfUnion` | app/observability/replay.py:112-117 | the last k of a union need only the last k of one side |
| `Replay.FirstOfUnion` | app/observability/replay.py:112-117 | the first k of a union need only the first k of one side |
| `Replay.LimitPushdownIsExact` | app/observability/replay.py:60-117 | `load_events` answers as if the store had returned every row and the limit had been applied once, at the end, if and only if it is not asked for zero events from the end while the file or the journal holds some |
| `Replay.CompleteStoreAnswersFromLog` | app/observability/replay.py:60-117 | with a complete store the answer is the limited window of the log itself, whatever the journal and the file hold |
| `Replay.WindowIsPartOfTheWholeIff` | app/observability/replay.py:60-117 | without a limit, loading a window gives that part of what loading everything gives, if and only if it is not so that the store holds something but nothing of the window while the file holds there what the journal lacks |
| `Replay.StoreHidesTheFile` | app/observability/replay.py:60-117 | the store missed the first of two events that the file holds: loading everything gives the second alone, loading what is before it the first |
| `Paging.PagingEnumeratesTheLog` | app/observability/replay.py:60-117 | paging backwards by the smallest number seen enumerates every event of the log exactly once, in order, at every page size, if and only if every event is in the store or the journal, or in the file and older than all of them (or the store is empty) |
| `Paging.ReachableIsRead` | app/observability/replay.py:60-117 | the sufficient half, for one page size |
| `Paging.GapIsLost` | app/observability/recorder.py:400-407 | an event that store and journal missed, above some row of the store, is lost at every page size, although the file has it |
| `Following.FollowingEnumeratesTheRest` | app/observability/replay.py:60-117 | reading on from the last number seen enumerates every later event exactly once, in order, at every page size, if and only if every later event is in the store or the journal, or in the file and newer than all of them (or the store holds nothing later) |
| `Following.PageOfCompleteStore` | app/observability/replay.py:112-117 | over a complete store a page is the newest part of its window when a bound above is given or none below, else the oldest part |
| `Replay.ZeroLimitIsNoLimit` | app/observability/replay.py:112-114 | reading from the end with limit zero returns everything the file and the journal hold |
| `Projections.ProjectionAgreesWithRecomputation` | app/observability/replay.py:185-258 | in every interleaving of loaders and appends a finished loader answers what recomputing over the events it loaded gives |
| `Projections.MaximumAloneIsNotEnough` | app/observability/projection_store.py:109-128 | an append between load and put leaves a row whose maximum is current and whose body is not: the event count is what secures agreement |
| `Projections.FreshProjectionIsAccepted` | app/observability/replay.py:229-258 | a stored projection is found again while its events are unchanged |
| `Projections.StoredIsServed` | app/observability/replay.py:185-258 | a stored projection of the current events is answered as it stands, and the table stays |
| `Projections.SecondLoadIsServed` | app/observability/replay.py:185-258 | a second load of the kind with nothing in between answers what the first did and stores nothing |
| `Projections.StaysStoredIff` | app/observability/projection_store.py:40-128 | in a reachable state a stored projection stays stored under a step if and only if the step is no append and no end of a loader of the kind that missed one and stores its own |
| `Projections.MaxSeqIs` | app/observability/projection_store.py:81-87 | the recorded maximum is a number of the log that none exceeds, or zero |
| `ProjectionStore.UpsertKeepsLog` | app/observability/projection_store.py:40-56 | appending the next event keeps the store complete and free of repeats |
| `ProjectionStore.UpsertReplaces` | app/observability/projection_store.py:40-56 | an event replaces the rows of its number and id and leaves all others |
| `ProjectionStore.Store.EventsFor` | app/observability/projection_store.py:58-79 | the limited window in number order, though a descending query reads it backwards |
| `ProjectionStore.Store.MaxSeqOf` | app/observability/projection_store.py:81-87 | the largest number stored, or zero |
| `ProjectionStore.Store.PutProjection` | app/observability/projection_store.py:118-128 | the maximum is recorded at the time of the put |
| `ProjectionStore.Store.Load` | app/observability/replay.py:60-117 | the object's `load_events` is the function the theorems are about |
| `ProjectionStore.MergeGroups` | app/observability/replay.py:120-139 | the merging loop: a later event replaces an earlier one of its key in place |
| `Citations.NumbersFollowFirstOccurrence` | app/agent/harness/citations.py:709-719 | citation numbers are exactly 1..n in order of first occurrence |
| `Citations.NumbersIdentifySources` | app/agent/harness/citations.py:709-719 | two sources share a number if and only if they share a canonical id |
| `Citations.EveryNumberIsUsed` | app/agent/harness/citations.py:709-719 | every number from 1 to n is some source's number |
| `Citations.ShownIsSelected` | app/agent/harness/citations.py:735-783 | the reference block shows selected sources only |
| `Citations.SelectedIsCovered` | app/agent/harness/citations.py:735-783 | for every selected source it shows one of the same canonical id that is not outranked |
| `Citations.ShownIsFirstOfBestTier` | app/agent/harness/citations.py:746-763 | each line shows the first selected source of its canonical id of the best tier, in the order primary, high-quality secondary, community, unknown, any other name |
| `Citations.ReferencesAscend` | app/agent/harness/citations.py:735-783 | its numbers strictly ascend, so each is listed once |
| `Citations.ReferenceClosure` | app/agent/harness/citations.py:847-870 | the block of a cited report lists exactly the cited numbers in range, for every cited set, if and only if every number is representable |
| `Citations.UsedIdsStand` | app/agent/harness/citations.py:847-865 | the ids selected for a cited set are those of the sources that stand for a cited number: the last source whose id goes by it, an id going by the number of its last source |
| `Citations.RepresentableIs` | app/agent/harness/citations.py:847-865 | a number is representable, that is, the last source that goes by it has an id of that number only, if and only if the dictionary of the report says so |
| `Citations.ClosedForIff` | app/agent/harness/citations.py:847-870 | for one cited set: the block lists exactly the cited numbers in range if and only if every one of them has a source that goes by it or shares an id with one that goes by another cited number, and no selected id is shared with a source whose number is not cited |
| `Citations.DistinctIdsAreRepresentable` | app/agent/harness/citations.py:847-870 | if sources of one id have one canonical id, every number is representable |
| `Citations.SharedIdLosesAReference` | app/agent/harness/citations.py:847-870 | two canonical ids under one source id: number 1 is in range and its citation finds no entry |
| `Citations.NamedIs` | app/agent/harness/citations.py:709-719 | a missing canonical id becomes the hash of locator and title, a given one is kept, and nothing else of a source changes |
| `CitationTracker.Tracker.CanonicalSourceNumberMap` | app/agent/harness/citations.py:709-719 | missing canonical ids are filled in place, and the result is the numbering |
| `CitationTracker.Tracker.SourceNumberMap` | app/agent/harness/citations.py:700-707 | runtime id to number |
| `CitationTracker.Tracker.BuildReferences` | app/agent/harness/citations.py:735-783 | the lines of the block; without a selected source the collector is left untouched |
| `CitationTracker.Tracker.BuildCitedReferences` | app/agent/harness/citations.py:847-870 | the lines of the block of a cited report |
| `ContextBudget.BriefComesFirst` | app/agent/harness/context_budget.py:184-195 | the joined message begins with the brief, verbatim |
| `ContextBudget.SkipAbsent` | app/agent/harness/context_budget.py:254-265 | restarting the search for a layer to drop gives the same as one walk over the order |
| `ContextBudget.DiscardEmpties` | app/agent/harness/context_budget.py:254-265 | the dropping pass meets the budget or leaves no shrinkable layer |
| `ContextBudget.PassPriority` | app/agent/harness/context_budget.py:225-238 | a pass changes a layer only when treating every layer before it was not enough |
| `ContextBudget.PassIsAllOrFits` | app/agent/harness/context_budget.py:225-252 | a pass meets the budget or has treated every layer of its order |
| `ContextBudget.EvictKeeps` | app/agent/harness/context_budget.py:225-275 | eviction meets the budget or leaves no shrinkable layer; it loses shrinkable layers only; the step changes only when none of them is left |
| `ContextBudget.PinnedLayersComeLater` | app/agent/harness/context_budget.py:240-252 | a pinned layer changes only when every shrinkable layer cut once and every pinned layer before it halved was not enough |
| `ContextBudget.FinishedBrief` | app/agent/harness/context_budget.py:277-288 | after eviction the step is still there and the message begins with the original brief |
| `LayerOrder.TrimKeepsHead` | app/agent/harness/context_budget.py:127-144 | trimming keeps the longest head worth the budget at the rate of the first 800 characters, at least 32 characters, and adds a note |
| `LayerOrder.ShrinkingOne` | app/agent/harness/context_budget.py:225-238 | a layer of up to 80 tokens goes, a larger one is cut to a quarter and no less than 40; no other layer changes |
| `LayerOrder.HalvingOne` | app/agent/harness/context_budget.py:246-252 | a pinned layer is cut to a half and no less than 24 tokens; no other layer changes |
| `LayerOrder.LastResort` | app/agent/harness/context_budget.py:267-275 | the last layer is cut to what the others leave and no less than 80 tokens |
| `LayerOrder.ShrinkingInOrder` | app/agent/harness/context_budget.py:146-155 | if shrinking a beginning of the order is enough, eviction changes no other layer |
| `LayerOrder.HalvingInOrder` | app/agent/harness/context_budget.py:240-252 | if halving a beginning of the pinned order is enough after that, no other pinned layer changes |
| `LayerOrder.DroppingInOrder` | app/agent/harness/context_budget.py:254-265 | if dropping a beginning of the order is enough after both, the other layers stay as they are |
| `LayerOrder.JoinInOrder` | app/agent/harness/context_budget.py:166-195 | of two named layers the one earlier in the order stands earlier in the message |
| `LayerOrder.OthersJoinLast` | app/agent/harness/context_budget.py:184-195 | a layer of another name stands after them |
| `LayerOrder.OthersJoinAsEntered` | app/agent/harness/context_budget.py:184-195 | and after those of other names entered before it |
| `LayerOrder.TotalIs` | app/agent/harness/context_budget.py:97-111 | the total is the sum of the tokens of the layers that are not blank |
| `LayerOrder.NonBlankIsKept` | app/agent/harness/context_budget.py:207-209 | exactly the blank layers are left out at the start, the others keep their order |
| `ContextBudget.Measure` | app/agent/harness/context_budget.py:97-111 | the total of the non-blank layers |
| `ContextBudget.JoinLayers` | app/agent/harness/context_budget.py:184-195 | the ordered layers, then the others in their own order |
| `ContextBudget.ShrinkPass` | app/agent/harness/context_budget.py:225-238 | the first loop is the shrinking pass |
| `ContextBudget.PinnedPass` | app/agent/harness/context_budget.py:240-252 | the second loop is the halving pass |
| `ContextBudget.DropPass` | app/agent/harness/context_budget.py:254-265 | the third loop ends and is the dropping pass |
| `ContextBudget.CutPass` | app/agent/harness/context_budget.py:267-275 | the step is cut to what the other layers leave |
| `ContextBudget.FitLayers` | app/agent/harness/context_budget.py:198-288 | when eviction runs, what it keeps, what message and total are reported and which evictions are logged; when it does not run, the joined or head-trimmed message |
| `PauseClock.RunKeepsInv` | app/run_store/models.py:92-114 | after every sequence of operations the instants of the row agree with a meter of what really passed |
| `PauseClock.ElapsedIsChargedTime` | app/run_store/models.py:92-114 | `elapsed_ms` is active time plus pauses never credited plus time between two completions less credits for pauses outside the run, within one millisecond down and one up per credited pause |
| `PauseClock.ProperRunsChargeNothingElse` | app/run_store/service.py:262-367 | if pauses end by `clear_hitl` only, none is opened outside the run and the run ends once, nothing but active time is charged |
| `PauseClock.ElapsedIsActiveTime` | app/run_store/models.py:92-114 | in such a run `elapsed_ms` is the time since the start spent outside pauses |
| `PauseClock.ElapsedIsExact` | app/run_store/models.py:92-114 | on whole milliseconds, with an exact conversion, it is exactly the charged time |
| `PauseClock.ElapsedIsActiveIff` | app/run_store/models.py:92-114 | and then it is the active time if and only if wrong charges and wrong credits cancel |
| `PauseClock.StepIsChargeFreeIff` | app/run_store/service.py:262-367 | after a call nothing was charged or credited in error if and only if nothing had been before and the call is harmless: it does not close an open pause of the run other than by `clear_hitl`, credit a pause outside the run, or complete the run a second time, unless no time has passed since, or none worth a millisecond |
| `PauseClock.RunIsChargeFreeIff` | app/run_store/service.py:262-367 | over any run on the microsecond clock nothing is charged or credited in error if and only if every call was harmless when it was made |
| `PauseClock.HarmlessRunIsActiveTime` | app/run_store/models.py:92-114 | in a run of harmless calls `elapsed_ms` is the time since the start spent outside pauses, within truncation |
| `PauseClock.StepIsRightIff` | app/run_store/service.py:262-367 | on whole milliseconds, after a charge-free run, the next call, of any kind, leaves `elapsed_ms` exactly right if and only if it is harmless or credits a pause to a run with no time to lose |
| `PauseClock.HarmlessRunIsRight` | app/run_store/models.py:92-114 | on whole milliseconds, in a run of harmless calls `elapsed_ms` is exactly the time spent outside pauses |
| `PauseClock.FrozenDuringPause` | app/run_store/service.py:335-347 | during a pause, ticks and repeated requests leave `elapsed_ms` as it is |
| `PauseClock.FrozenAfterEnd` | app/run_store/service.py:294-316 | after the end, with no pause open, nothing moves `elapsed_ms` but a second completion or a pause opened after the end; a pause that `mark_recoverable` left open is the other way, through `clear_hitl` |
| `PauseClock.ResumingDoesNotJump` | app/run_store/service.py:349-367 | closing a pause moves `elapsed_ms` by truncation only |
| `PauseClock.PauseClosedWithoutClearIsCharged` | app/run_store/service.py:335-347 | a pause ended by `set_hitl(None)`, `mark_running` or the end of the run is charged as working time |
| `PauseClock.PauseBeforeStartIsCredited` | app/run_store/service.py:349-367 | a pause before the start takes as much off a run that never paused |
| `RunStore.RowsAreIndependent` | app/run_store/service.py:262-367 | whatever happens to other runs, a run's row is that of its own operations, so what holds of one clock holds of every row of the table |
| `RunStore.Store.MarkRunning` | app/run_store/service.py:262-278 | the first start is kept and an open pause forgotten |
| `RunStore.Store.SetHitl` | app/run_store/service.py:335-347 | the first pause start is kept; an empty payload forgets it |
| `RunStore.Store.ClearHitl` | app/run_store/service.py:349-367 | the pause is credited in whole milliseconds, never negatively |
| `RunStore.Store.CompleteRun` | app/run_store/service.py:294-316 | the end is set, also a second time, and an open pause forgotten |
| `RunStore.Store.MarkRecoverable` | app/run_store/service.py:283-292 | the first end is kept |

## Left out

- The diagnostics of the ledger: `reserve`, `worker_output_limit`, snapshots, the remaining-amount queries and the denial events; they read the counters and change nothing.
- Ledger shares are reals, not floating point; `int(limit * share)` is their floor, and the 15% finalization reserve is an integer floor.
- In `reserve_worker_lease` the two refusals for lack of room are no branches of the model; `RunBudgetManager.UnblockedHasRoom` proves that they are never taken.  The clock is read once per operation.
- Lower-casing of phases and stripping of white space cover ASCII only.
- Uniqueness of random identifiers: lease and reservation ids are counters, span ids are parameters required to be fresh, an event id is made from the event's number.
- Recorder: span names, status, durations, attributes, metrics, exporters, listeners and OpenTelemetry; one run on a fresh recorder, so session and run ids and the plan version, task and attempt parts of a phase key are one name; listeners that emit again.
- RecorderTree.GuardedRunIsOneTree: the discipline is sufficient; the exact condition is the one on events, in `RecorderTree.RunIsOneTreeIff`.
- The tree's names, status, timestamps and per-span event lists; `summarize_trace` and the integrity report beyond the facts about roots and cycles.
- Retrieval cache: the hashing of keys and the agreement of a cached search with an uncached one; claims are per cache key.
- SingleFlight.AtMostOneLeader: clears only while nothing is in flight, and producers that return or raise an ordinary exception; `SingleFlight.ClearIsSafeIff` and `AbortStrandsIff` say what happens otherwise.
- Event log: SQLite and JSONL encoding, sessions with several runs, `load_events` without a run id, deletion of runs and sessions; projection functions are parameters, and `get_projection` is two reads with other steps between them.
- Replay.LimitPushdownIsExact: the three sources hold events of one log with increasing positive numbers and ids.
- Citations: admission and binding of sources, the regular expression that finds markers (their numbers are a set), inline hints, the wording of a line, and the test whether the block is already in the body.
- CitationTracker.Tracker.BuildCitedReferences: assumes that the hash that names a source is never empty.
- Context budget: the token counter is any function; per-layer metrics; the notice appended to a trimmed text is an English stand-in for the source's wording; the ratio of characters to tokens is computed in integers.
- Run store: status, phase, payload and result columns, uploads and session rows; a clock that goes back.
- PauseClock.ElapsedIsActiveTime: bounds rather than equality, because each conversion to milliseconds truncates and goes through binary floating point.
- Aliasing of Python objects between callers and the stores.
- The run queue, the evidence store, the HTTP routes, the frontend and all search and model providers.
