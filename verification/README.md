# Verified model of the SecureHub workflow runtime

This project models the durable workflow runtime of SecureHub: the engine that
walks a versioned graph across crashes, the lifecycle of a root under
concurrent control, the event log and its replication to a browser client, the
budget ledger, the provider limiters, the course planner, and the persistence
of artifacts. `dafny verify dfyconfig.toml` checks all of it.

Where the program changes things step by step the model does too: the engine,
the stored root row, the subscription, the SSE reader, the gateway generator,
Kahn's algorithm, the recorded progress, the limiters, the breaker, the bucket,
the artifact store and the typed state are methods and classes. Each is proved
against a specification function or relation, and the properties are proved
about that.

## The engine

A claim of a root (`EngineSpec.Claimed`) works from the persisted step rows and
an arbitrary environment: every node execution may return anything, fail in any
of the ways the engine handles, or die at any point, leaving no row, a running
row, a running row with a journaled provider completion, or a stored success. A
run (`EngineSpec.After`) is any sequence of claims and control-plane moves, so a
crash is a claim that stopped; the process memory is rebuilt from rows each time.
`Engine.RuntimeEngine.Execute` is the loop itself.

What is required of a definition is `WorkflowDefinitions.WellFormed`: it passes
validation, has one QualityCheck node, and its forward edges (those that are not
defect edges) have no duplicates and a depth that falls along them, which exists
if and only if they have no cycle (`WorkflowDefinitions.ForwardDepthIffAcyclic`).
Validation checks neither; `EngineExactness.CycleAccepted` gives a definition
that validation accepts and that the engine walks forever. For any definition
with at most one QualityCheck node, `EngineTermination.StopsExactly` says when
the loop stops in every environment: exactly when the walks from the initial node
and from the targets of the verdicts it can meet come to an end.

Results:

- No node, the quality node included, ever succeeds more than
  `max_rework_attempts + 1` times, and a node no verdict can send back at most
  once, although the rework counter is rebuilt from attempt numbers only.
- For a definition that allows rework, never runs the quality node as one branch
  of several and whose walk meets it, the quality gate holds over all runs if and
  only if every defect route is safe: no route sends the root to a node behind
  the gate, or alone to a node whose walk leaves the graph unchecked. The gate
  says that nothing behind the quality node has been attempted, and that no root
  has succeeded, unless the latest verdict accepts.
- Where the quality node never runs, nor is sent back, as one branch of several,
  an accepting verdict was given exactly the latest output of each of its sources
  that the walk runs, whatever else reads what a rework renews. If a verdict sends
  the quality node back beside its sources, a run shows one it has not seen.
- The outputs of other nodes can go stale, because a rework drops its targets and
  the verdict and nothing between them. Where every rework returns to the quality
  node and readers run after what they read, every latest output under an
  accepting verdict was computed from the latest outputs of its sources, in all
  runs, if and only if each rework that renews a node renews in the same go every
  reader of that node ahead of the gate, the quality node aside.
- An undisturbed root whose verdict accepts, and behind whose gate one way leads
  out of the graph, runs its whole walk and succeeds.
- The six-resource course workflow meets all the conditions, so all of this holds
  of it outright, and it can succeed.

These rest on the steps as they are: `EngineSteps` says for each of them exactly
what it leaves (the row of an execution, the status after every way of stopping,
when a verdict is worked off and what is dropped), `EngineFan` that branches do
not touch each other's rows, and `EngineAttempts` and `EngineRework` that attempt
numbers and the rework counter come through crashes neither too low nor too high.

## Findings

Places where the code does not do what its documentation or its own table says,
each with the input that shows it:

- `Lifecycle.RejectWhilePausing`, `Lifecycle.RecoveryDropsPause`: rejecting an
  approval, and crash recovery, write a root status without consulting
  `_ROOT_TRANSITIONS`. `Lifecycle.ChangesFollowTable` says exactly when a
  committed change is not an edge, and `Lifecycle.OffTableReached` gives a run to
  every such write.
- `ReplicatedLog.UnsubscribeSkipsEvents`: a subscription that is ended while a
  gap is being replayed applies the late event without the missing ones and
  stores its sequence as the cursor of the next subscription. It happens exactly
  when the replay is complete and the end falls before its last frame
  (`ReplicatedLog.ProcessPrefix`).
- `Gateway.ResumedAtEndNeverReturns`: a stream resumed where a finished run
  ended never returns, even with `until_sequence` reached, because the terminal
  status is waited out before the bound is looked at. `Gateway.ReturnsExactly`
  says, from the log and the polls alone, when a stream does return;
  `Gateway.FinishedReturns` that the stream of a finished run does exactly when it
  starts ahead of the last event and of the bound.
- `Budget.OverrunRefusesOther`: recording a call that was made can be refused
  for root tokens although it fits, exactly when spent and reserved tokens
  together pass the limit (`Budget.SettleRefusedExactly`), as when another node
  overran its reservation. The engine settles without a cost, so a positive
  `max_cost_usd` never refuses anything (`Budget.CostNeverRefuses`).
- `Artifacts.RaceDuplicates`: the lookup reads the resource rows and the storage
  object in two statements; a sweep between them makes a second active artifact.
  `Artifacts.OneEffectExactly` says which executions do.
- `RunView.CollisionBreaksIsolation`: draft keys are joined with colons, so an
  identifier that contains one can make two steps share a draft.
  `RunView.DraftsIsolatedExactly` says which logs do.

## Model

| member | source | states |
|---|---|---|
| Engine.RuntimeEngine.Execute | backend/app/runtime/engine.py:90-343 | one claim leaves exactly the rows and status the specification gives for its environment, and keeps the durable invariant |
| Engine.RuntimeEngine.RunRound | backend/app/runtime/engine.py:158-316 | one iteration: boundary checks, visit, routing |
| Engine.RuntimeEngine.VisitCurrent | backend/app/runtime/engine.py:168-190 | a held output is reused, otherwise the node runs and each error ends the root as the engine does |
| Engine.RuntimeEngine.HandleRejection | backend/app/runtime/engine.py:197-280 | a repeated or non-reworkable defect, an exhausted counter or a missing route blocks; otherwise the target and the verdict are dropped and the branches rejoin |
| Engine.RuntimeEngine.GoForward | backend/app/runtime/engine.py:282-316 | pending branches fan out and meet at the shared join, a single successor follows, none ends the walk |
| Engine.RuntimeEngine.ExecuteFanout | backend/app/runtime/engine.py:493-572 | every branch works from the state at the fork; the first stop is reported |
| Engine.RuntimeEngine.FanOutAndMerge | backend/app/runtime/engine.py:292-306 | results are merged and attempt numbers raised only when all branches returned |
| Engine.RuntimeEngine.ExecuteNode | backend/app/runtime/engine.py:345-491 | which row an execution creates or adopts and how it ends |
| Engine.RuntimeEngine.FindUnfinished | backend/app/runtime/engine.py:689-725 | an action adopts its interrupted attempt, a skill never does |
| Engine.RuntimeEngine.RecoverState | backend/app/runtime/engine.py:910-966 | the rebuilt state holds each node's latest success, the attempt map its highest attempt |
| Engine.RuntimeEngine.RecoverCompletedProviderResults | backend/app/runtime/engine.py:968-1079 | whichever journaled completions are reached, in whatever order, become successes without another call, and the memory matches the new rows |
| Engine.RuntimeEngine.RecoverReworkCount | backend/app/runtime/engine.py:153-156 | the counter is one below the highest attempt number of any row |
| EngineRework.CounterFromAttempts | backend/app/runtime/engine.py:153-156 | the counter a claim starts from is 0 if every row is a first attempt; otherwise some row is the attempt behind it and none is a later one |
| EngineRework.ReworkIsTight | backend/app/runtime/engine.py:113-246 | a root cut off before its first verdict and claimed again still gets its verdict `max_rework_attempts + 1` times before it is blocked |
| EngineAttempts.SkillAttemptsAreNumbered | backend/app/runtime/engine.py:345-380 | over any claims and crashes the attempts of a skill are numbered 1, 2, 3 and so on without a gap |
| EngineSpec.RoundProgress | backend/app/runtime/engine.py:149-316 | every round that goes on uses up a rework or moves to a node of less forward depth, so the loop terminates on forward edges without cycles |
| EngineTermination.StopsExactly | backend/app/runtime/engine.py:149-316 | for any definition with at most one QualityCheck node, the loop of a new root stops in every environment if and only if the walks from the initial node and from the reachable rework targets end |
| EngineTermination.TerminatingStops | backend/app/runtime/engine.py:149-316 | then it stops from whatever a crash left in the rows, too |
| EngineTermination.EndlessRuns | backend/app/runtime/engine.py:149-316 | otherwise there is an environment in which no round ever halts |
| EngineTermination.WellFormedEnds | backend/app/runtime/engine.py:282-316 | every walk along acyclic forward edges ends |
| EngineSpec.ReworkOnlyIfNew | backend/app/runtime/engine.py:199-246 | a root is sent back only for defects new to the claim, none a safety violation, below the limit and along a route; otherwise it is blocked |
| EngineSteps.ExecutionLeaves | backend/app/runtime/engine.py:345-491 | an execution writes one row of its node, with the outputs it was given and how far it got, as a new attempt or as the action attempt interrupted last |
| EngineSteps.CompletionIsUsed | backend/app/runtime/engine.py:968-1079 | a skill that died after its provider completed is not run again: the next claim holds the completion |
| EngineSteps.RecoversLatest | backend/app/runtime/engine.py:910-966 | the memory of a claim holds a node exactly if it has succeeded, with the output of its last success |
| EngineSteps.GivenExactly | backend/app/runtime/workflow_definition.py:180-190 | a node is given exactly the held outputs of its declared sources, or of its unconditional predecessors |
| EngineSteps.VisitExactly | backend/app/runtime/engine.py:168-190 | a held output is not computed again; a node that runs is held at its next attempt, or its stop decides the status of the root |
| EngineSteps.FanOutExactly | backend/app/runtime/engine.py:493-572 | a fan-out goes on exactly if every branch returned; otherwise its first stop decides the status of the root |
| EngineFan.BranchesAreIndependent | backend/app/runtime/engine.py:493-572 | whatever the other branches do, a branch leaves the rows it would leave alone on the state at the fork |
| EngineSteps.RejectionExactly | backend/app/runtime/engine.py:197-280 | exactly when a rejection is worked off, what is dropped and kept, and where the root goes on, commit by commit |
| EngineSteps.SameSignature | backend/app/runtime/typed_state.py:119-133 | two verdicts count as the same exactly if they name the same defects as often |
| EngineSteps.SentBackTo | backend/app/runtime/workflow_definition.py:207-231 | the targets of a verdict are the known nodes its codes are routed to, or where none has a route those of its defect edges |
| EngineSteps.TargetsInOrder | backend/app/runtime/workflow_definition.py:207-231 | targets keep the order in which codes and routes first mention them |
| EngineSteps.ForwardExactly | backend/app/runtime/engine.py:282-316 | open branches run together and go on at the one node they all lead to, or the root fails without one; a single successor is gone to, and none ends the walk |
| EngineSteps.RoundExactly | backend/app/runtime/engine.py:158-316 | a round visits, then goes forward or handles the rejection by the verdict |
| EngineSteps.BoundaryExactly | backend/app/runtime/engine.py:158-168 | what the root becomes at a boundary that is not crossed |
| EngineSteps.ClaimExactly | backend/app/runtime/engine.py:90-156 | how a claim ends that runs no node, for every status and recovery, and where one that does starts |
| EngineSafety.BoundedRework | backend/app/runtime/engine.py:113-156 | over all runs with crashes, successes of a node are at most the rework limit plus one, and one for a node no verdict sends back |
| EngineSafety.QualityGate | backend/app/runtime/engine.py:192-254 | unless the latest verdict accepts, no node behind the quality node has been attempted, and no root has succeeded whose walk meets the quality node or that has a verdict at all |
| EngineSafety.AcceptedIsCoherent | backend/app/runtime/engine.py:247-256 | under an accepting verdict every latest output was computed from the latest outputs of its sources, across crashes and parallel reworks, provided a rework that renews a node renews its readers with it |
| EngineSafety.VerdictIsCurrent | backend/app/runtime/engine.py:247-256 | an accepting verdict was computed from the latest outputs of the sources it was given, whatever other nodes read |
| EngineCompleteness.VerdictSawLatest | backend/app/runtime/engine.py:158-316 | an accepting verdict was given exactly the latest output of each of its sources that the walk runs: none missing, none renewed since, across crashes and whatever else reads what a rework renews |
| EngineCompleteness.VerdictExactly | backend/app/runtime/engine.py:247-280 | where verdicts send back sources the walk runs, that holds over all runs if and only if none sends the quality node itself back as one of several |
| EngineCompleteness.RunComplete | backend/app/runtime/engine.py:149-316 | every stored attempt of the quality node had all those sources in its inputs |
| EngineSafety.ClaimKeeps | backend/app/runtime/engine.py:90-343 | the durable invariant survives any claim, however it is cut off |
| EngineSafety.SettleKeeps | backend/app/runtime/engine.py:968-1079 | recovering any of the provider completions, in any order, keeps the invariant |
| EngineExactness.UnsafeRouteBreaks | backend/app/runtime/workflow_definition.py:207-231 | an unsafe defect route has an undisturbed run that breaks the gate |
| EngineExactness.GateExactly | backend/app/runtime/workflow_definition.py:207-231 | the gate, for nodes behind it and for success, holds over all runs if and only if every route is safe |
| EngineExactness.TrappedNeverEnds | backend/app/runtime/engine.py:282-316 | on a ring of forward edges the loop is still running after any number of rounds |
| EngineExactness.CycleAccepted | backend/app/runtime/workflow_definition.py:104-135 | validation accepts such a definition |
| EngineStaleness.StaleReaderBreaks | backend/app/runtime/engine.py:251-256 | a node that reads a rework target that ran before it, and is not sent back with it, stays outdated under an accepting verdict, for single and for parallel reworks |
| EngineStaleness.CoherenceExactly | backend/app/runtime/engine.py:247-256 | where every rework returns to the quality node, accepted roots are coherent in all runs if and only if every rework that renews a node renews each reader of it ahead of the gate but the quality node |
| EngineLiveness.UndisturbedSucceeds | backend/app/runtime/engine.py:158-340 | there is a run that executes every node of the walk, accepts and succeeds |
| ShippedWorkflows.FullV2WellFormed | backend/app/runtime/workflows/course_learning_full_v2.py:135-218 | the six-resource workflow is validated, forward-acyclic and has one QualityCheck node |
| ShippedWorkflows.FullV2Guaranteed | backend/app/runtime/workflows/course_learning_full_v2.py:171-188 | bounded rework, an accepting verdict before persistence and before success, coherence and a verdict on every resource's latest output hold of it without further conditions |
| ShippedWorkflows.FullV2CanSucceed | backend/app/runtime/workflows/course_learning_full_v2.py:171-176 | an undisturbed root runs every resource node and succeeds |
| ShippedWorkflows.PersistGated | backend/app/runtime/workflows/course_learning_full_v2.py:171-176 | artifacts are persisted behind an accepting verdict only |
| WorkflowDefinitions.CollectReworkTargets | backend/app/runtime/workflow_definition.py:207-231 | known targets of the routes of the present codes, in code order and without repeats, else the defect edges |
| WorkflowDefinitions.InitialIn | backend/app/runtime/workflow_definition.py:166-170 | exactly the nodes no non-defect edge leads to |
| WorkflowDefinitions.SuccessorsIn | backend/app/runtime/workflow_definition.py:172-178 | exactly the targets of unconditional edges and of edges with the given condition |
| WorkflowDefinitions.CommonJoinExactly | backend/app/runtime/workflow_definition.py:192-205 | a join is found exactly when it is the only unconditional target of every branch |
| WorkflowDefinitions.ValidatedMeans | backend/app/runtime/workflow_definition.py:104-135 | after validation every node is found under its id, edges and sources lead to nodes, and a checked definition has one QualityCheck node, run by the evaluator |
| WorkflowDefinitions.ForwardDepthIffAcyclic | backend/app/runtime/workflow_definition.py:104-135 | the depth that termination asks for exists if and only if the forward edges have no closed walk |
| Lifecycle.RunRow.TransitionRun | backend/app/runtime/persistence/run_store.py:319-388 | a write commits exactly if the version, the fence and the terminal barrier allow, together with its event |
| LifecycleWriters.AttemptExactly | backend/app/runtime/persistence/run_store.py:319-388 | in every interleaving a write takes effect exactly if nothing was written since the writer read, the root is alive, the writer acts on its status, and its lease, if it needs one, is active; and what it then changes |
| LifecycleWriters.ExpiredIsFenced | backend/app/runtime/persistence/run_store.py:345-360 | a worker or the recovery whose lease has run out changes nothing, claimed again or not |
| LifecycleWriters.RequestsNeedNoLease | backend/app/runtime/persistence/run_store.py:345-360 | what a user asks for does not depend on any lease |
| LifecycleWriters.CommitsAreOfLatestClaim | backend/app/runtime/persistence/run_store.py:214-232 | the epoch counts the claims, and a worker whose write takes effect has looked at the row since the latest of them |
| LifecycleWriters.ClaimFencesOthers | backend/app/runtime/persistence/run_store.py:214-232 | a claim takes the row away from everyone who read it before |
| LifecycleWriters.HistoryExplainsRoot | backend/app/services/workflow_application_service.py:474-527 | the status ends an unbroken chain of changes from queued; a cancellation or approval is pending exactly if asked for, decisions follow a request, and no claim starts a root after its cancellation |
| LifecycleWriters.LogGrowsByStep | backend/app/runtime/persistence/event_store.py:60-72 | every write that takes effect adds its one event, a live root takes further ones, and nothing else joins the log |
| LifecycleWriters.EdgesAreTaken | backend/app/runtime/state_machine.py:18-31 | the table has no edge that nothing takes |
| Lifecycle.ChangesFollowTable | backend/app/runtime/state_machine.py:18-62 | over every interleaving a committed status change is an edge of the table if and only if it is not one of the listed off-table writes |
| Lifecycle.OneClosingEvent | backend/app/runtime/persistence/event_store.py:60-72 | the log has a done or error root event exactly when the root is terminal, then one, and last |
| Lifecycle.TerminalAbsorbs | backend/app/runtime/state_machine.py:18-62 | nothing changes a terminal root's status or log |
| Lifecycle.CommitSawCurrentStatus | backend/app/runtime/persistence/run_store.py:319-388 | a write that commits was decided on the status it replaces |
| Lifecycle.RejectWhilePausing | backend/app/services/workflow_application_service.py:513-527 | rejecting a requested approval moves a pausing root to blocked, which is not an edge |
| Lifecycle.RecoveryDropsPause | backend/app/runtime/execution/recovery.py:49-69 | recovery moves a pausing root to waiting for approval, which is not an edge |
| Lifecycle.OffTableReached | backend/app/runtime/state_machine.py:18-62 | each listed off-table write is made in some run, from each status it is listed for |
| ReplicatedLog.ProcessPrefix | frontend/src/lib/workflow-run-client.ts:204-231 | processing an event keeps the view a fold of a log prefix, except exactly when the event leaves a gap, the replay delivers all that is missing, and the subscription ends before its last frame |
| ReplicatedLog.RecoverPrefix | frontend/src/lib/workflow-run-client.ts:390-436 | gap recovery keeps the prefix whatever the replay delivers, and success means the gap is closed |
| ReplicatedLog.ReplicatesPrefix | frontend/src/lib/workflow-run-client.ts:186-282 | while active, under loss, repetition, reordering and failed replays, the view is the fold of exactly entries start + 1 .. last; and afterwards if and only if no delivery was of that exceptional kind |
| ReplicatedLog.ReplayFills | frontend/src/lib/workflow-run-client.ts:414-431 | a replay closes the gap if and only if its in-range frames begin with the missing sequences in order, and the subscription is then still active unless it ended before the last of them |
| ReplicatedLog.UnsubscribeSkipsEvents | frontend/src/lib/workflow-run-client.ts:215-229 | an event applied over a gap is stored as the cursor and the missing ones are never seen |
| ReplicatedLog.OpensAt | frontend/src/lib/workflow-run-client.ts:186-193 | a stored cursor moves the initial view forward only, and an audit ignores it |
| ReplicatedLog.EndedTakesNothing | frontend/src/lib/workflow-run-client.ts:204-206 | once ended, a subscription takes nothing any more |
| ReplicatedLog.PassesOver | frontend/src/lib/workflow-run-client.ts:204-212 | an ended subscription, an event of another run and one already behind the cursor: nothing happens, and that is no failure |
| WorkflowClient.Subscription.constructor | frontend/src/lib/workflow-run-client.ts:186-193 | a stored cursor only moves the initial view forward |
| WorkflowClient.Subscription.ProcessEvent | frontend/src/lib/workflow-run-client.ts:204-231 | the same outcome as without any set of received sequences |
| WorkflowClient.Subscription.RecoverGap | frontend/src/lib/workflow-run-client.ts:390-436 | in-range frames must be contiguous, others are ignored, and the replay stops once the gap is filled |
| WorkflowClient.Subscription.TrimSequences | frontend/src/lib/workflow-run-client.ts:646-650 | the oldest sequence goes once the bound is passed |
| WorkflowClient.Subscription.Consume | frontend/src/lib/workflow-run-client.ts:233-241 | the serial pipeline with its bounded set equals the replication without one |
| RunView.DraftsIsolated | frontend/src/lib/workflow-run.types.ts:456-594 | at most one active draft a step, named by the active stream, and never beside a pending replacement, for identifiers without colons |
| RunView.DraftsReflectHistory | frontend/src/lib/workflow-run.types.ts:338-382 | draft text, followed streams and pending replacements are those read off the history of effective events, for any identifiers |
| ViewHistory.EffectiveExactly | frontend/src/lib/workflow-run.types.ts:338-349 | the fold acts on the events of its run that are newer than all before them, up to the first that ends it; the cursor is the highest sequence delivered |
| ViewHistory.ViewReflectsHistory | frontend/src/lib/workflow-run.types.ts:351-520 | root status, node statuses, evidence, artifacts, traces, error and approval are each the last the effective events say of them |
| ViewHistory.DraftsAreFiled | frontend/src/lib/workflow-run.types.ts:456-594 | each draft, with step, call, attempt, text, whether it is followed and when it was displaced, is what the effective events filed under its key |
| ViewHistory.ShownExactly | frontend/src/lib/workflow-run-client.ts:744-758 | an event is shown exactly if the run has not ended and it is not a token of a stream its step does not follow |
| RunView.EndingFreezes | frontend/src/lib/workflow-run.types.ts:342-349 | after a terminal event only the cursor moves |
| RunView.RepeatsIgnored | frontend/src/lib/workflow-run.types.ts:342-344 | an event delivered again, or an older one, changes nothing |
| RunView.ForwardedIffAccepted | frontend/src/lib/workflow-run-client.ts:744-758 | a token, with text or without, is shown exactly when the reducer takes it: its step then follows its stream and its text ends the draft, and otherwise no token state changes |
| RunView.KeyInjective | frontend/src/lib/workflow-run.types.ts:596-598 | without colons in identifiers a key determines step, call and attempt |
| RunView.CollisionBreaksIsolation | frontend/src/lib/workflow-run.types.ts:596-598 | with a colon in an identifier one step is left following a draft of another, which holds the text of both |
| RunView.TokenIsolatedExactly | frontend/src/lib/workflow-run.types.ts:456-594 | for any identifiers, a token breaks isolation if and only if it is taken into a stream that another step follows |
| RunView.DraftsIsolatedExactly | frontend/src/lib/workflow-run.types.ts:456-594 | isolation holds throughout a log if and only if it has no such token |
| Gateway.ReplayEvents | backend/app/runtime/persistence/event_store.py:114-149 | the contiguous ready prefix of a page behind the cursor |
| Gateway.RunStream | backend/app/streaming/sse_gateway.py:33-77 | the generator yields what the specification gives for the polls |
| Gateway.YieldAll | backend/app/streaming/sse_gateway.py:57-67 | the cursor follows every yielded event and stops at a terminal one or the bound |
| Gateway.ReplayIsRun | backend/app/services/workflow_application_service.py:281-299 | a replay is the ready part of the log right behind the cursor within the bound, and is empty only when there is none |
| GatewayPages.ReplayExactly | backend/app/services/workflow_application_service.py:281-299 | a replay is exactly the entries behind the cursor up to the first hidden one, the bound, or ten thousand |
| GatewayPages.EmitRises | backend/app/streaming/sse_gateway.py:57-67 | whatever a poll hands over, what is yielded rises strictly from the cursor and stops exactly at an event that ends the stream |
| Gateway.StreamIsRun | backend/app/streaming/sse_gateway.py:33-77 | a gap-free piece of the log right behind the cursor, never past the first terminal event or the bound; one that yielded anything has returned exactly when it has reached one of the two |
| Gateway.ReturnsExactly | backend/app/streaming/sse_gateway.py:51-77 | below the bound a stream returns if and only if the ready rows its polls show lead from the cursor up to a terminal event or the bound; at the bound if and only if some poll finds the root not ended |
| Gateway.FinishedReturns | backend/app/streaming/sse_gateway.py:51-77 | the stream of a finished run, polled once a page or more, returns if and only if it starts ahead of the last event and of the bound |
| Gateway.BoundReached | backend/app/streaming/sse_gateway.py:68-76 | starting at the bound nothing is yielded, and the stream returns exactly at a poll that finds the root not ended |
| Gateway.PollAdvances | backend/app/streaming/sse_gateway.py:51-67 | a poll that shows a ready event behind the cursor moves it |
| Gateway.ResumedAtEndNeverReturns | backend/app/streaming/sse_gateway.py:68-76 | a stream at the end of a finished run never returns, bound or no bound |
| Sse.ReadSSEStream | frontend/src/lib/workflow-run-client.ts:594-621 | the frames depend on the concatenated text only, not on its chunks |
| Sse.ParseSSEFrame | frontend/src/lib/workflow-run-client.ts:623-644 | comments and unknown fields are skipped, the last id and event win, data lines are joined |
| Sse.SplitInSteps | frontend/src/lib/workflow-run-client.ts:605-607 | cutting what was left over together with the next chunk equals cutting the whole |
| Sse.ParsePrinted | backend/app/streaming/agent_events.py:14-22 | a printed event parses to its id, type and data |
| Sse.RoundTrip | backend/app/streaming/agent_events.py:14-22 | any chunking of the printed text reads back as the same events in order, and an id as its sequence |
| SseWire.BlockMeans | frontend/src/lib/workflow-run-client.ts:623-644 | any block of comments, bare fields and fields, with either line end, reads as its last id, its last event and its data lines joined, and as nothing without data |
| SseWire.TextMeans | frontend/src/lib/workflow-run-client.ts:594-621 | any text of such blocks and blank lines of either line end reads as the meanings of its blocks in order, an unfinished last one included |
| SseWire.TrimChangesNothing | frontend/src/lib/workflow-run-client.ts:616-619 | whether what is left over is blank makes no difference |
| EndToEnd.StreamedViewIsLogPrefix | backend/app/streaming/sse_gateway.py:33-77 | log, gateway, wire and subscription together: the view is the fold of exactly what was yielded behind its cursor |
| EndToEnd.FramesNameEvents | backend/app/streaming/agent_events.py:14-22 | each event the gateway yields arrives as one frame under its sequence and its name |
| EndToEnd.TypesTell | backend/app/runtime/contracts.py:236-238 | the name on the wire tells the kind of payload, and done and error are what the gateway stops behind |
| Budget.LedgerConserved | backend/app/runtime/budget.py:88-145 | root, node and provider accounts agree over every interleaving, and the clamp on reserved tokens never fires |
| Budget.LimitsHold | backend/app/runtime/budget.py:49-86 | every committed ledger is within its root token, node, call and cost limits |
| BudgetHistory.ReserveExactly | backend/app/runtime/budget.py:49-64 | a node may start exactly if its estimate fits beside what the root and the node itself have spent and hold and one more node is allowed; then it is within its own limit |
| BudgetHistory.SettleExactly | backend/app/runtime/budget.py:65-86 | usage is recorded exactly if root and provider were not overdrawn, one more call is allowed, and the root stays within its token and cost limits |
| BudgetHistory.AccountsAreHistory | backend/app/runtime/budget.py:88-145 | after any run each account holds what the granted steps say: reported tokens and cost, calls, starts, and estimates since the last settle |
| Budget.CoveredIsSolvent | backend/app/runtime/engine.py:1150-1199 | if usage stays within reservations, spent plus reserved tokens stay within the limit and no settle is refused for root tokens |
| Budget.OverrunRefusesOther | backend/app/runtime/engine.py:1181-1192 | a settle that fits is refused because another node overran its reservation |
| Budget.SettleRefusedExactly | backend/app/runtime/engine.py:1173-1199 | a settle that fits the limit is refused for root tokens if and only if spent plus reserved tokens already pass it |
| Budget.CostNeverRefuses | backend/app/runtime/engine.py:1173-1199 | with settles that carry no cost, none accrues and no positive cost limit refuses anything |
| Budget.ProviderCeiling | backend/app/runtime/budget.py:65-86 | a provider passes its ceiling by at most the last call recorded, and then nothing more is recorded for it |
| Budget.SettlesCommute | backend/app/runtime/budget.py:117-145 | two branches settle to the same ledger in either order |
| Limiters.ProviderRateLimiter.Allow | backend/app/runtime/provider_policy.py:72-80 | granted exactly when fewer than the limit of grants lie in the current window |
| Limiters.WindowBound | backend/app/runtime/provider_policy.py:64-80 | at most the limit of grants in any closed interval as long as the window |
| LimiterExactness.WindowExactly | backend/app/runtime/provider_policy.py:72-80 | a request is granted exactly if fewer than the limit of earlier grants lie in the window that ends with it |
| Limiters.ProviderCircuitBreaker.Allow | backend/app/runtime/provider_policy.py:45-47 | refused exactly when some failure since the last success reached the threshold in its window and its cooldown is not over |
| Limiters.ProviderCircuitBreaker.RecordFailure | backend/app/runtime/provider_policy.py:54-61 | the failure joins the history and the deadline follows it |
| Limiters.ProviderCircuitBreaker.RecordSuccess | backend/app/runtime/provider_policy.py:49-52 | the history of failures starts over |
| Limiters.DeadlineMoves | backend/app/runtime/provider_policy.py:54-61 | one more failure moves the deadline exactly when the window holds the threshold |
| LimiterExactness.OpenExactly | backend/app/runtime/provider_policy.py:45-61 | the breaker is open exactly while the cooldown runs of a failure with the threshold of failures in its window |
| Limiters.ProviderPolicy.CanCall | backend/app/runtime/provider_policy.py:106-113 | a call the open circuit refuses takes no place in the window; the fixture provider passes |
| Limiters.TokenBucket.Allow | backend/app/llm/rate_limiter.py:18-28 | refill up to the capacity, then grant exactly if the cost is there |
| Limiters.BucketBound | backend/app/llm/rate_limiter.py:18-28 | granted cost in any interval is at most the capacity plus what flows in |
| LimiterExactness.GrantedExactly | backend/app/llm/rate_limiter.py:18-28 | a cost is granted exactly if it fits the capacity and, with what was granted since, the initial tokens and from every earlier request on the capacity plus the inflow |
| CourseGraph.TopologicalOrder | backend/app/services/course_catalog_service.py:475-501 | a permutation with prerequisites first; whenever a node is emitted and another could have been, it has the lower level, then the earlier name, or for an accelerated learner more dependents first; refused exactly when there is a cycle |
| CourseGraph.Adjacency | backend/app/services/course_catalog_service.py:476-481 | open prerequisites and dependents of every node |
| CourseGraph.Release | backend/app/services/course_catalog_service.py:494-497 | exactly the dependents left without open prerequisites become ready |
| CourseGraph.EmitHead | backend/app/services/course_catalog_service.py:491-498 | one emission keeps the order valid and the ready list exact |
| CourseGraph.NothingReady | backend/app/services/course_catalog_service.py:499-501 | when nothing is ready, everything was emitted or the rest is on a cycle |
| CourseGraph.SortByKeySorts | backend/app/services/course_catalog_service.py:489-498 | the stable sort by key is sorted and keeps its elements |
| CourseGraph.SortIsStable | backend/app/services/course_catalog_service.py:489-498 | nodes of equal priority keep their order |
| CoursePlanner.NextNode | backend/app/services/course_catalog_service.py:504-509 | the first uncompleted node of the order, always unlocked, and nothing only when all are completed |
| CoursePlanner.GetPath | backend/app/services/course_catalog_service.py:152-181 | done, ready and locked say exactly what they mean, and one node is in progress unless all are done |
| CoursePlanner.FollowingFinishes | backend/app/services/course_catalog_service.py:197-231 | following the recommendation takes exactly the remaining nodes, each after its prerequisites |
| CoursePlanner.CourseProgress.RecordCompletion | backend/app/services/course_catalog_service.py:247-288 | a known node is added once, a new activity joins the last hundred, an unknown node changes nothing |
| CoursePlanner.WithActivityMeans | backend/app/services/course_catalog_service.py:262-281 | a new activity comes last and pushes out the oldest beyond a hundred; a known one changes nothing |
| Artifacts.ArtifactStore.PersistGeneratedResource | backend/app/runtime/actions.py:193-242 | lookup, staging commit and activation commit, with every crash point between |
| Artifacts.ArtifactStore.RecoverExistingResource | backend/app/runtime/actions.py:244-292 | an active resource is reused, a staged one is finished |
| Artifacts.ArtifactStore.ActivateStored | backend/app/runtime/artifacts/saga.py:202-261 | an active object is left alone, a staged one is verified and activated or orphaned |
| Artifacts.ArtifactStore.PersistResourceFanout | backend/app/runtime/actions.py:309-347 | no earlier resource is lost or changed in kind; it completes exactly if every execution returns and there is a producer; without a race it then has exactly one active resource for every producer present, with the ids of earlier attempts |
| Artifacts.PersistKeepsOne | backend/app/runtime/actions.py:244-292 | one execution keeps at most one live resource per kind, except exactly when a sweep activates a staged one between the two reads and what is then staged beside it goes live |
| Artifacts.OneEffect | backend/app/runtime/actions.py:193-292 | with an atomic lookup, any number of crashes, resumptions and sweeps leaves at most one live resource per kind |
| Artifacts.OneEffectExactly | backend/app/runtime/actions.py:193-292 | with the lookup as it is, there is never more than one live resource per kind if and only if no execution is such a race |
| Artifacts.PersistReturns | backend/app/runtime/actions.py:193-242 | what is returned is active; a resource live before is returned exactly when it was active or no sweep came between the two reads |
| ArtifactEnds.GoesOnExactly | backend/app/runtime/actions.py:244-292 | an active resource is returned at once and a staged one finished as its fate decides, and nothing is added |
| ArtifactEnds.StagesExactly | backend/app/runtime/actions.py:200-242 | with nothing to go on with, an execution that gets so far adds one resource, which becomes what its fate decides |
| ArtifactEnds.UndisturbedReturns | backend/app/runtime/actions.py:309-347 | an undisturbed fan-out returns for every producer, whatever was left over |
| ArtifactEnds.KindsAreNamed | backend/app/runtime/actions.py:319-327 | each producer persists the kind it is named after, in the order of the table |
| ArtifactEnds.WantedIs | backend/app/runtime/actions.py:328-341 | a kind is persisted exactly if its producer is present |
| Artifacts.RaceDuplicates | backend/app/runtime/artifacts/recovery.py:19-39 | a sweep between the two reads makes two active resources |
| TypedState.DumpRoundTrip | backend/app/runtime/typed_state.py:35-62 | dumping and reading back is the identity exactly on records that have snapshot ids or whose evidence has only empty ones |
| TypedState.FromPayloadNormal | backend/app/runtime/typed_state.py:43-56 | a payload gives such a record unless it lists nothing but nulls as snapshot ids beside evidence with one |
| TypedState.PayloadReadsAs | backend/app/runtime/typed_state.py:35-62 | what each field of a payload reads as, its defaults included |
| TypedState.SnapshotsFilter | backend/app/runtime/typed_state.py:45-49 | the default snapshot ids are those of the evidence in order, without the empty ones |
| TypedState.CheckpointRoundTrip | backend/app/runtime/typed_state.py:135-156 | a copy through the checkpoint is the same state exactly when all records are such |
| TypedState.CopyIsIdempotent | backend/app/runtime/typed_state.py:135-156 | a copy names its version, is normal, keeps everything else, and copying it again changes nothing |
| TypedState.TakenThenStored | backend/app/runtime/typed_state.py:92-108 | a record that is taken out and stored again restores the state exactly when it has snapshot ids or its evidence has only empty ones |
| TypedState.DroppedUnread | backend/app/runtime/typed_state.py:104-117 | what is taken out is gone from every projection and nothing else is |
| TypedState.ReadsItsSources | backend/app/runtime/typed_state.py:110-117 | a node reads exactly the outputs present among the sources it may read |
| TypedState.TypedWorkflowState.DropForRework | backend/app/runtime/engine.py:251-253 | the verdict and exactly the nodes it sends back leave the state |
| TypedState.TypedWorkflowState.TakeOver | backend/app/runtime/engine.py:303-305 | taking branch results over one by one is the merge, in whatever order |
| TypedState.TypedWorkflowState.RecordDefects | backend/app/runtime/typed_state.py:119-133 | the same defects in any order at the same node are reported as repeated |
| TypedState.RunSequentially | backend/app/runtime/engine.py:521-533 | each branch's result is what its node makes of the state at the fork |
| TypedState.OrderIndependent | backend/app/runtime/engine.py:493-572 | every complete interleaving of parallel branches merges to the sequential result |
| TypedState.MergeKeepsRest | backend/app/runtime/engine.py:303-305 | merging replaces what branches returned and keeps every other record |
| TypedState.MergedFromFork | backend/app/runtime/engine.py:511-533 | on normal states the checkpoint copies make no difference |

## What is assumed of the rest of the system

- Steps, events and roots are stored by compare-and-set on a version, fenced by
  the lease epoch, with the event in the same commit; only the lease holder
  journals provider completions. `Lifecycle` models these contracts, the engine
  model uses them.
- The network delivers log entries only: it may lose, repeat, reorder and cut
  off, but every delivered event is an entry of the run's log.
- Sequences of a log are 1, 2, 3, and so on; a clock never goes back; node ids
  are primary keys; edges returned by the repository join known nodes.
- The object store answers every verification with intact or not; a sweep that
  fails for another reason is a sweep that did not happen.

## Left out

- StopsExactly: where no node asks to be checked by the workflow, validation admits several QualityCheck nodes; the engine model has at most one, and chains of verdicts between several are not covered.
- CoherenceExactly: the equivalence is for definitions in which a reader runs after what a rework can renew and ahead of the gate nothing reads the verdict; `AcceptedIsCoherent` needs only the second.
- EngineSpec: a budget refusal, an approval request or a failed validation is one of the arbitrary outcomes of a node; which one happens is not derived from the ledger.
- EngineSpec: checkpoint rows are written but never read back by recovery, so they are not in the model; a root that cannot be resolved to a definition or an input fails before the modelled part.
- Equality of a recovered run with an uncrashed one: a crash during rework can re-read an old rejection and use up the counter, so only the safety bounds are claimed.
- Step rows move from pending to running directly; the step-level transition table is not what the engine follows and is not modelled.
- DraftsIsolated: needs identifiers without colons; normalisation of raw payloads to events, and the envelope's mode and provider fields of the view, are not modelled.
- RoundTrip: JSON encoding is an opaque one-line text, and UTF-8 decoding happens before the model; section 9.2.6 of the WHATWG HTML Living Standard also ends lines at a lone carriage return, which neither the program nor the model does.
- Reconnect delays, timeouts, authorisation headers and the Redis wake-up are nondeterministic steps or absent; the fetch loop around the pipeline only supplies events.
- Times and costs are reals, not IEEE floats.
- Object keys, resource versions and lineage, the hidden artifact event, and persistence of profiles, paths and capabilities.
- Concurrency limits of a fan-out: any interleaving is allowed, which covers them.
- Skills, prompts, retrieval, HTTP, databases, storage providers, encryption, the pages of the browser client and seed data.
