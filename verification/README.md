# Panopticon's control plane, modelled and proved

Panopticon runs coding agents in containers, one task each. This project models the deterministic part
that decides what those tasks may do: the task service with its dependency graph, governance tree,
workflow lifecycle and host hand-off protocol, the store underneath, the runner's crash-loop guard, the
change feed, and the scanners and codecs around them.

Code that works step by step is modelled as classes, methods and loops; each method is proved against a
function or a relation stated without it, and lemmas then state what the system promises about that
function or relation. The main results are about all inputs or all runs:

- **Dependencies.** The search finds a cycle exactly when one is reachable (`Dependencies.dfy`). Every
  accepted write keeps the graph acyclic, although only the edited task is searched from, and some
  unfinished task is always ready (`Readiness.dfy`, `ServiceRuns.dfy`).
- **Governance.** What a task credential sees in the list is exactly what it may read, for cyclic and
  dangling governor links too (`Governance.dfy`). Dropping a task drops exactly the least set of
  unfinished tasks below it, never fails midway, and never takes a lock that is held (`Service.dfy`).
- **Lifecycle and log.** Workflow resolution succeeds exactly for well-declared workflows and computes
  the least closed set of states (`WorkflowResolution.dfy`); on the resolved graph tasks move exactly as
  the state classes declare, and only DROPPED can be reached while a promise of the state is pending
  (`DeclaredWorkflows.dfy`). In every run every log is a connected chain, and each of its entries was let
  through by the gate or written by a free move of that very task, one of the run's calls
  (`Lifecycle.dfy`, `GatedRuns.dfy`). Each save passes the store's checks and is read back as supplied
  (`Store.dfy`, `StoreRefinement.dfy`).
- **Calls.** Each call is also described without the helpers of its step: when it is accepted and every
  field it leaves behind (`CallEffects.dfy`). In every run each settled promise was reported as it stands,
  and each dependency list and governor was supplied by a call (`Provenance.dfy`).
- **Hand-off.** In every run a claim is lost only by release, retry or reclaim, and a workspace changes
  hands only through a claim granted under a matching migration that had been pending before
  (`Ownership.dfy`, `OwnershipRuns.dfy`). An installed hand-off is accepted exactly while its source owns
  the workspace (`LateAcceptance.dfy`).
- **Runner.** Respawns are paced and failures before a session are bounded under any clock that never
  runs back; the guard refuses a pass exactly when it should by its own rules, and it is known exactly
  when it has given a task up for good (`CrashLoop.dfy`).
- **Feed.** No client misses a counted write under any interleaving (`ChangeFeed.dfy`).
- **Scanners.** The chunked redactor equals one-shot redaction for every chunking and no configured token
  survives (`Redactor.dfy`); capabilities decode to exactly what they were derived for, and their tags are
  of one root and one task (`Capability.dfy`); the review gate accepts exactly the reviews it asks for
  (`Fences.dfy`, `ReviewComment.dfy`, `ReviewGate.dfy`); credential templates resolve each piece once, and
  a reference to the value it names (`KeyTemplate.dfy`).

`ServiceSpec.dfy` states each public call as one atomic step over the stored tasks; the class in
`Service.dfy` is proved to do exactly that step, and the run theorems are about sequences of steps from
an empty store. `Models.dfy` and `Workflow.dfy` hold the shared records, `Bytes.dfy` and `Sequences.dfy`
shared vocabulary of the scanners.

## Where promises and code part

- **Promise descriptions.** The differential row update compares only the keys of the last entry's
  promises, so it equals a full overwrite exactly when the descriptions are unchanged
  (`Store.PatchIsOverwrite`); a save that rewords one is accepted and loses the new words
  (`Store.RewordingIsLost`, `Store.RewordingExample`). The service never changes one
  (`StoreRefinement.EveryStepSaves`).
- **Label of free moves.** A caller of a gated move may name the trigger `set-state`, so the trigger alone
  does not tell which entries bypassed the gate. The call does
  (`GatedRuns.EveryEntryIsGatedOrFree`).
- **Survivors.** A respawn that stays up for `RESPAWN_RESET_SECONDS` is promised a fresh budget. A pass
  that finds the daemon down restarts that interval, so a task whose respawn has been up for an hour may be
  refused another (`CrashLoop.SurvivorIsRefused`); with the budget spent the promise is kept exactly when no pass
  was deferred within the interval (`CrashLoop.SurvivorIsHealedIff`).
- **Replacement text.** A token that occurs inside `[redacted]` would be emitted by its own redaction
  (`Redactor.ReplacementCanLeak`). The minimum token length rules this out
  (`Redactor.ConfiguredTokensNeverSurvive`).
- **Sorting tokens.** The equality of chunked and one-shot redaction holds for any order of the tokens;
  sorting only makes each match the longest one (`Redactor.LongestFirst`).
- **Review comments.** A rendered comment comes back exactly when nothing after its heading reads as
  another evidence block, because the heading pattern is greedy (`ReviewComment.RenderedComesBack`). A
  review that quotes another one is refused (`ReviewComment.QuotedReviewIsRefused`,
  `ReviewComment.QuotedReviewExample`).
- **Late acceptance.** An installed hand-off can be recorded as accepted exactly while its source owns the
  recorded workspace (`Ownership.InstalledIsAcceptedIff`, `OwnershipRuns.AcceptanceNeedsTheSource`). A
  hand-off that provisions on the destination first, as `accept_migration` does
  (src/panopticon/sessionservice/migration.py:459-471), therefore stays installed and its task does not
  count as provisioned (`LateAcceptance.LateAcceptanceIsRefused`).

## Model

| member | source | states |
|---|---|---|
| `DependencyGraph.DependencyCycle` | src/panopticon/taskservice/service.py:98-119 | terminates on every graph, dangling edges included; answers a list exactly when a cycle is reachable from the start, and then a simple closed walk along real edges that the start reaches |
| `DependencyGraph.CycleSearch.Visit` | src/panopticon/taskservice/service.py:104-117 | the recursive search: a cycle it returns is real and reachable; without one, `path` and `positions` are restored, and `visited` has grown by the node, stays successor-closed and cycle-free |
| `DependencyGraph.CycleSearch.Explore` | src/panopticon/taskservice/service.py:109-117 | the same for a node met for the first time: push, visit every successor, pop |
| `DependencyGraph.CycleSearch.Enter` | src/panopticon/taskservice/service.py:109-110 | pushing a node keeps the path a distinct trail from the start and `positions` its index |
| `DependencyGraph.CycleSearch.Leave` | src/panopticon/taskservice/service.py:114-116 | popping a node all of whose successors are visited keeps the visited set closed and cycle-free |
| `DependencyGraph.CloseCycle` | src/panopticon/taskservice/service.py:105-106 | the path from the repeated node on, closed by it, is a simple cycle reachable from the start |
| `DependencyGraph.CycleFreeExtends` | src/panopticon/taskservice/service.py:107-116 | a closed cycle-free set stays so when a node with all successors inside joins it |
| `DependencyGraph.ClosedCycleFreeIsSafe` | src/panopticon/taskservice/service.py:98-119 | nothing reachable from a closed cycle-free set lies on a cycle, so an exhausted search proves the absence of one |
| `Readiness.ValidateDependencies` | src/panopticon/taskservice/service.py:1174-1188 | accepts a write exactly when every id exists and the edited graph has no cycle through the edit; a refusal names the missing id first |
| `Readiness.SearchFromEditSuffices` | src/panopticon/taskservice/service.py:1179-1184 | on an acyclic graph the edited graph is acyclic if and only if the search from the edited task alone finds nothing |
| `Readiness.WriteKeepsDependenciesOk` | src/panopticon/taskservice/service.py:1160-1172 | an accepted write keeps the graph acyclic and without dangling ids |
| `Readiness.RefusedWriteWouldBreak` | src/panopticon/taskservice/service.py:1174-1188 | every refused write would have left a cycle or a dangling id |
| `Readiness.FoundIsShortIffDangling` | src/panopticon/taskservice/service.py:1190-1204 | the resolved rows are as many as the ids exactly when no id dangles, and then they are those tasks in order |
| `Readiness.DependenciesBlocking` | src/panopticon/taskservice/service.py:1199-1204 | the store-backed readiness check equals the snapshot-backed one |
| `Readiness.SpawnerAgreesWithService` | src/panopticon/sessionservice/spawner.py:699-733 | the runner lists a task exactly when it is unclaimed, not held, unfinished and not blocked by the service's own check |
| `Readiness.OlderServiceRows` | src/panopticon/sessionservice/spawner.py:713-731 | without the projected fact, a row is taken exactly when it is unclaimed, open, in neither built-in final state, and all its dependencies are complete |
| `Readiness.UnfinishedTaskBelow` | src/panopticon/taskservice/service.py:1206-1217 | below every unfinished task some unfinished task waits for nothing but dropped ones |
| `Readiness.SomeTaskIsReady` | src/panopticon/taskservice/service.py:1206-1217 | when nothing depends on a dropped task, an unfinished task reaches an unfinished task with no blocking dependency |
| `Governance.Relate` | src/panopticon/taskservice/auth_scope.py:307-328 | the governor walk terminates on cyclic and dangling links and says "governed" exactly for tasks in every downward-closed set around the subject |
| `Governance.Decide` | src/panopticon/taskservice/auth_scope.py:224-236 | the decision equals the declarative permission stated without the walk |
| `Governance.DecideDependencies` | src/panopticon/taskservice/auth_scope.py:359-387 | allowed exactly when the target and every non-empty dependency id are visible to the subject |
| `Governance.VisibleIds` | src/panopticon/taskservice/api.py:1391-1404 | the growing fixpoint of the list endpoint terminates and computes exactly the visible set |
| `Governance.ListAgreesWithReadAccess` | src/panopticon/taskservice/api.py:1391-1404 | a task is listed for a credential exactly when that credential may read it, for every governor graph |
| `Governance.TrappedIsNotBelow` | src/panopticon/taskservice/auth_scope.py:318-327 | a walk that ends, dangles or repeats without meeting the subject leaves its start outside the subject's subtree |
| `Governance.BelowIsChained` | src/panopticon/taskservice/auth_scope.py:318-327 | to be in every downward-closed set around a task is to be linked up to it by governors in any number of steps |
| `Governance.ReachOfATask` | src/panopticon/taskservice/auth_scope.py:171-236 | to its own task a credential may do everything but the acts of runners, overseers and planners; to another task ten kinds of acts, exactly when its workflow orchestrates and the task is linked up to it by governors |
| `Workflows.OrderedPhases` | src/panopticon/core/workflow.py:328-339 | a duplicate-free walk along `advance` edges from the initial state, maximal: it stops only at a terminal state, without an edge, or before closing a loop |
| `Workflows.WalkOn` | src/panopticon/core/workflow.py:334-338 | one more label keeps the walk distinct, inside the graph and along `advance` edges |
| `WorkflowResolution.Resolve` | src/panopticon/core/workflow.py:166-246 | resolution succeeds exactly for well-declared workflows, and the graph is valid and describes exactly the least closed class set |
| `WorkflowResolution.Builder.Register` | src/panopticon/core/workflow.py:170-181 | registration is idempotent and fails only for an ill-declared workflow |
| `WorkflowResolution.Builder.RegisterReferences` | src/panopticon/core/workflow.py:212-218 | one class's references are all registered, and each newly registered class is queued |
| `WorkflowResolution.Builder.Close` | src/panopticon/core/workflow.py:203-218 | the worklist terminates and leaves the registered classes closed under references, adding only needed ones |
| `WorkflowResolution.Builder.ResolveTarget` | src/panopticon/core/workflow.py:190-198 | after closing, resolving a target registers nothing new; it fails exactly for a malformed or unknown target |
| `WorkflowResolution.RegisteredIsNeeded` | src/panopticon/core/workflow.py:200-218 | the registered set is the least set around the seeds closed under references |
| `WorkflowResolution.ResolveOperations` | src/panopticon/core/workflow.py:248-279 | succeeds exactly when every declared operation is a legal transition and `drop` goes to DROPPED; `advance` is the single forward edge unless declared; terminal states have none |
| `WorkflowResolution.ResolveStates` | src/panopticon/core/workflow.py:220-230 | every destination of every state is a registered label, and the resolution loop adds no state |
| `WorkflowResolution.ResolveInitial` | src/panopticon/core/workflow.py:237-241 | succeeds exactly when the initial target is a registered initial state |
| `WorkflowResolution.GraphIsValid` | src/panopticon/core/workflow.py:220-246 | in the resolved graph every edge and operation stays inside, and every unfinished state can be dropped in one step |
| `WorkflowResolution.GraphDescribes` | src/panopticon/core/workflow.py:220-246 | every needed class appears under its label with its own facts, edges and operations, and nothing else does |
| `DeclaredWorkflows.StatesAreDeclared` | src/panopticon/core/workflow.py:220-232 | of every needed class, which the graph shows by the contract of `Resolve`: its label is not empty, and in the graph stands for exactly the promises, the turn, the advancing party and the kind that the class declares |
| `DeclaredWorkflows.EdgesAreDeclared` | src/panopticon/core/workflow.py:220-232 | a label is a destination of a state exactly when its class declares a transition that means it, or it is DROPPED and the state is unfinished |
| `DeclaredWorkflows.DeclaredGate` | src/panopticon/core/workflow.py:615-644 | on a resolved graph a task is let from a state exactly along a declared way, and to anything but DROPPED only while no promise that the class declares is pending |
| `DeclaredWorkflows.EntryPromises` | src/panopticon/core/workflow.py:575-577 | entering a state promises exactly what its class declares, all of it pending, and hands the turn to the party the class names |
| `DeclaredWorkflows.PromisesHold` | src/panopticon/core/workflow.py:633-644 | a task that has just entered a state with declared promises can be moved to DROPPED and nowhere else |
| `DeclaredWorkflows.VerbsAreDeclared` | src/panopticon/core/workflow.py:260-272 | a declared operation leads where its last declaration says |
| `DeclaredWorkflows.AdvanceIsOnlyWay` | src/panopticon/core/workflow.py:273-276 | an undeclared `advance` exists exactly when a single way leads elsewhere than to DROPPED, and leads there |
| `DeclaredWorkflows.NoOtherVerbs` | src/panopticon/core/workflow.py:258-278 | an unfinished state has `drop`, to DROPPED, and no verb but that, `advance` and the declared ones; a finished state has none |
| `Lifecycle.StartIsOk` | src/panopticon/core/workflow.py:579-613 | a new task starts with a well-formed one-entry history in the initial state |
| `Lifecycle.ApplyKeepsHistory` | src/panopticon/core/workflow.py:615-644 | a gated move keeps the history well-formed and appends exactly one gated entry, whatever trigger its caller names |
| `Lifecycle.ForceKeepsHistory` | src/panopticon/core/workflow.py:646-663 | a free move keeps the history connected and well-formed |
| `Lifecycle.ResolveKeepsHistory` | src/panopticon/core/models.py:428-446 | fulfilling a promise in place keeps the history well-formed: a failed promise has a comment |
| `Lifecycle.ResolveAndAdvanceSpec` | src/panopticon/taskservice/service.py:1028-1063 | clearing the last promise advances along the single `advance` edge exactly when the agent advances, never fails for it, and keeps the history well-formed and the advance gated |
| `Lifecycle.WakeKeepsHistory` | src/panopticon/taskservice/service.py:864-883 | settling a wake keeps the history well-formed |
| `Lifecycle.DropIsNeverRefused` | src/panopticon/core/workflow.py:633-644 | every unfinished task in a known state can be dropped, whatever it promised |
| `Lifecycle.GatedStepIsSettled` | src/panopticon/core/workflow.py:615-687 | a gated step, wherever it stands in a history, leaves an unfinished state along an edge, and unless it drops the task every promise it leaves is met or failed with a comment |
| `GatedRuns.StepGates` | src/panopticon/taskservice/service.py:890-1063 | any call, with any trigger and with the cascades and auto-advance it sets off, leaves the log of every stored task as long as it was or longer by one gated entry, unless it is the free move of that task |
| `GatedRuns.DroppedTaskGates` | src/panopticon/taskservice/service.py:1016-1023 | a task that falls in a cascade is dropped through the gate |
| `GatedRuns.EveryEntryIsGatedOrFree` | src/panopticon/taskservice/service.py:890-962 | in every run every entry after the first of every log was gated or written by a free move of that task among the calls of the run |
| `GatedRuns.UnforcedTaskWalks` | src/panopticon/core/workflow.py:615-687 | in every run a task without free moves walks from the initial state along edges out of unfinished states with every promise it leaves settled |
| `Lifecycle.TaskObject.ResolveResponsibility` | src/panopticon/core/models.py:428-446 | the in-place update does exactly what the pure step says, or nothing on error |
| `Lifecycle.TaskObject.EnterState` | src/panopticon/core/workflow.py:665-687 | appends the entry with fresh promises and wake, and recomputes state and turn |
| `Lifecycle.TaskObject.Move` | src/panopticon/taskservice/service.py:936-962 | a gated or forced move does exactly the pure step, or nothing on error |
| `Service.TaskService.constructor` | src/panopticon/taskservice/service.py:174-205 | a service over an empty store is idle and meets the stored invariant |
| `Service.TaskService.RequestTransition` | src/panopticon/taskservice/service.py:904-919 | does exactly its atomic step and leaves no lock held |
| `Service.TaskService.ApplyOperation` | src/panopticon/taskservice/service.py:890-902 | does exactly its atomic step: a named operation is a gated move |
| `Service.TaskService.SetState` | src/panopticon/taskservice/service.py:921-930 | a free move needs only the task, its workflow and the target, so a task in a state that left its workflow is recovered; over a store of known states it does exactly its atomic step |
| `Service.TaskService.FreeMove` | src/panopticon/taskservice/service.py:921-970 | the committed free move with its cascade, from any state |
| `Service.FreeMoveIsStep` | src/panopticon/taskservice/service.py:921-970 | over a well-formed store that is the atomic step of the specification |
| `Service.TaskService.Commit` | src/panopticon/taskservice/service.py:936-962 | commits one move of one task under the dependency lock, or changes nothing |
| `Service.TaskService.GatedMove` | src/panopticon/taskservice/service.py:904-919 | a gated move with its cascade, callable from inside a cascade: the lock it takes is free and other locks are kept |
| `Service.TaskService.CascadeDrop` | src/panopticon/taskservice/service.py:1011-1026 | terminates with the number of unfinished tasks, takes no held lock, drops a closed set below the root, stops early only where a task is stuck, and changes nothing else |
| `Service.TaskService.DropChild` | src/panopticon/taskservice/service.py:1019-1024 | one child of the snapshot loop with everything that falls with it |
| `Service.TaskService.CascadeFrom` | src/panopticon/taskservice/service.py:964-970 | from a well-formed store the cascade of a move never fails and yields exactly the specified store |
| `Service.CascadeIsComplete` | src/panopticon/taskservice/service.py:1011-1026 | from a well-formed store a cascade raises nothing and drops exactly the least set that contains every unfinished task governed by the root or by a member |
| `Service.ChildSubtree` | src/panopticon/taskservice/service.py:1016-1023 | what falls below a child after it is dropped falls below the root, is untouched so far, and is no other direct child |
| `Service.ClosedAfterChild` | src/panopticon/taskservice/service.py:1019-1024 | dropping a child with its closed subtree keeps the dropped set closed |
| `Service.AfterChild` | src/panopticon/taskservice/service.py:1019-1024 | the cascade's loop invariant after one child: exactly the tasks dropped so far differ from the snapshot |
| `Service.AllChildrenDone` | src/panopticon/taskservice/service.py:1019-1024 | once every child in the list is done, the dropped set is closed below the root |
| `CallEffects.DropSetIsChained` | src/panopticon/taskservice/service.py:1011-1026 | what falls with a dropped task is what hangs below it by a chain of unfinished tasks, each governed by the next |
| `Service.GatedMoveIsMove` | src/panopticon/taskservice/service.py:904-970 | the committed move with its cascade is the atomic step of the specification |
| `Service.TaskService.ResolveInPlace` | src/panopticon/taskservice/service.py:1049-1062 | resolution and auto-advance happen on one in-memory task and are saved once |
| `Service.TaskService.ResolveResponsibility` | src/panopticon/taskservice/service.py:1028-1063 | does exactly its atomic step, auto-advance and cascade included |
| `Service.TaskService.RecordStageEntryWake` | src/panopticon/taskservice/service.py:864-883 | does exactly its atomic step: a pending wake settles once, at any entry |
| `Service.TaskService.CreateTask` | src/panopticon/taskservice/service.py:623-716 | does exactly its atomic step: existence checks, dependency check, then the new task |
| `Service.TaskService.SetDependencies` | src/panopticon/taskservice/service.py:1160-1172 | does exactly its atomic step |
| `Service.TaskService.SetGovernor` | src/panopticon/taskservice/service.py:1147-1158 | does exactly its atomic step: only the governor's existence is checked |
| `Service.TaskService.SetSlug` | src/panopticon/taskservice/service.py:1065-1079 | does exactly its atomic step |
| `Service.TaskService.SetTurn` | src/panopticon/taskservice/service.py:1117-1129 | does exactly its atomic step: the agent's turn clears the waiting markers |
| `Service.TaskService.Retry` | src/panopticon/taskservice/service.py:1266-1283 | does exactly its atomic step |
| `Service.TaskService.Claim` | src/panopticon/taskservice/service.py:1285-1328 | does exactly its atomic step, with every guard in order |
| `Service.TaskService.Release` | src/panopticon/taskservice/service.py:1330-1338 | does exactly its atomic step |
| `Service.TaskService.Reclaim` | src/panopticon/taskservice/service.py:1646-1663 | does exactly its atomic step: the runner's unfinished tasks are released, all others kept |
| `Service.TaskService.RecordProvisioning` | src/panopticon/taskservice/service.py:1374-1394 | does exactly its atomic step |
| `Service.TaskService.RecordMigration` | src/panopticon/taskservice/service.py:1421-1470 | does exactly its atomic step |
| `Service.TaskService.MigrationError` | src/panopticon/taskservice/service.py:1422-1447 | refuses a record with the first guard that fails, and nothing else |
| `CallEffects.RequestTransitionEffect` | src/panopticon/taskservice/service.py:904-919 | accepted exactly out of an unfinished state along an edge with no promise pending, or to DROPPED; the task then has one entry more with the caller's trigger, note and time, the target's promises and turn, and exactly the chains below a dropped task are dropped with it |
| `CallEffects.OperationIsTransition` | src/panopticon/taskservice/service.py:890-902 | an operation is the gated move to its target with its name as the trigger |
| `CallEffects.SetStateEffect` | src/panopticon/taskservice/service.py:921-962 | accepted exactly for a state of the workflow, from anywhere, with the same entry and cascade |
| `CallEffects.ResolveEffect` | src/panopticon/taskservice/service.py:1028-1063 | accepted exactly for MET, or FAILED with a comment that is not blank, and a promised key; the first promise with the key then has the reported status and comment, nothing else of the log differs, and the task advances behind it exactly when that was the last one and the agent advances |
| `CallEffects.SetDependenciesEffect` | src/panopticon/taskservice/service.py:1160-1172 | accepted exactly when the stored graph stays acyclic and complete; the task then depends on exactly the supplied ids and nothing else differs |
| `CallEffects.CreateTaskEffect` | src/panopticon/taskservice/service.py:623-713 | accepted exactly for a new id, a known repository and workflow, an existing governor and existing dependencies; a new task never closes a cycle, and it starts with what was supplied and what its initial state declares |
| `CallEffects.SetGovernorEffect` | src/panopticon/taskservice/service.py:1147-1158 | accepted exactly for no governor or an existing one; only the governor changes |
| `CallEffects.RecordWakeEffect` | src/panopticon/taskservice/service.py:864-888 | accepted exactly for a pending wake or to repeat what is recorded; only that wake changes |
| `CallEffects.SlugAndTurnEffect` | src/panopticon/taskservice/service.py:1117-1128 | only the slug, or the turn; handing the turn to the agent clears both markers |
| `CallEffects.ClaimEffect` | src/panopticon/taskservice/service.py:1285-1328 | granted exactly when the runner holds the task already, or nobody does and it is open, unfinished, its dependencies done and its workspace free to go there; only the claim changes |
| `CallEffects.ReleaseAndRetryEffect` | src/panopticon/taskservice/service.py:1266-1340 | a release always succeeds; a retry exactly when the repository is open, the task unfinished, without a session and with no launch under way; only claim and hold change |
| `CallEffects.BulkEffect` | src/panopticon/taskservice/service.py:1646-1663 | reclaiming clears exactly the claims of that runner on unfinished tasks; pausing holds exactly the selected tasks of that repository |
| `CallEffects.RecordProvisioningEffect` | src/panopticon/taskservice/service.py:1342-1394 | accepted exactly from the holder of the claim, for the task's own branch, and not at the destination of a migration that has not arrived; the recorded facts are the reported ones |
| `CallEffects.RecordMigrationEffect` | src/panopticon/taskservice/service.py:1396-1470 | accepted exactly from the owner of the workspace, on proper terms and in order; the record repeats the report and remembers whether history was ever asked for |
| `CallEffects.RefusedMoveIsJust` | src/panopticon/core/models.py:428-446 | a refused move, report or wake names a reason that holds |
| `CallEffects.RefusedClaimIsJust` | src/panopticon/taskservice/service.py:1266-1322 | a refused claim or retry names a reason that holds |
| `CallEffects.RefusedWorkspaceIsJust` | src/panopticon/taskservice/service.py:1342-1447 | a refused report of a workspace or migration names a reason that holds |
| `CallEffects.FinishedIff` | src/panopticon/taskservice/service.py:595-609 | a task is terminal exactly when its workflow says so of a state it knows, or its unknown state has a built-in final label |
| `Provenance.EveryCallOn` | src/panopticon/taskservice/service.py:623-1470 | any call, with what it sets off, changes a stored task's promises, dependencies and governor only by reporting, entering a state, or setting them |
| `Provenance.SettledWasReported` | src/panopticon/core/models.py:428-446 | in every run every met or failed promise of every log was reported with this status and comment by an accepted call on that task while its entry was the current one, and has stood so ever since |
| `Provenance.DependenciesWereSupplied` | src/panopticon/taskservice/service.py:700-709 | in every run a task depends on exactly what the latest accepted call supplied for it |
| `Provenance.GovernorWasSupplied` | src/panopticon/taskservice/service.py:1147-1158 | in every run a task is governed by the one the latest accepted call named |
| `ServiceRuns.StepKeepsOk` | src/panopticon/taskservice/service.py:623-1470 | every call keeps the stored invariant: known states, well-formed histories, acyclic complete dependencies |
| `ServiceRuns.RunsKeepOk` | src/panopticon/taskservice/service.py:623-1470 | the stored invariant holds at every point of every run of calls |
| `ServiceRuns.SomeTaskIsReadyInEveryRun` | src/panopticon/taskservice/service.py:1199-1217 | at every point of every run an unfinished task reaches a ready one, unless something depends on a dropped task |
| `ServiceRuns.DropSetIsUnfinished` | src/panopticon/taskservice/service.py:1020 | only tasks that were unfinished before the cascade fall |
| `ServiceRuns.NoDependenciesIsAllowed` | src/panopticon/taskservice/service.py:709-711 | skipping the check for an empty dependency list skips nothing |
| `OwnershipRuns.StepOwnership` | src/panopticon/taskservice/service.py:1285-1470 | the only changes a call can make to any task's claim, workspace owner and migration record, each tied to the call that makes it |
| `OwnershipRuns.ClaimEndsIff` | src/panopticon/taskservice/service.py:1266-1337 | a call ends a held claim exactly when it succeeds and releases or retries that task, or reclaims the holder while the task is unfinished; no other runner takes its place |
| `OwnershipRuns.LostClaimWasReleased` | src/panopticon/taskservice/service.py:1646-1665 | in every run a claim that was held and no longer is was ended by such a call, made while it was still held |
| `OwnershipRuns.ClaimWasGranted` | src/panopticon/taskservice/service.py:1285-1328 | a claim held at some point of a run was granted by a claim call at an earlier point, where the cross-host guard passed, and has been held since |
| `OwnershipRuns.OwnershipMovesByMigration` | src/panopticon/taskservice/service.py:1304-1315 | the workspace owner changes from one runner to another only if the new owner's current claim was granted while an installed or accepted migration between exactly those two stood |
| `OwnershipRuns.ArrivalWasPending` | src/panopticon/taskservice/service.py:1434-1445 | every installed or accepted record was preceded by a pending one with the same source, destination and method, with no other hand-off in between |
| `OwnershipRuns.HistoryRequestSticks` | src/panopticon/taskservice/service.py:1448-1470 | once session history was requested, the record says so for the rest of the run |
| `OwnershipRuns.RecordsAreOk` | src/panopticon/taskservice/service.py:1426-1468 | in every run every record leads to another host on known terms, its discarded changes were authorised by the user, and the marks about session history are exactly those the requests explain |
| `OwnershipRuns.ClaimsAreOfReadyTasks` | src/panopticon/taskservice/service.py:1296-1322 | in every run a newly held claim was granted by a claim call, for a task nobody held, open for launch, unfinished, and with every dependency finished and not dropped |
| `Ownership.RecordedIsProvisioned` | src/panopticon/core/models.py:410-422 | recording a workspace makes the task provisioned exactly when the runner verified it and no migration is left unaccepted |
| `OwnershipRuns.NoLateAcceptance` | src/panopticon/taskservice/service.py:1422-1425 | while the workspace belongs to the new owner and no record names it as a source, the hand-off record stands as it is, and unless it was accepted before, the task does not count as provisioned |
| `Ownership.InstalledIsAcceptedIff` | src/panopticon/taskservice/service.py:1422-1447 | a report that an installed hand-off was accepted is taken if and only if the recorded workspace still belongs to its source |
| `OwnershipRuns.AcceptanceNeedsTheSource` | src/panopticon/taskservice/service.py:1421-1470 | in every run such a report turns the record into an accepted one exactly then, and is refused without a trace otherwise |
| `LateAcceptance.LateAcceptanceIsRefused` | src/panopticon/taskservice/service.py:1374-1425 | for every workflow and every two runners there is a run, in the order that `accept_migration` follows, whose last record is refused and whose task is not provisioned |
| `Store.ValidateHistoryAppendOnly` | src/panopticon/core/store.py:296-318 | passes exactly for a history that extends the stored one: facts kept, wakes only settle, finished promises final |
| `Store.PatchIsOverwrite` | src/panopticon/taskservice/store_sqlalchemy.py:622-632 | the patched rows read back as the supplied history if and only if the descriptions of the last stored entry's promises are unchanged |
| `Store.RewordingIsLost` | src/panopticon/taskservice/store_sqlalchemy.py:358-371 | every save that only rewords a current promise is accepted and reads back the old words |
| `Store.RewordingExample` | src/panopticon/taskservice/store_sqlalchemy.py:358-371 | one such stored and supplied history |
| `Store.TaskRow.FulfilCurrentPromises` | src/panopticon/taskservice/store_sqlalchemy.py:358-371 | status and comment are overwritten row by row when the keys agree in order; otherwise nothing changes |
| `Store.TaskRow.PatchWakes` | src/panopticon/taskservice/store_sqlalchemy.py:622-624 | every stored entry takes the supplied wake status and keeps the rest |
| `Store.TaskRow.AppendRows` | src/panopticon/taskservice/store_sqlalchemy.py:630-632 | the new entries are appended in order |
| `Store.TaskRow.UpdateTask` | src/panopticon/taskservice/store_sqlalchemy.py:585-632 | the row reads back as the supplied task over the patched history; on error the transaction leaves the row alone |
| `Store.TaskRow.SaveTask` | src/panopticon/core/store.py:158-164 | succeeds exactly for a consistent task whose history may be saved over the stored one, and then reads back as supplied if and only if the promise descriptions are kept |
| `StoreRefinement.EveryStepSaves` | src/panopticon/core/store.py:158-164 | every history any call produces for any stored task passes the append-only check, ends in the task's state, and is read back as supplied |
| `StoreRefinement.EveryResultIsConsistent` | src/panopticon/core/store.py:280-288 | every task there is after a call, a created one too, passes the consistency check |
| `StoreRefinement.MoveStepSaves` | src/panopticon/taskservice/service.py:936-962 | the same for transitions, free moves and auto-advance, cascades included |
| `StoreRefinement.LogsOnlyGrow` | src/panopticon/core/store.py:296-318 | over any stretch of a run no history shrinks, no recorded fact changes, wakes only settle and earlier promises stay final |
| `StoreRefinement.LogIsFinal` | src/panopticon/core/store.py:296-318 | in every run an entry's time, states, trigger and note never change, nor does a settled wake, nor a promise of an entry that is no longer the current one |
| `CrashLoop.RespawnsArePaced` | src/panopticon/sessionservice/spawner.py:486-497 | for every clock that never runs back and every interleaving, among any `max_respawns` + 1 consecutive respawns within a claim and one runner process two neighbours are at least `respawn_reset` apart |
| `CrashLoop.PreSessionFailuresAreBounded` | src/panopticon/sessionservice/spawner.py:232-258 | a streak of failures before a session existed gets at most `max_respawns` respawns within a claim and one runner process, however much time passes |
| `CrashLoop.RefusalMeansExhausted` | src/panopticon/sessionservice/spawner.py:568-576 | a pass that finds an orphan leaves it alone if and only if none of the latest `max_respawns` respawns was survived, and the latest is not: a pre-session failure has had no successful respawn since, or the respawn, the failure it ended in or a deferred pass since is less than `respawn_reset` ago |
| `CrashLoop.SurvivorIsHealedIff` | src/panopticon/sessionservice/spawner.py:560-568 | an orphan whose latest respawn reached a session and is at least `respawn_reset` old is respawned if and only if budget is left or no pass was deferred in the last `respawn_reset` |
| `CrashLoop.SurvivorIsRefused` | src/panopticon/sessionservice/spawner.py:560-576 | an input where a respawn that stayed up for an hour gets no fresh budget, because the daemon was down ten seconds before |
| `CrashLoop.GivenUpIff` | src/panopticon/sessionservice/spawner.py:486-497 | no continuation of the claim in this runner process respawns the task any more if and only if `max_respawns` is zero, or the budget is spent and a pre-session failure has had no successful respawn since |
| `CrashLoop.LateFailureStaysStuck` | src/panopticon/sessionservice/spawner.py:486-497 | an input where a later failure inside a session does not clear an earlier pre-session failure, and no pass of any continuation respawns the task any more |
| `CrashLoop.StepKeepsInv` | src/panopticon/sessionservice/spawner.py:553-583 | every pass, every fresh claim and every restart of the runner keeps the relation between the recorded budget and the respawns that happened |
| `CrashLoop.Spawner.SpawnFailed` | src/panopticon/sessionservice/spawner.py:232-273 | the failure branch updates this task's guard as specified, no other, and latches exactly on a late failure or a spent budget |
| `CrashLoop.Spawner.SpawnClaimed` | src/panopticon/sessionservice/spawner.py:197-199 | a fresh claim starts a fresh budget for this task alone |
| `CrashLoop.Spawner.Heal` | src/panopticon/sessionservice/spawner.py:553-583 | one pass is one event of the guard, for this task alone; it respawns only an unfinished container task that this runner holds, neither paused nor failed, without a session, and such a one exactly when budget is left or the latest respawn survived; with a session or another holder nothing changes |
| `CrashLoop.PreSessionIff` | src/panopticon/sessionservice/spawner.py:232-246 | a failure counts as pre-session exactly when a container command failed, for a task that has one, and no session was found |
| `ChangeFeed.Feed.Notify` | src/panopticon/taskservice/api.py:715-718 | every holder of the old event is woken, and a fresh unset event is issued |
| `ChangeFeed.Feed.BumpVersion` | src/panopticon/core/store.py:89-93 | counting a committed write and notifying is the bump of the step machine |
| `ChangeFeed.Feed.NotifyChange` | src/panopticon/taskservice/service.py:807-812 | counting an ephemeral change, whether it takes effect with the count or was awaited before as an artifact is, and notifying is the step of the machine |
| `ChangeFeed.Feed.ReadVersion` | src/panopticon/taskservice/service.py:790 | the version a request goes on with is the one its step of the machine records |
| `ChangeFeed.Feed.SetEventWakes` | src/panopticon/taskservice/api.py:728-731 | the event a client parked on is set exactly when the machine lets it wake |
| `ChangeFeed.Feed.Enter` | src/panopticon/taskservice/api.py:726-728 | the entry of a wait is the wait step: it parks on the object of the event the machine names, or goes on with the version the machine records |
| `ChangeFeed.RunKeepsInv` | src/panopticon/taskservice/service.py:783-812 | the feed's invariant holds at every point of every interleaving |
| `ChangeFeed.ResponsesReflectTheirVersion` | src/panopticon/taskservice/service.py:783-792 | every response shows all writes its version counts |
| `ChangeFeed.ParkedClientsMissNothing` | src/panopticon/taskservice/api.py:720-731 | a client parked at its own version has been shown everything counted and is woken by the next bump; one parked at a stale version can wake at once |
| `ChangeFeed.VersionsGrow` | src/panopticon/core/store.py:89-93 | the version and the counted writes never go back |
| `ChangeFeed.CountedWritesAreShown` | src/panopticon/taskservice/service.py:783-792 | a response whose version is at least that of an earlier moment shows every write counted by then |
| `ChangeFeed.ReadsCurrentVersion` | src/panopticon/taskservice/service.py:783-792 | a request goes on with the number of writes counted when it reads, and a woken client moves past the version it waited on |
| `ChangeFeed.AnswersAreCurrent` | src/panopticon/taskservice/service.py:783-792 | whatever happens between reading and answering, the answer's version is the number of writes counted at the reading, and it shows them all |
| `Redactor.RedactStreamChunk` | src/panopticon/taskservice/api.py:188-223 | whatever follows, output and redacted remainder make up the redaction of the whole; the last call leaves nothing; what is held back is shorter than some token |
| `Redactor.RedactBody` | src/panopticon/taskservice/api.py:869-894 | for every split into chunks the client receives the one-shot redaction of the whole body |
| `Redactor.Held` | src/panopticon/taskservice/api.py:200-210 | the longest suffix that a token could continue is held back |
| `Redactor.Search` | src/panopticon/taskservice/api.py:214-216 | the leftmost match from a position on |
| `Redactor.Emit` | src/panopticon/taskservice/api.py:212-223 | whatever follows, the emitted bytes are the redaction of what is consumed |
| `Redactor.LongestFirst` | src/panopticon/taskservice/api.py:858-865 | with tokens sorted longest first, a match is the longest token at its position |
| `Redactor.RedactionReplaces` | src/panopticon/taskservice/api.py:211-223 | the redaction is the data cut from the left into configured tokens and other bytes, with each token replaced and every other byte in its place |
| `Redactor.NothingHidden` | src/panopticon/taskservice/api.py:211-223 | data in which no token occurs comes out unchanged |
| `Redactor.TokensNeverSurvive` | src/panopticon/taskservice/api.py:211-223 | for tokens without brackets: no output ever contains a token if and only if no token occurs in the replacement text |
| `Redactor.ConfiguredTokensNeverSurvive` | src/panopticon/taskservice/auth.py:140-147 | no output contains a token that the configuration grammar and minimum length accept |
| `Redactor.ReplacementCanLeak` | src/panopticon/taskservice/api.py:218 | a token inside the replacement text would be emitted by its own redaction |
| `Capability.DecodedIsDerived` | src/panopticon/taskservice/auth.py:63-91 | decoding yields a task id exactly for a token that some configured root derives for that non-empty id |
| `Capability.DerivedIsDecoded` | src/panopticon/taskservice/auth.py:55-91 | every capability derived from a configured root decodes to its task id |
| `Capability.EmptySubjectIsRefused` | src/panopticon/taskservice/auth.py:69-70 | no token ever decodes to the empty id |
| `Capability.CapabilitiesNameOneTask` | src/panopticon/taskservice/auth.py:55-60 | equal capabilities name the same task, whatever the MAC function is |
| `Capability.Base64RoundTrip` | src/panopticon/taskservice/auth.py:51-52 | decoding with restored padding gives back the encoded bytes |
| `Capability.Base64UrlLetters` | src/panopticon/taskservice/auth.py:51-52 | the encoding is ASCII and holds neither a pad nor the separator of the token's parts |
| `Capability.Utf8RoundTrip` | src/panopticon/taskservice/auth.py:57 | decoding UTF-8 gives back the encoded text |
| `Capability.SplitDerived` | src/panopticon/taskservice/auth.py:66 | a capability splits into exactly its four parts |
| `Capability.TagAuthenticates` | src/panopticon/taskservice/auth.py:57-60 | the tag is the MAC, keyed with the root, of the domain, a NUL, the task id, a NUL and the profile |
| `Capability.AcceptedTagAuthenticates` | src/panopticon/taskservice/auth.py:63-91 | an accepted token carries such a tag, keyed with a configured root, for the very task it is accepted for |
| `Capability.TagBindsRootAndTask` | src/panopticon/taskservice/auth.py:57-60 | tags that agree under every MAC are of the same root and the same task |
| `Capability.TransplantedTagIsRefused` | src/panopticon/taskservice/auth.py:63-91 | a token that names one task and carries the tag of another is refused unless the MAC itself collides |
| `Capability.Base64Vectors` | src/panopticon/taskservice/auth.py:51-52 | test vectors of section 10 of RFC 4648 |
| `Capability.Utf8Vectors` | src/panopticon/taskservice/auth.py:57 | the examples of section 7 of RFC 3629 |
| `ReviewComment.RenderedComesBack` | src/panopticon/container/reviewers.py:447-494 | parsing a rendered comment gives evidence and body back if and only if the fields are non-empty and backtick-free, the round is not negative, the body is not empty, and nothing after the heading reads as another heading round and evidence block |
| `ReviewComment.RenderedIsRead` | src/panopticon/container/reviewers.py:474-494 | with one-line fields the parser returns exactly the evidence and body, or refuses because the body holds another evidence block; never other evidence |
| `ReviewComment.QuotedReviewIsRefused` | src/panopticon/container/reviewers.py:461-471 | every comment whose body ends in the rendering of another review, with any text before it, is refused |
| `ReviewComment.QuotedReviewExample` | src/panopticon/container/reviewers.py:461-471 | one such comment |
| `ReviewComment.ParsedIsRendered` | src/panopticon/container/reviewers.py:474-494 | a parsed comment is the rendering of its evidence and body up to the spelling of the round numerals |
| `ReviewComment.EvidenceHasHarnessLine` | src/panopticon/container/reviewers.py:461-471 | a body can only be refused for another evidence block when it holds a harness line after a blank line |
| `ReviewComment.HeadingEndsThere` | src/panopticon/container/reviewers.py:462 | the greedy heading ends at the last place where the rest of the pattern fits |
| `ReviewComment.ScanFinds` | src/panopticon/container/reviewers.py:461-471 | the pattern finds the fields it was filled with |
| `ReviewComment.ScannedIsFilled` | src/panopticon/container/reviewers.py:461-471 | what the pattern matched is its literals filled with its groups |
| `ReviewComment.DecimalReadsBack` | src/panopticon/container/reviewers.py:482 | a printed round number reads back as itself |
| `Fences.KeepUnfenced` | src/panopticon/container/reviewers.py:497-513 | the loop keeps exactly the lines that no fenced block holds, in order |
| `Fences.OpensAsSpecified` | src/panopticon/container/reviewers.py:508-509 | a line opens a fence exactly when it is an opening code fence of section 4.5 of the CommonMark specification |
| `Fences.ClosesAsSpecified` | src/panopticon/container/reviewers.py:503-505 | a line closes a fence exactly when it is a closing code fence for it by the same section |
| `Fences.KeptTwice` | src/panopticon/container/reviewers.py:497-513 | filtering the kept lines again changes nothing |
| `Fences.OneBlockIsOpen` | src/panopticon/container/reviewers.py:500-511 | at most one fenced block is open at a line |
| `ReviewGate.OutsideFencedCode` | src/panopticon/container/reviewers.py:497-513 | the text of the unfenced lines |
| `ReviewGate.JoinedLines` | src/panopticon/container/reviewers.py:513 | a line-wise search of the joined text sees exactly the kept lines |
| `ReviewGate.CheckOutcome` | src/panopticon/container/reviewers.py:534-557 | passes exactly when the first evidence heading outside fences is followed by an exact outcome line outside fences before the next heading of its level outside fences |
| `ReviewGate.SearchedLines` | src/panopticon/container/reviewers.py:534-546 | the filtered text shows an outcome exactly when the body does outside its fences |
| `ReviewGate.UnfencedOutcome` | src/panopticon/container/reviewers.py:534-557 | in a body without fences: the first evidence heading, blanks behind it allowed, then an exact outcome line before the next heading |
| `ReviewGate.LineThenRest` | src/panopticon/container/reviewers.py:500 | a line, its break, and the rest split into that line and the lines of the rest |
| `ReviewGate.CheckReview` | src/panopticon/container/reviewers.py:547-583 | passes exactly when the evidence is the one its slot, commit and round determine and the body shows an outcome |
| `ReviewGate.ValidateReviewGate` | src/panopticon/container/reviewers.py:516-583 | passes exactly for two comments, each the review its slot asks for |
| `ReviewGate.PassedCommentIsRendered` | src/panopticon/container/reviewers.py:516-583 | a comment that passed is, up to numerals, the rendering of the slot's own model, harness and the one source of that harness for this commit and round |
| `KeyTemplate.ResolvedKey` | src/panopticon/harnesses/pi.py:369-417 | the scanner terminates and resolves each piece of the template once; an empty value is nothing and a command stands for itself; the final fallback to nothing is never needed |
| `KeyTemplate.ScanDollar` | src/panopticon/harnesses/pi.py:386-416 | the branches at a dollar sign take the piece that starts there |
| `KeyTemplate.PlainReference` | src/panopticon/harnesses/pi.py:407-414 | a dollar sign starts a `$NAME` reference exactly when a name follows it, and the name is the longest one |
| `KeyTemplate.BracedReference` | src/panopticon/harnesses/pi.py:391-406 | a dollar sign starts a `${NAME}` reference exactly when a name stands in braces after it |
| `KeyTemplate.NothingOnlyForMissing` | src/panopticon/harnesses/pi.py:395-417 | a value that is neither empty nor a command resolves to nothing exactly when one of its references is unset or empty, and never to an empty text |
| `KeyTemplate.PiecesSpellTheTemplate` | src/panopticon/harnesses/pi.py:378-416 | the pieces, fixed by the template alone, are the template cut up, so nothing substituted is scanned |
| `KeyTemplate.QuotedResolves` | src/panopticon/harnesses/pi.py:369-417 | doubling each dollar sign and writing a leading `!` as `$!` gives a template that resolves to the text, for every text but the empty one |
| `KeyTemplate.ReferenceIsReplaced` | src/panopticon/harnesses/pi.py:391-414 | quoted text, a reference of either form to a set name, and quoted text again resolve to the first text, the value in the environment as it is, and the second text |
| `KeyTemplate.ReferenceThen` | src/panopticon/harnesses/pi.py:391-414 | a set reference is replaced by its value, and the template behind it is resolved on its own |
| `KeyTemplate.MissingReferenceIsNothing` | src/panopticon/harnesses/pi.py:399-411 | with the name unset or empty, such a template resolves to nothing |

## Left out

- HTTP, MCP, SQL sessions, Docker, tmux, git and the filesystem: outcomes of such calls are parameters (spawn outcome, session presence, daemon reachability, registrations, reported phase).
- Interleavings inside one service call: a call is one atomic step. Only the change feed is split into commit, count, version read, snapshot read and park.
- The clock inside one call: a call has a single `now`, so every task that a cascade drops is stamped with it; a failed spawn reads the clock again.
- `updated_at` and the other stored fields no modelled operation reads (url, memo, snooze time, token counts, artifacts, transcripts and session input).
- Transition hooks: `on_transition` is modelled as doing nothing, which is its default.
- The governed-review side effect of entering REVIEW, and with it the check that a review task's harness differs from its governor's.
- `Service.TaskService.constructor`: that the loaded workflows are valid is assumed; `Resolve` proves it of resolved ones, and the check of the agent surface is not part of this model.
- `Service.TaskService.Commit`: runs neither the transition hook nor the review-task side effect, the two items above.
- `Service.TaskService.CreateTask`: has no harness rules, workflow visibility or artifact seeding, as in `ServiceSpec.CreateStep`.
- `ServiceSpec.CreateStep`: harness and model defaults, artifact seeding and workflow visibility are not checked; the id is a parameter and must be new.
- `Service.TaskService.SetSlug`: the form of the slug is not checked, and the artifact alias is not modelled.
- `ServiceSpec.Step`: refuses a task whose workflow, state or repository is unknown, so that it is total; runs never store one. Workflow code that changes between runs is therefore not covered, and the set of repositories is fixed in a run.
- `ServiceSpec.PauseStep`: beginning and finishing repository setup appear as the one store transaction they end in, for any selection of tasks; the class has no method for it.
- `WorkflowResolution.Resolve`: states come from a table of classes; Python introspection, class inheritance and workflow discovery are not modelled, and a class without a label attribute counts as one with an empty label.
- The recursion limit of Python: the dependency search and the cascade terminate, but a long chain could exceed the interpreter's stack.
- `record_provisioning` and `record_migration`: their JSON serialisability check, which typed parameters make pointless.
- The flows of `migrate_task` and `accept_migration`, which move archives and repositories between hosts; only the service's guards are modelled.
- Cryptography: the MAC is any function with a 32-byte result. Nothing is said about secrecy or forgery.
- `Capability.DecodeCapability`: comparing in constant time is comparing; code points are Unicode scalar values, so a task id with a lone surrogate, which cannot be encoded, does not occur.
- The crash-loop budget across restarts of the runner: the guard lives in one runner process (src/panopticon/sessionservice/spawner.py:143-148), so the bounds of `CrashLoop.dfy` are per claim and process; a restart is an event that forgets them.
- `Redactor.RedactBody`: header handling and messages other than body chunks.
- `Governance.Decide`: the planning-time rule for a child's responsibilities (`decide_responsibility`) and the mapping from routes to actions.
- `ReviewComment.Parse`: the Unicode decimal digits are an open table, with ASCII fixed; numerals beyond the interpreter's limit on digits raise in the original.
- Dispatching reviewers, verifying their identity from CLI output, and posting comments; the order of gate, triage and resolution in `complete_review_stage`.
- `Fences.KeepUnfenced`: lines are those of `str.splitlines`, which breaks at more characters than the CommonMark specification does; containers such as block quotes and lists are not looked into, by the code or by the model.
- Prose rendering, skills, dashboard, console, quickstart, doctor, harness configuration files and token pricing: only easy members.
