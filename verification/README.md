# FSQ: a verification model

This project models the parts of FSQ that carry its guarantees, and proves those guarantees for all
inputs, all runs and all failures of the environment: the strict lifecycle executor, the run store and
its frozen conclusion, the strict rewriting of JSON schemas, transactional configuration writes, the
agent's turn loop, the stream assembler, reference checking, the command-line splitter, and the
canonical form of cases with the registry below it. `dafny verify dfyconfig.toml` checks all of it.

Code that works by changing things step by step is a class or a method with loops, each proved against
a specification; what the specification promises is proved as lemmas. Whatever the code cannot decide
(exit codes, answers of a model, failures of file operations, cancellation, other threads) is a
nondeterministic choice, so each property holds for every such choice.

| file | what it models |
|---|---|
| LifecyclePlan.dfy | the tree of cases that `runCase` hooks unfold to, and the steps planned for it |
| PlanBookkeeping.dfy, LifecycleFacts.dfy | what planning and execution keep, and how facts about parts add up |
| Lifecycle.dfy | the executor: planning, execution, skipping, completion, interruption, the whole run |
| LifecycleCollect.dfy | collecting the cases of a run beforehand |
| CommandVerdict.dfy | when the verdict on a case's commands can be wrong |
| Freeze.dfy | the decision that freezes a conclusion, and its validator |
| RunMetadata.dfy | writes of `run.json` by threads in every interleaving |
| RunDrivers.dfy | the drivers that freeze and finalize a run |
| SchemaValues.dfy, StrictSchema.dfy, StrictDocument.dfy | values and schemas, when Python takes them to be equal, and rewriting them to strict form |
| StrictGroups.dfy, ValueClashes.dfy | which schemas the rewriting puts together in one place, what they bring along, and which values it loses |
| StrictPrecedence.dfy | which of the schemas put together in a place decides each keyword, annotations included |
| StrictMeaning.dfy, StrictPlaces.dfy, StrictClash.dfy, ValueLoss.dfy, StrictFaithful.dfy | what schemas accept, and exactly when the strict form is faithful |
| ProviderCommit.dfy | saving providers and registering workspaces |
| WorkspaceRollback.dfy | creating workspaces and platforms with rollback |
| Conversation.dfy | the turn loop over a two-phase conversation |
| GoogleStream.dfy, StreamSteps.dfy | assembling an interaction from interleaved increments, and what the events of a step amount to |
| JsonPointer.dfy | references inside a schema |
| CommandLine.dfy | splitting Windows command lines |
| Registry.dfy, CaseNormalise.dfy, ParamsModels.dfy | capability lookup, canonical commands and hooks, canonical params |

## Where the code promises less than it seems

Where it depends on the input whether the code is right, there is a lemma with a concrete input and one
that says exactly when it is right. Where it depends on what fails around the code, the contract of the
member says what is then the case.

By input:

- The verdict on a nested case's commands compares results by execution id or step id. A step that was
  skipped in one run of a case and executed in a later one gets the id under which its skipping was
  recorded, and its failure is then overlooked. `CommandVerdict.WrongVerdictIff` gives the exact
  condition, `CommandVerdict.WrongVerdictHappens` a case with two completion hooks where it happens.
  `Lifecycle.Executor.ExecuteCase` states the verdict of every nested case exactly, and that it is that
  all steps passed unless the id of one of its own command steps was recorded before without an
  execution; the verdict of the whole run is that all steps passed (`Lifecycle.Executor.Run`).
- Freezing a strict run with an inconclusive verdict although every step passed decides for success,
  which the validator of the frozen document rejects (`Freeze.ValidIff`, `Freeze.InconclusiveClashes`).
  This is an input of `freeze` alone: no caller in the repository gives a strict run a verdict
  (`Freeze.CallersAreValid`).
- The strict form of a schema accepts more than the schema in two cases. Among the schemas that come
  together in one place, one has `additionalProperties: false` without `properties` and another has
  properties (`StrictFaithful.ClosedWithoutPropertiesFails`). Or two of them hold values that are equal
  for Python and different as JSON, such as `1` and `true`, of which the merge keeps one
  (`StrictFaithful.OneAndTrueFails`). For documents without variants these two are exactly the cases,
  anywhere in the document (`StrictFaithful.FaithfulIff`). Next to or below variants such a schema may
  be left with nothing more to accept, and is then faithful.
- A node of a strict schema is closed only if one of the schemas merged into it is closed or has the
  single type "object" (`StrictGroups.ClosedIff`, `StrictFaithful.UntypedStaysOpen`).
- Where the target of a reference has an allOf member, it depends on whether that definition has been
  rewritten before which of two annotations a node keeps (`StrictPrecedence.OrderDecides`);
  `StrictPrecedence.RootDecided` gives the exact precedence.
- A step that has canonical params named "timeout" and no timeout of its own is given one by
  normalisation (`CaseNormalise.StepsPreservedIff`, `CaseNormalise.DefaultTimeoutChangesMeaning`). No
  params model of the repository has a parameter of that name; it takes one that an extension defines.
- The terminal steps of a stream are not compared with anything when no step was started
  (`GoogleStream.StepsAgreeIff`, `GoogleStream.UnannouncedSteps`).

By failures around the code:

- A completion hook that raises ends the completion of its case: the actions that started are those up
  to and including it (`Lifecycle.Executor.ExecuteCase`, by `LifecycleFacts.BrokenOff`).
- A run that fails before its root case is entered records nothing at all (`Lifecycle.Executor.Run`).
- An interruption of the report of a deterministic run ends the driver between freezing and concluding
  (`RunDrivers.RunDirectory.ExecuteDeterministically`).
- A workspace configuration file whose permissions cannot be restricted survives the rollback
  (`WorkspaceRollback.Tree.AddWorkspacePlatform`).

## Model

| member | source | states |
|---|---|---|
| LifecyclePlan.AcceptedIffNoRepeat | fsq_agent/execution/lifecycle.py:146-171 | planning and collecting accept a root case if and only if no chain of runCase actions from it, configuration hooks counted at the root only, repeats a file or leaves the existing files |
| LifecyclePlan.LeftShrinks | fsq_agent/execution/lifecycle.py:150-155 | the termination measure of every traversal: the files not yet on the stack become strictly fewer with each case entered |
| LifecyclePlan.UnfoldWellPlaced | fsq_agent/execution/lifecycle.py:402-405 | in every tree of cases the hook actions of one group sit at pairwise different positions |
| LifecyclePlan.StepsExact | fsq_agent/execution/lifecycle.py:390-442 | a plan contains exactly the steps of the tree (body steps, shell steps, containers, and those of the child cases), each under an invocation path of its own |
| LifecyclePlan.PlannedScopes | fsq_agent/execution/lifecycle.py:405-442 | every planned step of a case lies under its body or under exactly the scope prefix of one of its four hook groups |
| LifecyclePlan.BranchPlanned | fsq_agent/execution/lifecycle.py:405-438 | a hook action's path is a prefix of the steps of that action only, so that skipping by prefix covers one subtree |
| Lifecycle.Executor.PlanCase | fsq_agent/execution/lifecycle.py:390-444 | planning succeeds if and only if the tree unfolds, plans exactly its steps in order, restores the invocation path, adds nothing outside its own prefix, and records what the execution will look up |
| Lifecycle.Executor.PlanGroup | fsq_agent/execution/lifecycle.py:402-438 | the actions of one hook group are planned in order, with their children, under the group's scope only |
| LifecycleCollect.Collector.Collect | fsq_agent/execution/lifecycle.py:136-174 | collecting succeeds if and only if the tree unfolds, and then lists its cases in preorder: each before the cases its hooks run, hooks in the order of their groups |
| LifecycleCollect.HookActionsUnfold | fsq_agent/execution/lifecycle.py:157-171 | the single loop over all of a case's hooks visits the same tree as planning, group by group |
| Lifecycle.Executor.CheckCancel | fsq_agent/execution/lifecycle.py:479-481 | cancellation is never polled, and never reported, while completion hooks run, nested cases included |
| Lifecycle.Executor.AllocateIdentity | fsq_agent/core/evidence/_recorder.py:35-53 | an executed step gets its own step id the first time and a new identity afterwards |
| Lifecycle.Executor.SkipScope | fsq_agent/execution/lifecycle.py:446-472 | afterwards every planned step under the prefix has a result or a start; each new result is of a step under the prefix that was not started, and has the given status |
| Lifecycle.Executor.RunSteps | fsq_agent/core/runner/_sequence.py:25-55 | each teardown step is attempted once and in order, and so is a first part of the normal steps; without interruption there is one result per step, in order: a normal step is executed if and only if all before it passed and skipped otherwise, a teardown step always is |
| Lifecycle.Executor.SplitTrailingTeardown | fsq_agent/execution/lifecycle.py:958-965 | the longest suffix of teardown steps is split off |
| Lifecycle.Executor.ExecuteCaseCommands | fsq_agent/execution/lifecycle.py:583-603 | the trailing teardown steps are attempted once each and in order however the others end, and these only up to some point; returning, it has run the body as the sequence runner does, and its verdict is that every result passed whose identity had not been recorded before |
| Lifecycle.Executor.BlockBody | fsq_agent/execution/lifecycle.py:338-343 | after failed start hooks no normal body step is attempted, each is recorded as skipped without having been started; the trailing teardown steps are all attempted, and each is executed unless one is interrupted; the skipped ones have a failed start action before them |
| Lifecycle.Executor.ExecuteShellHook | fsq_agent/execution/lifecycle.py:657-772 | a shell hook starts once and records exactly one result, executed: passed if its process ends with exit code 0, failed if it ends with another or does not start, cancelled if it is interrupted, which alone propagates |
| Lifecycle.Executor.ExecuteHooks | fsq_agent/execution/lifecycle.py:499-534 | the actions of a group start once each and in order; the group passes if and only if every action run does; a start group ends with its first failure, the rest skipped but recorded; completion actions all run unless one raises, which is then the last to have started, with all before it recorded in full; a group that fails has recorded an action as failed |
| Lifecycle.Executor.ExecuteRunCaseHook | fsq_agent/execution/lifecycle.py:547-563 | a container is started, its child accounted for in full, and its own result, recorded last, is passed or failed as the child's verdict says |
| Lifecycle.Executor.Completion | fsq_agent/execution/lifecycle.py:346-366 | completion actions start in order, the case's own before the configuration's, all of them unless one raises; then those up to and including it |
| Lifecycle.Executor.ExecuteCase | fsq_agent/execution/lifecycle.py:318-373 | for every case, however nested: all of its planned steps are recorded when it returns; its verdict is true if and only if every result recorded in it passed or is one of a body step whose identity had been recorded before, and then all passed unless one of its own command steps had its id recorded before it without an execution; interrupted, every planned step has a result or a start; once entered, its completion actions start in order, exactly once, up to one that raises; inside completion hooks it is always entered |
| Lifecycle.Executor.Run | fsq_agent/execution/lifecycle.py:224-286 | a run that returns has recorded exactly one result for each planned step and nothing else, and its verdict is true if and only if all passed; an interrupted one leaves every planned step with a result or a start; completion as for every case; every status fits: a run that returns records hooks and containers that started as passed or failed and everything that was never started as skipped, each with a failed start action of its case or a failed command of its body recorded before; only an interrupted one records anything as incomplete, or a hook as cancelled |
| LifecycleFacts.Compose | fsq_agent/execution/lifecycle.py:329-373 | accounting and the exact verdicts of two consecutive parts of an execution add up to those of the whole |
| LifecycleFacts.ContainerPiece | fsq_agent/execution/lifecycle.py:552-563 | accounting and verdict of a child case carry over to its container |
| LifecycleFacts.VerdictExact | fsq_agent/execution/lifecycle.py:595-603 | the identity-based verdict on a body is true if and only if every result of the body passed or does not count, and agrees with "all passed" unless the id of one of its steps was recorded before without an execution |
| LifecycleFacts.OverlookedIff | fsq_agent/execution/lifecycle.py:595-602 | an executed step's result is taken for an old one exactly when its step id was recorded before without having been handed out |
| CommandVerdict.WrongVerdictIff | fsq_agent/execution/lifecycle.py:583-603 | a failing body can be reported as passed if and only if some step is overlooked and so are all normal steps it makes the runner skip, which can be told before the body runs |
| CommandVerdict.WrongVerdictHappens | fsq_agent/execution/lifecycle.py:583-603 | a case whose two completion hooks run the same two-step case: its tree, its plan, and a recorder state after the first run, in which the second step was skipped, from which a second run fails in that step and is judged as passed |
| LifecycleFacts.ToldTwice | fsq_agent/execution/lifecycle.py:318-373 | the law of statuses carries over from consecutive parts to the whole, returned or interrupted |
| LifecycleFacts.SkippedTold | fsq_agent/execution/lifecycle.py:338-343 | what is skipped after a failed start action has that failure as its reason |
| Freeze.SameLeaf | fsq_agent/execution/runs.py:436-447 | two results are of one logical leaf if and only if the source id, or the step id where there is none, and the invocation, or that of the metadata, agree |
| Freeze.LeavesAreLastResults | fsq_agent/execution/runs.py:437-447 | the logical leaves are, one per key, the last results recorded for it, and every step but a runCase container belongs to one |
| Freeze.CountsPartition | fsq_agent/execution/runs.py:448-451 | the five counts partition the leaves |
| Freeze.AttemptsCoverLeaves | fsq_agent/execution/runs.py:438-447 | every leaf that passed, failed or was cancelled took an attempt |
| Freeze.FirstBlocked | fsq_agent/execution/runs.py:452 | the primary failure is the first leaf, in order of first recording, that failed or was skipped for a reason of its own |
| Freeze.CollectLeaves | fsq_agent/execution/runs.py:437-447 | the loop over the steps computes those leaves and the number of attempts |
| Freeze.CountLeaves | fsq_agent/execution/runs.py:448-451 | the loop over the leaves counts each bucket |
| Freeze.CheckEvidence | fsq_agent/execution/runs.py:453-470 | evidence has a gap if and only if a step reports errors, a required capture of an executed step is missing, an artifact is unusable or the bundle incomplete |
| Freeze.Decide | fsq_agent/execution/runs.py:473-489 | the interacting branches amount to five conclusions in order of precedence: cancelled, error, success, failed, inconclusive, each with its own condition |
| Freeze.FreezeBundle | fsq_agent/execution/runs.py:436-508 | the frozen document consists of that conclusion, those counts, that failure and that evidence status |
| Freeze.StrictSuccess | fsq_agent/execution/runs.py:473-489 | strict success if and only if there is a leaf, the last result of every leaf passed, evidence has no gap, and neither the verdict nor a fatal error objects |
| Freeze.ExploreSuccess | fsq_agent/execution/runs.py:473-489 | explore success if and only if the verdict is success, no leaf is cancelled or incomplete, evidence has no gap and nothing was fatal |
| Freeze.StrictOutcomes | fsq_agent/execution/runs.py:473-489 | over the recorded steps, for callers that state no status: when exactly a strict run is an error, failed, or inconclusive |
| Freeze.ExploreOutcomes | fsq_agent/execution/runs.py:473-489 | the same for explore runs, which follow their verdict |
| Freeze.StatedOutcomes | fsq_agent/execution/runs.py:473-489 | the outcome for every stated status other than success |
| Freeze.StatedSuccess | fsq_agent/execution/runs.py:473-489 | the outcome for a stated success, which is believed where steps and verdict bear it out and the evidence has no gap |
| Freeze.FailedStepAndEvidence | fsq_agent/execution/runs.py:448-472 | a failed step is named if and only if some leaf's last result is blocked and no explore run succeeded, and it is such a leaf; the evidence is partial if and only if it has a gap |
| Freeze.CancellationDominates | fsq_agent/execution/runs.py:473-489 | cancelled if and only if the caller, the verdict or some leaf's last result says so, whatever else is the case |
| Freeze.ValidIff | fsq_agent/models/_runs.py:186-213 | the frozen document passes its validator if and only if the verdict is a recognised one and does not clash with the rest |
| Freeze.CallersAreValid | fsq_agent/models/_runs.py:186-213 | it always passes for explore runs, and for strict runs without a verdict, with the statuses that callers state |
| Freeze.InconclusiveClashes | fsq_agent/models/_runs.py:193-195 | an input of freezing that the validator rejects |
| RunMetadata.PreparedIff | fsq_agent/execution/runs.py:61-127 | which writes pass their own check, and what exactly they write |
| RunMetadata.AcceptedIff | fsq_agent/execution/runs.py:61-127 | under every schedule a checked write is accepted if and only if the file is still what its thread had read |
| RunMetadata.EveryScheduleIsSafe | fsq_agent/execution/runs.py:61-127 | over every interleaving of checks and locked writes: one identity, status only forward, nothing after a conclusion, one revision per write |
| RunMetadata.NoLostUpdate | fsq_agent/execution/runs.py:97-118 | a write that succeeds replaces exactly what its thread had read |
| RunMetadata.OneWinner | fsq_agent/execution/runs.py:103-104 | of two writers that read the same metadata at most one succeeds |
| RunMetadata.ConclusionIsFinal | fsq_agent/execution/runs.py:99-100 | a concluded run.json never changes again |
| RunDrivers.HistoryFollows | fsq_agent/execution/runs.py:433-435 | in every history of the directory the frozen document is written at most once and never changes, and neither does a concluded run.json |
| RunDrivers.RunDirectory.WriteRunMetadata | fsq_agent/execution/runs.py:87-127 | every write keeps the history lawful, also when it raises after taking effect |
| RunDrivers.RunDirectory.CreateFrozen | fsq_agent/execution/runs.py:744-761 | the document is created only where there is none |
| RunDrivers.RunDirectory.FreezeRun | fsq_agent/execution/runs.py:411-510 | freezing writes the decided document if it is valid and none exists, and nothing otherwise |
| RunDrivers.RunDirectory.FinalizeRun | fsq_agent/execution/runs.py:512-544 | finalizing makes run.json state the frozen outcome and counts, or raises |
| RunDrivers.RunDirectory.EnsureRun | fsq_agent/execution/runs.py:161-177 | only an active run of the same identity is adopted; a new one is created only where nothing was frozen |
| RunDrivers.RunDirectory.DeriveArtifacts | fsq_agent/execution/dynamic.py:128-173 | between freezing and finalizing an exception of a stage is noted under that stage and does not stop the others; only an interruption, or an exception of the sink for recording errors, stops; what is noted for each stage follows from how it ended |
| RunDrivers.RunDirectory.ExecuteDynamically | fsq_agent/execution/dynamic.py:75-204 | in every reachable state a concluded run.json states the frozen conclusion, and where the driver concludes it also what became of derived processing; the outcome is the one decided from evidence, verdict and agent errors; exceptions of report, coordinator, recording and publication never make the driver throw, an interruption does, as a cancellation if and only if it is one, and the conclusion stays the frozen one; other threads may write at any step, a conclusion only if it is the frozen one |
| RunDrivers.RunDirectory.HandleFailure | fsq_agent/execution/dynamic.py:176-198 | an existing frozen document is kept; otherwise "cancelled" is frozen for a cancellation and "error" for anything else, with "cancelled" as the outcome also where some leaf's last result was cancelled; run.json is then concluded with it and with the processing noted so far, or raises |
| RunDrivers.RunDirectory.ExecuteDeterministically | fsq_agent/execution/deterministic.py:110-153 | the same for deterministic runs: steps that raise are concluded as cancelled if a cancellation did it or some leaf's last result was cancelled, and as an error otherwise; everything else by what was recorded; an exception of the report is noted, an interruption ends the driver |
| StrictSchema.ResultIsStrict | fsq_agent/agent_engine/_schema.py:103-169 | every result is in strict form: no allOf, no null default, references only on their own, object nodes closed, properties all required |
| StrictSchema.StrictFormIsFixed | fsq_agent/agent_engine/_schema.py:103-169 | a schema in strict form is left alone |
| StrictSchema.Idempotent | fsq_agent/agent_engine/_schema.py:103-169 | rewriting a result again changes nothing, also against the rewritten definitions |
| StrictSchema.EntriesRewritten | fsq_agent/agent_engine/_schema.py:133-136 | properties keep names and order and are rewritten one by one; one failure fails all |
| StrictSchema.EnsureStrictNode | fsq_agent/agent_engine/_schema.py:103-169 | the loops and updates of the source compute the rewriting whose form, meaning and keywords the lemmas below decide |
| StrictDocument.RootIdempotent | fsq_agent/agent_engine/_schema.py:117-169 | rewriting a rewritten document changes neither its root nor its definitions |
| StrictGroups.StrictGroup | fsq_agent/agent_engine/_schema.py:103-169 | in the node and in every place below it: the strict form has properties, is closed, or has variants if and only if one of the schemas merged there has them, or is closed or of type "object"; it has a keyword of any kind, annotations included and null defaults excepted, if and only if one of them has, and no value that none of them has |
| StrictGroups.ClosedIff | fsq_agent/agent_engine/_schema.py:127-131 | for every node: the result is closed if and only if it does not remain a reference and one of the schemas merged into it is of type "object" or closed by the author |
| StrictDocument.RootGroup | fsq_agent/agent_engine/_schema.py:117-169 | the same for whole documents, whose definitions are rewritten in place while others refer to them |
| StrictPrecedence.RootDecided | fsq_agent/agent_engine/_schema.py:117-175 | in every place of the rewritten root each keyword without sub-schemas, annotations included, has the value that the authored document decides: the first of the schemas merged there that has it, the allOf member before the node and the node before the target of its reference |
| StrictPrecedence.DefinitionDecided | fsq_agent/agent_engine/_schema.py:117-125 | the same for every place of every rewritten definition |
| StrictPrecedence.PlaceDecided | fsq_agent/agent_engine/_schema.py:103-175 | the same for any schema, at any stage of rewriting the definitions |
| StrictPrecedence.NodeDecided | fsq_agent/agent_engine/_schema.py:133-167 | a node has the property names of the first of these schemas that has properties, in their order, as many variants, the same requirement where it has no properties, and remains the reference that they leave |
| StrictPrecedence.UsualPrecedence | fsq_agent/agent_engine/_schema.py:146-175 | what that means for a node on its own, with a member, and with a reference |
| StrictPrecedence.OrderDecides | fsq_agent/agent_engine/_schema.py:117-167 | an instance: a node keeps its own title or gets that of the member of its reference's target, by whether the target has been rewritten before |
| ValueClashes.Differ | fsq_agent/agent_engine/_schema.py:172-175 | schemas that Python takes to be equal and instances can tell apart hold, in some place, values that are equal for Python and different as JSON |
| ValueClashes.UnblurredAgree | fsq_agent/agent_engine/_schema.py:172-175 | where no such values come together, whatever both sides of a merge have is equal as JSON, through properties, items, variants and members |
| StrictMeaning.AlikeAccepts | fsq_agent/agent_engine/_schema.py:172-175 | schemas that are equal as JSON, in any order of their properties, accept the same instances |
| StrictMeaning.MergeAccepts | fsq_agent/agent_engine/_schema.py:172-175 | a merge whose sides agree as JSON accepts nothing that either side rejects, in a reading in which closedness without properties gives way where the other side has properties |
| StrictMeaning.RefRefines | fsq_agent/agent_engine/_schema.py:158-167 | an inlined reference accepts nothing that its target or the node rejects in that reading, self-references included |
| StrictMeaning.Refines | fsq_agent/agent_engine/_schema.py:103-169 | against fixed definitions, which may be recursive, the strict form accepts nothing that the schema rejects in that reading, if no values come together that are equal for Python only |
| StrictMeaning.StrictAcceptsNoMore | fsq_agent/agent_engine/_schema.py:50-57 | whole documents, definitions rewritten in place: whatever the strict schema accepts the authored one accepts, whatever the scalar keywords mean, if in no place a schema that is closed without properties comes together with one that has some, or values that are equal for Python only |
| StrictPlaces.PlaceNode | fsq_agent/agent_engine/_schema.py:103-169 | every place of a strict schema that is not below variants leads to a strict schema: whatever that accepts is part of an instance that the whole accepts |
| StrictPlaces.PlaceRejects | fsq_agent/agent_engine/_schema.py:50-57 | an authored schema, merged from whatever schemas, rejects an instance if one of those in a place rejects what the instance has there |
| StrictClash.ClashWitness | fsq_agent/agent_engine/_schema.py:146-167 | where schemas clash by closedness and properties, in any place that is not below variants, an instance that only the strict form accepts |
| StrictClash.ClashFails | fsq_agent/agent_engine/_schema.py:146-167 | where the schemas merged into the root clash in that way, no object is accepted both by its strict form and by the authored schema, and without variants some object is accepted by the strict form |
| ValueLoss.OneValue | fsq_agent/agent_engine/_schema.py:172-175 | a strict schema holds at most one value for a keyword in a place |
| ValueLoss.BlurFails | fsq_agent/agent_engine/_schema.py:172-175 | where values come together that are equal for Python only, in any place that is not below variants, some instance is accepted by the strict form only |
| StrictFaithful.FaithfulIff | fsq_agent/agent_engine/_schema.py:50-175 | every document: its strict form is faithful if in no place schemas clash or values come together that are equal for Python only, without variants only if; with variants it is not where that happens in a place that is not below any; clashes at the root alone decide by whether it accepts an object |
| StrictFaithful.ClosedWithoutPropertiesFails | fsq_agent/agent_engine/_schema.py:146-151 | an authored schema and an instance that only its strict form accepts |
| StrictFaithful.OneAndTrueFails | fsq_agent/agent_engine/_schema.py:172-175 | `{"const": 1, "allOf": [{"const": true}]}` accepts nothing, its strict form accepts true |
| StrictFaithful.UntypedStaysOpen | fsq_agent/agent_engine/_schema.py:127-136 | properties without a type: the strict form still accepts other fields |
| StrictFaithful.ClosedNodesAreExact | fsq_agent/agent_engine/_schema.py:127-136 | a closed strict node with properties accepts only objects with exactly those fields |
| ProviderCommit.Directory.CommitReplacement | fsq_agent/config/_user_provider.py:678-697 | success gives exactly the payloads with the removals gone; a completed rollback gives exactly the initial files; in every case each affected file is wholly old, wholly new or absent, and no other file changes; no temporary file is left unless removing one failed; it succeeds if no file operation fails, and a rollback fails only after a second failure |
| ProviderCommit.Directory.RestoreSnapshots | fsq_agent/config/_user_provider.py:700-710 | every snapshot is restored, or failed to be and is reported, which happens only if a file operation fails |
| ProviderCommit.Directory.AtomicWrite | fsq_agent/config/_user_provider.py:713-733 | a file is replaced as a whole or not at all, also when the write raises, and leaves no temporary file unless removing it failed |
| ProviderCommit.RemovalsAreTheOthers | fsq_agent/config/_user_provider.py:263-455 | each provider's save removes exactly the other providers' credential files |
| ProviderCommit.Directory.SaveProvider | fsq_agent/config/_user_provider.py:244-457 | a successful save makes its provider active, with its credentials and no others whatever files were there before, and keeps the workspaces; a rejected or rolled-back one changes nothing of that; it succeeds unless a file operation fails or the document is rejected |
| ProviderCommit.Directory.RegisterWorkspace | fsq_agent/config/_user_provider.py:212-232 | a registration appends the workspace or changes nothing; it appends it unless a file operation fails or it is rejected |
| ProviderCommit.Directory.LoadUserDocument | fsq_agent/config/_user_provider.py:549-601 | a document that is returned is of version 3; one that is missing is created empty, one of version 2 becomes version 3 and is otherwise kept, any other and all other files are left alone |
| ProviderCommit.Directory.Session | fsq_agent/config/_user_provider.py:212-457 | over any sequence of saves and registrations without a failed rollback: the credential files present are exactly those of the provider saved last, and the workspaces are the initial ones with the registered ones appended |
| WorkspaceRollback.Tree.RollBack | fsq_agent/config/_workspace.py:502-510 | nothing that existed before is ever removed; if all that is new was remembered and no possible removal fails, exactly the initial tree is left; if something was not remembered, it is not |
| WorkspaceRollback.Tree.EnsureManagedDirectory | fsq_agent/config/_workspace.py:489-499 | only missing directories on the way are created, each remembered after its parent |
| WorkspaceRollback.Tree.AddWorkspacePlatform | fsq_agent/config/_workspace.py:343-396 | success adds the platform's files and their directories only; failure restores the initial tree, unless the configuration file's permissions could not be restricted (then it never does) or a failed write could not be cleaned up after |
| WorkspaceRollback.Tree.CreateWorkspace | fsq_agent/config/_workspace.py:306-340 | the same for a new workspace with any number of platforms |
| Conversation.AddIsTotal | fsq_agent/agent_engine/_backend.py:55-67 | adding usage turn by turn gives the sum over the measured turns; an optional count is known if and only if every measured turn reports it |
| Conversation.OneMoreTurn | fsq_agent/agent_engine/_openai_backend.py:263-282 | a history of answered turns stays one when a turn's items and one output per call, in call order, are appended |
| Conversation.OpenAIConversation.ToolOutputs | fsq_agent/agent_engine/_openai_backend.py:248-254 | lists exactly the tool outputs of the history, in order, each with the name of the last call of its id |
| Conversation.FilteredInput | fsq_agent/agent_engine/_openai_backend.py:256-257 | what is sent is the history with nothing but the texts of chosen tool outputs replaced |
| Conversation.LastText | fsq_agent/agent_engine/_openai_backend.py:259-279 | the text of an answer is that of its last message, and empty without one |
| Conversation.OpenAIConversation.Request | fsq_agent/agent_engine/_openai_backend.py:259-279 | one request of the history as it is; finalization requests offer no tools; the answer is appended and marked by the phase; only an answer of the execution phase with text and without calls leads to finalization |
| Conversation.ToolScope.ToolResults | fsq_agent/agent_engine/_runner.py:117-126 | the outputs come in the order of the tasks, whatever the order of completion |
| Conversation.ToolScope.Join | fsq_agent/agent_engine/_runner.py:41-72 | when the scope ends every task that was running has ended, however often joining is cancelled; left by an exception, all of them were cancelled; left normally and not interrupted, none |
| Conversation.Runner.InvokeTools | fsq_agent/agent_engine/_runner.py:162-170 | every call is invoked, in order, the i-th output is what the tool task started for the i-th call returned, and with the outputs no task is left running |
| Conversation.Runner.Turns | fsq_agent/agent_engine/_runner.py:141-183 | at most the allowed number of requests; each of them is made while no tool task runs, with a well-formed history that extends all earlier ones and whose calls have all been invoked, once each and in order; no tool is invoked after a finalization request; usage is the sum over the turns; a result is the text of the answer to the last request, an answer without calls, which in a two-phase conversation is a finalization |
| Conversation.Runner.RunAgent | fsq_agent/agent_engine/_runner.py:129-183 | the same for the whole run, with no tool task outliving it |
| GoogleStream.SameReflexive | fsq_agent/agent_engine/_google_gemini_conversion.py:166-175 | the comparison of terminal steps is reflexive |
| GoogleStream.SameSymmetric | fsq_agent/agent_engine/_google_gemini_conversion.py:166-175 | and symmetric |
| GoogleStream.SameTransitive | fsq_agent/agent_engine/_google_gemini_conversion.py:166-175 | and transitive |
| GoogleStream.Demultiplexed | fsq_agent/agent_engine/_google_gemini_conversion.py:185-239 | a stream is accepted if and only if each event is, nothing follows the terminal event and each index's own events are accepted on their own; the state of an index depends on its own events alone |
| StreamSteps.FoldIsAssembled | fsq_agent/agent_engine/_google_gemini_conversion.py:206-239 | the events of a step are accepted if and only if they are a start, increments of known kinds that fit, and at most one stop; they then amount to the fields of the start with the last text grown by all text increments, the summary by all summary increments, the last signature, and all argument increments one after the other |
| StreamSteps.StreamAssembled | fsq_agent/agent_engine/_google_gemini_conversion.py:185-239 | an accepted stream holds for each index exactly the step that its own events describe |
| StreamSteps.StepDocument | fsq_agent/agent_engine/_google_gemini_conversion.py:206-258 | the content, summary, signature and all other fields of a step in the finished document |
| StreamSteps.StepArguments | fsq_agent/agent_engine/_google_gemini_conversion.py:241-248 | its arguments are the concatenated increments, decoded where they are a JSON object |
| StreamSteps.TwoPieces | fsq_agent/agent_engine/_google_gemini_conversion.py:219-223 | an instance: arguments streamed in two pieces |
| GoogleStream.StandsIff | fsq_agent/agent_engine/_google_gemini_conversion.py:85-95 | which responses are taken for failures |
| GoogleStream.InterleavingIndependent | fsq_agent/agent_engine/_google_gemini_conversion.py:185-239 | rearrangements that keep each index's order, the other events' order and the terminal event last give the same acceptance and the same state |
| GoogleStream.FinishedStream | fsq_agent/agent_engine/_google_gemini_conversion.py:241-258 | a finished stream has indices 0 to n-1, each started once and stopped once, no others; its steps are the assembled ones, filled in or the same as given; the rest of the terminal document is unchanged |
| GoogleStream.StepsAgreeIff | fsq_agent/agent_engine/_google_gemini_conversion.py:249-258 | the steps of the returned document are the assembled ones if and only if some step was started or the terminal event gives none |
| GoogleStream.UnannouncedSteps | fsq_agent/agent_engine/_google_gemini_conversion.py:249-258 | a stream of a terminal event alone is finished with a step that no increment announced |
| GoogleStream.Assembler.AddEvent | fsq_agent/agent_engine/_google_gemini_conversion.py:185-239 | the fields updated in place represent the specified state |
| GoogleStream.Assembler.FinishStream | fsq_agent/agent_engine/_google_gemini_conversion.py:241-258 | finishing returns the specified document or raises |
| JsonPointer.EscapeThenUnescape | fsq_agent/agent_engine/_google_gemini_schema.py:127-128 | every key has a token that passes the check and decodes to it, the two replacements being in the right order |
| JsonPointer.UnescapeThenEscape | fsq_agent/agent_engine/_google_gemini_schema.py:127-128 | a key has no other token |
| JsonPointer.SplitInvertsJoin | fsq_agent/agent_engine/_google_gemini_schema.py:126 | splitting gives back the tokens that were joined |
| JsonPointer.ParseThenShow | fsq_agent/agent_engine/_google_gemini_schema.py:129-131 | an accepted array index is the decimal text of the number it is read as |
| JsonPointer.AcceptedIff | fsq_agent/agent_engine/_google_gemini_schema.py:122-135 | a reference is accepted if and only if it is the pointer, by section 4 of RFC 6901, of one of the given nodes |
| JsonPointer.PointersDiffer | fsq_agent/agent_engine/_google_gemini_schema.py:122-135 | different nodes have different pointers |
| JsonPointer.ReferencesToVisited | fsq_agent/agent_engine/_google_gemini_schema.py:66-73 | each schema that the conversion visits can be referred to by its pointer, and nothing else can be referred to |
| JsonPointer.ValidateReference | fsq_agent/agent_engine/_google_gemini_schema.py:122-135 | the loop over the tokens decides exactly that |
| JsonPointer.Converter.Convert | fsq_agent/agent_engine/_google_gemini_schema.py:41-64 | the conversion succeeds if and only if everything that it goes on to passes its checks, and then collects exactly the schema positions below its argument |
| JsonPointer.ConvertsIff | fsq_agent/agent_engine/_google_gemini_schema.py:41-64 | the checks of a conversion amount to one condition on each visited schema |
| JsonPointer.Converter.CheckSchema | fsq_agent/agent_engine/_google_gemini_schema.py:38-73 | a schema is converted if and only if each of its schemas is sound; a converted one passes if and only if every reference in it is the pointer of one of its schemas |
| CommandLine.SplitWindowsCommandLine | fsq_agent/config/_loader.py:230-275 | the index-driven scanner computes the recursive specification of splitting |
| CommandLine.RaisesIffUnbalanced | fsq_agent/config/_loader.py:270-271 | it raises if and only if the number of quotes that are not escaped is odd |
| CommandLine.SplitInvertsJoin | fsq_agent/config/_loader.py:230-275 | splitting a printed form of any list of arguments gives back the list, whichever parts of an argument stand inside quotation marks: empty arguments, quotation marks inside and outside of quoted parts, any runs of backslashes and white space included |
| CommandLine.JoinIsInjective | fsq_agent/config/_loader.py:230-275 | different lists of arguments have different printed forms |
| CommandLine.SplitRun | fsq_agent/config/_loader.py:246-260 | a run of backslashes stands for half of itself before a quote and for itself elsewhere |
| Registry.EveryRegistryIsConsistent | fsq_agent/core/_capabilities.py:19-44 | after any sequence of registrations, failed ones included, the dictionaries say exactly who answers to what |
| Registry.LookupsAgree | fsq_agent/models/_tools.py:76-80 | hashed lookup and linear scan agree on every text |
| Registry.NeverAmbiguous | fsq_agent/case_dsl/_validation.py:47-54 | no snapshot of a registry is ambiguous |
| Registry.CheckAmbiguity | fsq_agent/case_dsl/_validation.py:47-54 | the validator's check fires if and only if some text is a name or alias of two capabilities |
| Registry.CapabilityRegistry.RegisterCapability | fsq_agent/core/_capabilities.py:19-44 | registration updates both dictionaries together or raises and changes nothing |
| CaseNormalise.ReadBack | fsq_agent/case_dsl/_validation.py:62-93 | a written reading is read back with the same capability and params, and with the same timeout exactly when the params do not stand in for a missing one |
| CaseNormalise.SecretText | fsq_agent/case_dsl/_validation.py:76-78 | a text given as a runtime secret is read like that text with its type stated |
| CaseNormalise.OtherParams | fsq_agent/case_dsl/_validation.py:71-80 | a command with other params is read if and only if it is known by an alias, its timeout is missing or a positive integer, and its other params are valid as they are given |
| CaseNormalise.StepsPreservedIff | fsq_agent/case_dsl/_step_adapter.py:18-49 | normalisation preserves action, params and timeout of all executable steps if and only if no command without a timeout has canonical params named "timeout" |
| CaseNormalise.NormalizeIdempotentIff | fsq_agent/case_dsl/_serializer.py:28-36 | normalising twice is normalising once, if and only if such params are a valid timeout |
| CaseNormalise.DefaultTimeoutChangesMeaning | fsq_agent/case_dsl/_serializer.py:31-35 | an instance whose steps change, with a params model that has a default for a parameter "timeout" |
| ParamsModels.CanonicalIdempotent | fsq_agent/case_dsl/_validation.py:15-37 | canonical values are their own canonical values |
| ParamsModels.RegularReparses | fsq_agent/case_dsl/_validation.py:79-93 | a params model with different names, whose parameters each accept their canonical value as what it came from, accepts its canonical params again with the same result |
| ParamsModels.RegularModelsRoundTrip | fsq_agent/case_dsl/_validation.py:79-93 | the round trip that normalisation rests on follows for such models |
| ParamsModels.RegularModelsNormalize | fsq_agent/case_dsl/_serializer.py:28-36 | with such models, none with a parameter "timeout", normalisation preserves the steps of every case and is idempotent |
| CaseNormalise.NormalizeCase | fsq_agent/case_dsl/_serializer.py:28-36 | the loop computes the normal form, or rejects the case |
| CaseNormalise.WriteHooks | fsq_agent/case_dsl/_serializer.py:41-52 | the entries written for hooks are mappings without repeated keys; read back they give the same actions in the same order, and written again the same entries |

## Left out

- CommandVerdict.WrongVerdictIff: is an equivalence for one body; for a whole nested case `Lifecycle.Executor.ExecuteCase` states when it cannot be misjudged, not which of the remaining cases can.
- Lifecycle.Executor.Run: does not model failures of the recorder to persist a fact, nor the run store around the executor, which RunDrivers.dfy models for the other two drivers.
- Lifecycle.Executor.PlanCase: a hook's target is a resolved path; the two candidate directories for a relative one (`_resolve_child_case`) are taken as fixed for the run, and texts of step ids as structured values that do not collide.
- LifecycleCollect.Collector.Collect: does not model `validate_case_path`, which only rejects.
- StrictMeaning.StrictAcceptsNoMore: only references to entries of the root's `$defs` and `definitions` are resolved; nodes are values, so sharing of sub-schemas between a definition and a node that inlined it is not modelled.
- StrictSchema.EnsureStrictNode: definitions inside sub-schemas and references to anything but an entry of the root's definitions, such as "#".
- Freeze.FreezeBundle: redaction, summaries, durations and time stamps.
- RunDrivers.RunDirectory.ExecuteDynamically: other processes that write the run directory, threads that write another conclusion than the frozen one, the heartbeat and the lineage log.
- ProviderCommit.Directory.CommitReplacement: interruptions that are not failures of file operations, such as a keyboard interrupt, skip the rollback.
- WorkspaceRollback.Tree.CreateWorkspace: symbolic links are not followed, and a registration that raises after it was written is not told from one that was not.
- Conversation.Runner.Turns: parsing of the final text, streaming events and tracing, beyond that they may raise.
- GoogleStream.Assembler.AddEvent: numbers are exact, so that rounding and NaN play no part; a text field that holds a list and is extended with an object, whose keys it takes over in their order, is rejected; which category an error has.
- JsonPointer.Converter.Convert: the converted schema itself (const to enum, defaults dropped) and the checks of values, which are a parameter; documents are trees, so that a node is known by its position.
- CaseNormalise.StepsPreservedIff: metadata of steps (authored name, raw command) differs and is not compared.
- ParamsModels.RegularModelsRoundTrip: validation of single parameters is a function each; models that allow other parameters, which the repository has none of for commands, are not covered.
- `allocate_run`: choosing an unused run id.
- Drivers, harnesses, model providers' wire formats, redaction, YAML and JSON syntax, process locks, liveness of owners, reports, the control plane and the user interfaces.
