# my_coding_agent: a verified model

This project models the stateful algorithms of the `my_coding_agent` runtime in
Dafny 4.11 and proves what they promise over every input and every run.
`dafny verify dfyconfig.toml` checks all of it.

| Files | What they model |
|---|---|
| `TraceCodec`, `TraceRecorder`, `TraceSession` | The trace log of LLM calls: full snapshots or suffixes against the last snapshot of a kind, decided by object identity over live, shared, spliced message lists; the reader that rebuilds the conversations |
| `Supersession`, `SupersessionPass`, `SupersessionRuns` | The context guard: the three rules that retire tool results, one pass that rewrites the conversation, and whole runs of dispatches and passes |
| `WorkflowGraph`, `EndlessRuns`, `GraphTermination`, `PassBoundaries`, `PipelineEngine`, `LoopRounds`, `StepBudget`, `StageConfig` | The workflow graph as a state machine over node effects, the imperative engine that refines it, round counters and the transition log across resumes, where runs are checkpointed and jumps land, which graphs finish, the step budget, prompt stages with their private threads, and config parsing |
| `ToolDispatch`, `DispatchRefinement`, `DispatchReport`, `ToolExecutor` | Grouping of tool calls, overlapped dispatch as an interleaving of atomic worker actions, its refinement to one-by-one dispatch, and what a dispatched message leaves behind |
| `Checkpoints`, `Lifecycle` | The checkpoint store, the clean-up rules of an agent run, and the crash, resume, reset and delegation protocol over all sessions |
| `Outage`, `Sampler` | Recovery from a model-server outage against an arbitrary server and clock; the resource sampler's evicting ring |
| `Kappa`, `RoleSplit`, `Streaks`, `UsageTree` | Cohen's kappa, attribution of tokens to roles, replay of failure streaks, usage over a delegation tree and its sum check |

Code that updates state is modelled by classes and loops proved against
specification functions or relations; the theorems are lemmas about those.
The environment is arbitrary: node behaviour, model replies, worker schedules,
clocks, kills and lost rows are inputs or nondeterministic choices that every
theorem quantifies over. Text matching (read-only commands, build and clone
commands, hook and policy gates) and the wording put around tool output are
parameters.

## Where the code and its own documentation disagree

The model follows the code; each point has a lemma. Paths in this section and
the next are under `src/my_coding_agent/`.

- `observability/recorder.py:160-162` says that an in-place edit of a logged
  message makes the identity check fall back to a full snapshot. The check still
  succeeds and a wrong suffix is written (`TraceCodec.EditedInPlaceReadsBackWrong`;
  the exact condition is `TraceCodec.RoundTripIff`).
- `pipeline/graph.py:7-8` says every loop the graph can express terminates. The
  wrap-around from the last node to the first needs steps to be counted, and an
  unbounded forward jump can skip the node that counts
  (`EndlessRuns.SkippingNeverHalts`; which graphs finish is
  `GraphTermination.FinishesIff`).
- `pipeline/nodes/agent.py:331-333` has a clean finish of a resumed run clear the
  source's checkpoint so that a finished task stops being offered for
  resumption. Only the direct source is cleared: when that was itself a resumed
  run, its own source stays (`Lifecycle.SourceOfSourceStays`, exactly: `Lifecycle.CleanFinishClearsIff`).
  The repository's `README.md:93` admits this for chains with a hop that stopped
  at its budget; killed hops are enough.
- `pipeline/nodes/agent.py:321-326` says the continuation owns the resumable
  checkpoint after a reset. A continuation that ends before its first completed
  step owns none (`Lifecycle.FailedContinuationLosesProgress`, exactly:
  `Lifecycle.ResetKeepsIff`).
- `engine/checkpoint.py:123-124` says that `--resume-last` targets the run that
  most recently made progress. After a kill it can target a delegated run, which
  may have reported back already, in place of the run that asked for it
  (`Lifecycle.DelegationHidesKilledRun`, exactly: `Lifecycle.KilledRunIsNewestIff`).
- `engine/checkpoint.py:85-87` says that a session ended by `max_steps` leaves no
  checkpoint. It keeps one, as `pipeline/nodes/agent.py:334-336` says; the same
  lemma shows one.
- `engine/tool_execution/__init__.py:347-388` processes results in call order so
  that overlapping is not observable. The reduction gate reads latches that an
  earlier call of the same group may set
  (`DispatchRefinement.LatchBreaksRefinement`, exactly:
  `DispatchRefinement.PlanRefinesIff`).
- `evals/run_config_file.py:318-320` says that a decision stage must be the source
  of exactly one transition. Several are accepted, and the last one decides
  (`StageConfig.AcceptedIff`, `StageConfig.StagesAreDeclared`).
- `viewer/sumcheck.py:130-135` says the whole delegated subtree is verified. The
  summary a parent keeps of a child is not compared with the child's own file
  (`UsageTree.StaleCopyPasses`, exactly: `UsageTree.CopyIsNotChecked`).

## Hypotheses

Stated where they are used: call numbers are unique (proved for one session by
`TraceRecorder.Llm.ChatCompletion`); tool-call ids are fresh in supersession
runs, and records and tool messages are appended together; safe calls do not
write, and calls of one group do not read artifacts the group writes; a tool's
result depends only on the call, the files and the artifact store (`Kit.step`),
so a page fetched twice, or in another order, gives the same text; session ids
are fresh; one process at a time works in the sessions directory, and no two
checkpoints have the same time; a continuation that ends on its own and not cleanly has completed
a step (`Lifecycle.ProgressIsResumable` only). `StepBudget` describes what the
five default nodes may do to the step counter and the signal by
`StepBudget.DefaultNode`, after `pipeline/nodes/context_guard.py:268-319`,
`pipeline/nodes/llm_call.py:18-39` and `pipeline/nodes/finalize_step.py:39-78`.

## Model

| member | source | states |
|---|---|---|
| TraceCodec.ResolveMessageDeltas | src/my_coding_agent/viewer/reader.py:1674-1707 | The in-place rewrite of the event array equals the decoder as a function of the rows as they were, so what is proved of the decoder holds of the loop |
| TraceCodec.ReadsFromEarlierRow | src/my_coding_agent/viewer/reader.py:1674-1707 | In any file of rows, a row with a delta gets the first messages of the latest earlier row that gives any for its base call, then its suffix; none if there is no such row; other rows stay as they are |
| TraceCodec.EncodeAt | src/my_coding_agent/observability/recorder.py:299-338 | Each row is decided by the latest snapshot per kind at that point of the log and by nothing else |
| TraceCodec.RowByIdentity | src/my_coding_agent/observability/recorder.py:299-338 | On kind and object identity alone: a call of a kind without payload logs no messages, the first payload call of a kind all of them, a later one exactly those after the objects of the latest call of its kind if these are still its first objects, and all of them otherwise |
| TraceCodec.LastIsLatest | src/my_coding_agent/observability/recorder.py:319-337 | The snapshot kept for a kind is always the latest payload call of that kind, however kinds interleave |
| TraceCodec.ChainStep | src/my_coding_agent/viewer/reader.py:1690-1698 | A suffix row is recoverable exactly when it survived and the latest call of its kind before it is recoverable |
| TraceCodec.RowExact | src/my_coding_agent/viewer/reader.py:1683-1707 | One surviving row decodes to its exact original messages if its whole chain of bases survived, and to nothing otherwise |
| TraceCodec.LossSoundness | src/my_coding_agent/viewer/reader.py:1683-1707 | Delete any set of rows: every surviving row decodes to exactly its original messages or to None, never to a wrong list, and which of the two is exactly whether its chain survived |
| TraceCodec.RoundTripIff | src/my_coding_agent/observability/recorder.py:299-338 | For every log of calls of interleaved kinds with unique call numbers: all payload calls read back exactly if and only if each reused prefix still serialises as it did at its base call |
| TraceCodec.AppendOrReplaceIsFaithful | src/my_coding_agent/observability/recorder.py:153-162 | The append-or-replace discipline implies that condition |
| TraceCodec.EditedInPlaceReadsBackWrong | src/my_coding_agent/observability/recorder.py:160-162 | A message of any payload call edited in place in any way keeps its identity, is logged as a suffix and reads back wrong; the comment promises a full snapshot instead |
| TraceCodec.AppendOnlyWritesEachMessageOnce | src/my_coding_agent/observability/recorder.py:319-338 | If each call of a kind begins with the objects of the latest one before it, the messages written for that kind total exactly those of its latest call |
| TraceRecorder.Conversation.Splice | src/my_coding_agent/pipeline/nodes/context_guard.py:332-338 | A splice puts a new object in one place and leaves every other element and the old object alone |
| TraceRecorder.Recorder.EncodeMessages | src/my_coding_agent/observability/recorder.py:299-338 | Over live heap objects: a suffix against the last snapshot of the kind exactly when all its objects are still the first ones of the list, else the full list; the snapshot is a copy of the list as it was |
| TraceRecorder.Recorder.RecordLlmCall | src/my_coding_agent/observability/recorder.py:227-297 | Recording appends the row of exactly this call and keeps the log free of in-place edits |
| TraceRecorder.Recorder.UneditedIsAppendOrReplace | src/my_coding_agent/observability/recorder.py:153-162 | If no logged object was edited since it was logged, the whole log has the append-or-replace property |
| TraceRecorder.Llm.ChatCompletion | src/my_coding_agent/engine/llm/__init__.py:376-470 | Call numbers are positions in the list of answered calls, so they never repeat; a failed call leaves no trace |
| TraceSession.Edit | src/my_coding_agent/pipeline/nodes/context_guard.py:332-338 | Appends, splices, resets and list copies on shared heap lists do to each thread what the session on values says and leave every other thread alone |
| TraceSession.Session | src/my_coding_agent/observability/recorder.py:299-338 | Every sequence of appends, splices, resets, list copies and calls of any kinds over any number of live lists: the rows, read back, are the answered calls in order, each with exactly the messages the session on values says it was given |
| Supersession.FindIdenticalCalls | src/my_coding_agent/pipeline/nodes/context_guard.py:87-107 | Retires exactly the older calls of a signature whose newest call succeeded |
| Supersession.FindIncompleteExtracts | src/my_coding_agent/pipeline/nodes/context_guard.py:110-133 | Retires exactly the marked-incomplete extracts whose artifact a later success read, naming the first such read |
| Supersession.FindContainments | src/my_coding_agent/pipeline/nodes/context_guard.py:136-156 | Retires exactly the successes whose text a later success contains, naming the first such success |
| Supersession.FindRetirements | src/my_coding_agent/pipeline/nodes/context_guard.py:159-210 | One pass: every retirement is explained by a case, everything a case covers is retired unless it is a stub or below the floor, the first applicable case wins, and the list is in message order |
| SupersessionPass.StubIsRecoverable | src/my_coding_agent/pipeline/nodes/context_guard.py:213-230 | Every stub holds the name and id of the retired result, the rule, the id of the call that replaced it, and the call that gets it back |
| SupersessionPass.StubLength | src/my_coding_agent/pipeline/nodes/context_guard.py:213-230 | The exact length of a stub from the names in it |
| SupersessionPass.ShortNamesMeanShortStubs | src/my_coding_agent/pipeline/nodes/context_guard.py:213-230 | So stubs are below the floor whenever the names in them leave room, which a caller can check |
| SupersessionPass.GuardContext.RetireSupersededResults | src/my_coding_agent/pipeline/nodes/context_guard.py:321-346 | The pass rewrites exactly the retired positions, keeps role and id, emits one event each in order, and does nothing under the kill switch |
| SupersessionPass.PassJustifies | src/my_coding_agent/pipeline/nodes/context_guard.py:159-210 | Each retirement names a successful, strictly later record: the newest call of the same signature, the first later read of the same artifact as a marked-incomplete extract, or a result whose text contains the retired text; and the retired text is no stub and not below the floor |
| SupersessionPass.RepeatedIsRetired | src/my_coding_agent/pipeline/nodes/context_guard.py:87-107 | Completeness on the records: an older call of a signature whose newest call succeeded is retired, and always as an identical call |
| SupersessionPass.ReReadIsRetired | src/my_coding_agent/pipeline/nodes/context_guard.py:110-133 | Completeness: a marked-incomplete extract is retired once a later success has read the same artifact, and not as a containment |
| SupersessionPass.ContainedIsRetired | src/my_coding_agent/pipeline/nodes/context_guard.py:136-156 | Completeness: a success whose text a later success contains is retired |
| SupersessionPass.SecondPassIff | src/my_coding_agent/pipeline/nodes/context_guard.py:159-230 | A second pass with the same records retires nothing if and only if no stub of the first pass contains the text of an earlier result that is still live and retirable |
| SupersessionPass.ShortStubsMeanIdempotent | src/my_coding_agent/pipeline/nodes/context_guard.py:159-230 | With every stub below the size floor a second pass retires nothing |
| SupersessionPass.PassShrinks | src/my_coding_agent/pipeline/nodes/context_guard.py:332-338 | Total content shrinks by exactly the retired text minus the stubs, and strictly when stubs are short |
| SupersessionPass.OnlyToolMessagesRetired | src/my_coding_agent/pipeline/nodes/context_guard.py:58-66 | Non-tool messages are never changed |
| SupersessionRuns.RunKeepsInv | src/my_coding_agent/pipeline/nodes/context_guard.py:321-346 | Over every run of dispatches, other messages and passes, every retired result is a stub whose superseder is a successful, strictly later record |
| SupersessionRuns.LiveRoot | src/my_coding_agent/pipeline/nodes/context_guard.py:87-210 | Following superseders from any record ends at a message still in the conversation word for word; if the start was retired, the end is a strictly later success |
| SupersessionRuns.ChainsKeepSubject | src/my_coding_agent/pipeline/nodes/context_guard.py:87-133 | Over every run, a chain of identical-call links keeps to one call signature and a chain of incomplete-extract links to one artifact |
| SupersessionRuns.ContainmentKeepsText | src/my_coding_agent/pipeline/nodes/context_guard.py:136-156 | With stubs below the floor, a chain of containment links only ends at a result whose original text contains the retired text, live unless retired for another reason |
| WorkflowGraph.RunSnoc | src/my_coding_agent/pipeline/graph.py:145-168 | Running one more node effect is one more tick of the machine, so runs extend step by step |
| WorkflowGraph.BoundedJumpSpends | src/my_coding_agent/pipeline/graph.py:109-125 | A bounded jump uses up a round of its transition and gives none back to any other, also when transitions share a counter key |
| WorkflowGraph.NodeRunsBounded | src/my_coding_agent/pipeline/graph.py:54-168 | For any node behaviours, N nodes with R rounds left run at most N*(1+R) nodes between two wrap-arounds and N*(1+R+W) over W of them, also with duplicate names or shared counters |
| WorkflowGraph.HaltsIffWrapsBounded | src/my_coding_agent/pipeline/graph.py:145-168 | A run finishes if and only if it wraps around finitely often: the jump bounds cover everything but the outer loop |
| WorkflowGraph.TransitionOkIff | src/my_coding_agent/pipeline/graph.py:54-75 | What construction asks of a transition, read off the names: both ends declared, and without a bound, or with bound zero, only forward past every node of its source's name |
| WorkflowGraph.LastDeclarationWins | src/my_coding_agent/pipeline/graph.py:54-75 | Of several declarations of one pair the last one counts |
| PassBoundaries.SavedIsLastBoundary | src/my_coding_agent/pipeline/graph.py:145-168 | Over every run the checkpoint is the context at the last completed pass, and there is none exactly while no pass was completed; a run that has gone round has one, and a run a node stopped has checkpointed the context it ended in; jumps, used-up bounds, resets and raises change nothing |
| PassBoundaries.RunBegins | src/my_coding_agent/pipeline/graph.py:145-149 | A run begins at the first node with nothing saved, exactly if a step is left |
| PassBoundaries.NodeLeadsOn | src/my_coding_agent/pipeline/graph.py:77-168 | In every run, a node that does not jump leads to the next node, round to the first if it is the last and a step is left, or ends the run; the context is what it left |
| PassBoundaries.JumpLands | src/my_coding_agent/pipeline/graph.py:92-143 | In every run, a declared jump with a round left lands on the last node of the name it gives, adds one row, counts one round of its own pair if that is bounded and none of any other, and saves nothing |
| PassBoundaries.UsedUpJumpStops | src/my_coding_agent/pipeline/graph.py:109-125 | In every run, a declared jump whose counter stands at its bound ends the run for that reason, moves no counter and saves nothing |
| PassBoundaries.UndeclaredJumpFails | src/my_coding_agent/pipeline/graph.py:92-108 | In every run, a jump fails as undeclared exactly when no transition joins the two names |
| GraphTermination.FinishesIff | src/my_coding_agent/pipeline/graph.py:54-168 | Given the nodes that count steps, every run from below the ceiling ends, whatever the nodes do, if and only if every way through the declared graph from the first node past the last, along the step order and unbounded jumps, meets one of them |
| StepBudget.DefaultFinishes | src/my_coding_agent/pipeline/nodes/llm_call.py:18-19 | The default pipeline meets that condition with its call node, so all its runs end |
| EndlessRuns.SkippingRunsForever | src/my_coding_agent/pipeline/graph.py:3-8 | A validated three-node graph whose unbounded forward jump skips the only node that counts steps is back at its first node before every other node run, with no step taken |
| EndlessRuns.SkippingNeverHalts | src/my_coding_agent/pipeline/graph.py:3-8 | So that graph never finishes, against the module documentation that every expressible loop terminates |
| LoopRounds.LoggedRoundsAreConsecutive | src/my_coding_agent/pipeline/graph.py:109-143 | In every run, at its end and at each checkpoint, the rounds logged under a counter are init+1, init+2, ... up to the counter value |
| LoopRounds.FreshRunCountsFromItsStart | src/my_coding_agent/pipeline/graph.py:109-143 | For a run with an empty log, init is the counter it started with |
| LoopRounds.ExhaustionEndsTheRun | src/my_coding_agent/pipeline/graph.py:109-123 | At most one bound is ever exhausted; its row is last, it ended the run for that reason and it is never checkpointed |
| LoopRounds.RunKeepsTaken | src/my_coding_agent/pipeline/graph.py:109-143 | A pair is taken in a run at most as often as its counter moved below its bound |
| LoopRounds.BoundHoldsAcrossResumes | src/my_coding_agent/pipeline/nodes/agent.py:607-662 | Over the checkpointed part of every earlier run of a lineage plus the whole last run, a pair is taken at most max_rounds times |
| LoopRounds.ArrowKeyInjective | src/my_coding_agent/pipeline/graph.py:111 | Counter keys tell pairs apart when source names do not contain the arrow |
| LoopRounds.ArrowKeyCollision | src/my_coding_agent/pipeline/graph.py:111 | Without that condition two different pairs share one counter |
| StepBudget.StageOvershoot | src/my_coding_agent/pipeline/nodes/prompt_stage.py:90-91 | A prompt-stage run of N nodes that starts below max_steps ends with at most max_steps + N - 1 steps |
| StepBudget.StageRunsFinish | src/my_coding_agent/pipeline/nodes/prompt_stage.py:90-91 | Every such run finishes within the steps left plus N - 1 node runs |
| StepBudget.CallsAreSteps | src/my_coding_agent/pipeline/nodes/llm_call.py:18-39 | In the default pipeline the counter never passes max_steps and the main calls are at most the steps taken, exactly those when no node fails |
| StepBudget.RunsExactlyMaxSteps | tests/test_agent.py:527-557 | A model that never finishes and a guard that never stops give exactly the granted number of main calls |
| StepBudget.ChainWithinBudget | src/my_coding_agent/pipeline/nodes/agent.py:447-467 | Over any chain of context resets the main calls together stay within the steps first granted, and the floor of one step for a continuation never decides |
| PipelineEngine.BuildIndex | src/my_coding_agent/pipeline/graph.py:38-52 | The index maps each name to its last position |
| PipelineEngine.PassIsRun | src/my_coding_agent/pipeline/graph.py:77-90 | A pass of the node loop is a run of the machine up to where the pass ends |
| PipelineEngine.Pipeline.Make | src/my_coding_agent/pipeline/graph.py:38-75 | Construction succeeds exactly when every transition has known ends and, without a truthy bound, only goes forward; a rejection is about the first transition that does not and says which check it fails |
| PipelineEngine.Pipeline.RunStep | src/my_coding_agent/pipeline/graph.py:77-90 | The node loop ends at the first node that signals or raises, or past the last one, with the context those nodes left |
| PipelineEngine.Pipeline.ResolveJumpTo | src/my_coding_agent/pipeline/graph.py:92-143 | The jump resolution updates counter, log, signal and index as the machine does, and changes nothing for an undeclared pair |
| PipelineEngine.Pipeline.Execute | src/my_coding_agent/pipeline/graph.py:145-168 | The imperative engine reaches, for every script of node effects, the state, status and checkpoint of the machine; with no nodes it returns unchanged when no step is left |
| PipelineEngine.EmptyRoundsStandStill | src/my_coding_agent/pipeline/graph.py:145-168 | With an empty node list the outer loop is still going after any number of rounds if and only if a step was left to begin with, and no round uses or changes anything but the checkpoint it writes |
| StageConfig.ParseNodeSpecs | src/my_coding_agent/evals/run_config_file.py:182-219 | The problems reported are exactly those of the entries (not a mapping, unknown keys, no name, no prompt, a name already taken); with none, the specs are those of the section |
| StageConfig.ParseTransitions | src/my_coding_agent/evals/run_config_file.py:222-264 | The problems reported are exactly those of the transitions (not a mapping, unknown keys, an end missing or undeclared); with none, the transitions are those of the section; the last target parsed for a source is its jump |
| StageConfig.BuildNodes | src/my_coding_agent/evals/run_config_file.py:267-308 | One stage per spec, the task for the first only; the problems reported are exactly the decision stages without a jump and the inputs that are not declared |
| StageConfig.RunStage | src/my_coding_agent/pipeline/nodes/prompt_stage.py:80-136 | A stage run writes its own thread, output and audit trail and counts one step; it stops for an approving reply, jumps to its target for a rejecting one, raises for a failed call or a missing target, and goes on otherwise |
| StageConfig.ThreadsArePrivate | src/my_coding_agent/pipeline/nodes/prompt_stage.py:80-112 | Over any order of stage runs and any replies, a stage's thread holds only its own opening (the task for the entry stage only), its own prompt, its own replies and those of the one stage it receives from |
| StageConfig.ThreadsAreHistories | src/my_coding_agent/pipeline/nodes/prompt_stage.py:80-112 | And exactly what: over any order of stage runs and any replies, a stage's thread is its opening once, then for each of its own turns the last reply of the stage it receives from, its prompt, and its reply; the audit trail is all replies in order |
| StageConfig.EmptyIsAlwaysAccepted | src/my_coding_agent/pipeline/nodes/prompt_stage.py:121-136 | An empty accept text matches every reply, so it never causes a jump |
| StageConfig.LiteralIsAccepted | src/my_coding_agent/pipeline/nodes/prompt_stage.py:121-136 | A reply that holds the accept text as written is accepted, however characters are upper-cased |
| StageConfig.CaseIsIgnored | src/my_coding_agent/pipeline/nodes/prompt_stage.py:121-136 | Texts that upper-case alike are judged alike, as reply and as accept text |
| StageConfig.VerdictDecides | src/my_coding_agent/pipeline/nodes/prompt_stage.py:113-136 | In every run an approving reply ends it, checkpointed, for the reason stop; a rejecting one leads to the jump's node, or ends the run if the rounds are used up; a failed call raises; any other reply leads on; each counts one step |
| StageConfig.StageRunIsRun | src/my_coding_agent/pipeline/nodes/prompt_stage.py:90-136 | A run of stages is a run of the machine on the effects they produce, so every result about runs applies |
| StageConfig.FittingStagesRunClean | src/my_coding_agent/pipeline/graph.py:99-107 | Stages whose jumps are declared never hit an undeclared or missing jump |
| StageConfig.LoadPipeline | src/my_coding_agent/evals/run_config_file.py:311-349 | A section has no problem exactly when it is absent or well-formed, has a graph exactly when moreover every transition is valid, and then graph and stages are exactly those it declares |
| StageConfig.AcceptedIff | src/my_coding_agent/evals/run_config_file.py:311-349 | Acceptance in terms of the section as written: complete nodes with distinct names, transitions between them, one at least from every decision stage, declared inputs, and no unbounded or zero-bounded transition that is not forward |
| StageConfig.StagesAreDeclared | src/my_coding_agent/evals/run_config_file.py:267-308 | The stages of an accepted section are its nodes as written; only the first has the task, and a decision stage jumps to the target of the last transition from it |
| StageConfig.AcceptedConfigRunsClean | src/my_coding_agent/evals/run_config_file.py:182-308 | Every config that loads runs without a transition error for any replies, keeps to the step budget and finishes |
| ToolDispatch.PlanGroups | src/my_coding_agent/engine/tool_execution/__init__.py:211-236 | The groups concatenate to the calls, every group is one call or a run of overlappable calls, and no two neighbouring runs could be joined |
| ToolDispatch.PlanIsUnique | src/my_coding_agent/engine/tool_execution/__init__.py:211-236 | There is only one such grouping, so the runs are maximal |
| ToolDispatch.OnlyReadersOverlap | src/my_coding_agent/engine/tool_execution/concurrency.py:115-127 | Only parsed calls that read a file, fetch a page or run a read-only shell command share a group, and of two neighbouring groups one is a single call that is none of these |
| DispatchRefinement.WorkersAreIndependent | src/my_coding_agent/engine/tool_execution/__init__.py:347-388 | Under every interleaving of readers each worker gets what it would get alone, and the world is unchanged |
| DispatchRefinement.ReducedIff | src/my_coding_agent/engine/tool_execution/__init__.py:463-511 | A call is refused by the capability reduction exactly when its gate holds in the world it starts in |
| DispatchReport.DispatchReports | src/my_coding_agent/engine/tool_execution/__init__.py:317-345 | As long as nothing crashed, one message and one record per call, in call order, with its id and name: a plain output word for word unless blank or over the limit, an artifact as bounded, untrusted text in its frame, ok as the tool says; blocked, refused and unparsable calls are failures for their reason |
| DispatchReport.PlanTells | src/my_coding_agent/engine/tool_execution/__init__.py:295-388 | The same for a whole message under every grouping and interleaving, whatever the gates say: each message says what the worker of its call gave |
| DispatchReport.ArtifactsAreKept | src/my_coding_agent/engine/tool_execution/__init__.py:890-930 | The artifacts kept are exactly those returned, the last one under each call id, and what was there before under the others |
| DispatchReport.StoreAfterCall | src/my_coding_agent/engine/tool_execution/__init__.py:990-1060 | Files and store after a call are as its tool left them, but for an artifact that bounding asks to store |
| DispatchReport.LatchesAreSetBy | src/my_coding_agent/engine/tool_execution/__init__.py:807-826 | The two latches are set exactly when some successful call returned untrusted content, or was a shell command that clones |
| DispatchReport.BlockedIff | src/my_coding_agent/engine/tool_execution/__init__.py:463-507 | A call is blocked exactly when a stateless gate blocks it, for that gate's reason and without a trace in the world |
| DispatchReport.RefusedIff | src/my_coding_agent/engine/provenance/__init__.py:105-131 | A call of a message is refused exactly when no other gate blocks it, it is a build command in the shell, and untrusted content had come in and a repository had been cloned, before the message or by successful earlier calls |
| DispatchReport.CrashesIff | src/my_coding_agent/engine/tool_execution/__init__.py:317-345 | Dispatch crashes exactly when some call reached does |
| DispatchRefinement.GroupRefinesIff | src/my_coding_agent/engine/tool_execution/__init__.py:347-388 | For readers blind to each other's artifacts, every interleaving ends in the messages, records, artifacts and world of one-by-one dispatch if and only if each call met the reduction gate as it stood when the group began |
| DispatchRefinement.PlanRefinesIff | src/my_coding_agent/engine/tool_execution/__init__.py:295-388 | Over all groups of a message and all their interleavings, overlapped dispatch equals one-by-one dispatch if and only if every call of every overlapped group met the reduction gate as it stood when its group began |
| DispatchRefinement.NoLateBuildIsQuiet | src/my_coding_agent/engine/tool_execution/concurrency.py:115-127 | No build command after the first call of a group is enough for the gate condition |
| DispatchRefinement.LatchBreaksRefinement | src/my_coding_agent/engine/provenance/__init__.py:97-102 | After a clone, a page fetch followed by a read-only grep for a build word ends differently when overlapped |
| ToolExecutor.Executor.AfterToolCall | src/my_coding_agent/engine/tool_execution/__init__.py:932-988 | Processing a result changes messages, records, artifacts, store and latches as the reference does |
| ToolExecutor.Executor.DispatchOneCall | src/my_coding_agent/engine/tool_execution/__init__.py:317-345 | The sequential path of one call is the reference step, parse failures included |
| ToolExecutor.Executor.DispatchOverlapped | src/my_coding_agent/engine/tool_execution/__init__.py:347-388 | The overlapped path runs the workers as scheduled and processes results in call order |
| ToolExecutor.Executor.Run | src/my_coding_agent/engine/tool_execution/__init__.py:295-315 | For readers, the executor ends where one-by-one dispatch of all calls ends if and only if the reduction gates agree; in any case, unless something crashed, it leaves one message and record per call, saying what its invocation gave |
| Checkpoints.CheckpointStore.Save | src/my_coding_agent/engine/checkpoint.py:67-79 | A finished save replaces the checkpoint and is the newest; a kill in mid-write changes no checkpoint |
| Checkpoints.CheckpointStore.Remove | src/my_coding_agent/engine/checkpoint.py:82-90 | Removes that session's checkpoint if there is one and no other |
| Checkpoints.CheckpointStore.FindLastResumable | src/my_coding_agent/engine/checkpoint.py:120-139 | Returns a listed session with the newest checkpoint, or nothing exactly when no listed session has one |
| Checkpoints.AgentRun.FromCheckpoint | src/my_coding_agent/cli.py:388-425 | A resumed run is built exactly when the source has a checkpoint; it starts in that state, links to the session the checkpoint names, and otherwise nothing is built and the error names the source |
| Checkpoints.AgentRun.FinishAfterReset | src/my_coding_agent/pipeline/nodes/agent.py:337-343 | A run that reset leaves no checkpoint of its own, whatever became of its continuation; the one it was resumed from survives exactly when the continuation failed; no other is touched |
| Checkpoints.AgentRun.CleanUp | src/my_coding_agent/pipeline/nodes/agent.py:337-347 | A run drops its own checkpoint exactly when it reset or finished without failure for a clean reason, and its source's exactly when it reset or so finished, without failure |
| Lifecycle.CheckpointsAreCompletedSteps | src/my_coding_agent/pipeline/nodes/agent.py:317-347 | Over every interleaving of steps, endings, resets, resumptions, delegations and kills, also between the two removals of a clean-up, each checkpoint is its session's state after its last completed step and names that session; a cleanly finished session, or a reset one that reached its clean-up, has none |
| Lifecycle.ProgressIsResumable | src/my_coding_agent/pipeline/nodes/agent.py:317-347 | Over the same interleavings, a lineage, delegated or not, that completed a step and was not finished cleanly still has a checkpoint, if each continuation that ends on its own and not cleanly has completed a step |
| Lifecycle.ResumesWhereSourceStopped | src/my_coding_agent/pipeline/nodes/agent.py:626-662 | In every reachable state, each resumed session started in the state its source reached with its last completed step, and the source has not moved since |
| Lifecycle.KilledRunIsNewestIff | src/my_coding_agent/engine/checkpoint.py:120-139 | Killed at any point after its first completed step, also while a run it delegated to is at work, the process's own run is the one the newest-checkpoint search returns if and only if no run it delegated to since its last completed step has left a checkpoint; otherwise the search returns one of those |
| Lifecycle.DelegationHidesKilledRun | src/my_coding_agent/engine/tool_registry/registry.py:685-704 | A run completes a step, delegates in the next one, the delegated run stops at its budget after a step, and the process is killed: the search returns the delegated run |
| Lifecycle.EndKeepsIff | src/my_coding_agent/pipeline/nodes/agent.py:337-347 | For any number of resets behind the live run, delegated or not, and any way it ends: after the clean-ups that follow a lineage is resumable if and only if it has a checkpoint that is not one of the ending runs' own (but the innermost, unless it finished cleanly) nor their source (unless the run did not finish cleanly or, after a reset, failed) |
| Lifecycle.ResetKeepsIff | src/my_coding_agent/pipeline/nodes/agent.py:340-343 | After any number of resets, when the innermost continuation does not finish the task, the lineage is resumable if and only if that continuation completed a step or another checkpoint is left |
| Lifecycle.FailedContinuationLosesProgress | src/my_coding_agent/pipeline/nodes/agent.py:340-341 | A reset whose continuation fails at once leaves a lineage with progress and nothing to resume |
| Lifecycle.CleanFinishClearsIff | src/my_coding_agent/pipeline/nodes/agent.py:337-347 | A clean finish, after any number of resets, delegated or not, leaves the lineage without checkpoints if and only if it had none besides those of its runs that end and of the run it resumed from |
| Lifecycle.SourceOfSourceStays | src/my_coding_agent/pipeline/nodes/agent.py:331-333 | Resumed twice and then finished cleanly, the first session still offers itself for resumption |
| Kappa.ChanceBound | src/my_coding_agent/evals/judge.py:444-447 | Twice the sum over categories of the count products is at most n*n + n*agreements |
| Kappa.ExpectedIsProducts | src/my_coding_agent/evals/judge.py:445-447 | The expected agreement is that sum over the common denominator n*n |
| Kappa.ElseArmUnreachable | src/my_coding_agent/evals/judge.py:449-450 | In exact arithmetic expected agreement 1 implies observed agreement 1 |
| Kappa.KappaRange | src/my_coding_agent/evals/judge.py:423-451 | A result exactly for equal, non-zero lengths; it lies in [-1, 1] and is 1 exactly for equal lists |
| Kappa.KappaEquation | src/my_coding_agent/evals/judge.py:440-451 | On the counts: with n scores, m agreements and s the sum of the count products, kappa solves k * (n*n - s) = n*m - s, and is 1 when s is n*n |
| Kappa.KappaSign | src/my_coding_agent/evals/judge.py:440-451 | Kappa is zero exactly for unequal lists with n*m = s, and negative exactly when n*m is below s |
| Kappa.KappaSymmetric | src/my_coding_agent/evals/judge.py:423-451 | Swapping the raters changes nothing |
| RoleSplit.Split | src/my_coding_agent/viewer/reader.py:834-865 | No result exactly for no messages, no or zero total, or no characters; otherwise rounded shares with the drift in the first largest role |
| RoleSplit.LargestIsFirst | src/my_coding_agent/viewer/reader.py:864 | The drift goes to a largest share, and every role before it in display order has a smaller one |
| RoleSplit.CharsAddUp | src/my_coding_agent/viewer/reader.py:846-856 | Every character of every message counts for exactly one role, its own, or the user for a message without a known one |
| RoleSplit.PartsSumToTotal | src/my_coding_agent/viewer/reader.py:861-864 | The parts sum exactly to the reported total and exist exactly for roles with characters |
| RoleSplit.PartsNotNegative | src/my_coding_agent/viewer/reader.py:860-864 | For every positive total no part is negative |
| RoleSplit.PartsAreNearest | src/my_coding_agent/viewer/reader.py:860-864 | Every part is the nearest integer to its exact share, but for one role, which takes the drift and stays within one and a half tokens |
| RoleSplit.Overshoot | src/my_coding_agent/viewer/reader.py:860 | Four half-even roundings overshoot the total by at most two, and by at most one when none exceeds one |
| Streaks.TrailingStreak | src/my_coding_agent/pipeline/nodes/anomaly_detect.py:48-80 | The backward scan finds the maximal run of equal failures that ends the list, with ascending indexes, or nothing after a success |
| Streaks.FirstSighting | src/my_coding_agent/evals/trajectory.py:260-269 | A streak is first reported at its third member, so its recorded length is three |
| Streaks.ScoreErrorHandling | src/my_coding_agent/evals/trajectory.py:241-276 | One event per maximal run of at least three equal failures, in order and without shared members; the value times the calls is the calls minus three per event, and lies in [0, 1] |
| Streaks.StartsAreIgnored | src/my_coding_agent/evals/trajectory.py:260-269 | The reported starts are exactly the starts of such runs |
| Streaks.EventsFit | src/my_coding_agent/evals/trajectory.py:270-271 | The summed lengths never exceed the calls, so the cap on the penalty never binds |
| Sampler.ResourceSampler.Start | src/my_coding_agent/observability/sampler.py:141-151 | One more reference; the thread is live afterwards unless capture is disabled |
| Sampler.ResourceSampler.Stop | src/my_coding_agent/observability/sampler.py:153-163 | One reference fewer, never below zero; a live thread always has a reference |
| Sampler.ResourceSampler.Tick | src/my_coding_agent/observability/sampler.py:172-183 | A reading joins the history, a failed reading disables capture for good |
| Sampler.ResourceSampler.AddSample | src/my_coding_agent/observability/sampler.py:224-243 | Eviction keeps ring plus rollup equal to the full history |
| Sampler.ResourceSampler.SessionRollup | src/my_coding_agent/observability/sampler.py:269-321 | The report depends only on everything ever sampled, for every ring capacity and eviction |
| Sampler.ResourceSampler.SummarizeWindow | src/my_coding_agent/observability/sampler.py:245-267 | The summary of the ring's samples in the window, else of one fresh reading, else nothing and capture disabled |
| Sampler.InWindowPicks | src/my_coding_agent/observability/sampler.py:245-267 | The window holds, in order, exactly the samples of the ring taken between its ends, both included |
| Sampler.SummaryFigures | src/my_coding_agent/observability/sampler.py:75-100 | A summary counts its samples, gives each gauge as the average and the greatest of its readings, GPU only if there was one, and each counter as last minus first |
| Sampler.FoldTallies | src/my_coding_agent/observability/sampler.py:234-243 | The fold has the count and sum of the readings and the larger of zero and their greatest as peak, GPU readings only where there were any |
| Sampler.RollupIsSummaryIff | src/my_coding_agent/observability/sampler.py:75-100 | The session rollup is the one-shot summary of the full history if and only if each gauge that was read had a reading of at least zero |
| Outage.ValidateResponse | src/my_coding_agent/engine/llm/__init__.py:186-221 | A response counts as an answer exactly when it is 2xx and a JSON object with choices |
| Outage.Client.RequestWithRetry | src/my_coding_agent/engine/llm/__init__.py:138-168 | At most three requests; all but the last were transient, a transient result means all three were, and the waits between them were kept, exactly so under an exact clock |
| Outage.Client.PostChatWithRecovery | src/my_coding_agent/engine/llm/__init__.py:223-321 | For every server and clock the call equals the reference run: its requests fall into one consecutive segment per probe, each classified by its last reply; all probes but the last failed in a retryable way; it is answered exactly when the last reply is a 2xx completion; another failure ends it at that probe, and a retryable one is only raised once the tolerance is used up |
| Outage.ChatIsTraced | src/my_coding_agent/engine/llm/__init__.py:243-321 | The same of the reference run: segments of one to three requests, all before the last transient, and a wait by the schedule between any two probes |
| Outage.WhatIsRetried | src/my_coding_agent/engine/llm/__init__.py:185-321 | For every server and clock: all probes but the last ended on a connection failure, status 429 or a server error; the outcome is what the last reply says, in each of its classes; if that was still worth retrying, the tolerance is used up |
| Outage.NeverOversleeps | src/my_coding_agent/engine/llm/__init__.py:296-297 | No sleep asks to wake after start plus tolerance |
| Outage.WaitsAreFull | src/my_coding_agent/engine/llm/__init__.py:296-297 | Every wait but the last is the full backoff, so the k-th begins no earlier than the sum of the k before it |
| Outage.WaitsBounded | src/my_coding_agent/engine/llm/__init__.py:223-321 | A schedule whose first k waits cover the tolerance allows at most k waits |
| Outage.Schedule | src/my_coding_agent/engine/llm/schema.py:24-28 | The waits double from half a second and stay at 30 seconds from the seventh on; their sums in closed form |
| Outage.SixteenProbes | src/my_coding_agent/engine/llm/schema.py:24-28 | At the default tolerance of 300 seconds a call makes at most 16 probes, whatever the server and the clock do |
| Outage.ProbesReached | src/my_coding_agent/engine/llm/__init__.py:283-321 | Against a server that refuses at once with a retryable status, a call makes exactly one probe more than the waits it takes to cover the tolerance, for every tolerance |
| Outage.SixteenProbesReached | src/my_coding_agent/engine/llm/schema.py:24-28 | At 300 seconds that is 16 probes, against a server that answers 503 at once |
| UsageTree.SumCallsByKind | src/my_coding_agent/viewer/sumcheck.py:31-40 | The accumulation loop builds the per-kind dictionary |
| UsageTree.KindsAddUp | src/my_coding_agent/pipeline/nodes/agent.py:479-498 | Splitting the rows by kind and adding the kinds up again loses and invents nothing |
| UsageTree.EntriesHold | src/my_coding_agent/pipeline/nodes/agent.py:479-490 | One entry for each kind that occurs, holding the sum of exactly that kind's rows |
| UsageTree.EntrySums | src/my_coding_agent/pipeline/nodes/agent.py:479-490 | Figure by figure: each entry holds the sums over the rows of its kind, rows without a kind counting as main calls |
| UsageTree.AgentNode.UsageSummary | src/my_coding_agent/pipeline/nodes/agent.py:511-533 | The summary of an agent from its rows and its children's summaries |
| UsageTree.TreeConserved | src/my_coding_agent/pipeline/nodes/agent.py:500-533 | For every delegation tree the root's grand total is the sum of all call rows of all agents in it |
| UsageTree.RootSumsRows | src/my_coding_agent/pipeline/nodes/agent.py:500-533 | Figure by figure: the root's prompt, completion and total tokens are the sums of those of all call rows in the tree |
| UsageTree.SameDictionaryIff | src/my_coding_agent/viewer/sumcheck.py:86-94 | The persisted dictionary equals the recomputed one exactly when it is right about every kind |
| UsageTree.CheckSession | src/my_coding_agent/viewer/sumcheck.py:86-107 | Checks (a) and (b) pass exactly when the record is right about every kind and about the grand total; the reasons say which failed |
| UsageTree.SavedSessionsPass | src/my_coding_agent/pipeline/nodes/agent.py:565-605 | Every session an agent saves passes both checks |
| UsageTree.PassedTreesAddUp | src/my_coding_agent/viewer/sumcheck.py:130-146 | A tree that passes, and whose copies each agree with the child's file, accounts for every row of every file |
| UsageTree.TreeDrifts | src/my_coding_agent/viewer/sumcheck.py:130-146 | In a tree of any shape whose grand totals are right file by file, the root accounts for every row of every file plus the sum, over all edges, of what the parent's copy says more than the child's file |
| UsageTree.CopyIsNotChecked | src/my_coding_agent/viewer/sumcheck.py:130-146 | So a tree that passes accounts for every row of every file if and only if the copies drift from the files by nothing in sum; the check does not compare them |
| UsageTree.StaleCopyPasses | src/my_coding_agent/viewer/sumcheck.py:130-146 | And drift passes: a parent whose copy sums other rows than the child's file holds passes together with it |

## Left out

- Floating-point rounding: kappa, the streak penalty, the sampler's averages, the outage deadlines and the quotients that role attribution rounds are exact here; rounding of reported figures to one or three digits is not modelled.
- JSON text: messages, rows, checkpoints and saved sessions are values; escaping and parsing of their text is not part of this model, nor is a claim that a marker written into a message is found again after serialisation.
- Regular expressions and shell parsing: read-only, build and clone commands and the gates of policy, egress, exfiltration and hooks are abstract predicates of the call, assumed to hold no state of their own.
- SupersessionPass.StubLength: `repr` escapes of unusual characters in a tool-call id are not modelled, so such an id would make the stub longer.
- PipelineEngine.Pipeline.Execute: with an empty node list, which the constructor accepts, covers only starts without a step left, because from any other the outer loop never returns (PipelineEngine.EmptyRoundsStandStill); config loading rejects an empty list.
- TraceRecorder.Recorder.RecordLlmCall: leaves out the event fields beside call number, kind and messages (usage, timing, response summary, resources) and the list of child calls waiting for their tool event.
- ToolExecutor.Executor.AfterToolCall: leaves out the envelope and record fields beside id, name, output and outcome, the move of an error text out of the output, hook firings and recorder events.
- Lifecycle.ProgressIsResumable: assumes that each continuation reaches a completed step, because the code drops the parent's checkpoint without one; the exact condition is Lifecycle.ResetKeepsIff.
- LoopRounds.BoundHoldsAcrossResumes: does not count jumps a killed run took after its last checkpoint, because the code forgets them too.
- SupersessionRuns.ContainmentKeepsText: does not follow a chain past a link of another case, because the code does not keep the text there.
- Outage.Client.PostChatWithRecovery: the tolerance is any finite number; an infinite or not-a-number environment value is not modelled.
- Checkpoint lifecycle: exceptions other than an LLM failure, kill or interrupt between a context reset and the start of its continuation.
- Conversations and outputs of prompt stages across a resume: they are not checkpointed, so no equivalence of resumed and uninterrupted prompt-stage runs is claimed.
- Termination of the chain of context resets: a continuation over the threshold can reset again without a step; only its budget is bounded.
- The report-provenance check of a session (check (c)): an empty summarizer result followed by the fallback writes two report rows, so it does not accept every session the runtime writes.
- Reading the descendants' files of a session tree: the tree of files is given as a finite value, so sessions that name each other in a cycle are not modelled.
- The live anomaly node: it differs from the replay within one step and after a restart of the same signature; only the replay is modelled.
- HTTP, threads as such, psutil and ioreg, YAML, the file system beyond a map with atomic replace, terminal and web user interfaces, prompts and previews, pricing, verdict files, trace-tree decoration: presentation, environment or bookkeeping.
