# Verification of the reporting-workflow engine

This project models, in Dafny, how the chat service turns a question into a reporting
workflow and carries it out: the compiler that builds a graph of nodes, the verifier that
accepts or rejects it, the scheduler that runs dependency-ready nodes in batches under a
shared ledger of queries, rows and time, and the durable rows through which a run is paused,
answered and resumed. Five smaller algorithms of the same service are modelled beside it:
merging retrieval evidence, planning clarification questions, resolving calendar hints,
trimming the conversation, and paging the catalog.

Check everything with `dafny verify dfyconfig.toml --resource-limit 2000000`.

## How it is organised

Each module is the file of its name.

- `Contract`, `Catalogs`, `Json`, `Wrappers`: the data.
- `Graphs`, `Waves`: explicit paths; reachability, cycles, topological orders and waves.
- `Scheduler`, `Ledger`, `Store`, `Runner`: the runner. Each transaction is a function on the
  job and its rows; the classes `WorkflowStateRepository` and `WorkflowRunner` keep the
  fields, loops and caches of the source and are proved against those functions. What the
  outside world does to a node (executor, clock, policy check, cancellation, failed and lost
  writes) is one arbitrary `Turn`.
- `History`, `Branching`, `Supply`, `Availability`, `BudgetSafety`, `Pauses`, `RepeatedIds`:
  theorems over every sequence of installs, iterations, pauses, answers and status changes,
  and over whole calls.
- `Endings`, `Liveness`, `Dialogues`: how runs end for any workflow and any answers, what keeps
  them from failing, and jobs that are asked, answered and run again.
- `Executor`: the repository's node executor and the guard before its data.
- `CompiledLiveness`, `CompiledSessions`, `ExecutedSessions`, `FailedSelection`, `GuardBudget`:
  how runs and answered sessions of accepted capabilities end, for any answers and for those of
  that executor.
- `Verifier`, `Acceptance`, `Gaps`: the verifier, what its acceptance means and exactly when it
  accepts, and two accepted workflows that the runner cannot carry out.
- `Compiler`, `CompiledShape`, `CompiledRuns`, `CompiledWiring`, `CompiledAcceptance`,
  `CompiledVerdict`, `Acquisition`: compiling a capability, what the result looks like, how it runs, and exactly
  when the verifier accepts it.
- `Iteration`, `Expansion`, `Comparisons`, `Compilation`: expanding bounded iteration, checking
  comparisons, and the whole of compilation, proposals included.
- `Merging`, `Planner`, `Calendar`, `Resolver`, `ContextWindow`, `Paging`: the smaller cores.

## Where the code differs from what one would expect

- The three budget sums of the verifier and the cost sum of the expansion are plain `u16` and
  `u64` sums. The release profile has no overflow checks, so they wrap; debug builds panic.
  The model wraps, and states the exact condition under which the promised bound holds
  (`Verifier.AcceptedFitsIffNoWrap`, `Expansion.ExpansionCost`).
- The verifier's waves require all parents of a node, the scheduler only one. A producer that
  comes first in every topological order may still not have completed when its consumer is
  started, and a whole run then ends in an error (`Gaps.AcceptedYetStranded`). What has always
  completed are the nodes on every path that some outcome of the data allows
  (`Availability.AlwaysAfterIff`); without cardinality conditions these are the dominators.
- Only the first pause of a batch is recorded. Every other node that asked in the same batch
  keeps its row in status running (`Pauses.PauseLeaves`, with two entry nodes in
  `Pauses.SecondQuestionIsLost`), stays so whatever is answered and is never started again
  (`Pauses.UnrecordedQuestionIsLost`).
- A waiting node is charged its queries only when it is answered. A call that begins while a
  node waits can therefore complete more queries than the cap in all
  (`Pauses.EarlyCallOverspends`); without such a call, or if the declared queries fit, a job
  never does (`BudgetSafety.JobStaysWithinQueries`, `DeclaredFitStaysWithinQueries`).
- The pending clarification is kept in the job's memory row. Without one the pause still
  succeeds, and no answer can resume it (`Store.ResumableIffRecorded`).
- Nothing on the production path rejects a node list in which an id repeats. Rows name only the
  id, and the last node listed with it counts, so a run cut in two may then charge other queries
  than the run in one piece (`RepeatedIds.RestartDiffers`).
- The executor copies the slots of a probe to where a binding reads them only when exactly one
  row came back. An accepted capability that asks for a selection after several rows can
  therefore not be carried on: the answer completes the selection and makes the query runnable,
  but its binding is missing, so the next run of the workflow ends in an error and leaves the
  query running for ever (`ExecutedSessions.AcceptedSessionEnds`; a whole session is built in
  `FailedSelection.SelectionSessionFails`, and `History.RunningRowIsStranded` says that nothing
  starts the query again). Nothing the run reads records what was selected. A question asked for
  its own sake has no such binding, and the run after its answer completes.
- The same holds for a single row without the field the slot is named after
  (`ExecutedSessions.ExecutedRunEnds`), and for every binding to a slot of a query, whose output
  has none (`Executor.QueriesHaveNoSlots`).
- The guard before the database counts completed nodes, branches and questions included, where
  the verifier and the runner count declared queries. Under a cap of two queries, which admits a
  probe and its query to both, it refuses the query on every run that reaches it directly
  (`GuardBudget.AdmittedYetRefused`; in general `GuardBudget.GuardNeeds`). The cap in production
  is five.
- A comment in the compiler says that no capability declares two probes today; with two, the
  query can be reached around either branch (`CompiledRuns.BranchGuardsQueryIffAlone`) and
  the verifier finds two entries (`CompiledShape.CompiledGraph`).
- A binding to a node of an earlier turn is accepted only if that node happens to be a question
  or a fitting probe of the same workflow (`CompiledVerdict.SourceVerifiesIff`).
- The compiler accepts proposed nodes that the verifier then rejects: on a probe shape, on half
  of a dataset and shape pair, or when the first record of a capability is not the approved one
  (`Compilation.ResourcesVerifyIff`).
- A page limit of zero, which request validation refuses, makes the listing panic on its first
  page and hand the caller's own cursor back on every other (`Paging.EmptyPagesNeverAdvance`).
- The verifier counts the not-found terminal and the selection after a probe as one wave of
  two, although the runner never starts both, so a compiled probe needs a parallelism of two
  to be accepted (`CompiledAcceptance.CompiledShapeAcceptedIff`).
- A comment in the planner says that an input is satisfied once every parameter taken from it
  has a value. The code knows only the date range, the limit and the search; every other input
  is asked for on every turn, whatever the user has said (`Planner.AnswerableIff`).
- The policy validation that checks parameter names for uniqueness is not called by the catalog
  loader. Compiled ids are unique exactly when no two policies probe the same name and no two
  ask for the same name (`CompiledShape.CompiledGraph`).

## Model

Lemmas that only read a definition back are kept in the files as interfaces and not listed.

| member | source | states |
|---|---|---|
| Scheduler.RunnableAmong | crates/chat/src/assistant/workflow/run.rs:464-493 | The batch candidates are exactly the nodes without a completed, running or waiting row of which some incoming edge is satisfied (or which have none). |
| Scheduler.RunnableInOrder | crates/chat/src/assistant/workflow/run.rs:464-493 | They come in workflow order, as often as they are listed: the candidates of a list cut in two are those of the first part and then those of the second, and a single node is one or is left out. |
| Scheduler.NextAttempt | crates/chat/src/assistant/workflow/run.rs:454-462 | The next attempt is above every attempt recorded for the node and exceeds the highest by one. |
| Scheduler.OrderIsIrrelevant | crates/chat/src/assistant/workflow/state.rs:164-179 | Rows of one batch may be read back in any order: completion, runnability, next attempt, cardinality and output of every node are the same. |
| Scheduler.CardinalityIsSaid | crates/chat/src/assistant/workflow/run/node/branch.rs:5-42 | What a completed run says of its cardinality: a decision recorded as a text stands alone and only its three words count; otherwise the reported 64-bit row count, or else the run's own, says zero, one or many. |
| Scheduler.BindingsSame | crates/chat/src/assistant/workflow/run.rs:566-604 | The bindings of a node do not depend on the order in which rows were read. |
| Scheduler.BindingsExistIff | crates/chat/src/assistant/workflow/run.rs:566-620 | A node gets its bindings if and only if every input that is not exact sensitive has a value; the next row says which those are. |
| Scheduler.BindingsExistIffShown | crates/chat/src/assistant/workflow/run.rs:566-620 | Bindings exist if and only if for every input read of another node some completed row of it shows a value under the slot. |
| Scheduler.BindingsExact | crates/chat/src/assistant/workflow/run.rs:572-602 | What a name is bound to: exactly the caller's offices for the authorized scope; for a prior step or a probe the value that some completed row of it shows under the slot, and the only one; null for every other kind. The last input that binds the name decides, and a name bound only by exact sensitive inputs is not bound at all. |
| Ledger.AdmittedFits | crates/chat/src/assistant/workflow/run.rs:126-141 | For any workflow, what is consumed plus what the admitted batch declares stays within the query and row caps, and within the time cap unless a timeout sum wraps. |
| Ledger.BatchIsLongest | crates/chat/src/assistant/workflow/run.rs:126-141 | The batch is the longest start of the runnable nodes, in workflow order, that is no longer than the parallelism and of which no part exceeds a cap beside what is consumed, the time in wrapping sums. |
| Ledger.LedgerOrderIrrelevant | crates/chat/src/assistant/workflow/run.rs:399-414 | The ledger read off the rows is the same for every order of the rows. |
| Ledger.NeverStarved | crates/chat/src/assistant/workflow/run.rs:126-141 | When declared totals fit the caps and completed runs kept within their declarations, admission takes the whole candidate prefix. |
| Store.WorkflowStateRepository.InstallWorkflow | crates/chat/src/assistant/workflow/state.rs:81-122 | Succeeds exactly for a contract version that fits the column and the owner's job; sets the workflow, clears the current node and raises the revision; otherwise changes nothing. |
| Store.WorkflowStateRepository.BeginNode | crates/chat/src/assistant/workflow/state.rs:181-226 | Appends one running row unless the (node, attempt) pair is taken, in which case nothing changes. |
| Store.WorkflowStateRepository.CompleteNode | crates/chat/src/assistant/workflow/state.rs:228-273 | Completes exactly the running row with the given id; a stale completion changes nothing and is reported. |
| Store.WorkflowStateRepository.FailNode | crates/chat/src/assistant/workflow/state.rs:317-326 | Fails exactly the running row with the given id. |
| Store.WorkflowStateRepository.MarkWorkflowPaused | crates/chat/src/assistant/workflow/state.rs:328-400 | All or nothing: needs exactly one running row of the node and the owner's job on this workflow; the clarification is kept if the job has a memory row. |
| Store.WorkflowStateRepository.ResumeWorkflow | crates/chat/src/assistant/workflow/state.rs:404-495 | Not found exactly for another job or user; resumed exactly for the owner of a waiting job with its workflow, revision, node and recorded clarification; only then the waiting rows complete and the job is queued, and otherwise nothing changes. |
| Store.PausesIff | crates/chat/src/assistant/workflow/state.rs:328-400 | A pause needs the owner's job on this workflow and exactly one running row of the node; it makes that row wait, changes no other, and the job waits at the node one revision on with its question recorded in the memory row. |
| Store.PauseTakesOneAnswer | crates/chat/src/assistant/workflow/state.rs:412-434 | A paused job is resumed by exactly one request, that of its owner to this workflow and node with the recorded clarification and the revision after the pause, and by none without a memory row. |
| Store.AnswerIsUnique | crates/chat/src/assistant/workflow/state.rs:427-434 | In any state two requests that are both accepted are equal. |
| Store.OnlyTheOwnerAnswers | crates/chat/src/assistant/workflow/state.rs:412-434 | Which requests find nothing, which are turned away and which are accepted, in terms of the job row; one that is not accepted changes nothing, and an accepted one is turned away when repeated. |
| Store.PauseThenAnswer | crates/chat/src/assistant/workflow/state.rs:328-495 | A pause and its answer together complete the open rows of the node without an output, change no other row or workflow, and leave the job queued two revisions on with no question. |
| Store.ResumableIffRecorded | crates/chat/src/assistant/workflow/state.rs:328-495 | Some answer resumes a paused job if and only if the job has a memory row, in which its clarification was recorded. |
| Runner.WorkflowRunner.RunNode | crates/chat/src/assistant/workflow/run.rs:197-297 | One node's life, with its error exits: the stored rows and the report are those of the specification, whatever order the caller's rows are in. |
| Runner.NodeEnds | crates/chat/src/assistant/workflow/run.rs:197-297 | Exactly when a node is started, and for each way the world behaves which row it leaves (completed with the redacted output, failed or running) and what it reports; cancellation counts only once bindings exist, and a lost write is an error. |
| Runner.WorkflowRunner.RunBatch | crates/chat/src/assistant/workflow/run.rs:142-147 | Every node of the batch is driven to its end, and the store holds exactly the rows of the batch specification. |
| Runner.WorkflowRunner.AdmitBatch | crates/chat/src/assistant/workflow/run.rs:126-141 | The loop over candidates admits exactly the longest prefix that the projected ledger allows. |
| Runner.WorkflowRunner.Collect | crates/chat/src/assistant/workflow/run.rs:149-180 | The outcome loop charges every completion, appends its rows, detects any failure and keeps the first pause only. |
| Runner.WorkflowRunner.SettleBatch | crates/chat/src/assistant/workflow/run.rs:149-189 | Errors come before failures and failures before a pause; only a clean batch goes on. |
| Runner.SettlesIff | crates/chat/src/assistant/workflow/run.rs:149-189 | Any error ends a run as one, else any failure or cancellation as a failure, else the first pause in batch order is recorded and waited for; only completions go on. |
| Runner.WorkflowRunner.RunIteration | crates/chat/src/assistant/workflow/run.rs:98-190 | One loop iteration on the cached rows and ledger does what the specification does on the durable rows, and the cache still holds the durable rows in some order. |
| Runner.QuietIterationStops | crates/chat/src/assistant/workflow/run.rs:98-141 | An iteration that starts nothing ends the run: as completed if nothing may run and some terminal has completed, and otherwise as failed, also if the first candidate does not fit the caps. |
| Runner.WorkflowRunner.Run | crates/chat/src/assistant/workflow/run.rs:81-191 | The whole run with its caches terminates for every executor and ends in the state, the outcome and the number of iterations of the cache-free specification. |
| Runner.IterationProgresses | crates/chat/src/assistant/workflow/run.rs:98-190 | An iteration that does not end the run completes at least one node that had not completed. |
| Runner.RunLoop | crates/chat/src/assistant/workflow/run.rs:98-190 | One call makes at most one iteration more than there are uncompleted nodes. |
| Runner.LedgerFollowsRows | crates/chat/src/assistant/workflow/run.rs:153-169 | Charging a batch to the running ledger gives what recomputation from the rows gives, if nodes that share an id declare the same queries. |
| Runner.RunIsRestartable | crates/chat/src/assistant/workflow/run.rs:88-92 | The incremental ledger refines recomputation: a run cut between any two batches and started afresh has the same schedule, rows and outcome, if nodes that share an id declare the same queries. |
| RepeatedIds.RestartDiffers | crates/chat/src/assistant/workflow/run.rs:399-414 | That condition is needed: with an id listed for no query and again for two, the run in one piece and the run that re-reads its rows end differently. |
| Runner.BatchIsAppended | crates/chat/src/assistant/workflow/run.rs:142-147 | A batch only appends rows: at most one per node, each of a node that was runnable, with the next attempt and with clean output. |
| BudgetSafety.CallSpendsWithin | crates/chat/src/assistant/workflow/run.rs:126-141 | For any workflow and any ledger a call starts from: what the ledger holds plus the queries declared by every node the call starts, failed and waiting ones included, never exceeds max_query_count, unless those nodes cost nothing. |
| BudgetSafety.CallStaysWithinQueries | crates/chat/src/assistant/workflow/run.rs:126-141 | Counted by the rows: in one call the declared queries of nodes completed before plus of every node started never exceed max_query_count, if nodes that share an id declare the same queries; no verification is needed. |
| BudgetSafety.JobStaysWithinCaps | crates/chat/src/assistant/workflow/run.rs:399-433 | Over the whole life of a job (calls, failures, pauses, answers) the rows and time used by completed nodes stay within the shared caps, if executors keep to their declarations, timeouts cannot wrap and nodes that share an id declare the same budget. |
| BudgetSafety.JobStaysWithinQueries | crates/chat/src/assistant/workflow/run.rs:399-414 | Over the whole life of a job the declared queries of all completed nodes stay within max_query_count, if no call begins while a node waits and nodes that share an id declare the same queries. |
| BudgetSafety.DeclaredFitStaysWithinQueries | crates/chat/src/assistant/workflow/run.rs:399-414 | If the declared queries of the workflow fit the cap, the same holds whenever calls begin. |
| Pauses.EarlyCallOverspends | crates/chat/src/assistant/workflow/run.rs:399-414 | The condition is needed: under a cap of one query, ask, call again while waiting and answer completes two. |
| BudgetSafety.LedgerIsUsage | crates/chat/src/assistant/workflow/run.rs:399-414 | The ledger holds exactly the rows and the time that completed runs used, counted independently of it. |
| BudgetSafety.ReachableNeverStarved | crates/chat/src/assistant/workflow/run.rs:126-141 | In every reachable state of a workflow that fits its caps the batch has exactly min(max(1, max_parallel_queries), runnable) nodes. |
| BudgetSafety.FailureIsNeverStarvation | crates/chat/src/assistant/workflow/run.rs:136-140 | Such a workflow never fails for want of budget: a failed call left a failed row or stopped with nothing runnable and no terminal completed. |
| History.HistoryKeepsInvariant | crates/chat/src/assistant/workflow/state.rs:181-495 | After every history of installs, iterations, pauses, answers and status changes the rows of every workflow are well kept and supported by completed paths. |
| History.HistoryOnlyAddsRows | crates/chat/src/assistant/workflow/state.rs:181-495 | Between any two moments rows are only added or answered; completed, failed and running rows never change. |
| History.OneLiveRowPerNode | crates/chat/src/assistant/workflow/run.rs:448-493 | In every reachable state a node has at most one row that is not failed, it is the last one, and attempts strictly increase. |
| History.MatchedStaysMatched | crates/chat/src/assistant/workflow/run.rs:521-532 | An edge that once let its target run lets it run at every later moment. |
| History.RunningRowIsStranded | crates/chat/src/assistant/workflow/run.rs:170-189 | A row left running when an iteration ends stays running for ever and its node is never started again. |
| Pauses.PauseLeaves | crates/chat/src/assistant/workflow/run.rs:149-189 | What a pause leaves, exactly: the old rows, and one row per node of the batch, completed if it answered, waiting if it is the recorded one, and running if it asked besides. |
| Pauses.FirstPausedIsFirst | crates/chat/src/assistant/workflow/run.rs:170-180 | The recorded pause is that of the first node in batch order that asked. |
| Pauses.UnrecordedQuestionIsLost | crates/chat/src/assistant/workflow/run.rs:170-189 | In every history, a node that asked without being the one recorded stays running in every continuation and is never started again. |
| Pauses.SecondQuestionIsLost | crates/chat/src/assistant/workflow/run.rs:170-189 | Two entry nodes that ask in one batch leave one waiting and one running row. |
| History.CompletedHasCompletedPath | crates/chat/src/assistant/workflow/run.rs:464-493 | Every completed node hangs from an entry point by a path of completed nodes over matched edges. |
| History.DominatorsHaveCompleted | crates/chat/src/assistant/workflow/run.rs:503-532 | Every dominator of a node that may run or was started has completed, and its output can be read if and only if it was not completed by an answer. |
| History.OutputMissingIffAnswered | crates/chat/src/assistant/workflow/state.rs:437-466 | In every reachable state a completed node has no output exactly if some accepted answer of the history was for it. |
| History.ArmsAreExclusive | crates/chat/src/assistant/workflow/run/node/branch.rs:5-43 | Nodes reachable only through different arms of a branch are never both started, in any history. |
| Branching.DecisionReadsBack | crates/chat/src/assistant/workflow/run/node/branch.rs:11-30 | The decision a branch stores reads back as the decision it took if and only if it is zero or redaction did not remove it. |
| Branching.BranchFollowsSource | crates/chat/src/assistant/workflow/run/node/branch.rs:5-43 | In every reachable state a completed branch whose id no other node has shows the cardinality of its source: the recorded arm is the one the data calls for, then and ever after. |
| Branching.ArmReflectsData | crates/chat/src/assistant/workflow/run.rs:521-532 | A node reachable only through certain arms is started only if the branch's source really has one of those cardinalities (for a branch whose id no other node has). |
| History.DurableOutputIsClean | crates/chat/src/assistant/workflow/state.rs:589-612 | In every reachable state no path into a stored output leads over a member named after an exact sensitive input of its node, at any depth. |
| Contract.PersistedShows | crates/chat/src/assistant/workflow/state.rs:601-632 | What is stored of an output: nothing behind a member named after an exact sensitive input, at any depth, and behind every other path what was there, plain values unchanged. |
| History.AnswerConsumedOnce | crates/chat/src/assistant/workflow/state.rs:402-495 | Of two accepted answers the later carries a strictly higher revision, so no revision is accepted twice. |
| History.AnsweredNodeNeverRestarts | crates/chat/src/assistant/workflow/state.rs:437-466 | An answered node is completed and no later event starts it again. |
| History.IterationRevision | crates/chat/src/assistant/workflow/state.rs:348-355 | A run raises the revision exactly when it pauses. |
| Json.RedactedLookup | crates/chat/src/assistant/workflow/state.rs:614-632 | Redaction is complete and minimal at every depth: paths through a named key find nothing, all others find what was there, redacted. |
| Json.RedactUnion | crates/chat/src/assistant/workflow/state.rs:614-632 | Redacting by A and then by B is redacting by their union. |
| Json.RedactFixesClean | crates/chat/src/assistant/workflow/state.rs:614-632 | Redaction cleans, and leaves exactly the clean values unchanged. |
| Graphs.ReachableFrom | crates/chat/src/assistant/workflow/graph.rs:49-65 | Breadth-first search returns exactly the nodes to which a path leads, and nothing for an unknown entry. |
| Graphs.SingleEntryReachesAll | crates/chat/src/assistant/workflow/graph.rs:94-99 | In an acyclic graph with one entry node every node is reachable from it. |
| Waves.MaxRunnableWidth | crates/chat/src/assistant/workflow/graph.rs:82-93 | The wave loop terminates on every finite graph and returns the specified width. |
| Waves.WaveIsLongestPath | crates/chat/src/assistant/workflow/graph.rs:66-93 | A node is in wave k exactly if the longest path into it has k arcs. |
| Waves.WavesDisjoint | crates/chat/src/assistant/workflow/graph.rs:66-93 | No node is in two waves. |
| Waves.WavesCoverIffAcyclic | crates/chat/src/assistant/workflow/graph.rs:82-93 | When the loop stops it has finished every node if and only if the graph has no cycle. |
| Waves.WidthIsWidestWave | crates/chat/src/assistant/workflow/graph.rs:82-93 | The returned width is the size of the largest of at most one wave per node. |
| Verifier.ReachabilityTestIsRedundant | crates/chat/src/assistant/workflow/verify.rs:91-112 | The reachability test never rejects a workflow that has passed the cycle and single-entry tests. |
| Verifier.AcceptedFitsIffNoWrap | crates/chat/src/assistant/workflow/verify.rs:118-140 | The declared totals of an accepted workflow really fit its caps exactly when none of the three sums wrapped. |
| Verifier.AcceptedWavesFit | crates/chat/src/assistant/workflow/verify.rs:136-138 | No wave of an accepted workflow is wider than its parallelism. |
| Verifier.AcceptedProducersComeFirst | crates/chat/src/assistant/workflow/verify.rs:280-327 | In an accepted workflow every producer of a binding exists and its consumer never leads back to it. |
| Verifier.AcceptedIsAuthorized | crates/chat/src/assistant/workflow/verify.rs:164-192 | In an accepted workflow every node with a query cost is bound to the caller's offices as an integer list, and the caller may use every capability and see what is required. |
| Verifier.AcceptedNeverWidens | crates/chat/src/assistant/workflow/verify.rs:306-325 | What an accepted binding reads is a slot of the same type, no more sensitive than its reader may see, which is no more than the workflow may show. |
| Acceptance.AcceptedIff | crates/chat/src/assistant/workflow/verify.rs:86-219 | For any workflow and any topological order: the verifier accepts it if and only if the workflow as a whole (graph, end, wrapped sums, widest wave) and every node of it are sound, described without the tests. |
| Acceptance.NodeIsSoundIff | crates/chat/src/assistant/workflow/verify.rs:153-216 | A node passes its tests if and only if its resources, references, permissions, offices, sensitivities and inputs are sound. |
| Acceptance.ResourcesExistIff | crates/chat/src/assistant/workflow/verify.rs:221-279 | The resource test passes if and only if the first records with the ids named exist, are approved and fit each other. |
| Acceptance.SourceIsSoundIff | crates/chat/src/assistant/workflow/verify.rs:280-326 | The source test passes if and only if an answer is that of an earlier question, and a slot one that an earlier node declares with that type and no more sensitivity than the reader may see. |
| Availability.DominatedBindingsAvailable | crates/chat/src/assistant/workflow/run.rs:566-620 | A node whose producers all dominate it is never started without its bindings, in any history, if completed producers leave the promised slot. |
| Supply.FedIsReady | crates/chat/src/assistant/workflow/run.rs:566-620 | A node that reads only from dominators that can provide what it reads finds its bindings, its sources and its branch cardinality in every kept table whose completed rows hold what others read from them. |
| Availability.AlwaysAfterIff | crates/chat/src/assistant/workflow/run.rs:464-532 | For an arbitrary executor, in a workflow that fits its caps and in which every node that something follows finds what it needs (branches, compositions, slot readers and cardinality conditions included): a node has always completed when another may run if and only if it is on every path there that some choice of cardinalities allows, where a choice is one per node and branches follow their sources. |
| Availability.DominanceByChoice | crates/chat/src/assistant/workflow/run.rs:521-532 | For any workflow: choices only take paths away, and without cardinality conditions being on every chosen path is dominance. |
| Availability.SteerTo | crates/chat/src/assistant/workflow/run.rs:464-532 | For an arbitrary executor, and whatever else the workflow holds: a chain of edges that one choice allows, over nodes that find what they need and that the budget admits, can be followed to its end while nothing outside it completes. |
| Availability.UnsureProducerIsMissed | crates/chat/src/assistant/workflow/run.rs:566-604 | In such workflows, with an arbitrary executor, for every binding whose producer is missed by some chosen path to its reader there is a history in which the reader may run and has no bindings. |
| Endings.RunEnds | crates/chat/src/assistant/workflow/run.rs:81-191 | Every run from rows none of which is open, whatever is answered, as long as nothing crashes beneath it (refusals, cancellations and missing values included), ends in one of five ways that its last batch alone decides: nothing was runnable, the budget starved it, an error if a node lacked a value, a failure if a node was refused or cancelled, else it waits at the first question asked. |
| Endings.NextRows | crates/chat/src/assistant/workflow/run.rs:142-169 | An iteration after which the run goes on adds exactly one row per node of its batch, completed with the redacted output, the rows and the duration of its reply. |
| Liveness.RunEndsWell | crates/chat/src/assistant/workflow/run.rs:81-191 | In a workflow that fits its caps and whose nodes read only from dominators that can provide it, a run in which nobody refuses, answers keep to the declared limits and stored rows hold what others read never ends in an error and never fails: it does all there is to do, or it waits at a question not answered before. |
| Liveness.RunCompletesAll | crates/chat/src/assistant/workflow/run.rs:81-191 | For any answers, in a graph that passes the verifier's tests and has no cardinality conditions: a run that completes has completed every node; one that waits does so at a new question; one that fails was starved, refused or cancelled; one that errs left a node without a value. |
| Liveness.ServedRunDoesNotFail | crates/chat/src/assistant/workflow/run.rs:126-141 | A run of a workflow that fits its caps, in which nobody refuses and answers keep to the declared limits, is neither starved nor cut short. |
| Dialogues.JobCompletesAll | crates/chat/src/assistant/workflow/run.rs:81-191 | If no two questions can fall in one batch (batches of one node, or one question dominates the other), a job is answered at most once per open question, however its runs and answers follow each other; the run after that waits only if some question is left, and if it completes, every node has. |
| Dialogues.SomeWorldServes | crates/chat/src/assistant/workflow/run.rs:197-297 | For every workflow and state there are turns in which nothing crashes and nobody refuses, so these statements are never empty. |
| Executor.ProjectResolvedSlots | crates/chat/src/assistant/workflow/node_executor.rs:211-230 | The loop copies every declared slot that the single row has to the top level of the output, and changes nothing else. |
| Executor.RefusedIff | crates/chat/src/assistant/llm/tool/data.rs:80-150 | A node the runner started, after its own policy check, is refused if and only if its time or rows are capped at zero, completed rows plus its queries exceed the query cap in wrapping sixteen-bit sums, or the database fails; else the runner gets the guarded rows and their number. |
| Executor.GuardPassesIff | crates/chat/src/assistant/llm/tool/data.rs:80-150 | For any request: the guard lets it through if and only if the first node with the id may run now, is of the kind asked for, allows the capability, caller, parameters, time and rows, and the completed rows with its queries fit the cap. |
| Executor.RowsAreReturned | crates/chat/src/assistant/workflow/node_executor.rs:176-195 | The rows reported for an answer are the length of its list of rows, and none if there is no such list. |
| Executor.SlotIffOneRow | crates/chat/src/assistant/workflow/node_executor.rs:176-195 | A declared slot of a probe can be read afterwards if and only if exactly one row came back and that row has it. |
| Executor.ProbeShowsCount | crates/chat/src/assistant/workflow/run/node/branch.rs:22-42 | A probe's completed row shows the number of its rows, unless a slot is named after the members a branch reads. |
| CompiledLiveness.CapabilityRunEnds | crates/chat/src/assistant/workflow/run.rs:81-191 | A run of a capability with at most one gadget ends, whatever was answered: at not found if the probe shows zero; in an error at the branch if it shows nothing; at the selection if it shows many and no answer came before; and wherever the query is reached, through the terminal if its bindings are there and in an error with the query left running if not. A question makes it wait until it is answered. It fails only if starved, refused or cancelled. |
| CompiledSessions.AcceptedIsMadeOf | crates/chat/src/assistant/workflow/verify.rs:86-349 | Every capability the verifier accepts, for any facts, has the parts those statements ask for: at most one gadget, a query that reads the slot of its probe and no other, and distinct ids. |
| CompiledSessions.AcceptedRunEnds | crates/chat/src/assistant/workflow/run.rs:81-191 | So every run of an accepted capability ends in exactly those ways. |
| CompiledSessions.AnsweredRunEnds | crates/chat/src/assistant/workflow/state.rs:402-495 | For any answers of the executor: the run after an accepted answer completes if and only if the query had its bindings when it was asked; otherwise it ends in an error with the query left running. |
| ExecutedSessions.ExecutedRunEnds | crates/chat/src/assistant/workflow/node_executor.rs:176-195 | With the repository's executor the rows decide: none ends the run at not found, several at the selection, and one completes it if that row has the slot the query reads and ends it in an error if not. |
| ExecutedSessions.ExecutedSessionEnds | crates/chat/src/assistant/workflow/run.rs:591-620 | With that executor the run after an accepted answer completes if and only if the answered gadget is a plain question; after a selection it ends in an error with the query left running, whatever was selected. It fails only if starved, refused or cancelled. |
| ExecutedSessions.AcceptedSessionEnds | crates/chat/src/assistant/workflow/run.rs:591-620 | The same for every capability the verifier accepts, for any facts. |
| FailedSelection.SelectionSessionFails | crates/chat/src/assistant/workflow/node_executor.rs:181-189 | Such a session exists for every capability that probes, once the guard lets the probe through and two rows fit: two rows, a wait at the selection, an accepted answer, and a run without any refusal that ends in an error. |
| GuardBudget.GuardNeeds | crates/chat/src/assistant/llm/tool/data.rs:126-136 | When a capability's query comes to its turn without a selection, the guard finds it over budget if and only if the cap is below one for itself, one more after a question, and two more after a probe and its branch. |
| GuardBudget.AdmittedYetRefused | crates/chat/src/assistant/llm/tool/data.rs:126-136 | Under a cap of two, which the declared queries of probe and query fit, the query is refused whatever the database would answer. |
| CompiledLiveness.CompiledIsFed | crates/chat/src/assistant/workflow/compile.rs:467-657 | In a compiled workflow with at most one gadget, whose bindings have sources the verifier accepts, every node reads only from dominators that can provide what it reads. |
| Gaps.AcceptedYetStarved | crates/chat/src/assistant/workflow/verify.rs:118-140 | Two timeouts of 2^63 ms wrap to zero: the workflow is accepted, and the runner then starts nothing and fails. |
| Gaps.AcceptedYetStranded | crates/chat/src/assistant/workflow/run.rs:566-604 | From an empty table, an accepted workflow of wave width one runs its entry, then the consumer before its producer: the whole run ends in an error, with the consumer's row left running and the producer never started. |
| Compiler.AcquisitionSource | crates/chat/src/assistant/workflow/compile.rs:383-663 | The strategy loop binds a parameter by the first strategy that decides and pushes exactly that strategy's nodes and edges. |
| Compiler.AcquisitionInputs | crates/chat/src/assistant/workflow/compile.rs:336-382 | The parameter loop yields the bound inputs and the nodes and edges of all gadgets, or the first error. |
| Compiler.Compile | crates/chat/src/assistant/workflow/compile.rs:183-285 | The capability path returns the specified workflow or error, in the order of the source's checks. |
| Acquisition.CapabilityCompilesIff | crates/chat/src/assistant/workflow/compile.rs:183-285 | The capability path succeeds if and only if there is an id, every id has an approved record and every parameter bound by the first approved record of the first id is acquired; otherwise the first unapproved id is the one reported. |
| Acquisition.QueryNodeIs | crates/chat/src/assistant/workflow/compile.rs:198-262 | The query node runs the capability's own query, dataset and shape, binds exactly the offices and the bound parameters, costs one query, and is capped by the capability's limit or a hundred rows and by the query's time or five seconds. |
| Acquisition.InputsExact | crates/chat/src/assistant/workflow/compile.rs:336-382 | The inputs are the offices and, for every parameter that its policy or the query requires, one with its type and the acquired source. |
| Acquisition.GadgetsExact | crates/chat/src/assistant/workflow/compile.rs:336-382 | The probes and questions put before the query are exactly those that some bound parameter needs. |
| Compilation.CompileProposal | crates/chat/src/assistant/workflow/compile.rs:156-285 | Both paths of compilation return the specified workflow or the first error, in the order of the source's checks. |
| Compilation.ResolveProposalResources | crates/chat/src/assistant/workflow/compile.rs:691-758 | The two loops return the first complaint about a capability or a node's resources. |
| Compilation.CapabilityPath | crates/chat/src/assistant/workflow/compile.rs:183-285 | A proposal without nodes compiles to exactly what its first capability compiles to. |
| Compilation.ProposalCompilesIff | crates/chat/src/assistant/workflow/compile.rs:163-182 | A proposal compiles if and only if its capabilities are approved, its nodes name known resources, every iteration may be expanded within the wrapped cost, and then every comparison compares like with like. |
| Compilation.NamesItsOwnIff | crates/chat/src/assistant/workflow/compile.rs:697-757 | A proposed node passes if and only if it names exactly the query and recipe of the first approved record of its capability, known resources, and as a probe a resolver or probe shape. |
| Compilation.FirstFaultReported | crates/chat/src/assistant/workflow/compile.rs:691-757 | Reported is the first capability without an approved record, or else the fault of the first node that does not name its own. |
| Compilation.ResourceErrorIs | crates/chat/src/assistant/workflow/compile.rs:697-769 | A node whose capability has no approved record names it in the error; every other fault is the same error. |
| Compilation.ResourcesVerifyIff | crates/chat/src/assistant/workflow/verify.rs:221-279 | For a node whose resources the compiler accepts, exactly what the verifier asks beyond it. |
| Compilation.CompiledResourcesVerifyIff | crates/chat/src/assistant/workflow/compile.rs:163-182 | The resources of a compiled proposal, copies included, pass the verifier if and only if those of the proposed nodes meet that. |
| Acquisition.AcquiredIsJustified | crates/chat/src/assistant/workflow/compile.rs:383-663 | An exact identifier is always bound out of band and nothing else ever is; every other binding is justified by the policy, the facts or the catalog. |
| Acquisition.ExactIffMarked | crates/chat/src/assistant/workflow/compile.rs:400-402 | A parameter is taken out of band if and only if a filter of the capability's recipe names it and the first dataset with the recipe's id has a filter of that id marked exact. |
| Acquisition.TakenByDefaultOrder | crates/chat/src/assistant/workflow/compile.rs:403-663 | Without an authored order: offices for their own name, else the default, else the first extracted field, else the first field the user said, else the safe prior, else the prior step, else the probe; a question only last and only if required. |
| Acquisition.TakenByAuthoredOrder | crates/chat/src/assistant/workflow/compile.rs:403-420 | An authored order is followed as written: the parameter is acquired as by the first of its strategies that alone would not leave it unsupported. |
| Acquisition.UnsupportedIff | crates/chat/src/assistant/workflow/compile.rs:419-663 | A parameter is unsupported if and only if none of its strategies has anything to offer. |
| Acquisition.RequiredIsAcquired | crates/chat/src/assistant/workflow/compile.rs:405-418 | With the default order of strategies a required parameter is never unsupported. |
| Acquisition.ProbeBuildsIff | crates/chat/src/assistant/workflow/compile.rs:467-504 | A probe is built if and only if its shape is a resolver or probe shape producing the slot, an approved capability selects exactly this dataset and shape, and the names fit. |
| Acquisition.ProbeIsBacked | crates/chat/src/assistant/workflow/compile.rs:455-540 | A built probe runs the first shape of the first dataset with the ids, carries the slot as that shape declares it, the id of the first approved capability with just this dataset and shape, and the caps of the shape and the dataset or their defaults. |
| CompiledAcceptance.CompiledShapeAcceptedIff | crates/chat/src/assistant/workflow/verify.rs:91-140 | A compiled workflow passes all whole-workflow tests if and only if at most one parameter took a probe or a question, the wrapped totals fit, and parallelism is at least two when there is a probe. |
| CompiledAcceptance.DiamondWidth | crates/chat/src/assistant/workflow/graph.rs:66-93 | The graph of a probe has waves up to two wide: the not-found terminal and the selection count together. |
| CompiledVerdict.CompiledAcceptedIff | crates/chat/src/assistant/workflow/verify.rs:86-349 | For any facts and topological order, the verifier accepts a compiled capability if and only if: at most one gadget; probe and query fit the caps (timeouts wrapped) and the parallelism; catalog record, query and recipe are found; the caller may use the capability and its probe's backing; every required parameter has a policy; each binding has a plain name, the query's type and a source in this workflow; and the probe has a resolver shape and a usable slot. |
| CompiledVerdict.SourceVerifiesIff | crates/chat/src/assistant/workflow/verify.rs:295-327 | Where a compiled binding may come from, for any facts: no node, a question of this workflow, or a probe of it with this slot, of the parameter's type and usable. |
| CompiledShape.CompiledGraph | crates/chat/src/assistant/workflow/compile.rs:183-285 | Any compiled workflow is acyclic with known edges; its ids are unique if and only if no two policies probe the same name and no two ask for the same name, and then it has one entry if and only if at most one parameter took a probe or a question. |
| CompiledShape.CompiledBindingsPrecede | crates/chat/src/assistant/workflow/compile.rs:467-657 | Without facts from earlier turns every node the query takes a value from precedes it in every topological order. |
| CompiledShape.CompiledClarificationsResume | crates/chat/src/assistant/workflow/compile.rs:584-656 | The resume node of every compiled clarification exists and is reachable from it. |
| CompiledShape.CompiledIsAcyclic | crates/chat/src/assistant/workflow/compile.rs:183-285 | Whatever was acquired and however, a compiled workflow has no cycle. |
| CompiledShape.CompiledIds | crates/chat/src/assistant/workflow/compile.rs:480-651 | The ids are exactly those of the gadgets, the query and the terminal, and are pairwise distinct if and only if no parameter is probed or asked for twice. |
| CompiledRuns.NotFoundExcludesQuery | crates/chat/src/assistant/workflow/compile.rs:537-552 | With one probe, the not-found terminal and the query are never both started in any history. |
| CompiledRuns.NotFoundMeansNoRows | crates/chat/src/assistant/workflow/compile.rs:537-606 | However many parameters are probed, a not-found terminal is started only if its own probe returned nothing. |
| CompiledRuns.QueryMeansFound | crates/chat/src/assistant/workflow/compile.rs:537-622 | With one probe the query is started only if the probe returned something. |
| CompiledRuns.BranchGuardsQueryIffAlone | crates/chat/src/assistant/workflow/compile.rs:537-546 | The branch of a probe guards the query if and only if the probe is the only gadget; a second one opens a way around it. |
| CompiledWiring.BranchIsWired | crates/chat/src/assistant/workflow/compile.rs:543-622 | A compiled branch declares what its edges do: it decides on a probe, its arms lead to a not-found terminal, the query and a selection among that probe's rows, and no other edge leaves it. |
| CompiledWiring.QuestionIsWired | crates/chat/src/assistant/workflow/compile.rs:585-660 | A compiled question is the selection of a branch or asks for fields, and once answered leads to the query alone. |
| CompiledWiring.CompiledContract | crates/chat/src/assistant/workflow/compile.rs:244-285 | A compiled workflow fails fast, shows no partial results and nothing above personal data, keeps the caps given, and completes after its query only. |
| CompiledWiring.NodesAreDeclared | crates/chat/src/assistant/workflow/compile.rs:505-660 | Only probes and queries run once, spend and need a capability; only questions may be asked again; no node sees above personal data. |
| CompiledShape.ProbeVerifiesIffResolver | crates/chat/src/assistant/workflow/verify.rs:261-275 | The compiler also probes with shapes of role probe; the verifier accepts the node if and only if the shape is a resolver. |
| Iteration.ExpandIteration | crates/chat/src/assistant/workflow/compile.rs:771-864 | The expansion loops return the specified workflow or the error of the first objection. |
| Iteration.MultiplyEdges | crates/chat/src/assistant/workflow/compile.rs:833-852 | The nested loops produce every combination of source and target copies, in order. |
| Iteration.CopyIdInjective | crates/chat/src/assistant/workflow/compile.rs:813-818 | Copies of different nodes and different copies of a node never share an id. |
| Iteration.DecimalReadsBack | crates/chat/src/assistant/workflow/compile.rs:813-818 | The number in a copy's name reads back as that number and has no leading zero. |
| Expansion.ExpandSucceedsIff | crates/chat/src/assistant/workflow/compile.rs:777-860 | Expansion succeeds if and only if every iterated query fits the budget, can only be iterated (no grouped shape, a listable filter), can name its copies, and the wrapped cost fits; ids may repeat. |
| Expansion.ObjectionIs | crates/chat/src/assistant/workflow/compile.rs:783-812 | Why a query is not expanded: a bound of zero or above the query budget, else a shape that groups by the slot, of which the first is named, else any other fault. |
| Expansion.FirstObjectionReported | crates/chat/src/assistant/workflow/compile.rs:777-860 | The error reported is that of the first query that may not be expanded, or else of the wrapped cost. |
| Expansion.ExpandedNodes | crates/chat/src/assistant/workflow/compile.rs:777-828 | After expansion there are exactly the kept nodes and the copies; a copy has its own id and no iteration, and in resources, inputs, outputs, policy and budget is what its query is. |
| Expansion.ExpandedInOrder | crates/chat/src/assistant/workflow/compile.rs:777-828 | The nodes keep their order, and the copies of one query follow each other by number. |
| Expansion.ExpandedIdsUnique | crates/chat/src/assistant/workflow/compile.rs:777-828 | Expansion keeps ids unique if and only if no copy takes the id of a kept node. |
| Expansion.NoClashIffIdsUnique | crates/chat/src/assistant/workflow/compile.rs:777-828 | The condition of the next rows, that the id of a copy is in use at most by a node that is itself replaced: for known edges it holds if and only if the ids after expansion are unique. |
| Expansion.ExpansionFolds | crates/chat/src/assistant/workflow/compile.rs:833-852 | If no copy id clashes: between nodes of the expanded workflow there is an edge with a condition exactly when there is one between the nodes they stand for. |
| Expansion.FoldIsOnto | crates/chat/src/assistant/workflow/compile.rs:777-828 | If no copy id clashes, every original node has a copy that folds back to it. |
| Expansion.ExpansionKeepsAcyclicity | crates/chat/src/assistant/workflow/compile.rs:771-864 | If no copy id clashes, expansion neither makes nor breaks a cycle. |
| Expansion.EntriesFold | crates/chat/src/assistant/workflow/compile.rs:833-852 | If no copy id clashes, the entry nodes after expansion are the copies of the entry nodes before it. |
| Expansion.IteratedEntryIsRejected | crates/chat/src/assistant/workflow/verify.rs:101-107 | In a workflow of known edges, iterating the entry node more than once is never accepted by the verifier, whatever the copies are called. |
| Expansion.MentionOfIteratedIsRejected | crates/chat/src/assistant/workflow/verify.rs:150-162 | Only edges are rewritten: a node that still refers to an iterated query, whose id no copy took, keeps the expanded workflow from ever being accepted. |
| Expansion.IteratedIdIsGone | crates/chat/src/assistant/workflow/compile.rs:777-828 | The id of an iterated query is an id of the expanded workflow if and only if a copy of another one took it. |
| Expansion.ExpansionCost | crates/chat/src/assistant/workflow/compile.rs:853-860 | Each query is paid once per copy; if anything was expanded the total fits the query budget exactly when the u16 sum did not wrap. |
| Expansion.OverspendingExpansion | crates/chat/src/assistant/workflow/compile.rs:853-860 | A workflow whose wrapped cost passes although its queries cost far more than the budget. |
| Expansion.ExpansionIsIdempotent | crates/chat/src/assistant/workflow/compile.rs:829-832 | Expanding twice is expanding once. |
| Comparisons.CheckComparisonFacts | crates/chat/src/assistant/workflow/compile.rs:291-322 | The loops return the specified verdict of the first failing comparison. |
| Comparisons.FactsExact | crates/chat/src/assistant/workflow/compile.rs:306-334 | The facts compared are, for client_id, office_ids, product_ids, from_date and to_date, the source of the last binding of the name. |
| Comparisons.ComparisonsAgree | crates/chat/src/assistant/workflow/compile.rs:287-322 | The check passes if and only if in every comparison every two sources exist, by the first node with the id, and their last bindings of the five names come from the same places. |
| Comparisons.WhyItFails | crates/chat/src/assistant/workflow/compile.rs:296-320 | A comparison fails at its first source that is missing or unlike the ones before it, and which of the two decides the error. |
| Comparisons.FirstFailureReported | crates/chat/src/assistant/workflow/compile.rs:291-296 | What is reported is the failure of the first comparison that fails. |
| Comparisons.ComparisonOfIteratedFails | crates/chat/src/assistant/workflow/compile.rs:300-305 | A comparison over an iterated query, whose id no copy took, never compiles. |
| Comparisons.CompiledPassesThrough | crates/chat/src/assistant/workflow/compile.rs:264-285 | On the capability path the two last stages return the workflow as assembled. |
| Merging.Merge | crates/chat/src/assistant/retrieval/engine.rs:361-387 | Each id once, with the first item attaining its best score, by non-increasing score, ties in first-seen order. |
| Merging.MergeIsDetermined | crates/chat/src/assistant/retrieval/engine.rs:361-387 | That promise leaves exactly one result. |
| Merging.MergeIsIdempotent | crates/chat/src/assistant/retrieval/engine.rs:361-387 | A merged list is its own and only merge. |
| Planner.CollectInputs | crates/chat/src/assistant/context/clarification_planner.rs:144-167 | The loop collects the specified inputs. |
| Planner.RequiredInputsExact | crates/chat/src/assistant/context/clarification_planner.rs:144-167 | Exactly the inputs from which a required parameter, not provided by the scope or a sensitive input, takes its value, the first that lists it, are collected, each once by id. |
| Planner.MissingExact | crates/chat/src/assistant/context/clarification_planner.rs:125-130 | The missing fields are exactly the unsatisfied inputs, with distinct keys. |
| Planner.LiftedIffAskedByAll | crates/chat/src/assistant/context/clarification_planner.rs:312-338 | A question is lifted if and only if every candidate asks it. |
| Planner.CandidatesAreWellMade | crates/chat/src/assistant/context/clarification_planner.rs:112-136 | No candidate asks for one key twice. |
| Planner.LiftingLosesNothing | crates/chat/src/assistant/context/clarification_planner.rs:73-110 | For every option, its missing questions are, counted with multiplicity, the shared ones plus its own. |
| Planner.KeysAskedOnce | crates/chat/src/assistant/context/clarification_planner.rs:84-91 | No key is asked both in common and by an option, not even with other constraints. |
| Planner.CompleteIffSatisfied | crates/chat/src/assistant/context/clarification_planner.rs:56-61 | A single candidate completes without a question if and only if all inputs it needs are satisfied. |
| Planner.PlanOfReport | crates/chat/src/assistant/context/clarification_planner.rs:56-72 | A single report completes under its own id if every input it needs has an answer; otherwise exactly the ids without one are asked for, each once. Its own defaults are approved. |
| Planner.PlanOfOne | crates/chat/src/assistant/context/clarification_planner.rs:56-72 | One candidate is asked for exactly the fields it misses, in their order, or completes under its id. |
| Planner.PlanOfMany | crates/chat/src/assistant/context/clarification_planner.rs:73-110 | Any other number of candidates is a choice: one option for each in their order and last one further option without fields; shared fields are those of the first candidate. |
| Planner.ApprovesLargestCommon | crates/chat/src/assistant/context/clarification_planner.rs:295-311 | Every branch approves the largest patch that the defaults of all candidates contain. |
| Planner.AskedIff | crates/chat/src/assistant/context/clarification_planner.rs:112-136 | A report asks for an id if and only if it needs it and neither the facts nor the approved default answer it: two dates, a counted limit, or a person. |
| Planner.MissingInOrder | crates/chat/src/assistant/context/clarification_planner.rs:125-130 | Missing inputs are asked for in the order in which they were collected, with their caption, kind and need, and the date range with the days already known. |
| Planner.AnswerableIff | crates/chat/src/assistant/context/clarification_planner.rs:202-252 | There are facts that satisfy an input if and only if it is the date range, the limit or the search. |
| Planner.ApprovedIff | crates/chat/src/assistant/context/clarification_planner.rs:169-200 | A default limit is approved if and only if the report has one, needs the limit, and the report and the first input for it allow the value; it then says how many, and whether of the top. |
| Planner.ApprovedLimitAnswers | crates/chat/src/assistant/context/clarification_planner.rs:169-200 | A default limit is approved only within the bounds of report and input, and then answers the limit question unless a stated fact hides it. |
| Calendar.NumbersOrderDates | crates/chat/src/assistant/understanding/resolver.rs:106-138 | Day numbers order dates and identify them, across month lengths and leap years. |
| Calendar.PlusDaysNumber | crates/chat/src/assistant/understanding/resolver.rs:111-122 | Moving by days moves the day number by as many, in either direction. |
| Calendar.CalendarIsAnchored | crates/chat/src/assistant/understanding/resolver.rs:151-169 | Month lengths and leap years are those of the calendar, and two known days are Mondays. |
| Resolver.RangeIsExact | crates/chat/src/assistant/understanding/resolver.rs:106-138 | Every resolved hint is an ordered range of real dates up to today at most, holding exactly the days its words mean. |
| Resolver.LastMeetsThis | crates/chat/src/assistant/understanding/resolver.rs:111-135 | Yesterday, last week, last month and last year each end the day before the present period begins. |
| Resolver.Resolve | crates/chat/src/assistant/understanding/resolver.rs:41-83 | The policy loop fills a name by its last policy that can be filled, hint before default, and lists the required policies it could not fill in their order; with distinct names every policy gets what the next row promises. |
| Resolver.ResolvedAsPromised | crates/chat/src/assistant/understanding/resolver.rs:41-149 | With distinct names a parameter gets what a trusted hint says (the first and last day its words mean, no bound, or a number), else what its default stands for, else nothing and is reported if required; nothing else is filled or reported. |
| Resolver.QuantityIsExact | crates/chat/src/assistant/understanding/resolver.rs:140-149 | A bound on rows is lifted by a hint exactly for a trusted "all", and is a number from the hint exactly for a trusted "top" or "limit" with that number. |
| Resolver.HintSaysIff | crates/chat/src/assistant/understanding/resolver.rs:85-104 | A hint fills a name with a value exactly when that is what it says: an end of the period that its words mean, or a bound on rows. |
| Resolver.ReportedInOrder | crates/chat/src/assistant/understanding/resolver.rs:74-76 | Names are reported in the order of the policies, each as often as a required policy of it has neither hint nor default. |
| Resolver.EndsAgree | crates/chat/src/assistant/understanding/resolver.rs:85-104 | Both ends of the period come from the same source; from a hint they form an ordered range ending no later than today. |
| Resolver.DefaultsAreDates | crates/chat/src/knowledge/catalog/parameter_policy.rs:127-149 | Every relative date default is a real date, and only the end of the month may lie after today. |
| Resolver.DefaultsAreExact | crates/chat/src/knowledge/catalog/parameter_policy.rs:127-149 | What each default yields: today, so many days, months or years before with clamped month ends and leap days, the ends of the month, no bound, the caller's offices, or the literal number or date. |
| ContextWindow.Trim | crates/chat/src/assistant/context/builder.rs:136-139 | The loop keeps exactly the longest suffix that fits beside the fixed part, or nothing, and the estimate is always exact, so the saturating subtraction never saturates. |
| ContextWindow.Build | crates/chat/src/assistant/context/builder.rs:61-152 | Which messages and jobs are kept and which warning is given, for every input and every pair of limits: the first jobs and the newest messages that the counts allow, trimmed to the longest end that fits. |
| Paging.List | crates/chat/src/management/knowledge.rs:49-83 | One request, for any limit: the page after the cursor in the sorted selection, its next cursor, the invalid-cursor error, or the panic of an empty first page. |
| Paging.SortSorts | crates/chat/src/management/knowledge.rs:60-60 | Sorting by id orders the items and loses none. |
| Paging.BelowIsLexicographic | crates/chat/src/management/knowledge.rs:60-60 | The order of ids is that of dictionaries: the smaller character at the first difference, or the end, comes first. |
| Paging.FollowingVisitsAll | crates/chat/src/management/knowledge.rs:62-75 | Following the cursors visits the sorted items once each and in order, whatever the page sizes, and never meets an invalid cursor. |
| Paging.EmptyPagesNeverAdvance | crates/chat/src/management/knowledge.rs:62-75 | A limit of zero panics on the first page of a non-empty listing and otherwise returns the caller's own cursor until nothing is left. |
| Paging.PagingIsComplete | crates/chat/src/management/knowledge.rs:49-83 | Over unique ids, following the cursors visits exactly the entries whose own status text and domain were asked for, shown by their own id, status and domain, each once, by strictly increasing id. |

## Left out

- Runner.WorkflowRunner.RunBatch: nodes of a batch run concurrently in the source; the model appends their rows in batch order. That the order of rows does not matter is proved (`Scheduler.OrderIsIrrelevant`, `Ledger.LedgerOrderIrrelevant`).
- Runner.WorkflowRunner.RunNode: any node may be cancelled at any time, which is more than the source allows, where only a failing sibling cancels. Composition itself is the executor's reply; only the presence of its sources is modelled. The `i16` attempt counter and the cap of `elapsed_ms` at the largest `i32` are unbounded here.
- Runner.WorkflowRunner.Run: two concurrent calls on one job are not modelled, nor is the bail-out for an execute-once node reached twice, which cannot happen because completed nodes are never runnable.
- Ledger.AdmittedFits: the query and row counters are unbounded, since adding `u8` and `u32` values cannot overflow a `u64` counter in practice; only the sum with a declared timeout, an arbitrary `u64`, wraps.
- Store.WorkflowStateRepository.MarkWorkflowPaused: the JSON runtime state (`budget_consumed`, selected value, waiting node) is not modelled; the source overwrites it on pause and resume. Events and checkpoints are not modelled either.
- History.HistoryKeepsInvariant: other writers of the job row appear only as arbitrary changes of its status, memory row and pending clarification.
- Waves.WidthIsWidestWave: the theorems on waves are stated for graphs without repeated ids; with repeated ids the verifier rejects the workflow before it counts waves.
- Verifier.AcceptedProducersComeFirst: `Verify` is a specification over path-defined cycles and reachability and over any topological order, since the graph library itself is not part of this model.
- Compilation.CompileProposal: the choice among several candidate capabilities, which comes before compilation, is not modelled.
- Availability.AlwaysAfterIff: a node that something follows and that is itself started without what it reads, a terminal or a sensitive field that hides its cardinality from a condition, and budgets that starve a node are left out of the equivalence; from dominance the direction holds for every workflow (`History.DominatorsHaveCompleted`).
- Availability.SteerTo: the histories are those of an arbitrary executor, whose outputs may carry a cardinality and any slot; the executor of the repository shows cardinalities by row counts alone and never fills the slots of queries.
- Executor.RefusedIff: what the database answers, and within which time and how many rows, is arbitrary; the count of returned rows is unbounded, where the source casts it to an `i32`. The wording and the options of questions are left out.
- ExecutedSessions.ExecutedRunEnds: is stated for slots not named after the members that the runner reads of an output (the wrapper of the rows, `cardinality`, `row_count`); with such a name a branch would read the slot as its decision.
- FailedSelection.SelectionSessionFails: the run after the answer is one of the same workflow, as `run` and `resume` provide it; the production path compiles a workflow with a new id on every execution.
- Dialogues.JobCompletesAll: questions that may be asked in one batch are left out, since all but the first are then lost (`Pauses.UnrecordedQuestionIsLost`).
- CompiledShape.CompiledBindingsPrecede: is stated without facts of earlier turns, whose bindings name other nodes; `CompiledVerdict.CompiledAcceptedIff` covers them.
- Expansion.ExpansionFolds: is stated for workflows in which no copy takes an id in use by a node that stays; otherwise ids repeat (`Expansion.NoClashIffIdsUnique`) and the verifier rejects the result.
- Merging.Merge: scores are real numbers; signed zeros and not-a-number values, which the comparison and the sort treat differently, are left out. The library sort is written as an insertion.
- Resolver.RangeIsExact: years are unbounded, so the fallbacks at the limits of the date library do not occur; the confidence is a real number compared with 0.7.
- ContextWindow.Build: token counts are natural numbers given by the caller; splitting text into words and overflow of the total are left out.
- Paging.List: titles and execution modes are carried along unread.
- Planner.PlanOfReport: looking candidates up in the catalog and the wording of labels and descriptions are left out.
- The production path compiles, installs and runs a workflow without calling the verifier; theorems about accepted workflows therefore say nothing about it, while those of `History`, `Pauses` and `BudgetSafety` need no acceptance.
- The statements behind the data tools, dataset composition, SQL, HTTP, prompts, authorisation internals and configuration are not part of this model.
