# Verified model of the workflow execution engine

The project models how the Assemblix engine runs a saved workflow: a directed graph of nodes,
joined by edges, that a run walks from START to an END. Around that core it models the small
stateful components with a sharp specification.

| part | files |
|---|---|
| graph theory and entities | `Workflow`, `Collections`, `Digraph` |
| fork/join scheduler: tokens, joins, dead paths, loops | `DagModel` (functions on values), `Scheduler` (the object, updated in place), `BackEdges` (depth-first search) |
| runs of the scheduler | `DagRuns`, `Confluence`, `DanglingEdges`, `JoinBarrier`, `LoopJoins`, `CompletionCounts` |
| static checks and what they guarantee | `GraphAnalysis`, `Tarjan`, `JoinInLoop`, `ParallelEnds` |
| traversal and the two executor loops | `Navigator`, `EngineAgreement`, `Execution`, `SequentialEngine`, `SequentialStory`, `ParallelEngine`, `ParallelOutcome`, `Executor` (which loop runs), `Routing` (how a node is left) |
| crash-resume | `Resume`, `ResumeLimits` |
| streaming buffer, concurrency limiter, rate limiters | `StreamBuffer`, `Semaphore`, `RateLimit` |
| state writes, expression cache, silence meter, monthly grant | `StatePaths`, `JsonTrees`, `SetVariable`, `CelCache`, `LeadingSilence`, `Grants` |

## How to read it

A run is a sequence of events: some node in flight finishes, in any order and with any outcome
(`DagRuns.Drive`). Nothing is assumed of node bodies; they may read state that other branches write.
Results that compare runs speak of an account of what nodes did (`Confluence.Explains`); where bodies
are functions of their input, the bodies are that account. The scheduler's recursion (deliver a token,
fire the target, propagate death) is worked off as an agenda of deliveries in the order the recursion
makes them; the class `DagScheduler` is the object itself and is proved against that machine method by
method.

What the code does not enforce and a result needs is a precondition of that result:

- Exactly once and confluence: START reaches no cycle, reachable nodes other than START are entered
  from reachable nodes only, reachable END nodes lead nowhere. The scheduler keeps edges from missing or
  unreachable sources and waits for them for ever; `DanglingEdges` proves that this is exactly when nodes
  stay unresolved.
  At most once (`Confluence.NodesRunOnce`) needs the first of these only. Two runs end alike when nodes
  launched in both did the same; node bodies that read the shared state need not.
- Static check of parallel ENDs: routers choose a branch and other nodes do not; no two edges of one
  exit lead to one target, or, on acyclic workflows, each exit has its edges to one target.
- Engine agreement: no fork and no join, existing sources, and clear exits. For one call
  `CompleteAgrees` proves that an unambiguous exit is necessary as well as sufficient.
- Resume: compared with the run of the sequential loop, which resumes every execution.
  `Executor.ExecutionLoop` says for which workflows that loop is also the one that ran before.

Where a claim turned out wider than the code, the code was kept:

- `ensure_current_period` is documented as idempotent within a period. It is not for periods started
  on day 29 to 31; `Grants.SecondGrantIff` says exactly when a second grant happens.
- The semaphore's key expiry is set from the latest acquire's own hold. Two holds that differ by more
  than a second break the cap; `Semaphore.LimitHoldsIff` is the exact condition.
- A resumed run starts its per-node counters at zero, reads its predecessor's output without audio,
  and cannot write a COMPLETED row under a number a FAILED row already has. `Resume.ResumeSimulates`
  and `Resume.ResumePointIsPosition` state each as an exact condition;
  `ResumeLimits.ResumeResetsCounters`, `AudioIsLost` and `LeftoverKeepsRowOut` are runs in which each
  shows, and `SparedResumeIsSame` is a condition known beforehand under which the counters do not. A run
  resumed after its END returns an empty output instead of the END's (`Resume.FinishedRunResumesEmpty`).
- A nested update below a top-level key that the same node set to null is refused, where the same
  write on the state would create the dict (`StatePaths.UpdatesAreFold`, `StatePaths.FreshNullIsRefused`).
- A segment of a variable name may end in a line break, since the pattern's `$` matches before it.
  `SetVariable.IdentifiersIffNoLineBreak` says exactly when, `SetVariable.LineBreakIsAccepted` gives a name.
- A join inside a loop can wait for ever in a later round, since a pruned node is never pruned again
  (`LoopJoins.SecondPruneStarves`); `LoopJoins.JoinFollowsPredecessors` bounds how often it runs.

## Model

| member | source | states |
|---|---|---|
| Scheduler.TraversedEdges | assemblix-app-api/assemblix_api/execution/dag_scheduler.py:84-86 | The edges a scheduler keeps are those of the workflow with an existing target and no self-loop, and it keeps no others; `TraversedByPosition` says how often and in what order. |
| Scheduler.TraversedByPosition | assemblix-app-api/assemblix_api/execution/dag_scheduler.py:82-86 | The edges kept stand at strictly increasing positions of the workflow's edge list, and every position whose edge has an existing target and no self-loop occurs exactly once. |
| Scheduler.DagScheduler.constructor | assemblix-app-api/assemblix_api/execution/dag_scheduler.py:78-107 | A new scheduler holds no token, output or dead node; its edges are those positions of the workflow's edge list with an existing target and no self-loop, each once and in order; its back-edges are those of a search that satisfies `SearchResult`. |
| Scheduler.DagScheduler.Complete | assemblix-app-api/assemblix_api/execution/dag_scheduler.py:115-171 | New tables, ready list and live count are those of the agenda machine `DagModel.Complete`; a terminal or leaf node only records its output. |
| Scheduler.DagScheduler.Deliver | assemblix-app-api/assemblix_api/execution/dag_scheduler.py:175-179 | One token and everything it sets off is one agenda entry worked off; nothing else changes. |
| Scheduler.DagScheduler.MaybeFire | assemblix-app-api/assemblix_api/execution/dag_scheduler.py:181-201 | A node waits, runs or dies as its table says; the recursion through dead nodes terminates by the nodes not yet dead. |
| Scheduler.DagScheduler.PropagateDead | assemblix-app-api/assemblix_api/execution/dag_scheduler.py:203-212 | A node dies once, sends DEAD on each forward out-edge, and is silent when already dead. |
| Scheduler.DagScheduler.MergeOutputs | assemblix-app-api/assemblix_api/execution/dag_scheduler.py:192-197 | The input of a join is the overlay of its LIVE predecessors' outputs in edge order. |
| DagModel.AgendaByPosition | assemblix-app-api/assemblix_api/execution/dag_scheduler.py:140-170 | A completion delivers LIVE on each edge taken and on no other; DEAD on each forward edge not taken when the node is a router that took no back-edge, and on no other; every edge at most once. |
| DagModel.BarrierIsFullness | assemblix-app-api/assemblix_api/execution/dag_scheduler.py:185-188 | Comparing the number of tokens with the number of forward in-edges decides exactly whether every one of those edges has a token. |
| CompletionCounts.LiveCountIsPositions | assemblix-app-api/assemblix_api/execution/dag_scheduler.py:144-170 | The live count of a completion is the number of positions of the workflow's own edge list whose edge may be followed by that branch. |
| CompletionCounts.ReactivationsArePositions | assemblix-app-api/assemblix_api/execution/dag_scheduler.py:144-170 | A completion re-activates as many nodes as there are positions of the workflow's edge list whose edge may be followed and is a back-edge. |
| BackEdges.ComputeBackEdges | assemblix-app-api/assemblix_api/execution/dag_scheduler.py:214-243 | The iterative search marks exactly the edges whose reachable source finishes before its target; each marked edge's target reaches its source, and nothing is marked exactly when no reachable node is on a cycle. |
| BackEdges.ForwardEdgesAreAcyclic | assemblix-app-api/assemblix_api/execution/dag_scheduler.py:214-243 | Reverse finishing order sorts the remaining edges between reachable nodes topologically, so they close no cycle. |
| BackEdges.BackEdgeClosesCycle | assemblix-app-api/assemblix_api/execution/dag_scheduler.py:27-31 | Every back-edge lies on a real cycle of the workflow. |
| BackEdges.NoBackEdgesIffAcyclic | assemblix-app-api/assemblix_api/execution/dag_scheduler.py:214-243 | A workflow has a back-edge if and only if some node reachable from START is on a cycle. |
| Confluence.EveryRunEndsAsFated | assemblix-app-api/assemblix_api/execution/dag_scheduler.py:115-212 | Acyclic workflow whose reachable nodes are entered from reachable ones; any completion order and any outcomes, so node bodies may read state other branches write: the run ends, each reachable node ran exactly once on its fated input or is dead, never both, and no token is left. The fate of a node is a recursion over the graph from what the nodes of the run did, and mentions no order. |
| Confluence.EndedRunIsFated | assemblix-app-api/assemblix_api/execution/dag_scheduler.py:115-212 | The same for every account that fits what the nodes of a finished run did; for bodies that are functions of their input the account is the bodies, and the end does not depend on the run at all. |
| Confluence.NodesRunOnce | assemblix-app-api/assemblix_api/execution/dag_scheduler.py:115-212 | Any workflow without reachable cycles, dangling edges and END nodes with successors included: at no point of any run has a node been launched twice, or both launched and pruned, and only reachable nodes are. |
| Confluence.RunsAgree | assemblix-app-api/assemblix_api/execution/dag_scheduler.py:115-212 | Two runs of such a workflow in which each node launched in both on the same input did the same there have run the same nodes on the same inputs and pruned the same nodes. The condition is needed: a body that reads the workflow state may do different things in different orders. |
| Confluence.FinishKeeps | assemblix-app-api/assemblix_api/execution/dag_scheduler.py:115-171 | The invariant survives the completion of any pending node that does what the account says. |
| Confluence.AnyFinishKeeps | assemblix-app-api/assemblix_api/execution/dag_scheduler.py:115-171 | The invariant survives any completion of any pending node, the account being extended by it: what happened so far does not depend on what unfinished nodes will do. |
| DanglingEdges.BlockedNeverResolves | assemblix-app-api/assemblix_api/execution/dag_scheduler.py:84-86 | Where no back-edge exists, a node with an in-edge from a node START does not reach is never run and never pruned, in no run; nor is a node START does not reach. |
| DanglingEdges.ResolvedIffNothingDangles | assemblix-app-api/assemblix_api/execution/dag_scheduler.py:84-107 | In any run, of any outcomes, of an acyclic workflow whose reachable ENDs lead nowhere, every reachable node gets resolved if and only if every edge into one of them, START excepted, has a reachable source. Edges among unreachable nodes do not matter. |
| JoinBarrier.BarrierHolds | assemblix-app-api/assemblix_api/execution/dag_scheduler.py:175-212 | Every graph and every run, loops included: a log explains every launch; a node fired through tokens had one on every forward in-edge, at least one LIVE, and got the merge of their outputs; a pruned node had DEAD on all; between calls no barrier is complete. |
| JoinBarrier.FinishBarrier | assemblix-app-api/assemblix_api/execution/dag_scheduler.py:115-171 | One completion keeps log, tables and barrier rule in step. |
| LoopJoins.JoinFollowsPredecessors | assemblix-app-api/assemblix_api/execution/dag_scheduler.py:175-212 | Every graph and every run, loops included: a node other than START that no back-edge re-activates has been launched no more often than each predecessor over a forward edge has finished, plus one if that predecessor was pruned; pruning counts once in a whole run because dead nodes stay dead. |
| LoopJoins.SecondPruneStarves | assemblix-app-api/assemblix_api/execution/dag_scheduler.py:203-212 | A run that shows it, on a graph whose back-edge is the one its search marks (`RoutedSearch`): in the second round of a loop the node already dead passes nothing on, and the join behind it keeps a LIVE token for ever with nothing in flight. |
| LoopJoins.RoutedIsFlagged | assemblix-app-api/assemblix_api/execution/graph_analysis.py:149-165 | The join that starves there is one the check of joins in loops reports. |
| GraphAnalysis.ValidEdges | assemblix-app-api/assemblix_api/execution/graph_analysis.py:28-37 | The edges checked are those with existing source and target and no self-loop. |
| GraphAnalysis.ValidByPosition | assemblix-app-api/assemblix_api/execution/graph_analysis.py:28-37 | They stand at strictly increasing positions of the workflow's edge list, each such position once. |
| GraphAnalysis.OutAdjacency | assemblix-app-api/assemblix_api/execution/graph_analysis.py:40-44 | The successor lists represent exactly the arcs of the edge list. |
| GraphAnalysis.ReachableEnds | assemblix-app-api/assemblix_api/execution/graph_analysis.py:47-60 | The worklist finds exactly the END nodes reachable from its start. |
| GraphAnalysis.DetectParallelEnds | assemblix-app-api/assemblix_api/execution/graph_analysis.py:63-99 | Reports exactly the ENDs below an AND-split two of whose branches lead to ENDs and below which there are two different ENDs. |
| GraphAnalysis.EndsOfSplit | assemblix-app-api/assemblix_api/execution/graph_analysis.py:82-98 | Counting contributing branches and ends decides exactly whether a split races. |
| Tarjan.NodesOnCycle | assemblix-app-api/assemblix_api/execution/graph_analysis.py:102-146 | Without self-loops the iterative search returns exactly the nodes on a directed cycle, and terminates. |
| Tarjan.Explore | assemblix-app-api/assemblix_api/execution/graph_analysis.py:111-146 | Exploring from one root settles everything reachable from it: visited, components closed, results exact so far. |
| JoinInLoop.DetectJoinInLoop | assemblix-app-api/assemblix_api/execution/graph_analysis.py:149-165 | Reports exactly the nodes with two different predecessors that lie on a cycle. |
| JoinInLoop.CyclesPassThroughStart | assemblix-app-api/assemblix_api/execution/graph_analysis.py:149-165 | When nothing is reported, every cycle reachable from START passes through START. |
| JoinInLoop.EntryIsJoin | assemblix-app-api/assemblix_api/execution/graph_analysis.py:149-165 | The node where a walk from START first meets a cycle without START is a join on a cycle. |
| ParallelEnds.NoTwoEnds | assemblix-app-api/assemblix_api/execution/graph_analysis.py:63-99 | When nothing is reported, no run of the scheduler, loops included and in any completion order, ever has two different ENDs ready or finished; each exit of a node has one edge per target. |
| ParallelEnds.NoTwoEndsAcyclic | assemblix-app-api/assemblix_api/execution/graph_analysis.py:63-99 | The same on workflows without reachable cycles where a handle has one target, any number of edges to it; any outcomes that fit the node types, dangling sources included. |
| Navigator.FindStartNodeIffUnique | assemblix-app-api/assemblix_api/execution/graph_navigator.py:19-43 | A start node is found if and only if exactly one position of the node list holds a START; none and several are the two errors. |
| Navigator.ManyStartsAreNamed | assemblix-app-api/assemblix_api/execution/graph_navigator.py:33-41 | Several START nodes are an error exactly when two positions hold one, and it names the ids of all of them and no others. |
| Navigator.FindNextNode | assemblix-app-api/assemblix_api/execution/graph_navigator.py:46-111 | The next node is the target of the first edge that leaves by the branch, exists and is no self-loop; None exactly when there is no such edge. |
| Navigator.FindNextNodes | assemblix-app-api/assemblix_api/execution/graph_navigator.py:114-147 | All successors, each once, in the order of their first edges; the first of them is what `FindNextNode` gives a plain node. |
| Navigator.HasParallelism | assemblix-app-api/assemblix_api/execution/workflow_executor.py:545-568 | True exactly when a plain node has two different successors or a node has two different predecessors. |
| EngineAgreement.EnginesAgree | assemblix-app-api/assemblix_api/execution/workflow_executor.py:522-568 | Where the executor picks the sequential engine, the scheduler driven through any typed script, loops included, has run the same nodes on the same inputs in the same order, has exactly the sequential engine's current node in flight, and holds no token. |
| EngineAgreement.CompleteAgrees | assemblix-app-api/assemblix_api/execution/dag_scheduler.py:115-171 | From empty tables, one call readies exactly the target of the first selected edge, or nothing when none is selected, and leaves every table empty, if and only if the exit is unambiguous: all edges taken lead to one target, and a back-edge is taken alone. |
| EngineAgreement.NextIsFirstSelected | assemblix-app-api/assemblix_api/execution/graph_navigator.py:46-111 | What the sequential engine follows is the first edge the scheduler selects. |
| EngineAgreement.AgreementNeedsSameExit | assemblix-app-api/assemblix_api/execution/dag_scheduler.py:115-171 | The converse on its own, for any graph the search has classified, joins included: agreement with empty tables afterwards implies an unambiguous exit. |
| EngineAgreement.SharedLoopRunsTwice | assemblix-app-api/assemblix_api/execution/dag_scheduler.py:140-170 | Two back-edges in one exit make two nodes ready where the sequential engine steps to one. |
| Execution.VisitKeepsBounds | assemblix-app-api/assemblix_api/schemas/execution.py:179-202 | A launch the caps allow keeps them: step number is seed plus launches, each node's counter is its number of visits, none above its cap. |
| Execution.FreshIsBounded | assemblix-app-api/assemblix_api/schemas/execution.py:45-64 | A fresh context carries the given state and input and is within the default caps of 100 steps and 10 executions per node. |
| Execution.FirstWithIdCounts | assemblix-app-api/assemblix_api/execution/workflow_executor.py:650-656 | A node is known exactly when the node list holds its id, and is of the kind of the first entry with that id. |
| SequentialEngine.ExecutionLoop | assemblix-app-api/assemblix_api/execution/workflow_executor.py:570-771 | The loop computes `RunFrom`, terminates on every graph, leaves counters within the caps and equal to the visits, and is stopped by a cap only when that cap is used up. |
| Routing.IntTextIsNumeral | assemblix-app-api/assemblix_api/execution/graph_navigator.py:83-85 | The text of a branch index is its decimal numeral and nothing else is: digits that read back as the number, no leading zero, a minus sign when it is negative. |
| Routing.BranchOpens | assemblix-app-api/assemblix_api/nodes/condition_node.py:90-96 | The branch read off an output opens exactly the edges the output itself opens: a router whose output holds the integer `condition_index` i leaves by the handle `source_`, its id, `_` and the numeral of i; any other node by every edge. |
| Routing.NextIsOpened | assemblix-app-api/assemblix_api/execution/graph_navigator.py:46-111 | The loop goes on to the target of the first edge the output opens that leads to another existing node, and ends for want of a next node exactly when there is none. |
| Routing.RoundCapped | assemblix-app-api/assemblix_api/execution/workflow_executor.py:632-648 | A round that meets a cap changes nothing; the step cap comes before the node cap. |
| Routing.RoundFails | assemblix-app-api/assemblix_api/execution/node_runner.py:132-176 | A round whose node fails offers the table one FAILED row with its number, node and input, and leaves context and state alone. |
| Routing.RoundYields | assemblix-app-api/assemblix_api/execution/workflow_executor.py:650-771 | A round whose node yields: each key updated has its new value and the others keep theirs; a COMPLETED row with that state and the output without its audio is written if its number is free; the visit is counted; an END ends the run on its data, in the state it filtered if it did; any other node leads where its output says. |
| Routing.FinishedTaskOpens | assemblix-app-api/assemblix_api/execution/workflow_executor.py:976-998 | The parallel loop's scheduler is told exactly the edges a finished task's own output opens. |
| Routing.ResumedNodeIsOpened | assemblix-app-api/assemblix_api/execution/resume.py:75-93 | A resumed run starts where the persisted output of the last completed step leads. |
| SequentialStory.StoryIsRun | assemblix-app-api/assemblix_api/execution/workflow_executor.py:632-771 | Every list of visits that fits together (each node the one the previous visit leads to, on the previous output, in the state written so far, within the caps) is what the loop does: it is then at the next node with that state, those rows and those counters. |
| SequentialStory.RunIsStory | assemblix-app-api/assemblix_api/execution/workflow_executor.py:632-771 | Every run of the loop is such a list of visits. |
| SequentialStory.LoopAgreesWithScheduler | assemblix-app-api/assemblix_api/execution/workflow_executor.py:522-568 | Where the executor picks the sequential loop, the scheduler driven through the loop's visits has run the same nodes on the same inputs, and has exactly the loop's current node in flight on its previous output. |
| ParallelEngine.LaunchReady | assemblix-app-api/assemblix_api/execution/workflow_executor.py:847-901 | Launches reserve consecutive step numbers, one visit each, read the workflow input for START and the scheduler's input otherwise, and stop only at a cap that is used up; on success everything ready is in flight. |
| ParallelEngine.Route | assemblix-app-api/assemblix_api/execution/workflow_executor.py:965-998 | An END leads nowhere; any other node is completed with the scheduler, and what that readies are nodes of the workflow. |
| ParallelEngine.ExecutionLoopParallel | assemblix-app-api/assemblix_api/execution/workflow_executor.py:794-1004 | For any outcomes and any completion order: terminates; launches within the caps, numbered consecutively and counted exactly; on a normal end every launch has finished, the scheduler was driven through exactly those completions to the end, each finished step has a row with its input, output and state, the output is that of the END that finished first, and the state is the fold of updates in completion order. On an early end the scheduler was driven through the completions logged, the state is their fold and the table holds their rows; a node that failed was in flight and has one FAILED row with its number and input if that number was free; a cap adds no row and was used up by a node waiting to be launched. Without one START nothing changes. |
| ParallelEngine.FinishMirrors | assemblix-app-api/assemblix_api/execution/workflow_executor.py:926-998 | A finished task is the scheduler's next event, at the position the loop keeps it. |
| ParallelEngine.FoldKeeps | assemblix-app-api/assemblix_api/execution/node_runner.py:178-285 | Folding one finished task keeps state, rows, captured END and caps as specified. |
| ParallelEngine.LastToSettleWins | assemblix-app-api/assemblix_api/execution/workflow_executor.py:951-974 | Each key of the folded state is as the last finished task to settle it left it, by its update or by the filtered state of the END that finished first, and as it was when none did. |
| ParallelOutcome.FinishedRunIsFated | assemblix-app-api/assemblix_api/execution/workflow_executor.py:903-1004 | Completions that drive the scheduler of an acyclic workflow to its end are exactly the fated nodes on the fated inputs, each once, whatever their order, and no token is left, by any account of what the log says the nodes did. |
| ParallelOutcome.LoopOutcomeIsFated | assemblix-app-api/assemblix_api/execution/workflow_executor.py:794-1004 | The loop itself, from what it ensures on a normal end and nothing about node bodies: a workflow whose traversed edges are acyclic and whose reachable nodes are entered from reachable ones has run exactly the nodes fated by what its nodes did, on the fated inputs, each once, in whatever order tasks finished. |
| ParallelOutcome.LoopOutcomeOfBodies | assemblix-app-api/assemblix_api/execution/workflow_executor.py:794-1004 | When the log fits bodies that are functions of their input, the fated nodes are those of the bodies, so the outcome is the same for every order. |
| ParallelOutcome.LoopEndsNormally | assemblix-app-api/assemblix_api/execution/workflow_executor.py:846-1000 | On a workflow without reachable cycles whose nodes do not fail, with steps left for each reachable node and one execution allowed per node, the loop always ends normally: no cap is met. |
| ParallelOutcome.LoopOutputIsFated | assemblix-app-api/assemblix_api/execution/workflow_executor.py:972-1004 | When moreover the check of parallel ENDs reports nothing, and each router that finished chose a branch, the loop's output is the data of the one END fated to run, in whatever order tasks finished; it is empty when no END is. |
| Resume.MaxCompleted | assemblix-app-api/assemblix_api/execution/resume.py:75-79 | The step chosen is completed and no completed step has a higher number; none is chosen exactly when none is completed. |
| Resume.ResumePointIsPosition | assemblix-app-api/assemblix_api/execution/resume.py:61-93 | For the rows of a run cut off after a completed step, in any order and with leftovers of unfinished steps: the resume point is the position after that step. The predecessor's output comes back without its audio, so it is the same exactly when it had none. |
| Executor.ExecutionLoop | assemblix-app-api/assemblix_api/execution/workflow_executor.py:522-543 | Dispatch: a resumed execution, or one of a workflow without forks and joins, is the run of the sequential loop; any other is a run of the parallel loop, ended normally or early with state and rows as that loop says; without exactly one START a fresh execution changes nothing. Caps are kept in both. |
| Resume.ResumeSimulates | assemblix-app-api/assemblix_api/execution/workflow_executor.py:458-477 | Against the sequential run, which is the executor's own for workflows it does not run in parallel: a run cut off after any number of completed steps, none included, is resumed to the same result, state and step numbers as the uninterrupted run, visiting the remaining nodes, with the same rows except those a leftover row keeps out, if and only if the uninterrupted run does not end by the limit of a node visited before the cut. |
| ResumeLimits.SparedResumeIsSame | assemblix-app-api/assemblix_api/execution/workflow_executor.py:458-477 | A condition known before resuming: if no node visited before the cut can be reached from the resume position, or the steps left cannot use up what is left of its limit, the resumed run gives the result of the uninterrupted one. |
| ResumeLimits.StraightWorkflowsResume | assemblix-app-api/assemblix_api/execution/workflow_executor.py:522-543 | A workflow the executor runs sequentially, and in which no path leads from START back to START, is always resumed to the result of the uninterrupted run. |
| ResumeLimits.ResumeResetsCounters | assemblix-app-api/assemblix_api/execution/workflow_executor.py:458-477 | The failing case, under the default caps: where START and an agent lead to each other, the uninterrupted run is stopped at START's limit and the one resumed after START's first step at the agent's. |
| ResumeLimits.AudioIsLost | assemblix-app-api/assemblix_api/execution/resume.py:61-93 | The failing case for audio: START hands audio to an END; the uninterrupted run returns it, the resumed one returns an empty output. |
| ResumeLimits.LeftoverKeepsRowOut | assemblix-app-api/assemblix_api/execution/node_runner.py:252-274 | The failing case for leftovers: a FAILED row under the resumed step's number stays, and the resumed END has no COMPLETED row. |
| Resume.FinishedRunResumesEmpty | assemblix-app-api/assemblix_api/execution/workflow_executor.py:611-622 | A run resumed after its END returns an empty output, not the END's. |
| Resume.RunsFollow | assemblix-app-api/assemblix_api/execution/workflow_executor.py:611-771 | From any pair of corresponding positions the two runs end alike exactly when no node limit spans the cut. |
| Resume.RoundsFollow | assemblix-app-api/assemblix_api/execution/workflow_executor.py:632-771 | One round on both sides keeps them corresponding, or ends both alike. |
| Resume.OverlayGrows | assemblix-app-api/assemblix_api/execution/node_runner.py:252-274 | A completed row is written only if its number is free: a leftover row keeps it out. |
| StreamBuffer.InMemoryStreamBuffer.Append | assemblix-app-api/assemblix_api/execution/stream_buffer.py:42-51 | Assigns the next number of the shared counter; the control ring is then the end of the old ring with the new event, up to `maxEvents`; audio and other executions are untouched. |
| StreamBuffer.InMemoryStreamBuffer.AppendTransient | assemblix-app-api/assemblix_api/execution/stream_buffer.py:53-65 | Audio takes the next number of the same counter; the audio ring is then the end of the old ring with the new chunk, up to `audioMaxChunks`; control events and other executions are untouched. |
| StreamBuffer.InMemoryStreamBuffer.Scan | assemblix-app-api/assemblix_api/execution/stream_buffer.py:73-80 | A scan yields exactly the retained control events and audio beyond the cursor, each once, in strictly increasing order; filtering both rings and sorting is merging them. |
| StreamBuffer.PendingAscends | assemblix-app-api/assemblix_api/execution/stream_buffer.py:73-80 | What is pending for a cursor is in strictly increasing order when both rings are and share no number. |
| StreamBuffer.InMemoryStreamBuffer.Drop | assemblix-app-api/assemblix_api/execution/stream_buffer.py:94-98 | The execution is forgotten, so its numbering would start again; all others are untouched. |
| StreamBuffer.SubscriberCorrect | assemblix-app-api/assemblix_api/execution/stream_buffer.py:67-92 | Every interleaving: output holds only events appended, strictly increasing and beyond the cursor, nothing after a terminal one; each control event and each chunk of audio passed was put out unless as many later ones of the same sort as their ring holds had arrived by the first scan that could find it; asleep with no notify owed, nothing unseen is retained. Events are numbered by their place among all appends. |
| StreamBuffer.AudioEvictsNothing | assemblix-app-api/assemblix_api/execution/stream_buffer.py:53-65 | Neither sort of event evicts the other: each ring holds exactly the last appended of its own sort, with their numbers, kinds and payloads, whatever came between. |
| StreamBuffer.SubscriberCatchesUp | assemblix-app-api/assemblix_api/execution/stream_buffer.py:82-92 | In every interleaving: once appends pause and one notify has gone out, a subscriber left to itself ends, or falls asleep with nothing left to see, after finitely many moves. |
| StreamBuffer.NextKeeps | assemblix-app-api/assemblix_api/execution/stream_buffer.py:42-92 | The invariant of buffer and subscriber survives every append, notify, subscription and subscriber move. |
| Grants.WholeMonthsBracket | assemblix-app-api/assemblix_api/billing/credit_service.py:243-260 | Despite clamping, m whole months lie between two dates if and only if adding m months does not pass the end and adding m + 1 does. |
| Grants.MonthLengths | assemblix-app-api/assemblix_api/billing/credit_service.py:247-252 | The twelve month lengths, the leap rule with centuries included. |
| Grants.DaysFollow | assemblix-app-api/assemblix_api/billing/credit_service.py:180-192 | Dates are ordered as the calendar's days follow each other: a date is before the day after another exactly when it is before that other or equal to it. |
| Grants.AddMonthsLands | assemblix-app-api/assemblix_api/billing/credit_service.py:243-252 | Adding months lands that many months on, on the same day of the month or, where there is none, on the month's last. |
| Grants.AddMonthsGrows | assemblix-app-api/assemblix_api/billing/credit_service.py:243-252 | Clamped addition is strictly monotone in the number of months. |
| Grants.SecondGrantIff | assemblix-app-api/assemblix_api/billing/credit_service.py:170-192 | A check that just granted grants again on the same date exactly when two or more month boundaries lie between, last month was no longer than today's day, and today's day is before the clamped start day. |
| Grants.RepeatedGrants | assemblix-app-api/assemblix_api/billing/credit_service.py:170-192 | Repeated checks on one date grant 0, 1 or 2 times and exactly when; never twice for a start day up to 28; afterwards the period covers today. The docstring's claim of idempotence within a period is wider than the code. |
| Grants.JanuaryGrantsTwiceInMarch | assemblix-app-api/assemblix_api/billing/credit_service.py:170-192 | A period started on January 31 and checked twice on March 30 grants twice. |
| Grants.CreditService.EnsureCurrentPeriod | assemblix-app-api/assemblix_api/billing/credit_service.py:170-212 | A due check re-issues exactly one allowance and one ledger row however many months passed, leaves purchases alone, and does nothing while billing is disabled or the period lasts; an unknown organization is an error. |
| Grants.CreditService.GrantPlanCredits | assemblix-app-api/assemblix_api/billing/credit_service.py:235-241 | A forced grant restarts the period today, so the next check today grants nothing. |
| Semaphore.LimitHoldsIff | assemblix-app-api/assemblix_api/core/concurrency_limiter.py:37-47 | Over all interleavings of acquire, release, crash, time and key expiry: acquired calls in flight never exceed the limit if and only if the holds asked of one key differ by at most 1000 ms, or the limit is one. |
| Semaphore.WithinLimit | assemblix-app-api/assemblix_api/core/concurrency_limiter.py:37-47 | With such holds every acquired call in flight still holds an unexpired slot: the key's expiry never drops a live holder. |
| Semaphore.HoldsApartOverAdmit | assemblix-app-api/assemblix_api/core/concurrency_limiter.py:42-43 | With holds further apart, a short call lets the key expire under a long one and limit + 1 calls run. |
| Semaphore.ExpiredIsReclaimed | assemblix-app-api/assemblix_api/core/concurrency_limiter.py:37-47 | A crashed holder's slot is gone at the first acquire after its expiry, and that acquire succeeds. |
| Semaphore.AwaitSlot | assemblix-app-api/assemblix_api/core/concurrency_limiter.py:71-96 | At zero latency polling waits exactly the growing pauses between its tries, ends within the timeout plus half a second, retries only while the semaphore is full, fails open, and is skipped without Redis or with no limit. |
| Semaphore.WaitAndCallFitHold | assemblix-app-api/assemblix_api/core/concurrency_limiter.py:74-77 | A call that waited for its second slot still ends before its first slot expires. |
| Semaphore.AcquireDecides | assemblix-app-api/assemblix_api/core/concurrency_limiter.py:37-47 | An acquire takes a slot exactly when fewer holders than the limit are unexpired; expired holders go, the others keep their expiry, the new slot lasts the hold and the key a second longer; a refusal leaves the key's expiry. |
| Semaphore.HoldBracket | assemblix-app-api/assemblix_api/core/concurrency_limiter.py:77 | The hold is both timeouts in milliseconds, rounded down, and a second more. |
| Semaphore.PausesGrow | assemblix-app-api/assemblix_api/core/concurrency_limiter.py:81-95 | Pauses start at 50 ms and grow by half until they stay at half a second. |
| Semaphore.SortedSet.Acquire | assemblix-app-api/assemblix_api/core/concurrency_limiter.py:37-47 | The script purges, counts, adds and extends the key as one step. |
| StatePaths.UpdatesAreFold | assemblix-app-api/assemblix_api/nodes/set_variable_node.py:45-84 | When the updates succeed, the accumulated updates overlaid on the old state are the assignments applied to it in order; they fail if and only if applying the assignments to the state fails, or one goes below a top-level key that the last earlier assignment under it set to null. |
| StatePaths.FreshNullIsRefused | assemblix-app-api/assemblix_api/nodes/set_variable_node.py:64-82 | The failing case: after `u` is set to null, writing `u.x` is refused by the node though the state would take it. |
| StatePaths.UpdatedStateReads | assemblix-app-api/assemblix_api/nodes/set_variable_node.py:45-84 | Afterwards a path written last reads what was written, and a path not comparable to any written one reads as before. |
| StatePaths.PutThenLookup | assemblix-app-api/assemblix_api/nodes/set_variable_node.py:164-195 | One nested write reads back at its path and disturbs no path not comparable to it. |
| StatePaths.PutFailsIffObstructed | assemblix-app-api/assemblix_api/nodes/set_variable_node.py:164-195 | A nested write fails if and only if some proper prefix of its path leads to something other than a dict or null. |
| StatePaths.AccumulateIsPut | assemblix-app-api/assemblix_api/nodes/set_variable_node.py:60-82 | One update into the accumulator is one write to the overlaid state, and exactly when it is refused though the write is not. |
| JsonTrees.SetNested | assemblix-app-api/assemblix_api/nodes/set_variable_node.py:164-195 | The in-place walk changes only the given tree, which afterwards stands for the written value; it fails exactly when something other than a dict or null is in the way. |
| JsonTrees.DeepCopy | assemblix-app-api/assemblix_api/nodes/set_variable_node.py:71-75 | A deep copy stands for the same value and shares no dict with the original. |
| JsonTrees.Written | assemblix-app-api/assemblix_api/nodes/set_variable_node.py:180-195 | Assigning one key of one dict of a tree replaces one subtree and nothing else. |
| SetVariable.ExecuteUpdates | assemblix-app-api/assemblix_api/nodes/set_variable_node.py:45-84 | Changes no dict that existed before: both state trees hold what they held. The returned updates are new trees; in the terms of the names given, each tree read at a path afterwards has what the last update that names a comparable path resolved to, if it names this one, and what it held before if none does. Success is decided exactly. |
| SetVariable.PlanByName | assemblix-app-api/assemblix_api/nodes/set_variable_node.py:53-64 | What becomes of an update by its name: skipped exactly when the name is white space; refused exactly when it denotes no path or the expression fails; otherwise one write of the resolved value, to the project exactly when the name begins with `project.`, at the path whose dotted form is the rest. |
| SetVariable.AssignmentsByPosition | assemblix-app-api/assemblix_api/nodes/set_variable_node.py:52-84 | The assignments to one tree are the updates that write to it, each once and in order. |
| SetVariable.WritesReadBack | assemblix-app-api/assemblix_api/nodes/set_variable_node.py:52-84 | The read-back by name for one tree, for any updates whose accumulation succeeds. |
| SetVariable.IdentifierByCode | assemblix-app-api/assemblix_api/nodes/set_variable_node.py:16 | Identifiers by code point: letters, digits and the underscore, no digit in front. |
| SetVariable.WriteInto | assemblix-app-api/assemblix_api/nodes/set_variable_node.py:53-82 | One update changes accumulated dicts only, starting from a copy of the state's. |
| SetVariable.ParsedIsDotted | assemblix-app-api/assemblix_api/nodes/set_variable_node.py:132-162 | A name parses to a target and a path if and only if it denotes them: prefix `project.` for the project, `state.` or none for the state, then the path's segments, each accepted by the pattern, joined by dots. |
| SetVariable.IdentifiersIffNoLineBreak | assemblix-app-api/assemblix_api/nodes/set_variable_node.py:155-162 | The segments of a parsed name are all identifiers if and only if the name holds no line break. |
| SetVariable.LineBreakIsAccepted | assemblix-app-api/assemblix_api/nodes/set_variable_node.py:155-162 | The failing case: `a` followed by a line break is accepted as a name. |
| SetVariable.SplitThenJoin | assemblix-app-api/assemblix_api/nodes/set_variable_node.py:155 | Splitting at dots loses nothing, leaves no dot in a piece, and puts the first piece first. |
| SetVariable.JoinThenSplit | assemblix-app-api/assemblix_api/nodes/set_variable_node.py:155 | Joining pieces without dots and splitting again gives the pieces. |
| RateLimit.InMemoryRateLimitBackend.Hit | assemblix-app-api/assemblix_api/billing/rate_limit_backends.py:29-38 | Prunes the bucket, records an admitted hit and only that. |
| RateLimit.RedisRateLimitBackend.Hit | assemblix-app-api/assemblix_api/billing/rate_limit_backends.py:47-59 | Records the hit in any case and admits it if the window then holds no more than the limit. |
| RateLimit.WindowHoldsLimit | assemblix-app-api/assemblix_api/billing/rate_limit_backends.py:29-38 | On a nondecreasing clock no window of the given length holds more than the limit of admitted hits. |
| RateLimit.MemoryAdmitsIff | assemblix-app-api/assemblix_api/billing/rate_limit_backends.py:29-38 | A hit is admitted if and only if fewer than limit admitted hits lie in the half-open window up to now. |
| RateLimit.RedisAdmitsIff | assemblix-app-api/assemblix_api/billing/rate_limit_backends.py:47-59 | A hit is admitted if and only if no more than limit hits, rejected ones and itself included, lie in that window. |
| RateLimit.RedisIsStricter | assemblix-app-api/assemblix_api/billing/rate_limit_backends.py:47-59 | On the same hits, every hit the Redis backend admits the in-memory one admits. |
| RateLimit.RejectedHitsCount | assemblix-app-api/assemblix_api/billing/rate_limit_backends.py:47-59 | The converse fails: a rejected hit counts against later ones in Redis only. |
| RateLimit.ExpiryIsInvisible | assemblix-app-api/assemblix_api/billing/rate_limit_backends.py:57 | Expiring the key a window after its last hit changes no later answer. |
| LeadingSilence.LeadingSilenceMeter.Feed | assemblix-app-api/assemblix_api/realtime/leading_silence.py:27-45 | The loop over frames computes `Fed`: carry, silent frames and result. |
| LeadingSilence.ChunkingDoesNotMatter | assemblix-app-api/assemblix_api/realtime/leading_silence.py:27-45 | Any split of a stream into even-length chunks gives the result of the whole stream. |
| LeadingSilence.ResultIsFirstLoud | assemblix-app-api/assemblix_api/realtime/leading_silence.py:34-45 | The result is ten milliseconds times the index of the first loud frame, and 3000 exactly when 300 frames are silent. |
| LeadingSilence.SampleIsTwosComplement | assemblix-app-api/assemblix_api/realtime/leading_silence.py:30-31 | A sample is the one value from -32768 to 32767 whose two's-complement bytes were read, low byte first. |
| LeadingSilence.LoudnessByAmplitude | assemblix-app-api/assemblix_api/realtime/leading_silence.py:38 | A frame whose samples are all further than 184 from zero is loud, one whose samples are all within 184 is silent. |
| LeadingSilence.AnalyseInTwo | assemblix-app-api/assemblix_api/realtime/leading_silence.py:34-45 | Pausing between two stretches of samples makes no difference. |
| LeadingSilence.OddChunksMatter | assemblix-app-api/assemblix_api/realtime/leading_silence.py:31 | A split inside a sample drops bytes and can change the result. |
| CelCache.CacheIsMostRecent | assemblix-app-api/assemblix_api/core/cel_evaluator.py:120-135 | After any lookups and clears the cache holds exactly the most recently resolved distinct expressions, in recency order, up to its size; failed compiles change nothing. |
| CelCache.Cache.GetOrCompile | assemblix-app-api/assemblix_api/core/cel_evaluator.py:120-135 | Returns the expression's own compilation or the compile error, and moves, appends or evicts as specified. |
| CelCache.Cache.ClearCache | assemblix-app-api/assemblix_api/core/cel_evaluator.py:195-197 | Empties the cache. |

## Left out

- Node and edge identity: node ids are unique, so nodes are a map from id to type; an edge's identity
  is its index among the valid edges. Adjacency tables built once from the edge list are functions of it.
- Order of reported ids: the static checks return sorted lists; the model returns the sets.
- Node bodies: calls to models, HTTP, speech and credentials are outcomes handed to the loops. A body
  may depend on node, input, workflow state and the persisted steps.
- Wall-clock deadlines, cancellation of tasks in flight, metrics, logs and debug events.
- Project state, chat history and cost counters in both loops and in resume; the code does not
  checkpoint them per step.
- Parallel runs after a crash: the code resumes them with the sequential loop, along one branch
  (`Executor.ExecutionLoop`); nothing is claimed about how that compares with the parallel run.
- Subscribers of an execution that is dropped while they read: the interleavings leave `Drop` out.
- `RedisStreamBuffer`, debug pub/sub and the queue workers, whose order depends on services that are
  not part of this model.
- Redis failures after a slot was taken, and holds longer than promised by the wrapped call.
- Years beyond 9999, where the calendar library refuses dates; credit amounts are whole numbers.
- Credit deductions, top-ups, voice charging and payments, which add sums over the same balances.
- Smart merges of the variable-setting node and floats in state: only the path writes are modelled.
  Lists are immutable values, since no path leads into them.
- State trees in which two keys share one dict object; JSON states are trees.
- Evaluation of expressions and templates; compilation is a function from expression to program.
  Expressions above 10000 characters are rejected before the cache is asked.
- Byte order of samples on big-endian machines.
- Rounding in the loudness test: root mean square above 184 is compared squared, in whole numbers.
  Sample rates below 100 give frames of no samples, which the code cannot process either.
