/**
 The parallel engine: ready nodes run concurrently, finish in any order, and are folded into the
 shared context one at a time.
 */
module ParallelEngine {
  import opened Workflow
  import opened Navigator
  import opened Execution
  import opened BackEdges
  import opened DagModel
  import opened DagRuns
  import opened Scheduler
  import opened SequentialEngine
  import ParallelEnds

  /** A task in flight: what was captured when its node was launched. */
  datatype Task = Task(ready: ReadyNode, input: Payload, step: nat)

  /** A task that finished, and what it yielded. */
  datatype FinishedTask = FinishedTask(task: Task, kind: NodeType, isEnd: bool, data: Payload, updates: Payload,
                                       filteredState: Option<Payload>, branch: Option<int>)

  function Launched(tasks: seq<Task>): (r: seq<ReadyNode>)
    ensures |r| == |tasks| && forall i :: 0 <= i < |r| ==> r[i] == tasks[i].ready
  {
    seq(|tasks|, i requires 0 <= i < |tasks| => tasks[i].ready)
  }

  function NodesDone(log: seq<FinishedTask>): (r: seq<ReadyNode>)
    ensures |r| == |log| && forall i :: 0 <= i < |r| ==> r[i] == log[i].task.ready
  {
    seq(|log|, i requires 0 <= i < |log| => log[i].task.ready)
  }

  /** Launches carry consecutive step numbers and are what the context counts as visited. */
  ghost predicate Numbered(launches: seq<Task>, base: nat, visited: seq<string>) {
    && |visited| == |launches|
    && forall i :: 0 <= i < |launches| ==> launches[i].step == base + i && visited[i] == launches[i].ready.nodeId
  }

  /** START reads the workflow input, every other node what the scheduler made ready for it. */
  ghost predicate Fed(nodes: Nodes, inputData: Payload, launches: seq<Task>) {
    forall i :: 0 <= i < |launches| ==>
      var node := launches[i].ready;
      node.nodeId in nodes && launches[i].input == if nodes[node.nodeId] == Start then inputData else node.inputData
  }

  /** What is logged of a finished task is what its node did. */
  ghost predicate Logged(nodes: Nodes, outcomes: nat -> Outcome, log: seq<FinishedTask>) {
    forall i :: 0 <= i < |log| ==> LoggedTask(nodes, outcomes, log[i])
  }

  ghost predicate LoggedTask(nodes: Nodes, outcomes: nat -> Outcome, f: FinishedTask) {
    var n := f.task.ready.nodeId;
    && n in nodes && outcomes(f.task.step) == Outcome.Done(f.data, f.updates, f.filteredState)
    && f.kind == nodes[n] && f.branch == BranchOf(nodes[n], f.data) && (f.isEnd <==> nodes[n] == End)
  }

  /** Launched tasks are in flight or finished, each once. */
  ghost predicate Accounted(launches: seq<Task>, running: seq<Task>, log: seq<FinishedTask>) {
    multiset(launches) == multiset(running) + multiset(Tasks(log))
  }

  ghost function Tasks(log: seq<FinishedTask>): (r: seq<Task>)
    ensures |r| == |log| && forall i :: 0 <= i < |r| ==> r[i] == log[i].task
  {
    seq(|log|, i requires 0 <= i < |log| => log[i].task)
  }

  /** The output of the END that finished first. */
  function FirstEnd(log: seq<FinishedTask>): Option<Payload> {
    if log == [] then None
    else
      var init, last := FirstEnd(log[..|log| - 1]), log[|log| - 1];
      if init.Some? then init else if last.isEnd then Some(last.data) else None
  }

  /** Updates folded in completion order, the last write winning; the first END may replace the state. */
  function FoldState(initial: Payload, log: seq<FinishedTask>): Payload {
    if log == [] then initial
    else
      var init, last := log[..|log| - 1], log[|log| - 1];
      if last.isEnd && last.filteredState.Some? && FirstEnd(init).None? then last.filteredState.value
      else FoldState(initial, init) + last.updates
  }

  /** The END that replaces the state: the first one, if it yields a filtered state. */
  ghost predicate Replaces(log: seq<FinishedTask>, j: nat) {
    j < |log| && log[j].isEnd && log[j].filteredState.Some? && forall i :: 0 <= i < j ==> !log[i].isEnd
  }

  /** What a finished task leaves at a key: its update, or what an END's filtered state has there. */
  ghost predicate LeftBy(log: seq<FinishedTask>, j: nat, key: string, state: Payload)
    requires j < |log|
  {
    if Replaces(log, j) then Same(state, log[j].filteredState.value, key) else Same(state, log[j].updates, key)
  }

  ghost predicate Same(a: Payload, b: Payload, key: string) {
    (key in a <==> key in b) && (key in a ==> a[key] == b[key])
  }

  ghost predicate Settles(log: seq<FinishedTask>, j: nat, key: string) {
    j < |log| && (Replaces(log, j) || key in log[j].updates)
  }

  lemma EarlierSettle(log: seq<FinishedTask>, j: nat, key: string)
    requires j < |log| - 1
    ensures var init := log[..|log| - 1];
            && (Replaces(init, j) <==> Replaces(log, j)) && (Settles(init, j, key) <==> Settles(log, j, key))
            && init[j] == log[j]
  {
    var init := log[..|log| - 1];
    assert forall i :: 0 <= i <= j ==> init[i] == log[i];
  }

  /** What the last task of a log does to a key. */
  lemma LastFolds(initial: Payload, log: seq<FinishedTask>, key: string)
    requires log != []
    ensures var n, state := |log| - 1, FoldState(initial, log);
            if Settles(log, n, key) then LeftBy(log, n, key, state)
            else Same(state, FoldState(initial, log[..n]), key)
  {
    var init := log[..|log| - 1];
    FirstEndIsFirst(init);
    assert forall i :: 0 <= i < |init| ==> init[i] == log[i];
  }

  /** Each key of the state is as the last task to settle it left it, or as it was. */
  lemma {:induction false} LastToSettleWins(initial: Payload, log: seq<FinishedTask>, key: string)
    ensures forall j :: 0 <= j < |log| && Settles(log, j, key) && (forall i :: j < i < |log| ==> !Settles(log, i, key))
                        ==> LeftBy(log, j, key, FoldState(initial, log))
    ensures (forall j :: 0 <= j < |log| ==> !Settles(log, j, key)) ==> Same(FoldState(initial, log), initial, key)
  {
    hide Settles, Replaces;
    if log != [] {
      var n := |log| - 1;
      var init := log[..n];
      LastFolds(initial, log, key);
      hide FoldState;
      LastToSettleWins(initial, init, key);
      forall j | 0 <= j < n
        ensures Settles(init, j, key) <==> Settles(log, j, key)
        ensures Replaces(init, j) <==> Replaces(log, j)
        ensures init[j] == log[j]
      {
        EarlierSettle(log, j, key);
      }
    } else {
      NothingFolded(initial);
    }
  }

  lemma NothingFolded(initial: Payload)
    ensures FoldState(initial, []) == initial
  {
  }

  lemma {:induction false} FirstEndIsFirst(log: seq<FinishedTask>)
    ensures FirstEnd(log).None? <==> forall i :: 0 <= i < |log| ==> !log[i].isEnd
  {
    if log != [] {
      FirstEndIsFirst(log[..|log| - 1]);
    }
  }

  /**
   The scheduler has been driven through the completions logged; what is in flight or ready is what it says is
   pending.
   */
  ghost predicate Mirrors(g: Graph, terminals: set<string>, script: seq<Turn>, log: seq<FinishedTask>, s: State,
                          pending: seq<ReadyNode>)
  {
    && Drive(g, terminals, Begin(g), script) == Run(s, pending, NodesDone(log))
    && Scripted(script, log)
  }

  ghost predicate Scripted(script: seq<Turn>, log: seq<FinishedTask>) {
    |script| == |log| && forall i :: 0 <= i < |log| ==> script[i].out == Completion(log[i].data, log[i].branch)
  }

  lemma ScriptedMore(script: seq<Turn>, log: seq<FinishedTask>, i: nat, f: FinishedTask)
    requires Scripted(script, log)
    ensures Scripted(script + [Turn(i, Completion(f.data, f.branch))], log + [f])
  {
  }

  /** One more event of a run. */
  lemma {:induction false} DriveMore(g: Graph, terminals: set<string>, r: Run, script: seq<Turn>, turn: Turn)
    requires Drive(g, terminals, r, script).pending != []
    ensures var mid := Drive(g, terminals, r, script);
            Drive(g, terminals, r, script + [turn])
                == FinishWith(g, terminals, mid, turn.pick % |mid.pending|, turn.out)
    decreases |script|
  {
    hide FinishWith;
    if script == [] {
      assert script + [turn] == [turn];
      assert [turn][1..] == [];
    } else if r.pending != [] {
      assert (script + [turn])[1..] == script[1..] + [turn];
      DriveMore(g, terminals, FinishWith(g, terminals, r, script[0].pick % |r.pending|, script[0].out), script[1..],
                turn);
    }
  }

  lemma LaunchAccounted(launches: seq<Task>, running: seq<Task>, log: seq<FinishedTask>, task: Task)
    requires Accounted(launches, running, log)
    ensures Accounted(launches + [task], running + [task], log)
  {
    assert multiset(launches + [task]) == multiset(launches) + multiset{task};
    assert multiset(running + [task]) == multiset(running) + multiset{task};
  }

  lemma FinishAccounted(launches: seq<Task>, running: seq<Task>, log: seq<FinishedTask>, i: nat, f: FinishedTask)
    requires Accounted(launches, running, log) && i < |running| && f.task == running[i]
    ensures Accounted(launches, WithoutAt(running, i), log + [f])
  {
    assert running == running[..i] + [running[i]] + running[i + 1..];
    assert multiset(running) == multiset(WithoutAt(running, i)) + multiset{running[i]};
    assert Tasks(log + [f]) == Tasks(log) + [f.task];
  }

  /** A task that finishes is the scheduler's next event. */
  lemma FinishMirrors(g: Graph, terminals: set<string>, script: seq<Turn>, log: seq<FinishedTask>, s: State,
                      running: seq<Task>, ready: seq<ReadyNode>, i: nat, f: FinishedTask, s': State,
                      more: seq<ReadyNode>)
    requires Mirrors(g, terminals, script, log, s, Launched(running) + ready) && i < |running| && f.task == running[i]
    requires f.isEnd <==> f.task.ready.nodeId in terminals
    requires if f.isEnd then s' == s && more == []
             else s' == Complete(g, s, f.task.ready.nodeId, f.data, f.branch).0
                  && more == Complete(g, s, f.task.ready.nodeId, f.data, f.branch).1.ready
    ensures Mirrors(g, terminals, script + [Turn(i, Completion(f.data, f.branch))], log + [f], s',
                    Launched(WithoutAt(running, i)) + (ready + more))
  {
    hide Drive, FinishWith, Complete, WithoutAt, Scripted, Launched, NodesDone;
    ScriptedMore(script, log, i, f);
    var turn := Turn(i, Completion(f.data, f.branch));
    var pending := Launched(running) + ready;
    DriveMore(g, terminals, Begin(g), script, turn);
    assert i % |pending| == i;
    PendingAfter(running, ready, i, more);
    DoneAfter(log, f);
    EventOnRun(g, terminals, Run(s, pending, NodesDone(log)), i, f, s', more);
  }

  lemma EventOnRun(g: Graph, terminals: set<string>, r: Run, i: nat, f: FinishedTask, s': State, more: seq<ReadyNode>)
    requires i < |r.pending| && r.pending[i] == f.task.ready
    requires f.isEnd <==> f.task.ready.nodeId in terminals
    requires if f.isEnd then s' == r.s && more == []
             else s' == Complete(g, r.s, f.task.ready.nodeId, f.data, f.branch).0
                  && more == Complete(g, r.s, f.task.ready.nodeId, f.data, f.branch).1.ready
    ensures FinishWith(g, terminals, r, i, Completion(f.data, f.branch))
            == Run(s', WithoutAt(r.pending, i) + more, r.done + [f.task.ready])
  {
    hide Complete;
    assert WithoutAt(r.pending, i) + [] == WithoutAt(r.pending, i);
  }

  lemma DoneAfter(log: seq<FinishedTask>, f: FinishedTask)
    ensures NodesDone(log + [f]) == NodesDone(log) + [f.task.ready]
  {
  }

  lemma PendingAfter(running: seq<Task>, ready: seq<ReadyNode>, i: nat, more: seq<ReadyNode>)
    requires i < |running|
    ensures (Launched(running) + ready)[i] == running[i].ready
    ensures WithoutAt(Launched(running) + ready, i) + more == Launched(WithoutAt(running, i)) + (ready + more)
  {
  }

  /** The row of a finished task, given the state its updates were folded into. */
  ghost predicate RowOf(row: Step, f: FinishedTask, state: Payload) {
    && row.stepNumber == f.task.step && row.nodeId == f.task.ready.nodeId && row.nodeKind == f.kind
    && row.input == f.task.input && WithoutAudio(row.output, f.data)
    && row.stateAfter == state + f.updates && row.status == Completed
  }

  ghost predicate RowAt(row: Step, initial: Payload, log: seq<FinishedTask>, i: nat)
    requires i < |log|
  {
    RowOf(row, log[i], FoldState(initial, log[..i]))
  }

  /** Each finished step has a row; new rows are those of finished steps. */
  ghost predicate Traced(rows: set<Step>, before: set<Step>, initial: Payload, log: seq<FinishedTask>) {
    && before <= rows
    && (forall i :: 0 <= i < |log| ==> HasStep(rows, log[i].task.step))
    && (forall row :: row in rows ==> row in before || exists i :: 0 <= i < |log| && RowAt(row, initial, log, i))
  }

  lemma RowTraced(rows: set<Step>, before: set<Step>, initial: Payload, log: seq<FinishedTask>, row: Step,
                  f: FinishedTask)
    requires Traced(rows, before, initial, log) && RowOf(row, f, FoldState(initial, log))
    ensures Traced(LogStep(rows, row), before, initial, log + [f])
  {
    hide FoldState;
    var all, after := log + [f], LogStep(rows, row);
    forall i | 0 <= i < |all| ensures HasStep(after, all[i].task.step) {
      if i < |log| {
        assert HasStep(rows, log[i].task.step);
        var s :| s in rows && s.stepNumber == log[i].task.step;
        assert s in after;
      } else if !HasStep(rows, row.stepNumber) {
        assert row in after;
      }
    }
    forall r | r in after && r !in before ensures exists i :: 0 <= i < |all| && RowAt(r, initial, all, i) {
      if r in rows {
        var i :| 0 <= i < |log| && RowAt(r, initial, log, i);
        assert all[..i] == log[..i];
        assert RowAt(r, initial, all, i);
      } else {
        assert all[..|log|] == log;
        assert RowAt(r, initial, all, |log|);
      }
    }
  }

  ghost predicate Known(nodes: Nodes, ready: seq<ReadyNode>) {
    forall i :: 0 <= i < |ready| ==> ready[i].nodeId in nodes
  }

  /** Launches every ready node, reserving a step number and a visit for each; stops at the first cap. */
  method LaunchReady(nodes: Nodes, context: Context, ready: seq<ReadyNode>, running: seq<Task>,
                     ghost base: nat, ghost launches: seq<Task>, ghost log: seq<FinishedTask>)
    returns (abort: Option<Ending>, ctx: Context, running': seq<Task>, ghost launches': seq<Task>,
             ghost waiting: seq<ReadyNode>)
    requires Known(nodes, ready)
    requires context.Bounded(base) && Numbered(launches, base, context.visited) && Accounted(launches, running, log)
    requires Fed(nodes, context.inputData, launches)
    ensures Fed(nodes, context.inputData, launches')
    ensures abort.Some? ==> RightlyCapped(abort.value, ctx)
    ensures ctx == context.(visited := ctx.visited, counts := ctx.counts, stepNumber := ctx.stepNumber)
    ensures ctx.Bounded(base) && Numbered(launches', base, ctx.visited) && Accounted(launches', running', log)
    ensures Launched(running') + waiting == Launched(running) + ready
    ensures abort.None? ==> waiting == [] && ctx.stepNumber == context.stepNumber + |ready|
    ensures abort.Some? ==> waiting != [] && StoppedAt(abort.value, waiting[0].nodeId)
    ensures abort.None? && ready != [] ==> ctx.stepNumber <= ctx.maxSteps
    ensures abort.Some? ==> abort.value.MaxStepsExceeded? || abort.value.NodeLimitExceeded?
  {
    hide Context.Bounded, Accounted;
    ctx, running', launches', waiting := context, running, launches, ready;
    for i := 0 to |ready|
      invariant ctx == context.(visited := ctx.visited, counts := ctx.counts, stepNumber := ctx.stepNumber)
      invariant ctx.Bounded(base) && Numbered(launches', base, ctx.visited) && Accounted(launches', running', log)
      invariant waiting == ready[i..] && ctx.stepNumber == context.stepNumber + i
      invariant Launched(running') + waiting == Launched(running) + ready
      invariant i > 0 ==> ctx.stepNumber <= ctx.maxSteps
      invariant Fed(nodes, context.inputData, launches')
    {
      var node := ready[i];
      var cap := ctx.CanExecuteNode(node.nodeId);
      if cap.Some? {
        abort := Some(CapEnding(cap.value, node.nodeId));
        return;
      }
      var input := if nodes[node.nodeId] == Start then ctx.inputData else node.inputData;
      var task := Task(node, input, ctx.stepNumber);
      BoundedStep(ctx, base);
      VisitKeepsBounds(ctx, base, node.nodeId, ctx.state);
      LaunchAccounted(launches', running', log, task);
      ctx := ctx.WithNodeVisited(node.nodeId);
      LaunchMoves(running', waiting, task);
      running', launches', waiting := running' + [task], launches' + [task], waiting[1..];
    }
    abort := None;
  }

  /** A cap was met by node n. */
  predicate StoppedAt(ending: Ending, n: string) {
    ending.MaxStepsExceeded? || ending == NodeLimitExceeded(n)
  }

  /** A node launched moves from the waiting ones to those in flight. */
  lemma LaunchMoves(running: seq<Task>, waiting: seq<ReadyNode>, task: Task)
    requires waiting != [] && task.ready == waiting[0]
    ensures Launched(running + [task]) + waiting[1..] == Launched(running) + waiting
  {
  }

  lemma BoundedStep(ctx: Context, base: nat)
    requires ctx.Bounded(base)
    ensures ctx.stepNumber == base + |ctx.visited|
  {
  }

  /** What completions are folded into: the shared context, the step table, the captured END. */
  datatype Folded = Folded(ctx: Context, rows: set<Step>, finalOutput: Payload, endCaptured: bool)

  ghost predicate FoldOf(d: Folded, initial: Context, before: set<Step>, log: seq<FinishedTask>) {
    && d.ctx.state == FoldState(initial.state, log) && Traced(d.rows, before, initial.state, log)
    && d.endCaptured == FirstEnd(log).Some?
    && d.finalOutput == (if FirstEnd(log).Some? then FirstEnd(log).value else map[])
  }

  /**
   Records one finished task and folds its outputs; the first END gives the final output and may replace the state.
   */
  function Fold(d: Folded, f: FinishedTask, kind: NodeType): Folded {
    var (recorded, rows) := RecordCompleted(d.ctx, d.rows, f.task.step, f.task.ready.nodeId, kind, f.task.input, f.data,
                                            f.updates);
    if f.isEnd && !d.endCaptured then
      Folded(if f.filteredState.Some? then recorded.(state := f.filteredState.value) else recorded, rows, f.data, true)
    else d.(ctx := recorded, rows := rows)
  }

  lemma FoldKeeps(d: Folded, initial: Context, before: set<Step>, log: seq<FinishedTask>, f: FinishedTask,
                  kind: NodeType, base: nat)
    requires FoldOf(d, initial, before, log) && d.ctx.Bounded(base) && f.kind == kind
    ensures var d' := Fold(d, f, kind);
            && FoldOf(d', initial, before, log + [f])
            && d'.ctx == d.ctx.(state := d'.ctx.state) && d'.ctx.Bounded(base)
  {
    hide Context.Bounded, Traced, LogStep;
    var d' := Fold(d, f, kind);
    var row := Step(f.task.step, f.task.ready.nodeId, kind, f.task.input, Persisted(f.data), d.ctx.state + f.updates,
                    Completed);
    PersistedLacksAudio(f.data);
    RowTraced(d.rows, before, initial.state, log, row, f);
    assert (log + [f])[..|log|] == log;
    StateKeepsBounds(d.ctx, base, d'.ctx.state);
  }

  lemma ReadiesKnown(nodes: Nodes, edges: seq<Edge>, g: Graph, s: State, n: string, data: Payload, branch: Option<int>)
    requires g.edges == TraversedEdges(nodes.Keys, edges)
    ensures Known(nodes, Complete(g, s, n, data, branch).1.ready)
  {
    hide Exec, TraversedEdges;
    assert forall e :: 0 <= e < |g.edges| ==> g.edges[e] in g.edges;
    ParallelEnds.ExecReadies(nodes, g, s.(outputs := s.outputs[n := data]), CompleteAgenda(g, n, branch));
  }

  /** Routing: an END leads nowhere, any other node is completed with the scheduler. */
  method Route(scheduler: DagScheduler, nodes: Nodes, edges: seq<Edge>, f: FinishedTask) returns (more: seq<ReadyNode>)
    requires scheduler.graph.edges == TraversedEdges(nodes.Keys, edges)
    modifies scheduler
    ensures Known(nodes, more)
    ensures if f.isEnd then scheduler.Abs() == old(scheduler.Abs()) && more == []
            else scheduler.Abs() == Complete(scheduler.graph, old(scheduler.Abs()), f.task.ready.nodeId, f.data,
                                             f.branch).0
                 && more == Complete(scheduler.graph, old(scheduler.Abs()), f.task.ready.nodeId, f.data,
                                     f.branch).1.ready
  {
    hide Exec;
    if f.isEnd {
      return [];
    }
    ghost var s := scheduler.Abs();
    var result := scheduler.Complete(f.task.ready.nodeId, f.data, f.branch, false);
    LeafCompletes(scheduler.graph, s, f.task.ready.nodeId, f.data, f.branch);
    ReadiesKnown(nodes, edges, scheduler.graph, s, f.task.ready.nodeId, f.data, f.branch);
    more := result.ready;
  }

  /** A node without out-edges readies nothing. */
  lemma LeafCompletes(g: Graph, s: State, n: string, data: Payload, branch: Option<int>)
    ensures g.Out(n) == [] ==> Complete(g, s, n, data, branch)
                               == (s.(outputs := s.outputs[n := data]), CompleteResult([], 0))
  {
    if g.Out(n) == [] {
      var taken, others := g.Selected(n, branch), g.Siblings(n, branch);
      assert forall e: nat :: !g.Leaves(e, n) by { assert forall e: nat :: g.Leaves(e, n) <==> e in g.Out(n); }
      SomeListed(taken);
      SomeListed(others);
      assert CompleteAgenda(g, n, branch) == [];
    }
  }

  /**
   What a run that ended normally has done: the scheduler of the workflow was driven through exactly
   the completions logged, to the end; every launch has finished; `d` is what they were folded into.
   */
  ghost predicate EndedNormally(def: Definition, outcomes: nat -> Outcome, context: Context, steps: set<Step>,
                                d: Folded, g: Graph, finish: map<string, nat>, launches: seq<Task>,
                                log: seq<FinishedTask>, script: seq<Turn>)
  {
    && FindStartNode(def.nodeList) == Found(g.start)
    && g.edges == TraversedEdges(def.Nodes().Keys, def.edges) && SearchResult(g.start, g.edges, g.back, finish)
    && Accounted(launches, [], log) && Logged(def.Nodes(), outcomes, log)
    && FoldOf(d, context, steps, log)
    && exists s :: Mirrors(g, Ends(def.Nodes()), script, log, s, [])
  }

  /** The table once a task has failed: its FAILED row is added if its number is free. */
  ghost predicate FailureTraced(recorded: set<Step>, rows: set<Step>, task: Task, kind: NodeType) {
    Offered(recorded, rows, Step(task.step, task.ready.nodeId, kind, task.input, map[], map[], Failed))
  }

  /**
   Why a run stopped early, and the table it left: a node failed in flight, or a node met a cap while
   waiting to be launched, which adds no row.
   */
  ghost predicate Stuck(nodes: Nodes, outcomes: nat -> Outcome, ending: Ending, running: seq<Task>,
                        waiting: seq<ReadyNode>, recorded: set<Step>, rows: set<Step>)
  {
    || (waiting != [] && StoppedAt(ending, waiting[0].nodeId) && rows == recorded)
    || exists i :: 0 <= i < |running| && outcomes(running[i].step).Failure?
                   && running[i].ready.nodeId in nodes && ending == NodeFailed(running[i].ready.nodeId)
                   && FailureTraced(recorded, rows, running[i], nodes[running[i].ready.nodeId])
  }

  /**
   A run that stopped early: how far the scheduler had been driven, the completions folded so far into
   the state and the table, and why it went no further.
   */
  ghost predicate Halted(def: Definition, outcomes: nat -> Outcome, context: Context, steps: set<Step>, ending: Ending,
                         ctx: Context, rows: set<Step>, g: Graph, launches: seq<Task>, log: seq<FinishedTask>,
                         script: seq<Turn>)
  {
    && ctx.state == FoldState(context.state, log)
    && exists s, running, waiting, recorded ::
         && Mirrors(g, Ends(def.Nodes()), script, log, s, Launched(running) + waiting)
         && Accounted(launches, running, log) && Traced(recorded, steps, context.state, log)
         && Stuck(def.Nodes(), outcomes, ending, running, waiting, recorded, rows)
  }

  lemma FailureIsTraced(recorded: set<Step>, task: Task, kind: NodeType)
    ensures FailureTraced(recorded, RecordFailed(recorded, task.step, task.ready.nodeId, kind, task.input), task, kind)
  {
  }

  lemma FoldedSoFar(d: Folded, initial: Context, before: set<Step>, log: seq<FinishedTask>)
    requires FoldOf(d, initial, before, log)
    ensures d.ctx.state == FoldState(initial.state, log) && Traced(d.rows, before, initial.state, log)
  {
  }

  /**
   The loop. `outcomes` says what the node launched under each step number does, `schedule` which
   tasks are found finished in each round and in what order; both are arbitrary.
   */
  method ExecutionLoopParallel(def: Definition, outcomes: nat -> Outcome, schedule: nat -> nat, context: Context,
                               steps: set<Step>)
    returns (ending: Ending, ctx: Context, rows: set<Step>,
             ghost g: Graph, ghost finish: map<string, nat>,
             ghost launches: seq<Task>, ghost log: seq<FinishedTask>, ghost script: seq<Turn>)
    requires context.Bounded(context.stepNumber) && context.visited == []
    ensures ctx.Bounded(context.stepNumber) && ctx.maxSteps == context.maxSteps
            && ctx.maxNodeExecutions == context.maxNodeExecutions
    ensures ctx.inputData == context.inputData
    ensures Numbered(launches, context.stepNumber, ctx.visited) && RightlyCapped(ending, ctx)
    ensures Fed(def.Nodes(), context.inputData, launches) && Logged(def.Nodes(), outcomes, log)
    ensures match FindStartNode(def.nodeList)
            case NoStartNode => ending == NoStart && ctx == context && rows == steps
            case MultipleStartNodes(_) => ending == ManyStarts && ctx == context && rows == steps
            case Found(start) =>
              && g.start == start && g.edges == TraversedEdges(def.Nodes().Keys, def.edges)
              && SearchResult(g.start, g.edges, g.back, finish)
              && ending != NoStart && ending != ManyStarts && !ending.NoNextNode?
              && (ending.Finished?
                  || Halted(def, outcomes, context, steps, ending, ctx, rows, g, launches, log, script))
    ensures ending.Finished? ==>
              EndedNormally(def, outcomes, context, steps, Folded(ctx, rows, ending.output, FirstEnd(log).Some?), g,
                            finish, launches, log, script)
  {
    hide Context.Bounded, Accounted, Traced, Mirrors, FoldOf, TraversedEdges, NodeMap, FoldState, FirstEnd, Complete,
         Fold;
    hide Fed, Logged, Numbered, FindStartNode, SearchResult;
    ctx, rows, launches, log, script := context, steps, [], [], [];
    NothingYet(def.Nodes(), context, outcomes);
    g, finish := Graph("", [], {}), map[];
    var search := FindStartNode(def.nodeList);
    if search.NoStartNode? {
      ending := NoStart;
      return;
    }
    if search.MultipleStartNodes? {
      ending := ManyStarts;
      return;
    }
    var nodes := def.Nodes();
    StartIsNode(def.nodeList, search.nodeId);
    var scheduler := new DagScheduler(nodes.Keys, def.edges, search.nodeId);
    g, finish := scheduler.graph, scheduler.finish;
    ghost var terminals := Ends(nodes);
    var finalOutput, endCaptured := map[], false;
    var running: seq<Task> := [];
    var round := 0;
    var ready := scheduler.Start();
    BeginsWell(g, terminals, scheduler.Abs(), context, steps);
    while ready != [] || running != []
      invariant scheduler.graph == g && fresh(scheduler)
      invariant ctx == context.(visited := ctx.visited, counts := ctx.counts, stepNumber := ctx.stepNumber,
                                state := ctx.state)
      invariant ctx.Bounded(context.stepNumber) && Numbered(launches, context.stepNumber, ctx.visited)
                && Accounted(launches, running, log)
      invariant Known(nodes, ready) && Known(nodes, Launched(running))
      invariant Mirrors(g, terminals, script, log, scheduler.Abs(), Launched(running) + ready)
      invariant FoldOf(Folded(ctx, rows, finalOutput, endCaptured), context, steps, log)
      invariant Fed(nodes, context.inputData, launches) && Logged(nodes, outcomes, log)
      decreases ctx.maxSteps - ctx.stepNumber, |running|
    {
      var abort: Option<Ending>;
      ghost var flying, unlaunched := running, ctx;
      ghost var waiting;
      abort, ctx, running, launches, waiting :=
          LaunchReady(nodes, ctx, ready, running, context.stepNumber, launches, log);
      if abort.Some? {
        ending := abort.value;
        FoldedSoFar(Folded(unlaunched, rows, finalOutput, endCaptured), context, steps, log);
        assert Stuck(nodes, outcomes, ending, running, waiting, rows, rows);
        return;
      }
      KnownSum(nodes, Launched(flying), ready);
      SameFold(unlaunched, ctx, rows, finalOutput, endCaptured, context, steps, log);
      assert Launched(running) + [] == Launched(running);
      ready := [];
      if running == [] {
        break;
      }
      var finished := 1 + schedule(round) % |running|;
      round := round + 1;
      ghost var taskCount, launchedTo := |running|, ctx.stepNumber;
      for j := 0 to finished
        invariant scheduler.graph == g && fresh(scheduler)
        invariant |running| + j == taskCount
        invariant ctx == context.(visited := ctx.visited, counts := ctx.counts, stepNumber := ctx.stepNumber,
                                  state := ctx.state)
        invariant ctx.stepNumber == launchedTo
        invariant ctx.Bounded(context.stepNumber) && Numbered(launches, context.stepNumber, ctx.visited)
                  && Accounted(launches, running, log)
        invariant Known(nodes, ready) && Known(nodes, Launched(running))
        invariant Mirrors(g, terminals, script, log, scheduler.Abs(), Launched(running) + ready)
        invariant FoldOf(Folded(ctx, rows, finalOutput, endCaptured), context, steps, log)
        invariant Fed(nodes, context.inputData, launches) && Logged(nodes, outcomes, log)
      {
        var i := schedule(round) % |running|;
        round := round + 1;
        var task := running[i];
        var kind := nodes[task.ready.nodeId];
        var outcome := outcomes(task.step);
        if outcome.Failure? {
          ghost var recorded := rows;
          FoldedSoFar(Folded(ctx, rows, finalOutput, endCaptured), context, steps, log);
          FailureIsTraced(rows, task, kind);
          rows := RecordFailed(rows, task.step, task.ready.nodeId, kind, task.input);
          ending := NodeFailed(task.ready.nodeId);
          assert FailureTraced(recorded, rows, running[i], nodes[running[i].ready.nodeId]);
          assert Stuck(nodes, outcomes, ending, running, ready, recorded, rows);
          return;
        }
        var f := FinishedTask(task, kind, kind == End, outcome.data, outcome.updates, outcome.filteredState,
                              BranchOf(kind, outcome.data));
        FoldKeeps(Folded(ctx, rows, finalOutput, endCaptured), context, steps, log, f, kind, context.stepNumber);
        var Folded(ctx', rows', finalOutput', endCaptured') :=
            Fold(Folded(ctx, rows, finalOutput, endCaptured), f, kind);
        ghost var s := scheduler.Abs();
        var more := Route(scheduler, nodes, def.edges, f);
        FinishMirrors(g, terminals, script, log, s, running, ready, i, f, scheduler.Abs(), more);
        FinishAccounted(launches, running, log, i, f);
        KnownWithout(nodes, running, i);
        LoggedMore(nodes, outcomes, log, f);
        KnownSum(nodes, ready, more);
        script, log := script + [Turn(i, Completion(f.data, f.branch))], log + [f];
        ctx, rows, finalOutput, endCaptured := ctx', rows', finalOutput', endCaptured';
        running, ready := WithoutAt(running, i), ready + more;
      }
    }
    assert Launched([]) + [] == [];
    Captured(Folded(ctx, rows, finalOutput, endCaptured), context, steps, log);
    ending := Finished(finalOutput);
  }

  /** Launching does not touch what was folded. */
  lemma SameFold(a: Context, b: Context, rows: set<Step>, finalOutput: Payload, endCaptured: bool, initial: Context,
                 before: set<Step>, log: seq<FinishedTask>)
    requires FoldOf(Folded(a, rows, finalOutput, endCaptured), initial, before, log) && b.state == a.state
    ensures FoldOf(Folded(b, rows, finalOutput, endCaptured), initial, before, log)
  {
  }

  lemma Captured(d: Folded, initial: Context, before: set<Step>, log: seq<FinishedTask>)
    requires FoldOf(d, initial, before, log)
    ensures d.endCaptured == FirstEnd(log).Some?
  {
  }

  lemma NothingYet(nodes: Nodes, context: Context, outcomes: nat -> Outcome)
    requires context.visited == []
    ensures Fed(nodes, context.inputData, []) && Logged(nodes, outcomes, [])
            && Numbered([], context.stepNumber, context.visited)
  {
  }

  lemma LoggedMore(nodes: Nodes, outcomes: nat -> Outcome, log: seq<FinishedTask>, f: FinishedTask)
    requires Logged(nodes, outcomes, log) && LoggedTask(nodes, outcomes, f)
    ensures Logged(nodes, outcomes, log + [f])
  {
  }

  lemma BeginsWell(g: Graph, terminals: set<string>, s: State, context: Context, steps: set<Step>)
    requires s == EMPTY_STATE
    ensures Mirrors(g, terminals, [], [], s, Launched([]) + [ReadyNode(g.start, map[])])
    ensures FoldOf(Folded(context, steps, map[], false), context, steps, []) && Accounted([], [], [])
  {
    assert Launched([]) + [ReadyNode(g.start, map[])] == [ReadyNode(g.start, map[])];
  }

  lemma KnownSum(nodes: Nodes, a: seq<ReadyNode>, b: seq<ReadyNode>)
    requires Known(nodes, a) && Known(nodes, b)
    ensures Known(nodes, a + b)
  {
  }

  lemma KnownWithout(nodes: Nodes, running: seq<Task>, i: nat)
    requires Known(nodes, Launched(running)) && i < |running|
    ensures Known(nodes, Launched(WithoutAt(running, i)))
  {
    var tasks := Launched(running);
    var rest := Launched(WithoutAt(running, i));
    forall k | 0 <= k < |rest| ensures rest[k].nodeId in nodes {
      assert rest[k] == tasks[if k < i then k else k + 1];
    }
  }
}
