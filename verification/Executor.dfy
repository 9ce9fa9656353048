/** Which engine runs a workflow: resumed executions and graphs without forks and joins go to the sequential loop. */
module Executor {
  import opened Workflow
  import opened Navigator
  import opened Execution
  import opened SequentialEngine
  import opened Resume
  import P = ParallelEngine
  import DagModel
  import Digraph
  import DagRuns
  import BackEdges
  import GraphAnalysis

  /** The edges the executor may traverse. */
  ghost function ArcsOfDefinition(def: Definition): Digraph.Arcs {
    BackEdges.ArcsOf(GraphAnalysis.ValidEdges(def.Nodes(), def.edges))
  }

  /** No plain node has two successors and no node two predecessors. */
  ghost predicate RunsSequentially(def: Definition) {
    !ForksOrJoins(def.Nodes(), ArcsOfDefinition(def))
  }

  /** What the sequential loop does, fresh or from a resume point. */
  function SequentialRun(def: Definition, body: Body, context: Context, steps: set<Step>,
                         resume: Option<ResumePoint>): RunResult
  {
    if resume.None? then FreshRun(def, body, context, steps)
    else ResumedRun(def, body, context, steps, resume.value.lastNodeId, resume.value.conditionIndex,
                    resume.value.lastOutput)
  }

  /**
   The dispatch. A sequential run is the run of the node bodies; a parallel one leaves outcomes and
   completion order open.
   */
  method ExecutionLoop(def: Definition, body: Body, outcomes: nat -> Outcome, schedule: nat -> nat,
                       context: Context, steps: set<Step>, resume: Option<ResumePoint>)
    returns (ending: Ending, ctx: Context, rows: set<Step>, ghost g: DagModel.Graph, ghost finish: map<string, nat>,
             ghost launches: seq<P.Task>, ghost log: seq<P.FinishedTask>, ghost script: seq<DagRuns.Turn>)
    requires context.Bounded(context.stepNumber) && context.visited == []
    ensures ctx.Bounded(context.stepNumber) && ctx.maxSteps == context.maxSteps
            && ctx.maxNodeExecutions == context.maxNodeExecutions
    ensures RightlyCapped(ending, ctx)
    ensures resume.Some? || RunsSequentially(def)
            ==> RunResult(ending, ctx, rows) == SequentialRun(def, body, context, steps, resume)
    ensures resume.None? && !FindStartNode(def.nodeList).Found? ==>
              ending == (if FindStartNode(def.nodeList).NoStartNode? then NoStart else ManyStarts)
              && ctx == context && rows == steps
    ensures resume.None? && !RunsSequentially(def) && ending.Finished? ==>
              P.EndedNormally(def, outcomes, context, steps, P.Folded(ctx, rows, ending.output, P.FirstEnd(log).Some?),
                              g, finish, launches, log, script)
    ensures resume.None? && !RunsSequentially(def) && !ending.Finished? && FindStartNode(def.nodeList).Found? ==>
              P.Halted(def, outcomes, context, steps, ending, ctx, rows, g, launches, log, script)
  {
    hide Context.Bounded, NodeMap, FindNextNode, P.Halted, ForksOrJoins, RunFrom, P.EndedNormally;
    g, finish, launches, log, script := DagModel.Graph("", [], {}), map[], [], [], [];
    if resume.Some? {
      var next := FindNextNode(def.edges, def.Nodes().Keys, resume.value.lastNodeId, resume.value.conditionIndex);
      if next.None? {
        ending, ctx, rows := Finished(map[]), context, steps;
        return;
      }
      NextIsNode(def.edges, def.Nodes().Keys, resume.value.lastNodeId, resume.value.conditionIndex);
      var previous := if resume.value.lastOutput.Some? then resume.value.lastOutput.value else map[];
      ending, ctx, rows := SequentialEngine.ExecutionLoop(def, body, context, steps, next.value, previous);
      return;
    }
    var parallel := HasParallelism(def.Nodes(), def.edges);
    if parallel {
      ending, ctx, rows, g, finish, launches, log, script :=
          P.ExecutionLoopParallel(def, outcomes, schedule, context, steps);
      return;
    }
    match FindStartNode(def.nodeList)
    case NoStartNode => ending, ctx, rows := NoStart, context, steps;
    case MultipleStartNodes(_) => ending, ctx, rows := ManyStarts, context, steps;
    case Found(start) =>
      StartIsNode(def.nodeList, start);
      ending, ctx, rows := SequentialEngine.ExecutionLoop(def, body, context, steps, start, map[]);
  }
}
