/** The sequential engine: one node at a time, following one edge. */
module SequentialEngine {
  import opened Workflow
  import opened Navigator
  import opened Execution

  /** Where the loop is: the node to run next and the output it will read. */
  datatype Position = Position(ctx: Context, current: string, previous: Payload, steps: set<Step>)

  datatype Progress = Goes(p: Position) | Stops(r: RunResult)

  function InputOf(p: Position, kind: NodeType): Payload {
    if kind == Start then p.ctx.inputData else p.previous
  }

  /** One round of the loop. */
  function Round(def: Definition, body: Body, p: Position): (r: Progress)
    requires p.current in def.Nodes()
    ensures r.Goes? ==> r.p.current in def.Nodes() && r.p.ctx.maxSteps == p.ctx.maxSteps
                        && p.ctx.stepNumber < p.ctx.maxSteps && r.p.ctx.stepNumber == p.ctx.stepNumber + 1
  {
    var n := p.current;
    var cap := p.ctx.CanExecuteNode(n);
    if cap.Some? then Stops(RunResult(CapEnding(cap.value, n), p.ctx, p.steps))
    else
      var kind := def.Nodes()[n];
      var input := InputOf(p, kind);
      match body(n, input, p.ctx.state, p.steps)
      case Failure => Stops(RunResult(NodeFailed(n), p.ctx, RecordFailed(p.steps, p.ctx.stepNumber, n, kind, input)))
      case Done(data, updates, filtered) =>
        var (recorded, steps) := RecordCompleted(p.ctx, p.steps, p.ctx.stepNumber, n, kind, input, data, updates);
        var ctx := recorded.WithNodeVisited(n);
        if kind == End then
          Stops(RunResult(Finished(data), if filtered.Some? then ctx.(state := filtered.value) else ctx, steps))
        else
          var next := FindNextNode(def.edges, def.Nodes().Keys, n, BranchOf(kind, data));
          if next.None? then Stops(RunResult(NoNextNode(n), ctx, steps))
          else
            NextIsNode(def.edges, def.Nodes().Keys, n, BranchOf(kind, data));
            Goes(Position(ctx, next.value, data, steps))
  }

  lemma NextIsNode(edges: seq<Edge>, nodes: set<string>, n: string, branch: Option<int>)
    requires FindNextNode(edges, nodes, n, branch).Some?
    ensures FindNextNode(edges, nodes, n, branch).value in nodes
  {
    var i: nat :| IsFirst(edges, nodes, n, branch, i) && edges[i].target == FindNextNode(edges, nodes, n, branch).value;
  }

  /** The loop to its end. */
  function RunFrom(def: Definition, body: Body, p: Position): RunResult
    requires p.current in def.Nodes()
    decreases p.ctx.maxSteps - p.ctx.stepNumber
  {
    match Round(def, body, p)
    case Goes(p') => RunFrom(def, body, p')
    case Stops(r) => r
  }

  function FreshRun(def: Definition, body: Body, ctx: Context, steps: set<Step>): RunResult {
    match FindStartNode(def.nodeList)
    case NoStartNode => RunResult(NoStart, ctx, steps)
    case MultipleStartNodes(_) => RunResult(ManyStarts, ctx, steps)
    case Found(start) =>
      StartIsNode(def.nodeList, start);
      RunFrom(def, body, Position(ctx, start, map[], steps))
  }

  lemma StartIsNode(nodes: seq<NodeConfig>, id: string)
    requires FindStartNode(nodes) == Found(id)
    ensures id in NodeMap(nodes)
  {
    FindStartNodeIffUnique(nodes, id);
  }

  /** A run that picks up after a completed step; nothing is left to do when that step has no successor. */
  function ResumedRun(def: Definition, body: Body, ctx: Context, steps: set<Step>, lastNodeId: string,
                      conditionIndex: Option<int>, lastOutput: Option<Payload>): RunResult {
    var next := FindNextNode(def.edges, def.Nodes().Keys, lastNodeId, conditionIndex);
    if next.None? then RunResult(Finished(map[]), ctx, steps)
    else
      NextIsNode(def.edges, def.Nodes().Keys, lastNodeId, conditionIndex);
      RunFrom(def, body, Position(ctx, next.value, if lastOutput.Some? then lastOutput.value else map[], steps))
  }

  /** The loop itself, rebinding context, current node and previous output each round. */
  method ExecutionLoop(def: Definition, body: Body, context: Context, steps: set<Step>, start: string,
                       previousOutput: Payload)
    returns (ending: Ending, ctx: Context, rows: set<Step>)
    requires start in def.Nodes() && context.Bounded(context.stepNumber) && context.visited == []
    ensures RunResult(ending, ctx, rows) == RunFrom(def, body, Position(context, start, previousOutput, steps))
    ensures ctx.Bounded(context.stepNumber) && ctx.maxSteps == context.maxSteps
            && ctx.maxNodeExecutions == context.maxNodeExecutions
    ensures RightlyCapped(ending, ctx)
  {
    hide Context.Bounded, FindNextNode, NodeMap, LogStep;
    var current, previous := start, previousOutput;
    ctx, rows := context, steps;
    var nodes := def.Nodes();
    while true
      invariant current in nodes
      invariant ctx.Bounded(context.stepNumber) && ctx.maxSteps == context.maxSteps
                && ctx.maxNodeExecutions == context.maxNodeExecutions
      invariant RunFrom(def, body, Position(ctx, current, previous, rows))
                == RunFrom(def, body, Position(context, start, previousOutput, steps))
      decreases ctx.maxSteps - ctx.stepNumber
    {
      var cap := ctx.CanExecuteNode(current);
      if cap.Some? {
        ending := CapEnding(cap.value, current);
        return;
      }
      ghost var before := ctx;
      var kind, number := nodes[current], ctx.stepNumber;
      var input := if kind == Start then ctx.inputData else previous;
      var outcome := body(current, input, ctx.state, rows);
      if outcome.Failure? {
        rows := RecordFailed(rows, number, current, kind, input);
        ending := NodeFailed(current);
        return;
      }
      var (recorded, logged) := RecordCompleted(ctx, rows, number, current, kind, input, outcome.data, outcome.updates);
      ctx, rows := recorded.WithNodeVisited(current), logged;
      VisitKeepsBounds(before, context.stepNumber, current, recorded.state);
      if kind == End {
        if outcome.filteredState.Some? {
          StateKeepsBounds(ctx, context.stepNumber, outcome.filteredState.value);
          ctx := ctx.(state := outcome.filteredState.value);
        }
        ending := Finished(outcome.data);
        return;
      }
      var next := FindNextNode(def.edges, nodes.Keys, current, BranchOf(kind, outcome.data));
      if next.None? {
        ending := NoNextNode(current);
        return;
      }
      NextIsNode(def.edges, nodes.Keys, current, BranchOf(kind, outcome.data));
      current, previous := next.value, outcome.data;
    }
  }

  /** The position a fresh run starts from. */
  function Origin(initial: Context, start: string): Position {
    Position(initial, start, map[], {})
  }

  /** Where the loop is after k rounds that all went on to a next node. */
  function After(def: Definition, body: Body, p: Position, k: nat): Option<Position>
    requires p.current in def.Nodes()
    decreases k
  {
    if k == 0 then Some(p)
    else
      match Round(def, body, p)
      case Goes(p') => After(def, body, p', k - 1)
      case Stops(_) => None
  }

  lemma {:induction false} RunFromAfter(def: Definition, body: Body, p: Position, k: nat)
    requires p.current in def.Nodes() && After(def, body, p, k).Some?
    ensures var q := After(def, body, p, k).value;
            q.current in def.Nodes() && RunFrom(def, body, p) == RunFrom(def, body, q)
    decreases k
  {
    hide Round;
    if k > 0 {
      RunFromAfter(def, body, Round(def, body, p).p, k - 1);
    }
  }
}
