/** The run context, the persisted step rows and node bodies: what both executor loops share. */
module Execution {
  import opened Workflow
  import opened Navigator

  /** The immutable context of a run; every update makes a copy. */
  datatype Context = Context(state: Payload, inputData: Payload, stepNumber: nat, visited: seq<string>,
                             counts: map<string, nat>, maxSteps: nat, maxNodeExecutions: nat)
  {
    function Count(n: string): nat {
      if n in counts then counts[n] else 0
    }

    function WithState(updates: Payload): Context {
      this.(state := state + updates)
    }

    function WithNodeVisited(n: string): Context {
      this.(visited := visited + [n], counts := counts[n := Count(n) + 1], stepNumber := stepNumber + 1)
    }

    /** Why the node may not run, if it may not. */
    function CanExecuteNode(n: string): Option<Cap> {
      if stepNumber >= maxSteps then Some(MaxSteps)
      else if Count(n) >= maxNodeExecutions then Some(NodeLimit)
      else None
    }

    /** The counters tell how often each node was launched. */
    ghost predicate CountsVisits() {
      forall n :: Count(n) == multiset(visited)[n]
    }

    /** Within its caps: a context seeded with step number `base`. */
    ghost predicate Bounded(base: nat) {
      && CountsVisits()
      && stepNumber == base + |visited|
      && (visited != [] ==> stepNumber <= maxSteps)
      && (forall n :: Count(n) <= maxNodeExecutions)
    }
  }

  datatype Cap = MaxSteps | NodeLimit

  const DEFAULT_MAX_STEPS := 100
  const DEFAULT_MAX_NODE_EXECUTIONS := 10

  function FreshContext(state: Payload, inputData: Payload): Context {
    Context(state, inputData, 0, [], map[], DEFAULT_MAX_STEPS, DEFAULT_MAX_NODE_EXECUTIONS)
  }

  lemma StateKeepsCounts(ctx: Context, updates: Payload)
    requires ctx.CountsVisits()
    ensures ctx.WithState(updates).CountsVisits()
  {
    assert forall m :: ctx.WithState(updates).Count(m) == ctx.Count(m);
  }

  lemma VisitCounts(ctx: Context, n: string)
    requires ctx.CountsVisits()
    ensures ctx.WithNodeVisited(n).CountsVisits()
  {
    var after := ctx.WithNodeVisited(n);
    assert multiset(after.visited) == multiset(ctx.visited) + multiset{n};
    forall m ensures after.Count(m) == multiset(after.visited)[m] {
      assert ctx.Count(m) == multiset(ctx.visited)[m];
    }
  }

  /** A run begins within the default caps. */
  lemma FreshIsBounded(state: Payload, inputData: Payload)
    ensures var ctx := FreshContext(state, inputData);
            && ctx.Bounded(0) && ctx.visited == [] && ctx.maxSteps == 100 && ctx.maxNodeExecutions == 10
            && ctx.state == state && ctx.inputData == inputData
  {
    var ctx := FreshContext(state, inputData);
    assert forall n :: ctx.Count(n) == 0 == multiset(ctx.visited)[n];
  }

  /** A launch the caps allow keeps them, whatever it does to the state. */
  lemma VisitKeepsBounds(ctx: Context, base: nat, n: string, state: Payload)
    requires ctx.Bounded(base) && ctx.CanExecuteNode(n).None?
    ensures ctx.(state := state).WithNodeVisited(n).Bounded(base)
  {
    StateKeepsBounds(ctx, base, state);
    VisitCounts(ctx.(state := state), n);
  }

  lemma StateKeepsBounds(ctx: Context, base: nat, state: Payload)
    requires ctx.Bounded(base)
    ensures ctx.(state := state).Bounded(base)
  {
    assert forall m :: ctx.(state := state).Count(m) == ctx.Count(m);
  }

  datatype StepStatus = Running | Completed | Failed

  /** A persisted step row. */
  datatype Step = Step(stepNumber: nat, nodeId: string, nodeKind: NodeType, input: Payload, output: Payload,
                       stateAfter: Payload, status: StepStatus)

  predicate HasStep(steps: set<Step>, number: nat) {
    exists s :: s in steps && s.stepNumber == number
  }

  /** A row is written only if its number is free. */
  function LogStep(steps: set<Step>, step: Step): set<Step> {
    if HasStep(steps, step.stepNumber) then steps else steps + {step}
  }

  /** The table after a row is offered: written if its number is free. */
  ghost predicate Offered(before: set<Step>, after: set<Step>, row: Step) {
    if exists s :: s in before && s.stepNumber == row.stepNumber then after == before else after == before + {row}
  }

  /** Audio stays out of the persisted step. */
  function Persisted(data: Payload): Payload {
    data - {"audio"}
  }

  /** A copy of the output that differs at most in having no audio. */
  ghost predicate WithoutAudio(output: Payload, data: Payload) {
    && (forall k :: k in output <==> k in data && k != "audio")
    && forall k :: k in output ==> output[k] == data[k]
  }

  lemma PersistedLacksAudio(data: Payload)
    ensures WithoutAudio(Persisted(data), data)
  {
  }

  /** What running a node body yields. */
  datatype Outcome = Failure | Done(data: Payload, updates: Payload, filteredState: Option<Payload>)

  /** Node bodies as functions of node, input, workflow state and persisted steps. */
  type Body = (string, Payload, Payload, set<Step>) -> Outcome

  /** The branch a router left by, read off its output. */
  function BranchOf(kind: NodeType, data: Payload): Option<int> {
    if kind == Condition && "condition_index" in data && data["condition_index"].Int?
    then Some(data["condition_index"].i) else None
  }

  /** A saved workflow: its node list and its edges. */
  datatype Definition = Definition(nodeList: seq<NodeConfig>, edges: seq<Edge>) {
    function Nodes(): Nodes {
      NodeMap(nodeList)
    }
  }

  function NodeMap(nodes: seq<NodeConfig>): (r: Nodes)
    ensures forall n :: n in nodes ==> n.id in r
  {
    if nodes == [] then map[] else NodeMap(nodes[1..])[nodes[0].id := nodes[0].kind]
  }

  /** The node list looked up by id: its ids and no others, and of several nodes with one id the first. */
  lemma {:induction false} FirstWithIdCounts(nodes: seq<NodeConfig>, n: string)
    ensures n in NodeMap(nodes) <==> exists i :: 0 <= i < |nodes| && nodes[i].id == n
    ensures forall i :: 0 <= i < |nodes| && nodes[i].id == n && (forall j :: 0 <= j < i ==> nodes[j].id != n)
                        ==> NodeMap(nodes)[n] == nodes[i].kind
  {
    if nodes != [] {
      FirstWithIdCounts(nodes[1..], n);
      forall i | 1 <= i < |nodes| ensures nodes[1..][i - 1] == nodes[i] {
      }
    }
  }

  /** Recording a completed node: fold its updates into the state, log the row. */
  function RecordCompleted(ctx: Context, steps: set<Step>, number: nat, n: string, kind: NodeType, input: Payload,
                           data: Payload, updates: Payload): (Context, set<Step>)
  {
    var after := ctx.WithState(updates);
    (after, LogStep(steps, Step(number, n, kind, input, Persisted(data), after.state, Completed)))
  }

  function RecordFailed(steps: set<Step>, number: nat, n: string, kind: NodeType, input: Payload): set<Step> {
    LogStep(steps, Step(number, n, kind, input, map[], map[], Failed))
  }

  /** How a run ends. */
  datatype Ending =
    | Finished(output: Payload)
    | MaxStepsExceeded
    | NodeLimitExceeded(nodeId: string)
    | NodeFailed(nodeId: string)
    | NoNextNode(nodeId: string)
    | NoStart
    | ManyStarts

  function CapEnding(cap: Cap, n: string): Ending {
    if cap == MaxSteps then MaxStepsExceeded else NodeLimitExceeded(n)
  }

  /** A run stopped by a cap has used it up. */
  ghost predicate RightlyCapped(ending: Ending, ctx: Context) {
    && (ending.MaxStepsExceeded? ==> ctx.stepNumber >= ctx.maxSteps)
    && (ending.NodeLimitExceeded? ==> ctx.Count(ending.nodeId) >= ctx.maxNodeExecutions
                                      && ctx.stepNumber < ctx.maxSteps)
  }

  datatype RunResult = RunResult(ending: Ending, ctx: Context, steps: set<Step>)
}
