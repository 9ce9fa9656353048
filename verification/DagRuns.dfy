/** Runs of the parallel engine: nodes in flight finish one at a time, in any order and with any outcome. */
module DagRuns {
  import opened Workflow
  import opened DagModel

  /** What running a node yields: its output and, for a router, the branch it takes. */
  datatype Completion = Completion(data: Payload, branch: Option<int>)

  /** A run in progress: nodes launched and not finished, and nodes finished. */
  datatype Run = Run(s: State, pending: seq<ReadyNode>, done: seq<ReadyNode>)

  function Begin(g: Graph): Run {
    Run(EMPTY_STATE, [ReadyNode(g.start, map[])], [])
  }

  function WithoutAt<T>(rs: seq<T>, i: nat): seq<T>
    requires i < |rs|
  {
    rs[..i] + rs[i + 1..]
  }

  /** The i-th pending node finishes. The executor completes all but terminal nodes. */
  function FinishWith(g: Graph, terminals: set<string>, r: Run, i: nat, out: Completion): Run
    requires i < |r.pending|
  {
    var node := r.pending[i];
    var rest := WithoutAt(r.pending, i);
    if node.nodeId in terminals then Run(r.s, rest, r.done + [node])
    else
      var (s', result) := Complete(g, r.s, node.nodeId, out.data, out.branch);
      Run(s', rest + result.ready, r.done + [node])
  }

  /** One event of a run: which of the pending nodes finishes, and how. */
  datatype Turn = Turn(pick: nat, out: Completion)

  /** A run under a script of arbitrary finishing order and arbitrary outcomes. */
  function Drive(g: Graph, terminals: set<string>, r: Run, script: seq<Turn>): Run
    decreases |script|
  {
    if script == [] || r.pending == [] then r
    else Drive(g, terminals, FinishWith(g, terminals, r, script[0].pick % |r.pending|, script[0].out), script[1..])
  }
}
